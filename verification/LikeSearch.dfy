/** Search patterns: the query escaped for LIKE, and LIKE with an escape character
    as in section 8.5 of ISO/IEC 9075-2.  Characters are compared through a folding
    function, so the same results hold for LIKE (no folding) and ILIKE. */
module LikeSearch {

  const ESCAPE := '\\'

  function Replace(s: string, c: char, with: string): string {
    if s == [] then [] else (if s[0] == c then with else [s[0]]) + Replace(s[1..], c, with)
  }

  function EscapeLike(value: string): string {
    Replace(Replace(Replace(value, '\\', "\\\\"), '%', "\\%"), '_', "\\_")
  }

  // Whether the pattern describes the whole text; a trailing escape describes nothing.
  ghost predicate Like(pattern: string, text: string, fold: char -> char)
    decreases |pattern|
  {
    if pattern == [] then text == []
    else if pattern[0] == ESCAPE then
      |pattern| >= 2 && text != [] && fold(pattern[1]) == fold(text[0]) && Like(pattern[2..], text[1..], fold)
    else if pattern[0] == '%' then exists k :: 0 <= k <= |text| && Like(pattern[1..], text[k..], fold)
    else if pattern[0] == '_' then text != [] && Like(pattern[1..], text[1..], fold)
    else text != [] && fold(pattern[0]) == fold(text[0]) && Like(pattern[1..], text[1..], fold)
  }

  predicate SameText(a: string, b: string, fold: char -> char) {
    |a| == |b| && forall i | 0 <= i < |a| :: fold(a[i]) == fold(b[i])
  }

  predicate OccursAt(query: string, text: string, k: nat, fold: char -> char) {
    k + |query| <= |text| && SameText(query, text[k..k + |query|], fold)
  }

  // --- escaping ------------------------------------------------------------------

  predicate Special(c: char) {
    c in {'\\', '%', '_'}
  }

  // One pass over the text, each special character behind an escape.
  function EscapeEach(value: string): string {
    if value == [] then [] else Escaped(value[0]) + EscapeEach(value[1..])
  }

  function Escaped(c: char): string {
    if Special(c) then [ESCAPE, c] else [c]
  }

  lemma {:induction false} ReplaceConcat(a: string, b: string, c: char, with: string)
    ensures Replace(a + b, c, with) == Replace(a, c, with) + Replace(b, c, with)
  {
    if a == [] {
      assert a + b == b;
    } else {
      ReplaceConcat(a[1..], b, c, with);
      var head := if a[0] == c then with else [a[0]];
      assert (a + b)[0] == a[0] && (a + b)[1..] == a[1..] + b;
      assert head + (Replace(a[1..], c, with) + Replace(b, c, with)) == (head + Replace(a[1..], c, with)) + Replace(b, c, with);
    }
  }

  lemma ReplaceOne(x: char, c: char, with: string)
    ensures Replace([x], c, with) == if x == c then with else [x]
  {
  }

  lemma ReplaceTwo(x: char, y: char, c: char, with: string)
    ensures Replace([x, y], c, with) == (if x == c then with else [x]) + (if y == c then with else [y])
  {
    ReplaceOne(y, c, with);
    assert [x, y][1..] == [y];
  }

  lemma EscapeLikeConcat(a: string, b: string)
    ensures EscapeLike(a + b) == EscapeLike(a) + EscapeLike(b)
  {
    ReplaceConcat(a, b, '\\', "\\\\");
    var a1, b1 := Replace(a, '\\', "\\\\"), Replace(b, '\\', "\\\\");
    ReplaceConcat(a1, b1, '%', "\\%");
    ReplaceConcat(Replace(a1, '%', "\\%"), Replace(b1, '%', "\\%"), '_', "\\_");
  }

  lemma EscapeLikeOne(c: char)
    ensures EscapeLike([c]) == Escaped(c)
  {
    ReplaceOne(c, '\\', "\\\\");
    ReplaceOne(c, '%', "\\%");
    ReplaceOne(c, '_', "\\_");
    ReplaceTwo('\\', '\\', '%', "\\%");
    ReplaceTwo('\\', '\\', '_', "\\_");
    ReplaceTwo('\\', '%', '_', "\\_");
  }

  // Replacing backslashes first makes the three replacements one pass.
  lemma {:induction false} EscapeIsOnePass(value: string)
    ensures EscapeLike(value) == EscapeEach(value)
  {
    if value != [] {
      EscapeIsOnePass(value[1..]);
      EscapeLikeOne(value[0]);
      EscapeLikeConcat([value[0]], value[1..]);
      assert [value[0]] + value[1..] == value;
    }
  }

  // --- matching --------------------------------------------------------------------

  // An escaped character matches itself and nothing else.
  lemma EscapedCharacter(c: char, tail: string, text: string, fold: char -> char)
    ensures Like(Escaped(c) + tail, text, fold) <==> text != [] && fold(c) == fold(text[0]) && Like(tail, text[1..], fold)
  {
    var pattern := Escaped(c) + tail;
    if Special(c) {
      assert pattern[0] == ESCAPE && pattern[1] == c && pattern[2..] == tail;
    } else {
      assert pattern[0] == c && pattern[1..] == tail;
    }
  }

  // An escaped query at the front of a pattern consumes exactly the query.
  lemma {:induction false} EscapedMatchesItself(query: string, rest: string, text: string, fold: char -> char)
    ensures Like(EscapeEach(query) + rest, text, fold)
      <==> |query| <= |text| && SameText(query, text[..|query|], fold) && Like(rest, text[|query|..], fold)
  {
    if query == [] {
      assert EscapeEach(query) + rest == rest && text[0..] == text;
    } else {
      var tail := EscapeEach(query[1..]) + rest;
      assert EscapeEach(query) + rest == Escaped(query[0]) + tail;
      EscapedCharacter(query[0], tail, text, fold);
      if text != [] {
        EscapedMatchesItself(query[1..], rest, text[1..], fold);
        SameTextFront(query, text, fold);
      }
    }
  }

  lemma SameTextFront(query: string, text: string, fold: char -> char)
    requires query != [] && text != []
    ensures |query| <= |text| ==>
      SameText(query, text[..|query|], fold)
        == (fold(query[0]) == fold(text[0]) && SameText(query[1..], text[1..][..|query[1..]|], fold))
    ensures |query| <= |text| ==> text[1..][|query[1..]|..] == text[|query|..]
  {
  }

  lemma PercentMatchesAll(text: string, fold: char -> char)
    ensures Like("%", text, fold)
  {
    assert "%"[1..] == [] && text[|text|..] == [];
    assert Like("%"[1..], text[|text|..], fold);
  }

  // escape(q)% describes the texts that begin with the query.
  lemma PrefixPattern(query: string, text: string, fold: char -> char)
    ensures Like(EscapeLike(query) + "%", text, fold) <==> OccursAt(query, text, 0, fold)
  {
    EscapeIsOnePass(query);
    EscapedMatchesItself(query, "%", text, fold);
    if |query| <= |text| {
      PercentMatchesAll(text[|query|..], fold);
    }
  }

  // %escape(q)% describes the texts that contain the query.
  lemma ContainsPattern(query: string, text: string, fold: char -> char)
    ensures Like("%" + EscapeLike(query) + "%", text, fold) <==> exists k: nat :: OccursAt(query, text, k, fold)
  {
    var pattern := "%" + EscapeLike(query) + "%";
    assert pattern[1..] == EscapeLike(query) + "%";
    forall k | 0 <= k <= |text|
      ensures Like(pattern[1..], text[k..], fold) <==> OccursAt(query, text, k, fold)
    {
      PrefixPattern(query, text[k..], fold);
      if k + |query| <= |text| {
        assert text[k..][0..0 + |query|] == text[k..k + |query|];
      }
    }
    if exists k: nat :: OccursAt(query, text, k, fold) {
      var k: nat :| OccursAt(query, text, k, fold);
      assert Like(pattern[1..], text[k..], fold);
    }
  }
}
