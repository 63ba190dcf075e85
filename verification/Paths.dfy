/** Relative slash-separated paths: the normal form of pathlib, the safety check
    for archive members, and which names are directories of others. */
module Paths {

  function Segments(s: string): (parts: seq<string>)
    ensures |parts| >= 1 && forall i | 0 <= i < |parts| :: '/' !in parts[i]
  {
    if s == [] then [""] else
      var rest := Segments(s[1..]);
      if s[0] == '/' then [""] + rest else [[s[0]] + rest[0]] + rest[1..]
  }

  function Join(parts: seq<string>): string {
    if |parts| == 0 then "" else if |parts| == 1 then parts[0] else parts[0] + "/" + Join(parts[1..])
  }

  predicate Real(segment: string) {
    segment != "" && segment != "."
  }

  function RealOnly(parts: seq<string>): (kept: seq<string>)
    ensures forall i | 0 <= i < |kept| :: Real(kept[i]) && kept[i] in parts
  {
    if parts == [] then [] else (if Real(parts[0]) then [parts[0]] else []) + RealOnly(parts[1..])
  }

  // PurePosixPath(s).parts of a relative path
  function Parts(s: string): seq<string> {
    RealOnly(Segments(s))
  }

  function Normal(s: string): string {
    Join(Parts(s))
  }

  // A relative path in normal form.
  predicate Canonical(s: string) {
    forall i | 0 <= i < |Segments(s)| :: Real(Segments(s)[i])
  }

  predicate SafeMember(name: string) {
    name != "" && name[0] != '/' && ".." !in Segments(name)
  }

  // The directories on the way to a path.
  function Ancestors(path: string): set<string> {
    set k | 0 <= k < |path| && path[k] == '/' :: path[..k]
  }

  // --- names that stay inside ---------------------------------------------------------

  // Two dots at k, followed by a slash or by the end.
  ghost predicate DotsAt(s: string, k: nat) {
    k + 2 <= |s| && s[k] == '.' && s[k + 1] == '.' && (k + 2 == |s| || s[k + 2] == '/')
  }

  // Read character by character: neither empty nor absolute, and no segment
  // goes to the directory above.
  ghost predicate StaysInside(name: string) {
    name != "" && name[0] != '/' && forall k: nat | DotsAt(name, k) :: k > 0 && name[k - 1] != '/'
  }

  lemma {:induction false} FirstSegment(s: string, w: string)
    requires '/' !in w
    ensures Segments(s)[0] == w <==> w <= s && (|w| == |s| || s[|w|] == '/')
  {
    if w != [] && s != [] && s[0] == w[0] {
      FirstSegment(s[1..], w[1..]);
      assert w == [w[0]] + w[1..] && s == [s[0]] + s[1..];
    }
  }

  lemma {:induction false} LaterDots(s: string)
    ensures ".." in Segments(s)[1..] <==> exists k: nat :: k > 0 && DotsAt(s, k) && s[k - 1] == '/'
  {
    if s != [] {
      var t := s[1..];
      LaterDots(t);
      FirstSegment(t, "..");
      assert Segments(t) == [Segments(t)[0]] + Segments(t)[1..];
      forall k: nat | k > 0 ensures DotsAt(s, k) <==> DotsAt(t, k - 1) {
      }
      if s[0] == '/' {
        assert Segments(s)[1..] == Segments(t);
        if DotsAt(t, 0) {
          assert DotsAt(s, 1) && s[0] == '/';
        }
      } else {
        assert Segments(s)[1..] == Segments(t)[1..];
      }
      if k: nat :| k > 0 && DotsAt(t, k) && t[k - 1] == '/' {
        assert DotsAt(s, k + 1) && s[k] == '/';
      }
      if k: nat :| k > 0 && DotsAt(s, k) && s[k - 1] == '/' {
        assert DotsAt(t, k - 1);
        assert k > 1 ==> t[k - 2] == '/';
      }
    }
  }

  // The safety check of member names and media keys.
  lemma SafeMeansInside(name: string)
    ensures SafeMember(name) <==> StaysInside(name)
  {
    FirstSegment(name, "..");
    LaterDots(name);
    assert Segments(name) == [Segments(name)[0]] + Segments(name)[1..];
    if name != "" && DotsAt(name, 0) {
      assert Segments(name)[0] == "..";
    }
  }

  // --- splitting and joining -------------------------------------------------------

  lemma {:induction false} JoinSegments(s: string)
    ensures Join(Segments(s)) == s
  {
    if s != [] {
      JoinSegments(s[1..]);
      var rest := Segments(s[1..]);
      if s[0] != '/' {
        assert Segments(s)[1..] == rest[1..];
      } else {
        assert ([""] + rest)[1..] == rest;
      }
    }
  }

  lemma {:induction false} SegmentsOne(s: string)
    requires '/' !in s
    ensures Segments(s) == [s]
  {
    if s != [] {
      SegmentsOne(s[1..]);
      assert [s[0]] + s[1..] == s;
    }
  }

  lemma {:induction false} SegmentsPrefix(s: string, rest: string)
    requires '/' !in s
    ensures Segments(s + "/" + rest) == [s] + Segments(rest)
  {
    if s == [] {
      assert (s + "/" + rest)[1..] == rest;
    } else {
      SegmentsPrefix(s[1..], rest);
      assert (s + "/" + rest)[1..] == s[1..] + "/" + rest;
      assert [s[0]] + s[1..] == s;
    }
  }

  lemma {:induction false} SegmentsJoin(parts: seq<string>)
    requires parts != [] && forall i | 0 <= i < |parts| :: '/' !in parts[i]
    ensures Segments(Join(parts)) == parts
  {
    if |parts| == 1 {
      SegmentsOne(parts[0]);
    } else {
      SegmentsJoin(parts[1..]);
      SegmentsPrefix(parts[0], Join(parts[1..]));
    }
  }

  lemma {:induction false} AllReal(parts: seq<string>)
    requires forall i | 0 <= i < |parts| :: Real(parts[i])
    ensures RealOnly(parts) == parts
  {
    if parts != [] {
      AllReal(parts[1..]);
    }
  }

  lemma {:induction false} RealOnlyKeeps(parts: seq<string>, i: nat)
    requires i < |parts| && Real(parts[i])
    ensures RealOnly(parts) != []
  {
    if i > 0 {
      RealOnlyKeeps(parts[1..], i - 1);
    }
  }

  // Canonical paths are those that normalising leaves alone.
  lemma CanonicalIsNormal(s: string)
    ensures Canonical(s) <==> s != "" && Normal(s) == s
  {
    if Canonical(s) {
      AllReal(Segments(s));
      JoinSegments(s);
    }
    if s != "" && Normal(s) == s {
      SegmentsJoin(Parts(s));
    }
  }

  // --- media paths -------------------------------------------------------------------

  const MEDIA := "media"

  // Where the file of a media key lies, relative to the workspace.
  function MediaPath(key: string): string {
    Join([MEDIA] + Parts(key))
  }

  // The name under which the manifest declares it.
  function MediaName(key: string): string {
    MEDIA + "/" + key
  }

  lemma MediaPathSegments(key: string)
    ensures Segments(MediaPath(key)) == [MEDIA] + Parts(key)
    ensures Segments(MediaName(key)) == [MEDIA] + Segments(key)
  {
    SegmentsJoin([MEDIA] + Parts(key));
    SegmentsPrefix(MEDIA, key);
  }

  // The file lies under its declared name exactly for canonical keys, and only
  // a canonical name is the path of any key.
  lemma MediaPathIsName(key: string, other: string)
    ensures MediaPath(key) == MediaName(key) <==> Canonical(key)
    ensures MediaPath(other) == MediaName(key) ==> Canonical(key)
  {
    MediaPathSegments(key);
    MediaPathSegments(other);
    if Canonical(key) {
      AllReal(Segments(key));
      JoinSegments(MediaPath(key));
      JoinSegments(MediaName(key));
    }
    if MediaPath(other) == MediaName(key) {
      assert Segments(key) == ([MEDIA] + Segments(key))[1..] == ([MEDIA] + Parts(other))[1..] == Parts(other);
    }
    if MediaPath(key) == MediaName(key) {
      assert Segments(key) == ([MEDIA] + Segments(key))[1..] == ([MEDIA] + Parts(key))[1..] == Parts(key);
    }
  }

  lemma MediaNameInjective(a: string, b: string)
    ensures MediaName(a) == MediaName(b) ==> a == b
  {
    assert MediaName(a)[|MEDIA| + 1..] == a && MediaName(b)[|MEDIA| + 1..] == b;
  }

  // One declared file is a directory of another exactly when its key is.
  lemma MediaNesting(a: string, b: string)
    ensures MediaName(a) in Ancestors(MediaName(b)) <==> a in Ancestors(b)
  {
    var n := |MEDIA| + 1;
    if a in Ancestors(b) {
      var k :| 0 <= k < |b| && b[k] == '/' && b[..k] == a;
      assert MediaName(b)[n + k] == '/' && MediaName(b)[..n + k] == MediaName(a);
    }
    if MediaName(a) in Ancestors(MediaName(b)) {
      var k :| 0 <= k < |MediaName(b)| && MediaName(b)[k] == '/' && MediaName(b)[..k] == MediaName(a);
      assert k == n + |a| && b[|a|] == MediaName(b)[k] && b[..|a|] == MediaName(b)[..k][n..] == a;
    }
  }
}
