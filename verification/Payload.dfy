/** The text a tag or label carries: printed by the server, parsed by the clients. */
module Payload {
  import opened Common

  const SCHEME := "wherehouse://identify/v"
  const MAX_SAFE_INTEGER := 0x1F_FFFF_FFFF_FFFF // 2^53 - 1

  datatype Parsed = Parsed(publicId: string, version: nat)

  predicate IsDigit(c: char) {
    '0' <= c <= '9'
  }

  predicate IsTokenChar(c: char) {
    'A' <= c <= 'Z' || 'a' <= c <= 'z' || IsDigit(c) || c == '_' || c == '-'
  }

  predicate AllDigits(s: string) {
    forall i | 0 <= i < |s| :: IsDigit(s[i])
  }

  // idn_ and at least one character of the URL-safe alphabet
  predicate IsPublicId(s: string) {
    |s| > 4 && s[..4] == "idn_" && forall i | 4 <= i < |s| :: IsTokenChar(s[i])
  }

  // The characters that String.prototype.trim removes.
  predicate IsSpace(c: char) {
    || '\U{0009}' <= c <= '\U{000D}' || c == ' ' || c == '\U{00A0}' || c == '\U{1680}'
    || '\U{2000}' <= c <= '\U{200A}' || c in {'\U{2028}', '\U{2029}', '\U{202F}', '\U{205F}', '\U{3000}', '\U{FEFF}'}
  }

  predicate Blank(s: string) {
    forall i | 0 <= i < |s| :: IsSpace(s[i])
  }

  function TrimStart(s: string): string {
    if s != [] && IsSpace(s[0]) then TrimStart(s[1..]) else s
  }

  function TrimEnd(s: string): string {
    if s != [] && IsSpace(s[|s| - 1]) then TrimEnd(s[..|s| - 1]) else s
  }

  function Trim(s: string): string {
    TrimEnd(TrimStart(s))
  }

  function DigitChar(d: nat): (c: char)
    requires d < 10
    ensures IsDigit(c) && DigitValue(c) == d
  {
    '0' + d as char
  }

  function DigitValue(c: char): nat
    requires IsDigit(c)
  {
    (c - '0') as nat
  }

  function Decimal(n: nat): string {
    if n < 10 then [DigitChar(n)] else Decimal(n / 10) + [DigitChar(n % 10)]
  }

  function Value(digits: string): nat
    requires AllDigits(digits)
  {
    if digits == [] then 0 else 10 * Value(digits[..|digits| - 1]) + DigitValue(digits[|digits| - 1])
  }

  function Print(publicId: string, version: nat): string {
    SCHEME + Decimal(version) + "/" + publicId
  }

  function LeadingDigits(s: string): (n: nat)
    ensures n <= |s| && AllDigits(s[..n]) && (n < |s| ==> !IsDigit(s[n]))
  {
    if s == [] || !IsDigit(s[0]) then 0 else
      var n := 1 + LeadingDigits(s[1..]);
      assert forall i | 0 < i < n :: s[i] == s[1..][i - 1];
      n
  }

  function Parse(value: string): Option<Parsed> {
    var text := Trim(value);
    if !(SCHEME <= text) then None else
      var rest := text[|SCHEME|..];
      var n := LeadingDigits(rest);
      if n == 0 || n == |rest| || rest[n] != '/' || !IsPublicId(rest[n + 1..]) then None
      else if Value(rest[..n]) > MAX_SAFE_INTEGER then None
      else Some(Parsed(rest[n + 1..], Value(rest[..n])))
  }

  // --- the pattern, read declaratively -----------------------------------------

  // text is the scheme, some digits, a slash and a public id: idn_ with at least
  // one character of the URL-safe alphabet after it.
  ghost predicate Matches(text: string, digits: string, publicId: string) {
    && text == "wherehouse://identify/v" + digits + "/" + publicId
    && digits != [] && (forall i | 0 <= i < |digits| :: '0' <= digits[i] <= '9')
    && |publicId| > 4 && publicId[..4] == "idn_"
    && forall i | 4 <= i < |publicId| ::
         || 'A' <= publicId[i] <= 'Z' || 'a' <= publicId[i] <= 'z' || '0' <= publicId[i] <= '9'
         || publicId[i] == '_' || publicId[i] == '-'
  }

  // The white space and line ends of ECMAScript, by their code points.
  lemma SpaceCodes(c: char)
    ensures IsSpace(c) <==>
              c as int in {9, 10, 11, 12, 13, 32, 160, 5760, 8192, 8193, 8194, 8195, 8196, 8197, 8198, 8199, 8200, 8201, 8202,
                           8232, 8233, 8239, 8287, 12288, 65279}
  {
  }

  lemma {:induction false} LeadingDigitsOf(digits: string, rest: string)
    requires AllDigits(digits) && rest != [] && !IsDigit(rest[0])
    ensures LeadingDigits(digits + rest) == |digits|
  {
    if digits == [] {
      assert digits + rest == rest;
    } else {
      LeadingDigitsOf(digits[1..], rest);
      assert (digits + rest)[1..] == digits[1..] + rest;
    }
  }

  // Parsing accepts exactly the matching texts with a safe version, and reads
  // off the two groups.
  lemma ParseIsTheMatch(value: string, digits: string, publicId: string)
    requires Matches(Trim(value), digits, publicId)
    ensures Parse(value) == if Value(digits) <= MAX_SAFE_INTEGER then Some(Parsed(publicId, Value(digits))) else None
  {
    var text := Trim(value);
    var rest := text[|SCHEME|..];
    assert rest == digits + ("/" + publicId);
    LeadingDigitsOf(digits, "/" + publicId);
    assert rest[..|digits|] == digits && rest[|digits| + 1..] == publicId;
  }

  lemma ParsedMatches(value: string) returns (digits: string)
    requires Parse(value).Some?
    ensures AllDigits(digits) && Matches(Trim(value), digits, Parse(value).value.publicId)
    ensures Value(digits) == Parse(value).value.version <= MAX_SAFE_INTEGER
  {
    var text := Trim(value);
    var rest := text[|SCHEME|..];
    var n := LeadingDigits(rest);
    digits := rest[..n];
    assert text == SCHEME + rest && rest == digits + "/" + rest[n + 1..];
  }

  // --- numbers ----------------------------------------------------------------------

  lemma {:induction false} DecimalValue(n: nat)
    ensures Decimal(n) != [] && AllDigits(Decimal(n)) && Value(Decimal(n)) == n
    ensures n > 0 ==> Decimal(n)[0] != '0'
  {
    if n >= 10 {
      DecimalValue(n / 10);
      assert Decimal(n)[..|Decimal(n)| - 1] == Decimal(n / 10);
      assert Decimal(n)[0] == Decimal(n / 10)[0];
    } else {
      assert Value(Decimal(n)[..0]) == 0;
    }
  }

  function Zeros(n: nat): string {
    seq(n, _ => '0')
  }

  // Digits are the decimal numeral of their value behind some zeros.
  lemma {:induction false} DigitsAreDecimal(digits: string) returns (zeros: nat)
    requires digits != [] && AllDigits(digits)
    ensures digits == Zeros(zeros) + Decimal(Value(digits))
  {
    var last, front := digits[|digits| - 1], digits[..|digits| - 1];
    var d := DigitValue(last);
    assert last == DigitChar(d);
    if front == [] {
      zeros := 0;
    } else {
      zeros := DigitsAreDecimal(front);
      var v := Value(front);
      assert Value(digits) / 10 == v && Value(digits) % 10 == d;
      if v == 0 {
        assert Decimal(v) == "0";
        assert Zeros(zeros) + "0" == Zeros(zeros + 1);
        zeros := zeros + 1;
      } else {
        assert digits == front + [last];
      }
    }
  }

  // --- trimming ---------------------------------------------------------------------

  predicate Trimmed(s: string) {
    s == [] || (!IsSpace(s[0]) && !IsSpace(s[|s| - 1]))
  }

  lemma {:induction false} TrimStartDrops(before: string, s: string)
    requires Blank(before) && (s == [] || !IsSpace(s[0]))
    ensures TrimStart(before + s) == s
  {
    if before == [] {
      assert before + s == s;
    } else {
      TrimStartDrops(before[1..], s);
      assert (before + s)[1..] == before[1..] + s;
    }
  }

  lemma {:induction false} TrimEndDrops(s: string, after: string)
    requires Blank(after) && (s == [] || !IsSpace(s[|s| - 1]))
    ensures TrimEnd(s + after) == s
  {
    if after == [] {
      assert s + after == s;
    } else {
      TrimEndDrops(s, after[..|after| - 1]);
      assert (s + after)[..|s + after| - 1] == s + after[..|after| - 1];
    }
  }

  lemma TrimDrops(before: string, s: string, after: string)
    requires Blank(before) && Blank(after) && s != [] && Trimmed(s)
    ensures Trim(before + s + after) == s
  {
    assert before + s + after == before + (s + after);
    TrimStartDrops(before, s + after);
    TrimEndDrops(s, after);
  }

  // --- round trips ------------------------------------------------------------------

  // Reading a printed payload, with any white space around it, gives back the
  // public id and the version.
  lemma ParseReadsPrint(publicId: string, version: nat, before: string, after: string)
    requires IsPublicId(publicId) && version <= MAX_SAFE_INTEGER && Blank(before) && Blank(after)
    ensures Parse(before + Print(publicId, version) + after) == Some(Parsed(publicId, version))
  {
    DecimalValue(version);
    var printed := Print(publicId, version);
    assert printed[|printed| - 1] == publicId[|publicId| - 1] && printed[0] == 'w';
    TrimDrops(before, printed, after);
    ParseIsTheMatch(before + printed + after, Decimal(version), publicId);
  }

  // Whatever parses prints back to the trimmed input, up to leading zeros.
  lemma PrintRebuildsParse(value: string) returns (zeros: nat)
    requires Parse(value).Some?
    ensures var p := Parse(value).value;
            && IsPublicId(p.publicId) && p.version <= MAX_SAFE_INTEGER
            && Trim(value) == SCHEME + Zeros(zeros) + Decimal(p.version) + "/" + p.publicId
            && (zeros == 0 ==> Trim(value) == Print(p.publicId, p.version))
  {
    var digits := ParsedMatches(value);
    zeros := DigitsAreDecimal(digits);
    var p := Parse(value).value;
    assert SCHEME + digits + "/" + p.publicId == SCHEME + Zeros(zeros) + Decimal(p.version) + "/" + p.publicId;
  }

  // Different identifiers print to different payloads.
  lemma PrintIsInjective(a: string, v: nat, b: string, w: nat)
    requires IsPublicId(a) && IsPublicId(b) && v <= MAX_SAFE_INTEGER && w <= MAX_SAFE_INTEGER
    requires Print(a, v) == Print(b, w)
    ensures a == b && v == w
  {
    ParseReadsPrint(a, v, [], []);
    ParseReadsPrint(b, w, [], []);
    assert [] + Print(a, v) + [] == [] + Print(b, w) + [];
  }
}
