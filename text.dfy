/**
 * The few functions of Go's `strings` and `strconv` packages that the modelled
 * code calls, on strings seen as sequences of characters.
 */
module Text {

  /** Go's unicode.IsSpace: the Unicode White_Space characters. */
  predicate IsSpace(c: char) {
    c == ' ' || ('\t' <= c <= '\r') || c == '\U{85}' || c == '\U{A0}' || c == '\U{1680}'
    || ('\U{2000}' <= c <= '\U{200A}') || c == '\U{2028}' || c == '\U{2029}'
    || c == '\U{202F}' || c == '\U{205F}' || c == '\U{3000}'
  }

  predicate AllSpace(s: string) {
    forall k :: 0 <= k < |s| ==> IsSpace(s[k])
  }

  /** The number of white-space characters `s` starts with. */
  function LeadingSpace(s: string): (n: nat)
    ensures n <= |s| && AllSpace(s[..n])
    ensures n < |s| ==> !IsSpace(s[n])
  {
    if |s| > 0 && IsSpace(s[0]) then
      var m := LeadingSpace(s[1..]);
      assert forall k :: 1 <= k < m + 1 ==> s[k] == s[1..][..m][k - 1];
      1 + m
    else 0
  }

  function TrimRightSpace(s: string): (r: string)
    ensures |r| <= |s| && r == s[..|r|]
    ensures AllSpace(s[|r|..])
    ensures |r| > 0 ==> !IsSpace(r[|r| - 1])
  {
    if |s| > 0 && IsSpace(s[|s| - 1]) then TrimRightSpace(s[..|s| - 1]) else s
  }

  /**
   * strings.TrimSpace: the part of `s` from its first non-white-space character
   * on, with only white space after it, that starts and ends with no white space.
   */
  function TrimSpace(s: string): (r: string)
    ensures LeadingSpace(s) + |r| <= |s| && r == s[LeadingSpace(s)..LeadingSpace(s) + |r|]
    ensures AllSpace(s[LeadingSpace(s) + |r|..])
    ensures |r| > 0 ==> !IsSpace(r[0]) && !IsSpace(r[|r| - 1])
    ensures r == [] <==> AllSpace(s)
  {
    var n := LeadingSpace(s);
    var r := TrimRightSpace(s[n..]);
    TrimmedSlice(s, n, r);
    r
  }

  /** The facts TrimSpace states, for a prefix `r` of `s[n..]` after the leading white space. */
  lemma TrimmedSlice(s: string, n: nat, r: string)
    requires n <= |s| && AllSpace(s[..n]) && (n < |s| ==> !IsSpace(s[n]))
    requires |r| <= |s| - n && r == s[n..][..|r|] && AllSpace(s[n..][|r|..])
    ensures r == s[n..n + |r|] && AllSpace(s[n + |r|..])
    ensures |r| > 0 ==> !IsSpace(r[0])
    ensures r == [] <==> AllSpace(s)
  {
    assert s[n + |r|..] == s[n..][|r|..];
  }

  /** A string that neither starts nor ends with white space is its own trim. */
  lemma TrimSpaceOfTrimmed(s: string)
    requires |s| > 0 ==> !IsSpace(s[0]) && !IsSpace(s[|s| - 1])
    ensures TrimSpace(s) == s
  {
  }

  /** One blank on each side of a trimmed word is dropped by TrimSpace. */
  lemma PaddedTrim(s: string)
    requires |s| > 0 && !IsSpace(s[0]) && !IsSpace(s[|s| - 1])
    ensures TrimSpace([' '] + s + [' ']) == s
  {
    var t := s + [' '];
    assert [' '] + s + [' '] == [' '] + t;
    assert ([' '] + t)[1..] == t;
    assert LeadingSpace([' '] + t) == 1;
    assert t[..|t| - 1] == s;
    assert TrimRightSpace(t) == s;
  }

  lemma TrimSpaceIdempotent(s: string)
    ensures TrimSpace(TrimSpace(s)) == TrimSpace(s)
  {
    TrimSpaceOfTrimmed(TrimSpace(s));
  }

  /** unicode.ToUpper on ASCII: a lower-case letter becomes upper case, white space stays white space. */
  function UpperChar(c: char): (r: char)
    ensures IsSpace(r) <==> IsSpace(c)
    ensures 'a' <= c <= 'z' ==> 'A' <= r <= 'Z'
    ensures !('a' <= c <= 'z') ==> r == c
  {
    if 'a' <= c <= 'z' then (c as int - 32) as char else c
  }

  function LowerChar(c: char): char {
    if 'A' <= c <= 'Z' then (c as int + 32) as char else c
  }

  /** strings.ToUpper, on ASCII letters. */
  function ToUpper(s: string): (r: string)
    ensures |r| == |s| && forall k :: 0 <= k < |s| ==> r[k] == UpperChar(s[k])
  {
    seq(|s|, k requires 0 <= k < |s| => UpperChar(s[k]))
  }

  /** strings.ToLower, on ASCII letters. */
  function ToLower(s: string): (r: string)
    ensures |r| == |s| && forall k :: 0 <= k < |s| ==> r[k] == LowerChar(s[k])
  {
    seq(|s|, k requires 0 <= k < |s| => LowerChar(s[k]))
  }

  /** strings.IndexByte: the first position of `c` in `s`, or -1. */
  function IndexChar(s: string, c: char): (r: int)
    ensures r == -1 <==> c !in s
    ensures r != -1 ==> 0 <= r < |s| && s[r] == c
  {
    if |s| == 0 then -1
    else if s[0] == c then 0
    else
      var k := IndexChar(s[1..], c);
      assert s[1..] == s[1..][..];
      if k < 0 then -1 else k + 1
  }

  /** strings.IndexByte finds the first `c`: there is none before it. */
  lemma {:induction false} IndexCharFirst(s: string, c: char)
    ensures IndexChar(s, c) != -1 ==> c !in s[..IndexChar(s, c)]
  {
    if |s| > 0 && s[0] != c {
      var k := IndexChar(s[1..], c);
      IndexCharFirst(s[1..], c);
      if k >= 0 {
        assert s[..k + 1] == [s[0]] + s[1..][..k];
      }
    }
  }

  predicate OccursAt(s: string, sub: string, j: int) {
    0 <= j && j + |sub| <= |s| && s[j..j + |sub|] == sub
  }

  /** strings.Index: the first position where `sub` occurs in `s`, or -1. */
  function Index(s: string, sub: string): (r: int)
    ensures r == -1 <==> forall j :: 0 <= j <= |s| - |sub| ==> !OccursAt(s, sub, j)
    ensures r != -1 ==> OccursAt(s, sub, r) && forall j :: 0 <= j < r ==> !OccursAt(s, sub, j)
    decreases |s|
  {
    if |s| < |sub| then -1
    else if s[..|sub|] == sub then
      assert OccursAt(s, sub, 0);
      0
    else
      assert !OccursAt(s, sub, 0) by { assert s[0..|sub|] == s[..|sub|]; }
      var k := Index(s[1..], sub);
      assert forall j :: 1 <= j <= |s| - |sub| ==> (OccursAt(s, sub, j) <==> OccursAt(s[1..], sub, j - 1)) by {
        forall j | 1 <= j <= |s| - |sub| ensures OccursAt(s, sub, j) <==> OccursAt(s[1..], sub, j - 1) {
          assert s[1..][j - 1..j - 1 + |sub|] == s[j..j + |sub|];
        }
      }
      if k < 0 then -1 else assert OccursAt(s, sub, k + 1); k + 1
  }

  /** For a one-character needle strings.Index is strings.IndexByte. */
  lemma IndexOfOneChar(s: string, c: char)
    ensures Index(s, [c]) == IndexChar(s, c)
  {
    forall j | 0 <= j < |s| ensures OccursAt(s, [c], j) <==> s[j] == c {
      assert s[j..j + 1] == [s[j]];
    }
    var r := Index(s, [c]);
    if r == -1 {
      assert c !in s;
    } else {
      assert c !in s[..r];
    }
  }

  function Join(parts: seq<string>, sep: char): string {
    if |parts| == 0 then ""
    else if |parts| == 1 then parts[0]
    else parts[0] + [sep] + Join(parts[1..], sep)
  }

  /** strings.Split with a one-character separator. */
  function Split(s: string, sep: char): (r: seq<string>)
    ensures |r| >= 1
    ensures Join(r, sep) == s
    ensures forall k :: 0 <= k < |r| ==> sep !in r[k]
    decreases |s|
  {
    var p := IndexChar(s, sep);
    if p < 0 then [s]
    else
      var rest := Split(s[p + 1..], sep);
      IndexCharFirst(s, sep);
      JoinCons(s[..p], rest, sep);
      assert s == s[..p] + [sep] + s[p + 1..];
      assert forall k :: 0 < k <= |rest| ==> ([s[..p]] + rest)[k] == rest[k - 1];
      [s[..p]] + rest
  }

  /** Joining a head onto a non-empty list puts one separator between them. */
  lemma JoinCons(head: string, rest: seq<string>, sep: char)
    requires |rest| >= 1
    ensures Join([head] + rest, sep) == head + [sep] + Join(rest, sep)
  {
    assert ([head] + rest)[1..] == rest;
  }

  /** strings.IndexByte is `p` when `c` sits at `p` and nowhere before. */
  lemma {:induction false} IndexCharAt(s: string, c: char, p: nat)
    requires p < |s| && s[p] == c && c !in s[..p]
    ensures IndexChar(s, c) == p
  {
    if p > 0 {
      assert s[0] == s[..p][0];
      assert s[1..][..p - 1] == s[1..p];
      IndexCharAt(s[1..], c, p - 1);
    }
  }

  /** The first piece of a split is the text before the first separator. */
  lemma SplitHead(s: string, sep: char)
    ensures sep !in Split(s, sep)[0]
    ensures Split(s, sep)[0] == s[..|Split(s, sep)[0]|]
    ensures |Split(s, sep)[0]| == |s| || s[|Split(s, sep)[0]|] == sep
  {
  }

  predicate IsDigit(c: char) {
    '0' <= c <= '9'
  }

  predicate AllDigits(s: string) {
    forall k :: 0 <= k < |s| ==> IsDigit(s[k])
  }

  function DecimalValue(s: string): nat
    requires AllDigits(s)
  {
    if |s| == 0 then 0 else DecimalValue(s[..|s| - 1]) * 10 + (s[|s| - 1] as int - '0' as int)
  }

  const MaxInt64: int := 0x7FFF_FFFF_FFFF_FFFF

  /** strconv.Atoi succeeds: an optional sign, at least one decimal digit, within a 64-bit int. */
  predicate AtoiAccepts(s: string) {
    var digits := if |s| > 0 && (s[0] == '+' || s[0] == '-') then s[1..] else s;
    |digits| > 0 && AllDigits(digits)
    && (if s[0] == '-' then DecimalValue(digits) <= MaxInt64 + 1 else DecimalValue(digits) <= MaxInt64)
  }

  function Pow10(n: nat): (r: nat)
    ensures r > 0
  {
    if n == 0 then 1 else 10 * Pow10(n - 1)
  }

  /** A number written with `n` digits is below 10^n. */
  lemma {:induction false} DecimalValueBound(s: string)
    requires AllDigits(s)
    ensures DecimalValue(s) < Pow10(|s|)
    decreases |s|
  {
    if |s| > 0 {
      var init := s[..|s| - 1];
      DecimalValueBound(init);
      assert DecimalValue(init) * 10 <= (Pow10(|init|) - 1) * 10;
    }
  }

  lemma {:induction false} Pow10Monotone(m: nat, n: nat)
    requires m <= n
    ensures Pow10(m) <= Pow10(n)
    decreases n
  {
    if m < n {
      Pow10Monotone(m, n - 1);
    }
  }

  /** Atoi accepts any sign followed by one to eighteen decimal digits. */
  lemma AtoiAcceptsShort(s: string)
    requires var digits := if |s| > 0 && (s[0] == '+' || s[0] == '-') then s[1..] else s;
      0 < |digits| <= 18 && AllDigits(digits)
    ensures AtoiAccepts(s)
  {
    var digits := if |s| > 0 && (s[0] == '+' || s[0] == '-') then s[1..] else s;
    DecimalValueBound(digits);
    Pow10Monotone(|digits|, 18);
    Pow10Of18();
  }

  lemma Pow10Of18()
    ensures Pow10(18) == 1_000_000_000_000_000_000
  {
    Pow10Add(9, 9);
    assert Pow10(9) == 1_000_000_000;
  }

  lemma {:induction false} Pow10Add(a: nat, b: nat)
    ensures Pow10(a + b) == Pow10(a) * Pow10(b)
    decreases b
  {
    if b > 0 {
      Pow10Add(a, b - 1);
      assert Pow10(a + b) == 10 * Pow10(a + b - 1);
    }
  }

  /** Atoi rejects a text with a character that is neither a digit nor a leading sign. */
  lemma AtoiRejectsNonDigit(s: string, k: nat)
    requires k < |s| && !IsDigit(s[k])
    requires k > 0 || (s[0] != '+' && s[0] != '-')
    ensures !AtoiAccepts(s)
  {
    if |s| > 0 && (s[0] == '+' || s[0] == '-') {
      assert s[1..][k - 1] == s[k];
    }
  }
}
