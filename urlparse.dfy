/**
 * The pattern compiler of pkg/dvurl/urlparse.go, step by step as the source
 * runs it: index loops over the pattern that grow FixedStart and FixedEnd,
 * append parts to Middle and, for an unterminated regex, extend the text being
 * scanned. Each method is proved to compute the matching function of MaskSpec.
 */
module DvUrl {
  import opened Wrappers
  import opened Text
  import opened MaskSpec

  /**
   * cutOffFixedParts: strips the leading modifiers and the trailing blanks and
   * slashes, reads the literal prefix forwards and the literal suffix backwards,
   * and returns what is left between them.
   */
  method CutOffFixedParts(pattern: string) returns (res: MaskInfo, data: string)
    ensures res == CutOff(pattern)
    ensures data == MiddleTextOf(pattern)
  {
    var neg, flag;
    neg, flag, data := StripEnds(pattern);
    res := MaskInfo(neg, flag, "", "", []);
    var fixedStart, i := ScanFixedStart(data);
    res := res.(FixedStart := fixedStart);
    if i > 0 {
      data := data[i..];
    }
    assert data == AfterStart(pattern);
    var fixedEnd, k := ScanFixedEnd(data);
    res := res.(FixedEnd := fixedEnd);
    if |data| != k {
      data := data[..k];
    }
  }

  /** The modifiers cut off the front and the blanks and slashes off the back. */
  method StripEnds(pattern: string) returns (neg: bool, flag: CaseFlag, data: string)
    ensures var run := pattern[..ModifierRunLength(pattern)];
      neg == ('!' in run) && flag == CaseFlagOf(run)
    ensures data == Body(pattern)
  {
    var i;
    neg, flag, i := SkipModifiers(pattern);
    data := pattern;
    if i > 0 {
      data := data[i..];
    }
    var n := TrimTrailingBlanks(data);
    if n != |data| {
      data := data[..n];
    }
  }

  /** The leading run of blanks, `!`, `<` and `>`: whether it holds a `!`, and the last case mark. */
  method SkipModifiers(data: string) returns (neg: bool, flag: CaseFlag, i: nat)
    ensures i == ModifierRunLength(data)
    ensures neg == ('!' in data[..i]) && flag == CaseFlagOf(data[..i])
  {
    neg, flag, i := false, CaseUnset, 0;
    while i < |data|
      invariant 0 <= i <= |data|
      invariant forall j :: 0 <= j < i ==> IsModifier(data[j])
      invariant neg == ('!' in data[..i]) && flag == CaseFlagOf(data[..i])
    {
      var c := data[i];
      assert data[..i + 1] == data[..i] + [c];
      assert data[..i + 1][..i] == data[..i];
      if c <= ' ' {
        // blanks are skipped
      } else if c == '!' {
        neg := true;
      } else if c == '<' {
        flag := MinusMatchCaseInsensitive;
      } else if c == '>' {
        flag := MatchCaseInsensitive;
      } else {
        break;
      }
      i := i + 1;
    }
  }

  /** The length of `data` without its trailing blanks and slashes. */
  method TrimTrailingBlanks(data: string) returns (n: nat)
    ensures n <= |data| && data[..n] == TrimTrailing(data)
  {
    n := |data|;
    assert data[..n] == data;
    while n > 0
      invariant 0 <= n <= |data|
      invariant TrimTrailing(data[..n]) == TrimTrailing(data)
    {
      var c := data[n - 1];
      if c <= ' ' || c == '/' {
        assert data[..n][..n - 1] == data[..n - 1];
        n := n - 1;
      } else {
        break;
      }
    }
  }

  /**
   * The forward scan for FixedStart up to the first special character: leading
   * blanks and slashes are skipped, and a doubled slash ends a segment.
   */
  method ScanFixedStart(data: string) returns (fixedStart: string, i: nat)
    ensures i == FirstSpecialFrom(data, 0)
    ensures fixedStart == LiteralScan(data[..i]).0
  {
    fixedStart := "";
    var pos := 0;
    i := 0;
    // the scan stops at the first `?`, `*`, `{`, backtick or `^`
    while i < |data| && !IsSpecial(data[i])
      invariant 0 <= pos <= i <= |data|
      invariant forall j :: 0 <= j < i ==> !IsSpecial(data[j])
      invariant fixedStart + data[pos..i] == LiteralScan(data[..i]).0
      invariant (pos == i) == LiteralScan(data[..i]).1
    {
      pos, fixedStart := StartStep(data, i, pos, fixedStart);
      i := i + 1;
    }
    if pos < i {
      fixedStart := fixedStart + data[pos..i];
    }
  }

  /**
   * One character of the forward scan: blanks and slashes are skipped while
   * nothing is pending, and a slash after a slash closes the pending text.
   */
  method StartStep(data: string, i: nat, pos: nat, fixedStart: string) returns (pos': nat, fixedStart': string)
    requires pos <= i < |data| && !IsSpecial(data[i])
    requires fixedStart + data[pos..i] == LiteralScan(data[..i]).0
    requires (pos == i) == LiteralScan(data[..i]).1
    ensures pos' <= i + 1
    ensures fixedStart' + data[pos'..i + 1] == LiteralScan(data[..i + 1]).0
    ensures (pos' == i + 1) == LiteralScan(data[..i + 1]).1
  {
    pos', fixedStart' := pos, fixedStart;
    var c := data[i];
    assert data[..i + 1][..i] == data[..i];
    assert data[pos..i + 1] == data[pos..i] + [c];
    if (c <= ' ' || c == '/') && i == pos {
      pos' := i + 1;
    } else if c == '/' {
      if data[i - 1] == '/' {
        fixedStart' := fixedStart + data[pos..i];
        pos' := i + 1;
      }
    }
  }

  /**
   * The backward scan for FixedEnd down to the last `?`, `*`, backtick or `$`:
   * the suffix after it, with each run of slashes cut down to one.
   */
  method ScanFixedEnd(data: string) returns (fixedEnd: string, k: nat)
    requires |data| > 0 ==> data[|data| - 1] != '/'
    ensures k <= |data| && fixedEnd == CollapseFrom(data, k)
    ensures k == LastStopEnd(data)
  {
    var i, n;
    fixedEnd, i, n := ScanBackward(data);
    LastStopEndUnique(data, i + 1);
    if i + 1 < n {
      CollapsePlain(data, i + 1, n);
      fixedEnd := data[i + 1..n] + fixedEnd;
    }
    k := i + 1;
  }

  /**
   * The backward loop itself: it stops at `i`, on a stop character or before
   * the start, with `fixedEnd` holding the collapsed text from `n` on and no
   * doubled slash between them.
   */
  method ScanBackward(data: string) returns (fixedEnd: string, i: int, n: nat)
    requires |data| > 0 ==> data[|data| - 1] != '/'
    ensures -1 <= i < n <= |data|
    ensures i < 0 || IsEndStop(data[i])
    ensures NoEndStop(data[i + 1..]) && NoSlashPair(data, i + 1, n)
    ensures fixedEnd == CollapseFrom(data, n)
  {
    fixedEnd := "";
    n := |data|;
    i := n - 1;
    // the scan stops at the first `?`, `*`, backtick or `$` from the right
    while i >= 0 && !IsEndStop(data[i])
      invariant -1 <= i < n <= |data|
      invariant NoEndStop(data[i + 1..])
      invariant NoSlashPair(data, i + 1, n)
      invariant fixedEnd == CollapseFrom(data, n)
      decreases i + 1
    {
      i, n, fixedEnd := FixedEndStep(data, i, n, fixedEnd);
    }
  }

  /**
   * One character of the backward scan: a slash followed by a slash moves the
   * text after it into FixedEnd and skips the whole run of slashes.
   */
  method FixedEndStep(data: string, i: nat, n: nat, fixedEnd: string) returns (i': int, n': nat, fixedEnd': string)
    requires i < n <= |data| && data[|data| - 1] != '/' && !IsEndStop(data[i])
    requires NoEndStop(data[i + 1..]) && NoSlashPair(data, i + 1, n) && fixedEnd == CollapseFrom(data, n)
    ensures -1 <= i' < n' <= |data| && i' < i
    ensures NoEndStop(data[i' + 1..]) && NoSlashPair(data, i' + 1, n') && fixedEnd' == CollapseFrom(data, n')
  {
    i', n', fixedEnd' := i, n, fixedEnd;
    var c := data[i];
    if c == '/' && data[i + 1] == '/' {
      CollapsePlain(data, i + 1, n);
      fixedEnd' := data[i + 1..n] + fixedEnd;
      var j := SlashRunStart(data, i);
      CollapseSlashRun(data, j, i);
      i', n' := j, j;
    }
    i' := i' - 1;
  }
  /** No slash in `s[a..b]` is followed by a slash. */
  predicate NoSlashPair(s: string, a: int, b: int) {
    forall j :: 0 <= a <= j < b && j + 1 < |s| ==> !(s[j] == '/' && s[j + 1] == '/')
  }

  /** A stretch with no doubled slash is copied unchanged by CollapseFrom. */
  lemma {:induction false} CollapsePlain(s: string, a: nat, b: nat)
    requires a <= b <= |s| && NoSlashPair(s, a, b)
    ensures CollapseFrom(s, a) == s[a..b] + CollapseFrom(s, b)
    decreases b - a
  {
    if a < b {
      CollapsePlain(s, a + 1, b);
      assert !(a + 1 < |s| && s[a] == '/' && s[a + 1] == '/');
      assert CollapseFrom(s, a) == [s[a]] + CollapseFrom(s, a + 1);
      assert s[a..b] == [s[a]] + s[a + 1..b];
      ConsRegroup(s[a], s[a + 1..b], CollapseFrom(s, b));
    }
  }

  /** A character put before two joined strings is put before the first. */
  lemma ConsRegroup(c: char, u: string, v: string)
    ensures [c] + (u + v) == ([c] + u) + v
  { }

  /** Where the run of slashes that ends at `top` starts. */
  method SlashRunStart(data: string, top: nat) returns (i: nat)
    requires top < |data| && data[top] == '/'
    ensures i <= top && (i == 0 || data[i - 1] != '/')
    ensures forall k :: i <= k <= top ==> data[k] == '/'
  {
    var j: int := top;
    while j >= 0 && data[j] == '/'
      invariant -1 <= j <= top
      invariant forall k :: j < k <= top ==> data[k] == '/'
      decreases j + 1
    {
      j := j - 1;
    }
    i := j + 1;
  }

  /** Dropping a run of slashes that ends just before a slash does not change the collapsed text. */
  lemma {:induction false} CollapseSlashRun(s: string, j: nat, top: nat)
    requires j <= top + 1 < |s|
    requires forall k :: j <= k <= top + 1 ==> s[k] == '/'
    ensures CollapseFrom(s, j) == CollapseFrom(s, top + 1)
    decreases top + 1 - j
  {
    if j <= top {
      CollapseSlashRun(s, j + 1, top);
    }
  }

  /** The `?`/`*` branch: one slash-aware or slash-unaware wildcard part for the whole run. */
  method ScanQuantifier(data: string, start: nat) returns (part: MaskPart, i: nat)
    requires start < |data| && IsQuant(data[start])
    requires start == 0 || data[start - 1] != '*'
    ensures i == QuantRunEnd(data, start)
    ensures part == QuantPart(data[start..i])
  {
    var min, max, kind := 0, 0, MaskSlashAware;
    i := start;
    while i < |data|
      invariant start <= i <= |data|
      invariant forall k :: start <= k < i ==> IsQuant(data[k])
      invariant min == CountQ(data[start..i]) && max == QuantMax(data[start..i])
      invariant kind == if HasDoubleStar(data[start..i]) then MaskSlashUnaware else MaskSlashAware
    {
      var c := data[i];
      QuantRunSnoc(data, start, i);
      if c == '?' {
        min, max := min + 1, max + 1;
      } else if c == '*' {
        if i > 0 && data[i - 1] == '*' {
          kind := MaskSlashUnaware;
        }
        max := MaxCharsForStar;
      } else {
        break;
      }
      i := i + 1;
    }
    part := MaskPart(kind, min, max, "", "", None);
  }

  /** How the count, the maximum and the double-star flag of a run change when it takes in `data[i]`. */
  lemma QuantRunSnoc(data: string, start: nat, i: nat)
    requires start <= i < |data| && (start == 0 || data[start - 1] != '*')
    ensures var run, run' := data[start..i], data[start..i + 1];
      && CountQ(run') == CountQ(run) + (if data[i] == '?' then 1 else 0)
      && QuantMax(run') == (if data[i] == '*' then MaxCharsForStar else QuantMax(run) + (if data[i] == '?' then 1 else 0))
      && (HasDoubleStar(run') <==> HasDoubleStar(run) || (i > 0 && data[i - 1] == '*' && data[i] == '*'))
  {
    var run, run' := data[start..i], data[start..i + 1];
    assert run'[..|run'| - 1] == run;
    assert run + [data[i]] == run';
    HasDoubleStarSnoc(run, data[i]);
    if i > start {
      assert run[|run| - 1] == data[i - 1];
    }
  }

  lemma HasDoubleStarSnoc(run: string, c: char)
    ensures HasDoubleStar(run + [c]) <==> HasDoubleStar(run) || (|run| > 0 && run[|run| - 1] == '*' && c == '*')
  {
    var r := run + [c];
    if HasDoubleStar(r) && !HasDoubleStar(run) {
      var k :| 0 < k < |r| && r[k - 1] == '*' && r[k] == '*';
      assert k == |run|;
    }
    if |run| > 0 && run[|run| - 1] == '*' && c == '*' {
      assert r[|run| - 1] == '*' && r[|run|] == '*';
    }
    if HasDoubleStar(run) {
      var k :| 0 < k < |run| && run[k - 1] == '*' && run[k] == '*';
      assert r[k - 1] == '*' && r[k] == '*';
    }
  }

  /**
   * The backtick and `^` branch. An unterminated regex extends the scanned text
   * with the literal suffix and the missing closer, empties the suffix and ends the scan.
   */
  method ScanRegex(data: string, i: nat, res: MaskInfo, compiles: string -> bool)
    returns (data': string, res': MaskInfo, next: nat)
    requires i < |data| && (data[i] == '`' || data[i] == '^')
    ensures var st := RegexStep(data, i, res.FixedEnd, compiles);
      && res' == res.(Middle := res.Middle + st.parts, FixedEnd := st.fixedEnd)
      && next == st.next
      && (st.done ==> next > |data|)
      && (!st.done ==> data' == data)
  {
    data', res' := data, res;
    var c := data[i];
    var endStr := '`';
    var exclude := 1;
    if c == '^' {
      endStr := '$';
      exclude := 0;
    }
    assert endStr == RegexCloser(c);
    var pos := IndexChar(data[i + 1..], endStr);
    if pos < 0 {
      data' := data' + res'.FixedEnd + [endStr];
      res' := res'.(FixedEnd := "");
      pos := |data'| - 1;
      RegexTextMissing(data, i, res.FixedEnd, compiles, exclude);
      res', next := TakeRegex(data', i, exclude, pos, res', compiles);
    } else {
      pos := pos + i + 1;
      RegexTextFound(data, i, res.FixedEnd, compiles, pos, exclude);
      res', next := TakeRegex(data', i, exclude, pos, res', compiles);
    }
  }

  /** The tail shared by both cases: the text between the opener and the closer at `pos` becomes a part. */
  method TakeRegex(data: string, i: nat, exclude: nat, pos: nat, res: MaskInfo, compiles: string -> bool)
    returns (res': MaskInfo, next: nat)
    requires i + exclude <= pos + 1 - exclude <= |data|
    ensures res' == res.(Middle := res.Middle + RegexParts(data[i + exclude..pos + 1 - exclude], compiles))
    ensures next == pos + 1
  {
    var reg := data[i + exclude..pos + 1 - exclude];
    res' := AppendRegex(res, reg, compiles);
    next := pos + 1;
  }

  /**
   * With no closer, ScanRegex's text is the rest of the mask, the literal suffix and
   * the closer, the opener dropped for a backtick regex (`exclude` is 1 then).
   */
  lemma RegexTextMissing(data: string, i: nat, fe: string, compiles: string -> bool, exclude: nat)
    requires i < |data| && (data[i] == '`' || data[i] == '^')
    requires exclude == if data[i] == '`' then 1 else 0
    requires IndexChar(data[i + 1..], RegexCloser(data[i])) < 0
    ensures var data' := data + fe + [RegexCloser(data[i])];
      RegexStep(data, i, fe, compiles) == Step(RegexParts(data'[i + exclude..|data'| - exclude], compiles), |data'|, "", true)
  {
    SliceOfExtended(data, fe, RegexCloser(data[i]), i, exclude);
    assert RegexStep(data, i, fe, compiles) == RegexStepAt(data, i, fe, compiles, -1);
  }

  /**
   * Text extended by a suffix and a closer, read from `k + e` to the end less `e`:
   * both the opener at `k` and the closer are dropped when `e` is 1, both kept when it is 0.
   */
  lemma SliceOfExtended(data: string, fe: string, x: char, k: nat, e: nat)
    requires k < |data| && e <= 1
    ensures var data' := data + fe + [x];
      data'[k + e..|data'| - e] == if e == 1 then data[k + 1..] + fe else data[k..] + fe + [x]
  {
    var data' := data + fe + [x];
    if e == 1 {
      assert data'[..|data'| - 1] == data + fe;
    }
  }

  /** With a closer at `pos`, ScanRegex's text runs up to it, anchors kept for `^...$` (`exclude` is 0 then). */
  lemma RegexTextFound(data: string, i: nat, fe: string, compiles: string -> bool, pos: nat, exclude: nat)
    requires i < |data| && (data[i] == '`' || data[i] == '^')
    requires exclude == if data[i] == '`' then 1 else 0
    requires IndexChar(data[i + 1..], RegexCloser(data[i])) == pos - i - 1 >= 0
    ensures RegexStep(data, i, fe, compiles)
      == Step(RegexParts(data[i + exclude..pos + 1 - exclude], compiles), pos + 1, fe, false)
  {
    assert RegexStep(data, i, fe, compiles) == RegexStepAt(data, i, fe, compiles, pos - i - 1);
    if data[i] == '`' {
      assert data[i + exclude..pos + 1 - exclude] == data[i + 1..pos];
    } else {
      assert data[i + exclude..pos + 1 - exclude] == data[i..pos + 1];
    }
  }

  /** Appends the part for one regex text: nothing when empty, an error word when it does not compile. */
  method AppendRegex(res: MaskInfo, reg: string, compiles: string -> bool) returns (res': MaskInfo)
    ensures res' == res.(Middle := res.Middle + RegexParts(reg, compiles))
  {
    res' := res;
    if |reg| > 0 {
      if compiles(reg) {
        res' := res'.(Middle := res'.Middle + [MaskPart(MaskRegExp, 0, MaxCharsForStar, "", "", Some(Regexp(reg)))]);
      } else {
        res' := res'.(Middle := res'.Middle + [MaskPart(MaskWord, 0, 0, RegexErrorMarker, "", None)]);
      }
    }
  }

  /** The `{` branch: a capture for `{name}`, a condition for `{{expr}}`, nothing if unterminated. */
  method ScanBrace(data: string, start: nat, res: MaskInfo) returns (res': MaskInfo, i: nat)
    requires start + 1 < |data| && data[start] == '{'
    ensures var st := BraceStep(data, start, res.FixedEnd);
      res' == res.(Middle := res.Middle + st.parts) && i == st.next
  {
    i := start + 1;
    var kind := MaskSlashAware;
    var endBlock := "}";
    if data[i] == '{' {
      kind := MaskCondition;
      endBlock := "}}";
      i := i + 1;
    }
    res', i := ScanBlock(data, i, endBlock, kind, res);
  }

  /** The text from `i` up to the first `endBlock` becomes a part; unterminated, nothing changes. */
  method ScanBlock(data: string, i: nat, endBlock: string, kind: PartKind, res: MaskInfo)
    returns (res': MaskInfo, next: nat)
    requires i <= |data| && |endBlock| > 0
    ensures var st := BlockStep(data, i, endBlock, kind, res.FixedEnd);
      res' == res.(Middle := res.Middle + st.parts) && next == st.next
  {
    res', next := res, i;
    var pos := Index(data[i..], endBlock);
    if pos < 0 {
      // unterminated: the scan resumes after the opening brace or braces
      return;
    }
    pos := pos + i;
    var word := data[i..pos];
    res' := res'.(Middle := res'.Middle + [MaskPart(kind, 1, MaxCharsForStar, word, word, None)]);
    next := pos + |endBlock|;
  }

  /** The default branch: a literal word up to the next special character. */
  method ScanWord(data: string, start: nat) returns (part: MaskPart, i: nat)
    requires start < |data| && !IsSpecial(data[start])
    ensures i == FirstSpecialFrom(data, start + 1)
    ensures part == MaskPart(MaskWord, 0, 0, data[start..i], "", None)
  {
    i := start + 1;
    while i < |data|
      invariant start < i <= |data|
      invariant forall k :: start < k < i ==> !IsSpecial(data[k])
    {
      var c := data[i];
      if c == '?' || c == '*' || c == '{' || c == '`' || c == '^' {
        break;
      }
      i := i + 1;
    }
    part := MaskPart(MaskWord, 0, 0, data[start..i], "", None);
  }

  /**
   * No step stops just after a `*` in front of a `?` or `*`: a quantifier run
   * is always scanned whole, which is what ScanQuantifier relies on.
   */
  lemma StepBoundary(d: string, i: nat, fe: string, compiles: string -> bool)
    requires i < |d| && MiddleShaped(d)
    ensures var st := NextStep(d, i, fe, compiles);
      !st.done && 0 < st.next < |d| && IsQuant(d[st.next]) ==> d[st.next - 1] != '*'
  {
    var c := d[i];
    if IsQuant(c) {
    } else if c == '`' || c == '^' {
      RegexBoundary(d, i, fe, compiles);
    } else if c == '{' {
      BraceBoundary(d, i, fe);
    } else {
      var st := WordStep(d, i, fe);
      if st.next < |d| {
        assert d[i..st.next][st.next - 1 - i] == d[st.next - 1];
      }
    }
  }

  /** A regex step that finds its closer stops right after it, and a closer is not `*`. */
  lemma RegexBoundary(d: string, i: nat, fe: string, compiles: string -> bool)
    requires i < |d| && (d[i] == '`' || d[i] == '^')
    ensures var st := RegexStep(d, i, fe, compiles);
      !st.done ==> d[st.next - 1] != '*'
  {
  }

  /** A brace step stops at its start or right after a `}`. */
  lemma BraceBoundary(d: string, i: nat, fe: string)
    requires i + 1 < |d| && d[i] == '{'
    ensures var st := BraceStep(d, i, fe);
      0 < st.next ==> d[st.next - 1] != '*'
  {
    if d[i + 1] == '{' {
      BlockBoundary(d, i + 2, "}}", MaskCondition, fe);
    } else {
      BlockBoundary(d, i + 1, "}", MaskSlashAware, fe);
    }
  }

  lemma BlockBoundary(d: string, start: nat, closer: string, kind: PartKind, fe: string)
    requires start <= |d| && |closer| > 0 && closer[|closer| - 1] == '}'
    ensures var st := BlockStep(d, start, closer, kind, fe);
      st.next == start || d[st.next - 1] == '}'
  {
    var st := BlockStep(d, start, closer, kind, fe);
    if st.next != start {
      assert OccursAt(d, closer, st.next - |closer|);
      assert d[st.next - |closer|..st.next][|closer| - 1] == d[st.next - 1];
    }
  }

  /** The branch of ConvertSingleMask's loop for the character at `i`. */
  method ScanBranch(data: string, i: nat, res: MaskInfo, compiles: string -> bool)
    returns (data': string, res': MaskInfo, next: nat)
    requires i < |data| && MiddleShaped(data)
    requires i == 0 || !IsQuant(data[i]) || data[i - 1] != '*'
    ensures var st := NextStep(data, i, res.FixedEnd, compiles);
      && res' == res.(Middle := res.Middle + st.parts, FixedEnd := st.fixedEnd)
      && (st.done ==> next > |data|)
      && (!st.done ==> next == st.next && data' == data)
  {
    data', res' := data, res;
    var c := data[i];
    if c == '?' || c == '*' {
      var part;
      part, next := ScanQuantifier(data, i);
      res' := res.(Middle := res.Middle + [part]);
    } else if c == '`' || c == '^' {
      data', res', next := ScanRegex(data, i, res, compiles);
    } else if c == '{' {
      res', next := ScanBrace(data, i, res);
    } else {
      var part;
      part, next := ScanWord(data, i);
      res' := res.(Middle := res.Middle + [part]);
    }
  }

  /**
   * What one branch appends, seen against MiddleFrom: the parts appended so far
   * plus those the scan appends from where it resumes are what MiddleFrom
   * promised at `i`.
   */
  lemma StepGlue(d: string, i: nat, fe: string, compiles: string -> bool,
                 before: seq<MaskPart>, after: seq<MaskPart>, fe': string, next: nat)
    requires i < |d| && MiddleShaped(d)
    requires var st := NextStep(d, i, fe, compiles);
      && after == before + st.parts && fe' == st.fixedEnd
      && (st.done ==> next > |d|) && (!st.done ==> next == st.next)
    ensures next > |d| ==> after == before + MiddleFrom(d, i, fe, compiles).0 && fe' == MiddleFrom(d, i, fe, compiles).1
    ensures next <= |d| ==>
      && i < next
      && before + MiddleFrom(d, i, fe, compiles).0 == after + MiddleFrom(d, next, fe', compiles).0
      && MiddleFrom(d, i, fe, compiles).1 == MiddleFrom(d, next, fe', compiles).1
  {
    var st := NextStep(d, i, fe, compiles);
    if !st.done {
      var rest := MiddleFrom(d, st.next, st.fixedEnd, compiles);
      AppendRegroup(before, after, st.parts, rest.0);
    }
  }

  /** Parts appended in two goes are the parts appended in one. */
  lemma AppendRegroup(before: seq<MaskPart>, after: seq<MaskPart>, parts: seq<MaskPart>, rest: seq<MaskPart>)
    requires after == before + parts
    ensures before + (parts + rest) == after + rest
  {
  }

  /** One turn of ConvertSingleMask's loop, stated against MiddleFrom. */
  method ScanStep(data: string, i: nat, res: MaskInfo, compiles: string -> bool)
    returns (data': string, res': MaskInfo, next: nat)
    requires i < |data| && MiddleShaped(data)
    requires i == 0 || !IsQuant(data[i]) || data[i - 1] != '*'
    ensures res'.IsNegative == res.IsNegative && res'.IsCaseInsensitive == res.IsCaseInsensitive
    ensures res'.FixedStart == res.FixedStart
    ensures next > |data| ==>
      res'.Middle == res.Middle + MiddleFrom(data, i, res.FixedEnd, compiles).0
      && res'.FixedEnd == MiddleFrom(data, i, res.FixedEnd, compiles).1
    ensures next <= |data| ==>
      && i < next && data' == data
      && res.Middle + MiddleFrom(data, i, res.FixedEnd, compiles).0 == res'.Middle + MiddleFrom(data, next, res'.FixedEnd, compiles).0
      && MiddleFrom(data, i, res.FixedEnd, compiles).1 == MiddleFrom(data, next, res'.FixedEnd, compiles).1
    ensures 0 < next < |data| && IsQuant(data[next]) ==> data[next - 1] != '*'
  {
    StepBoundary(data, i, res.FixedEnd, compiles);
    data', res', next := ScanBranch(data, i, res, compiles);
    StepGlue(data, i, res.FixedEnd, compiles, res.Middle, res'.Middle, res'.FixedEnd, next);
  }

  /** ConvertSingleMask: compiles one pattern. */
  method ConvertSingleMask(pattern: string, compiles: string -> bool) returns (res: MaskInfo)
    ensures res == CompileMask(pattern, compiles)
  {
    var data;
    res, data := CutOffFixedParts(pattern);
    var n := |data|;
    ghost var d := data;
    ghost var cut := res;
    MiddleTextShaped(pattern);
    ghost var target := MiddleFrom(d, 0, cut.FixedEnd, compiles);
    var i: nat := 0;
    while i < n
      invariant n == |d| && MiddleShaped(d)
      invariant res.IsNegative == cut.IsNegative && res.IsCaseInsensitive == cut.IsCaseInsensitive
      invariant res.FixedStart == cut.FixedStart
      invariant i <= n ==> data == d
      invariant i <= n ==> res.Middle + MiddleFrom(d, i, res.FixedEnd, compiles).0 == target.0
      invariant i <= n ==> MiddleFrom(d, i, res.FixedEnd, compiles).1 == target.1
      invariant i > n ==> res.Middle == target.0 && res.FixedEnd == target.1
      invariant 0 < i < n && IsQuant(d[i]) ==> d[i - 1] != '*'
      decreases n - i
    {
      data, res, i := ScanStep(data, i, res, compiles);
    }
    assert res == cut.(FixedEnd := target.1, Middle := target.0);
  }

  /** ScanNamedIds: the names of the `{name}` captures of a compiled pattern, in order; none for nil. */
  method ScanNamedIds(mask: Option<MaskInfo>) returns (ids: seq<string>)
    ensures mask.None? ==> ids == []
    ensures mask.Some? ==> ids == NamedIds(mask.value.Middle)
  {
    ids := [];
    if mask.Some? {
      var middle := mask.value.Middle;
      var k := 0;
      while k < |middle|
        invariant 0 <= k <= |middle|
        invariant ids == NamedIds(middle[..k])
      {
        var v := middle[k];
        assert middle[..k + 1][..k] == middle[..k];
        if v.Kind == MaskSlashAware && |v.Data| > 0 {
          ids := ids + [v.Data];
        }
        k := k + 1;
      }
      assert middle[..k] == middle;
    }
  }

  /**
   * PreparseMaskExpressions: compiles each pattern of a list. `split` stands for
   * dvparser.ConvertToNonEmptyList, which cuts the list into its patterns.
   */
  method PreparseMaskExpressions(data: string, split: string -> seq<string>, compiles: string -> bool)
    returns (masks: array<MaskInfo>)
    ensures fresh(masks)
    ensures masks[..] == CompileAll(split(data), compiles)
  {
    var parts := split(data);
    var n := |parts|;
    masks := new MaskInfo[n];
    var i := 0;
    while i < n
      invariant 0 <= i <= n && masks.Length == n
      invariant masks[..i] == CompileAll(parts[..i], compiles)
    {
      var m := ConvertSingleMask(parts[i], compiles);
      masks[i] := m;
      CompileAllSnoc(parts, compiles, i);
      i := i + 1;
    }
    assert parts[..n] == parts;
  }
}
