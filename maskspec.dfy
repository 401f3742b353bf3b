/**
 * The compiled form of a routing pattern (dvmeta.MaskInfo and dvmeta.MaskInfoPart)
 * and the specification of the pattern compiler of pkg/dvurl/urlparse.go, as
 * functions: one per phase of cutOffFixedParts and one per branch of the
 * scan in ConvertSingleMask.
 */
module MaskSpec {
  import opened Wrappers
  import opened Text

  /** The `Max` of a part that may match any number of characters. */
  const MaxCharsForStar: int := 1000000000

  /** The text of the word part that stands in for a regex that does not compile. */
  const RegexErrorMarker: string := "?? Error ??"

  /**
   * IsCaseInsensitive: unset (0), -MatchCaseInsensitive (set by a leading `<`)
   * or +MatchCaseInsensitive (set by a leading `>`).
   */
  datatype CaseFlag = CaseUnset | MinusMatchCaseInsensitive | MatchCaseInsensitive

  datatype PartKind = MaskWord | MaskSlashAware | MaskSlashUnaware | MaskRegExp | MaskCondition

  /** A compiled regular expression, identified by the text it was compiled from. */
  datatype Regexp = Regexp(source: string)

  datatype MaskPart = MaskPart(Kind: PartKind, Min: int, Max: int, Data: string, Condition: string, Regex: Option<Regexp>)

  datatype MaskInfo = MaskInfo(
    IsNegative: bool,
    IsCaseInsensitive: CaseFlag,
    FixedStart: string,
    FixedEnd: string,
    Middle: seq<MaskPart>)

  // ---------------------------------------------------------------- characters

  /** Characters of the leading modifier run: blanks, `!`, `<` and `>`. */
  predicate IsModifier(c: char) {
    c <= ' ' || c == '!' || c == '<' || c == '>'
  }

  predicate IsBlankOrSlash(c: char) {
    c <= ' ' || c == '/'
  }

  /** Characters that end a literal run read forwards. */
  predicate IsSpecial(c: char) {
    c == '?' || c == '*' || c == '{' || c == '`' || c == '^'
  }

  /** Characters that end the literal suffix read backwards. */
  predicate IsEndStop(c: char) {
    c == '?' || c == '*' || c == '`' || c == '$'
  }

  predicate IsQuant(c: char) {
    c == '?' || c == '*'
  }

  predicate IsCaseMark(c: char) {
    c == '<' || c == '>'
  }

  predicate NoDoubleSlash(s: string) {
    forall k :: 0 < k < |s| ==> !(s[k - 1] == '/' && s[k] == '/')
  }

  predicate NoSpecial(s: string) {
    forall k :: 0 <= k < |s| ==> !IsSpecial(s[k])
  }

  predicate NoEndStop(s: string) {
    forall k :: 0 <= k < |s| ==> !IsEndStop(s[k])
  }

  // ------------------------------------------------------ phase 1: modifiers

  /** Length of the leading run of modifier characters. */
  function ModifierRunLength(s: string): (k: nat)
    ensures k <= |s|
    ensures forall j :: 0 <= j < k ==> IsModifier(s[j])
    ensures k == |s| || !IsModifier(s[k])
  {
    if |s| > 0 && IsModifier(s[0]) then 1 + ModifierRunLength(s[1..]) else 0
  }

  /** The case flag a run of modifiers leaves behind: each `<` or `>` overrides the one before. */
  function CaseFlagOf(run: string): CaseFlag {
    if |run| == 0 then CaseUnset
    else if run[|run| - 1] == '<' then MinusMatchCaseInsensitive
    else if run[|run| - 1] == '>' then MatchCaseInsensitive
    else CaseFlagOf(run[..|run| - 1])
  }

  /** The trailing run of blanks and slashes removed. */
  function TrimTrailing(s: string): (r: string)
    ensures |r| <= |s| && r == s[..|r|]
    ensures forall j :: |r| <= j < |s| ==> IsBlankOrSlash(s[j])
    ensures |r| > 0 ==> !IsBlankOrSlash(r[|r| - 1])
  {
    if |s| > 0 && IsBlankOrSlash(s[|s| - 1]) then TrimTrailing(s[..|s| - 1]) else s
  }

  /** The pattern without its leading modifiers and trailing blanks and slashes. */
  function Body(data: string): string {
    TrimTrailing(data[ModifierRunLength(data)..])
  }

  // ---------------------------------------------------- phase 2: FixedStart

  /** Index of the first special character of `s` at or after `i`, or |s|. */
  function FirstSpecialFrom(s: string, i: nat): (k: nat)
    requires i <= |s|
    ensures i <= k <= |s|
    ensures forall j :: i <= j < k ==> !IsSpecial(s[j])
    ensures k == |s| || IsSpecial(s[k])
    decreases |s| - i
  {
    if i == |s| || IsSpecial(s[i]) then i else FirstSpecialFrom(s, i + 1)
  }

  /**
   * The literal prefix read from `s` (which holds no special character), paired
   * with whether the scan is skipping: leading blanks and slashes are skipped,
   * and so is every slash that follows a slash, together with the blanks and
   * slashes right after it. Everything else is kept.
   */
  function LiteralScan(s: string): (r: (string, bool))
    ensures !r.1 ==> |s| > 0 && |r.0| > 0 && r.0[|r.0| - 1] == s[|s| - 1]
  {
    if |s| == 0 then ("", true)
    else
      var prev := LiteralScan(s[..|s| - 1]);
      var c := s[|s| - 1];
      if prev.1 && IsBlankOrSlash(c) then (prev.0, true)
      else if !prev.1 && c == '/' && s[|s| - 2] == '/' then (prev.0, true)
      else (prev.0 + [c], false)
  }

  function StartCut(data: string): nat {
    FirstSpecialFrom(Body(data), 0)
  }

  function FixedStartOf(data: string): string {
    LiteralScan(Body(data)[..StartCut(data)]).0
  }

  /** What is left once the literal prefix has been cut off. */
  function AfterStart(data: string): string {
    Body(data)[StartCut(data)..]
  }

  // ------------------------------------------------------ phase 3: FixedEnd

  /** The length of the longest prefix of `s` that is empty or ends in a stop character. */
  function LastStopEnd(s: string): (k: nat)
    ensures k <= |s|
    ensures k == 0 || IsEndStop(s[k - 1])
    ensures forall j :: k <= j < |s| ==> !IsEndStop(s[j])
  {
    if |s| == 0 then 0
    else if IsEndStop(s[|s| - 1]) then |s|
    else LastStopEnd(s[..|s| - 1])
  }

  /** LastStopEnd is the one cut point with a stop character (or nothing) before it and none after. */
  lemma LastStopEndUnique(s: string, k: nat)
    requires k <= |s|
    requires k == 0 || IsEndStop(s[k - 1])
    requires NoEndStop(s[k..])
    ensures k == LastStopEnd(s)
  {
  }

  /** `s[i..]` with every slash that is followed by a slash dropped. */
  function CollapseFrom(s: string, i: nat): string
    requires i <= |s|
    decreases |s| - i
  {
    if i == |s| then []
    else if i + 1 < |s| && s[i] == '/' && s[i + 1] == '/' then CollapseFrom(s, i + 1)
    else [s[i]] + CollapseFrom(s, i + 1)
  }

  /** The text the middle scan works on. */
  function MiddleTextOf(data: string): string {
    AfterStart(data)[..LastStopEnd(AfterStart(data))]
  }

  /** The result of the first pass, with the middle not yet parsed. */
  function CutOff(data: string): MaskInfo {
    var run := data[..ModifierRunLength(data)];
    MaskInfo('!' in run, CaseFlagOf(run), FixedStartOf(data), CollapseFrom(AfterStart(data), LastStopEnd(AfterStart(data))), [])
  }

  // ------------------------------------------------- phase 4: the middle scan

  /** The middle text is empty or ends in a stop character. */
  predicate MiddleShaped(d: string) {
    |d| > 0 ==> IsEndStop(d[|d| - 1])
  }

  /** One iteration of the scan: parts appended, where the scan resumes, the literal suffix, whether it ended. */
  datatype Step = Step(parts: seq<MaskPart>, next: nat, fixedEnd: string, done: bool)

  /** Index of the first character at or after `i` that is neither `?` nor `*`. */
  function QuantRunEnd(d: string, i: nat): (j: nat)
    requires i <= |d|
    ensures i <= j <= |d|
    ensures forall k :: i <= k < j ==> IsQuant(d[k])
    ensures j == |d| || !IsQuant(d[j])
    decreases |d| - i
  {
    if i == |d| || !IsQuant(d[i]) then i else QuantRunEnd(d, i + 1)
  }

  function CountQ(run: string): nat {
    if |run| == 0 then 0 else CountQ(run[..|run| - 1]) + (if run[|run| - 1] == '?' then 1 else 0)
  }

  /** The maximum of a run: a `?` adds one, a `*` resets it to MaxCharsForStar. */
  function QuantMax(run: string): int {
    if |run| == 0 then 0
    else if run[|run| - 1] == '*' then MaxCharsForStar
    else QuantMax(run[..|run| - 1]) + (if run[|run| - 1] == '?' then 1 else 0)
  }

  predicate HasDoubleStar(run: string) {
    exists k :: 0 < k < |run| && run[k - 1] == '*' && run[k] == '*'
  }

  function QuantPart(run: string): MaskPart {
    MaskPart(if HasDoubleStar(run) then MaskSlashUnaware else MaskSlashAware, CountQ(run), QuantMax(run), "", "", None)
  }

  function QuantStep(d: string, i: nat, fe: string): (st: Step)
    requires i < |d| && IsQuant(d[i])
    ensures !st.done && i < st.next <= |d| && st.fixedEnd == fe
    ensures forall k :: i <= k < st.next ==> IsQuant(d[k])
    ensures st.next == |d| || !IsQuant(d[st.next])
    ensures st.parts == [QuantPart(d[i..st.next])]
  {
    var j := QuantRunEnd(d, i);
    Step([QuantPart(d[i..j])], j, fe, false)
  }

  /** What an embedded regex with text `text` contributes. */
  function RegexParts(text: string, compiles: string -> bool): seq<MaskPart> {
    if |text| == 0 then []
    else if compiles(text) then [MaskPart(MaskRegExp, 0, MaxCharsForStar, "", "", Some(Regexp(text)))]
    else [MaskPart(MaskWord, 0, 0, RegexErrorMarker, "", None)]
  }

  function RegexCloser(opener: char): char {
    if opener == '`' then '`' else '$'
  }

  /** The backtick and `^` branch: resumes after the closer, or ends the scan when there is none. */
  function RegexStep(d: string, i: nat, fe: string, compiles: string -> bool): (st: Step)
    requires i < |d| && (d[i] == '`' || d[i] == '^')
    ensures st.done || (i + 1 < st.next <= |d| && st.fixedEnd == fe)
  {
    RegexStepAt(d, i, fe, compiles, IndexChar(d[i + 1..], RegexCloser(d[i])))
  }

  /** RegexStep once the closer has been looked for: `p` is its offset after the opener, or negative. */
  function RegexStepAt(d: string, i: nat, fe: string, compiles: string -> bool, p: int): (st: Step)
    requires i < |d| && (d[i] == '`' || d[i] == '^') && p < |d| - i - 1
    ensures st.done || (i + 1 < st.next <= |d| && st.fixedEnd == fe)
  {
    if p < 0 then
      Step(RegexParts(if d[i] == '`' then d[i + 1..] + fe else d[i..] + fe + "$", compiles), |d| + |fe| + 1, "", true)
    else
      var pos := i + 1 + p;
      Step(RegexParts(if d[i] == '`' then d[i + 1..pos] else d[i..pos + 1], compiles), pos + 1, fe, false)
  }

  /**
   * What a regex step that met its closer did: it resumed right after the first
   * closer, a backtick regex dropping both backticks and a `^...$` regex keeping both anchors.
   */
  predicate RegexFound(st: Step, d: string, i: nat, fe: string, compiles: string -> bool)
    requires i < |d|
  {
    && !st.done && i + 1 < st.next <= |d| && st.fixedEnd == fe
    && d[st.next - 1] == RegexCloser(d[i]) && RegexCloser(d[i]) !in d[i + 1..st.next - 1]
    && st.parts == RegexParts(if d[i] == '`' then d[i + 1..st.next - 1] else d[i..st.next], compiles)
  }

  /** A regex with a closer: the scan resumes right after the first closer. */
  lemma RegexStepFound(d: string, i: nat, fe: string, compiles: string -> bool)
    requires i < |d| && (d[i] == '`' || d[i] == '^')
    requires RegexCloser(d[i]) in d[i + 1..]
    ensures RegexFound(RegexStep(d, i, fe, compiles), d, i, fe, compiles)
  {
    FirstCharFrom(d, i + 1, RegexCloser(d[i]));
    var p := IndexChar(d[i + 1..], RegexCloser(d[i]));
    RegexStepAtFound(d, i, fe, compiles, p);
    assert RegexStep(d, i, fe, compiles) == RegexStepAt(d, i, fe, compiles, p);
  }

  /** strings.IndexByte on the suffix from `start` finds the first `c` at or after `start`. */
  lemma FirstCharFrom(d: string, start: nat, c: char)
    requires start <= |d| && c in d[start..]
    ensures var p := IndexChar(d[start..], c);
      && p >= 0 && start + p < |d| && d[start + p] == c && c !in d[start..start + p]
  {
    var p := IndexChar(d[start..], c);
    IndexCharFirst(d[start..], c);
    assert d[start..][..p] == d[start..start + p];
  }

  /** RegexStepFound at a known offset `p` of the first closer. */
  lemma RegexStepAtFound(d: string, i: nat, fe: string, compiles: string -> bool, p: nat)
    requires i < |d| && (d[i] == '`' || d[i] == '^')
    requires i + 1 + p < |d| && d[i + 1 + p] == RegexCloser(d[i]) && RegexCloser(d[i]) !in d[i + 1..i + 1 + p]
    ensures RegexFound(RegexStepAt(d, i, fe, compiles, p), d, i, fe, compiles)
  {
  }

  /** A regex without a closer runs to the end, takes in the literal suffix, which is emptied, and ends the scan. */
  lemma RegexStepMissing(d: string, i: nat, fe: string, compiles: string -> bool)
    requires i < |d| && (d[i] == '`' || d[i] == '^')
    requires RegexCloser(d[i]) !in d[i + 1..]
    ensures var st := RegexStep(d, i, fe, compiles);
      && st.done && |st.fixedEnd| == 0
      && st.parts == RegexParts(if d[i] == '`' then d[i + 1..] + fe else d[i..] + fe + "$", compiles)
  {
  }

  /**
   * A `{`-block whose text starts at `start`: the text up to the first `closer`
   * becomes a part of kind `kind`; with no closer, nothing is emitted and the
   * scan resumes at `start`.
   */
  function BlockStep(d: string, start: nat, closer: string, kind: PartKind, fe: string): (st: Step)
    requires start <= |d| && |closer| > 0
    ensures !st.done && start <= st.next <= |d| && st.fixedEnd == fe
  {
    BlockStepAt(d, start, closer, kind, fe, Index(d[start..], closer))
  }

  /** BlockStep once the closer has been looked for: `p` is its offset from `start`, or negative. */
  function BlockStepAt(d: string, start: nat, closer: string, kind: PartKind, fe: string, p: int): (st: Step)
    requires start <= |d| && (p < 0 || start + p + |closer| <= |d|)
    ensures !st.done && start <= st.next <= |d| && st.fixedEnd == fe
  {
    if p < 0 then Step([], start, fe, false)
    else
      Step([MaskPart(kind, 1, MaxCharsForStar, d[start..start + p], d[start..start + p], None)],
           start + p + |closer|, fe, false)
  }

  /**
   * What a block step that met its closer did: it resumed right after the first
   * closer from `start`, and its one part holds the text before that closer.
   */
  predicate BlockFound(st: Step, d: string, start: nat, closer: string, kind: PartKind) {
    && start + |closer| <= st.next && OccursAt(d, closer, st.next - |closer|)
    && (forall j :: start <= j < st.next - |closer| ==> !OccursAt(d, closer, j))
    && st.parts == [MaskPart(kind, 1, MaxCharsForStar, d[start..st.next - |closer|], d[start..st.next - |closer|], None)]
  }

  /** A block with a closer: its text runs up to the first closer, and the scan resumes right after it. */
  lemma BlockStepFound(d: string, start: nat, closer: string, kind: PartKind, fe: string)
    requires start <= |d| && |closer| > 0
    requires exists j :: start <= j && OccursAt(d, closer, j)
    ensures BlockFound(BlockStep(d, start, closer, kind, fe), d, start, closer, kind)
  {
    FirstFrom(d, start, closer);
    var p := Index(d[start..], closer);
    BlockStepAtFound(d, start, closer, kind, fe, p);
    assert BlockStep(d, start, closer, kind, fe) == BlockStepAt(d, start, closer, kind, fe, p);
  }

  /** strings.Index on the suffix from `start` finds the first occurrence at or after `start`. */
  lemma FirstFrom(d: string, start: nat, sub: string)
    requires start <= |d|
    requires exists j :: start <= j && OccursAt(d, sub, j)
    ensures Index(d[start..], sub) >= 0 && FirstAt(d, start, sub, Index(d[start..], sub))
  {
    var j :| start <= j && OccursAt(d, sub, j);
    OccursShift(d, start, sub, j - start);
    IndexFindsSome(d[start..], sub, j - start);
    SuffixFirst(d, start, sub, Index(d[start..], sub));
  }

  /** `sub` occurs at `start + p` and nowhere from `start` before that. */
  predicate FirstAt(d: string, start: nat, sub: string, p: int) {
    && start + p + |sub| <= |d| && OccursAt(d, sub, start + p)
    && forall k :: start <= k < start + p ==> !OccursAt(d, sub, k)
  }

  /** strings.Index is not -1 when there is an occurrence. */
  lemma IndexFindsSome(s: string, sub: string, j: nat)
    requires OccursAt(s, sub, j)
    ensures Index(s, sub) >= 0
  {
    assert j <= |s| - |sub|;
  }

  /** The first occurrence in the suffix from `start` is the first in the whole from `start`. */
  lemma SuffixFirst(d: string, start: nat, sub: string, p: nat)
    requires start <= |d|
    requires OccursAt(d[start..], sub, p) && forall j :: 0 <= j < p ==> !OccursAt(d[start..], sub, j)
    ensures FirstAt(d, start, sub, p)
  {
    OccursShift(d, start, sub, p);
    forall k | start <= k < start + p ensures !OccursAt(d, sub, k) {
      OccursShift(d, start, sub, k - start);
    }
  }

  /** BlockStepFound at a known offset `p` of the first closer. */
  lemma BlockStepAtFound(d: string, start: nat, closer: string, kind: PartKind, fe: string, p: nat)
    requires FirstAt(d, start, closer, p)
    ensures BlockFound(BlockStepAt(d, start, closer, kind, fe, p), d, start, closer, kind)
  {
  }

  /** A block without a closer emits nothing and the scan resumes where its text starts. */
  lemma BlockStepMissing(d: string, start: nat, closer: string, kind: PartKind, fe: string)
    requires start <= |d| && |closer| > 0
    requires forall j :: start <= j ==> !OccursAt(d, closer, j)
    ensures BlockStep(d, start, closer, kind, fe).parts == [] && BlockStep(d, start, closer, kind, fe).next == start
  {
    forall j: nat ensures !OccursAt(d[start..], closer, j) {
      OccursShift(d, start, closer, j);
    }
    assert BlockStep(d, start, closer, kind, fe) == BlockStepAt(d, start, closer, kind, fe, Index(d[start..], closer));
  }

  /** `{name}` is a one-segment capture, `{{expr}}` a condition. */
  function BraceStep(d: string, i: nat, fe: string): (st: Step)
    requires i + 1 < |d| && d[i] == '{'
    ensures !st.done && i < st.next <= |d| && st.fixedEnd == fe
  {
    if d[i + 1] == '{' then BlockStep(d, i + 2, "}}", MaskCondition, fe)
    else BlockStep(d, i + 1, "}", MaskSlashAware, fe)
  }

  /** An occurrence in a suffix is an occurrence in the whole, shifted. */
  lemma OccursShift(d: string, start: nat, sub: string, j: nat)
    requires start <= |d|
    ensures OccursAt(d[start..], sub, j) <==> OccursAt(d, sub, start + j)
  {
    if start + j + |sub| <= |d| {
      assert d[start..][j..j + |sub|] == d[start + j..start + j + |sub|];
    }
  }

  function WordStep(d: string, i: nat, fe: string): (st: Step)
    requires i < |d| && !IsSpecial(d[i])
    ensures !st.done && i < st.next <= |d| && st.fixedEnd == fe
    ensures NoSpecial(d[i..st.next])
    ensures st.next == |d| || IsSpecial(d[st.next])
    ensures st.parts == [MaskPart(MaskWord, 0, 0, d[i..st.next], "", None)]
  {
    var j := FirstSpecialFrom(d, i + 1);
    Step([MaskPart(MaskWord, 0, 0, d[i..j], "", None)], j, fe, false)
  }

  /** The branch the scan takes on the character at `i`. */
  function NextStep(d: string, i: nat, fe: string, compiles: string -> bool): (st: Step)
    requires i < |d| && MiddleShaped(d)
    ensures st.done || i < st.next <= |d|
  {
    var c := d[i];
    if IsQuant(c) then QuantStep(d, i, fe)
    else if c == '`' || c == '^' then RegexStep(d, i, fe, compiles)
    else if c == '{' then BraceStep(d, i, fe)
    else WordStep(d, i, fe)
  }

  /** The parts the scan appends from position `i` on, and the literal suffix it leaves. */
  function MiddleFrom(d: string, i: nat, fe: string, compiles: string -> bool): (r: (seq<MaskPart>, string))
    requires i <= |d| && MiddleShaped(d)
    ensures r.1 == fe || r.1 == ""
    decreases |d| - i
  {
    if i == |d| then ([], fe)
    else
      var st := NextStep(d, i, fe, compiles);
      if st.done then (st.parts, st.fixedEnd)
      else
        var rest := MiddleFrom(d, st.next, st.fixedEnd, compiles);
        (st.parts + rest.0, rest.1)
  }

  /**
   * ConvertSingleMask as a function of the pattern and of which regex texts compile:
   * the middle scan keeps the flags and FixedStart of the first pass, fills Middle,
   * and leaves FixedEnd as it was or empties it.
   */
  function CompileMask(data: string, compiles: string -> bool): (r: MaskInfo)
    ensures r.(FixedEnd := CutOff(data).FixedEnd, Middle := []) == CutOff(data)
    ensures r.FixedEnd == CutOff(data).FixedEnd || r.FixedEnd == ""
  {
    var cut := CutOff(data);
    var mid := MiddleTextOf(data);
    MiddleTextShaped(data);
    var middle := MiddleFrom(mid, 0, cut.FixedEnd, compiles);
    cut.(FixedEnd := middle.1, Middle := middle.0)
  }

  /** `f` applied to each element of `xs`, in order. */
  function MapSeq<A, B>(f: A -> B, xs: seq<A>): (r: seq<B>)
    ensures |r| == |xs|
  {
    if |xs| == 0 then [] else MapSeq(f, xs[..|xs| - 1]) + [f(xs[|xs| - 1])]
  }

  lemma {:induction false} MapSeqAt<A, B>(f: A -> B, xs: seq<A>, k: nat)
    requires k < |xs|
    ensures MapSeq(f, xs)[k] == f(xs[k])
    decreases |xs|
  {
    if k < |xs| - 1 {
      MapSeqAt(f, xs[..|xs| - 1], k);
    }
  }

  /** The masks of a list of patterns, one per pattern, in order. */
  function CompileAll(patterns: seq<string>, compiles: string -> bool): (r: seq<MaskInfo>)
    ensures |r| == |patterns|
  {
    MapSeq(p => CompileMask(p, compiles), patterns)
  }

  /** The `k`-th mask is the `k`-th pattern compiled on its own. */
  lemma CompileAllAt(patterns: seq<string>, compiles: string -> bool, k: nat)
    requires k < |patterns|
    ensures CompileAll(patterns, compiles)[k] == CompileMask(patterns[k], compiles)
  {
    MapSeqAt(p => CompileMask(p, compiles), patterns, k);
  }

  /** Compiling one more pattern appends its mask. */
  lemma CompileAllSnoc(patterns: seq<string>, compiles: string -> bool, i: nat)
    requires i < |patterns|
    ensures CompileAll(patterns[..i + 1], compiles) == CompileAll(patterns[..i], compiles) + [CompileMask(patterns[i], compiles)]
  {
    assert patterns[..i + 1][..i] == patterns[..i];
  }

  /** The middle text is empty or ends in `?`, `*`, a backtick or `$`. */
  lemma MiddleTextShaped(data: string)
    ensures MiddleShaped(MiddleTextOf(data))
  {
  }

  // ------------------------------------------------------- ScanNamedIds

  /** The names of the captures among `parts`, in order. */
  function NamedIds(parts: seq<MaskPart>): seq<string> {
    if |parts| == 0 then []
    else
      var p := parts[|parts| - 1];
      NamedIds(parts[..|parts| - 1]) + (if p.Kind == MaskSlashAware && |p.Data| > 0 then [p.Data] else [])
  }
}
