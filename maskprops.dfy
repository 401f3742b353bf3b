/**
 * What the pattern compiler of pkg/dvurl/urlparse.go promises about its result,
 * proved about the specification functions of MaskSpec (and so, through the
 * postconditions of DvUrl, about the imperative compiler).
 */
module MaskProps {
  import opened Text
  import opened MaskSpec

  // ------------------------------------------------------------- modifiers

  /** The case flag stays unset exactly when the modifier run has no `<` or `>`. */
  lemma {:induction false} CaseFlagUnset(run: string)
    ensures CaseFlagOf(run) == CaseUnset <==> forall k :: 0 <= k < |run| ==> !IsCaseMark(run[k])
    decreases |run|
  {
    if |run| > 0 {
      var init := run[..|run| - 1];
      CaseFlagUnset(init);
      assert forall k :: 0 <= k < |init| ==> init[k] == run[k];
    }
  }

  /** Otherwise the last `<` or `>` of the run decides it: `<` gives -MatchCaseInsensitive, `>` gives +MatchCaseInsensitive. */
  lemma {:induction false} CaseFlagLastMark(run: string, j: nat)
    requires j < |run| && IsCaseMark(run[j])
    requires forall k :: j < k < |run| ==> !IsCaseMark(run[k])
    ensures CaseFlagOf(run) == if run[j] == '<' then MinusMatchCaseInsensitive else MatchCaseInsensitive
    decreases |run|
  {
    if j < |run| - 1 {
      var init := run[..|run| - 1];
      assert forall k :: j < k < |init| ==> init[k] == run[k];
      CaseFlagLastMark(init, j);
    }
  }

  /** The mask is negative exactly when a `!` occurs in the leading modifier run. */
  lemma NegativeIffBang(data: string)
    ensures CutOff(data).IsNegative <==> exists k :: 0 <= k < ModifierRunLength(data) && data[k] == '!'
  {
    var run := data[..ModifierRunLength(data)];
    if '!' in run {
      var k :| 0 <= k < |run| && run[k] == '!';
      assert data[k] == '!';
    }
    if exists k :: 0 <= k < ModifierRunLength(data) && data[k] == '!' {
      var k :| 0 <= k < ModifierRunLength(data) && data[k] == '!';
      assert run[k] == '!';
    }
  }

  /** The body is a stretch of the pattern: after the modifiers, before the trailing blanks and slashes. */
  lemma BodyIsSlice(data: string)
    ensures var m := ModifierRunLength(data);
      m + |Body(data)| <= |data| && Body(data) == data[m..m + |Body(data)|]
    ensures |Body(data)| > 0 ==> !IsModifier(Body(data)[0]) && !IsBlankOrSlash(Body(data)[|Body(data)| - 1])
  {
    var m := ModifierRunLength(data);
    var r := TrimTrailing(data[m..]);
    assert r == data[m..][..|r|];
    if |r| > 0 {
      assert r[0] == data[m];
    }
  }

  // ------------------------------------------------------------ FixedStart

  /**
   * The literal prefix does not start with a blank or a slash, holds no doubled
   * slash, and takes each of its characters from the text it reads.
   */
  lemma {:induction false} LiteralScanShape(s: string)
    ensures var r := LiteralScan(s).0;
      && (|r| > 0 ==> !IsBlankOrSlash(r[0]))
      && NoDoubleSlash(r)
      && forall k :: 0 <= k < |r| ==> r[k] in s
    decreases |s|
  {
    if |s| > 0 {
      var init := s[..|s| - 1];
      LiteralScanShape(init);
      var prev := LiteralScan(init);
      var c := s[|s| - 1];
      assert forall x :: x in init ==> x in s;
      if !(prev.1 && IsBlankOrSlash(c)) && !(!prev.1 && c == '/' && s[|s| - 2] == '/') {
        var r := prev.0 + [c];
        assert forall k :: 0 <= k < |prev.0| ==> r[k] == prev.0[k];
        if c == '/' && |prev.0| > 0 {
          assert prev.0[|prev.0| - 1] == s[|s| - 2];
        }
      }
    }
  }

  /** The characters of `s` that are neither blank nor slash, in order. */
  function Solid(s: string): (r: string)
    ensures |r| <= |s|
    ensures forall k :: 0 <= k < |r| ==> !IsBlankOrSlash(r[k])
  {
    if |s| == 0 then []
    else Solid(s[..|s| - 1]) + (if IsBlankOrSlash(s[|s| - 1]) then [] else [s[|s| - 1]])
  }

  lemma SolidSnoc(x: string, c: char)
    ensures Solid(x + [c]) == Solid(x) + (if IsBlankOrSlash(c) then [] else [c])
  {
    assert (x + [c])[..|x|] == x;
  }

  /** The literal scan keeps every character that is neither blank nor slash, in order: only blanks and slashes are dropped. */
  lemma {:induction false} LiteralScanKeepsSolid(s: string)
    ensures Solid(LiteralScan(s).0) == Solid(s)
    decreases |s|
  {
    if |s| > 0 {
      var init := s[..|s| - 1];
      var c := s[|s| - 1];
      assert s == init + [c];
      LiteralScanKeepsSolid(init);
      SolidSnoc(init, c);
      var prev := LiteralScan(init);
      if !(prev.1 && IsBlankOrSlash(c)) && !(!prev.1 && c == '/' && s[|s| - 2] == '/') {
        SolidSnoc(prev.0, c);
      }
    }
  }

  /** Appending a character to `x` extends its collapse by it, unless both it and the last character are slashes. */
  lemma {:induction false} CollapseSnoc(x: string, c: char, i: nat)
    requires i <= |x|
    ensures CollapseFrom(x + [c], i)
      == if i < |x| && x[|x| - 1] == '/' && c == '/' then CollapseFrom(x, i) else CollapseFrom(x, i) + [c]
    decreases |x| - i
  {
    var y := x + [c];
    if i < |x| {
      CollapseSnoc(x, c, i + 1);
      assert y[i] == x[i];
      if i + 1 < |x| {
        assert y[i + 1] == x[i + 1];
      } else {
        assert y[i + 1] == c;
      }
    } else {
      assert CollapseFrom(y, |y|) == [];
    }
  }

  /**
   * Without blanks, FixedStart is exactly the text after its leading slashes
   * (the first `lead` characters) with every run of slashes collapsed to one.
   */
  lemma {:induction false} LiteralScanCollapses(s: string, lead: nat)
    requires lead <= |s| && forall k :: 0 <= k < lead ==> s[k] == '/'
    requires lead == |s| || s[lead] != '/'
    requires forall k :: 0 <= k < |s| ==> s[k] > ' '
    ensures LiteralScan(s).0 == CollapseFrom(s, lead)
    ensures LiteralScan(s).1 <==> lead == |s| || (|s| - 2 >= lead && s[|s| - 2] == '/' && s[|s| - 1] == '/')
    decreases |s|
  {
    if |s| > 0 {
      var init := s[..|s| - 1];
      var c := s[|s| - 1];
      assert s == init + [c];
      if lead == |s| {
        LiteralScanCollapses(init, |init|);
        assert CollapseFrom(s, |s|) == [];
      } else if lead == |s| - 1 {
        LiteralScanCollapses(init, |init|);
        assert CollapseFrom(s, |s|) == [];
      } else {
        LiteralScanCollapses(init, lead);
        CollapseSnoc(init, c, lead);
      }
    }
  }

  /** A blank after a doubled slash is dropped with it; anywhere else past the leading run it is kept. */
  lemma LiteralScanBlank(s: string, c: char)
    requires c <= ' '
    ensures LiteralScan(s + [c]).0 == if LiteralScan(s).1 then LiteralScan(s).0 else LiteralScan(s).0 + [c]
  {
    assert (s + [c])[..|s|] == s;
  }

  /** FixedStart holds none of `?`, `*`, `{`, backtick, `^`, no doubled slash, and does not start with a blank or slash. */
  lemma FixedStartShape(data: string)
    ensures var fs := FixedStartOf(data);
      && NoSpecial(fs) && NoDoubleSlash(fs)
      && (|fs| > 0 ==> !IsBlankOrSlash(fs[0]))
  {
    var b := Body(data);
    var lit := b[..StartCut(data)];
    LiteralScanShape(lit);
    assert NoSpecial(lit);
  }

  /** A pattern without `?`, `*`, `{`, backtick or `^` goes wholly into FixedStart: FixedEnd and Middle are empty. */
  lemma LiteralPattern(data: string, compiles: string -> bool)
    requires NoSpecial(data)
    ensures var m := CompileMask(data, compiles);
      && m.FixedStart == LiteralScan(Body(data)).0
      && m.FixedEnd == "" && m.Middle == []
  {
    BodyIsSlice(data);
    var b := Body(data);
    var m := ModifierRunLength(data);
    assert forall k :: 0 <= k < |b| ==> b[k] == data[m + k];
    assert StartCut(data) == |b|;
    assert b[..|b|] == b;
    assert AfterStart(data) == [];
    assert MiddleTextOf(data) == [];
  }

  // -------------------------------------------------------------- FixedEnd

  /**
   * Collapsing keeps no doubled slash, adds no stop character, and keeps a
   * first character that is not a slash.
   */
  lemma {:induction false} CollapseShape(s: string, i: nat)
    requires i <= |s|
    ensures var r := CollapseFrom(s, i);
      && NoDoubleSlash(r)
      && (NoEndStop(s[i..]) ==> NoEndStop(r))
      && (i < |s| && s[i] != '/' ==> |r| > 0 && r[0] == s[i])
    decreases |s| - i
  {
    if i < |s| {
      CollapseShape(s, i + 1);
      var rest := CollapseFrom(s, i + 1);
      if NoEndStop(s[i..]) {
        assert forall k :: i + 1 <= k < |s| ==> s[i..][k - i] == s[k];
      }
      if !(i + 1 < |s| && s[i] == '/' && s[i + 1] == '/') {
        var r := [s[i]] + rest;
        assert forall k :: 0 < k < |r| ==> r[k] == rest[k - 1];
        if i + 1 < |s| && s[i] == '/' {
          assert s[i + 1] != '/';
        }
        if NoEndStop(s[i..]) {
          assert s[i..][0] == s[i];
        }
      }
    }
  }

  /** FixedEnd holds none of `?`, `*`, backtick, `$` and no doubled slash. */
  lemma FixedEndShape(data: string, compiles: string -> bool)
    ensures NoEndStop(CompileMask(data, compiles).FixedEnd)
    ensures NoDoubleSlash(CompileMask(data, compiles).FixedEnd)
  {
    var a := AfterStart(data);
    var k := LastStopEnd(a);
    CollapseShape(a, k);
  }

  // ----------------------------------------------------------- quantifiers

  /** The `Min` of a run counts its `?`. */
  lemma {:induction false} CountQIsCount(run: string)
    ensures CountQ(run) == multiset(run)['?']
    decreases |run|
  {
    if |run| > 0 {
      var init := run[..|run| - 1];
      CountQIsCount(init);
      assert run == init + [run[|run| - 1]];
    }
  }

  /** With no `*` the maximum is the minimum. */
  lemma {:induction false} QuantMaxNoStar(run: string)
    requires '*' !in run
    ensures QuantMax(run) == CountQ(run)
    decreases |run|
  {
    if |run| > 0 {
      var init := run[..|run| - 1];
      assert '*' !in init by {
        assert forall k :: 0 <= k < |init| ==> init[k] == run[k];
      }
      QuantMaxNoStar(init);
    }
  }

  /** With a `*` the maximum is MaxCharsForStar plus the `?` after the last `*`. */
  lemma {:induction false} QuantMaxAfterStar(run: string, j: nat)
    requires j < |run| && run[j] == '*' && '*' !in run[j + 1..]
    ensures QuantMax(run) == MaxCharsForStar + CountQ(run[j + 1..])
    decreases |run|
  {
    if j < |run| - 1 {
      var init := run[..|run| - 1];
      assert init[j + 1..] == run[j + 1..|run| - 1];
      assert run[j + 1..][..|run| - j - 2] == init[j + 1..];
      assert run[|run| - 1] != '*' by {
        assert run[j + 1..][|run| - j - 2] == run[|run| - 1];
      }
      QuantMaxAfterStar(init, j);
    }
  }

  // ----------------------------------------------------------- middle parts

  /** A word part is the regex error marker, or a non-empty literal with no special character. */
  predicate WordClean(p: MaskPart) {
    p.Kind == MaskWord ==> p.Data == RegexErrorMarker || (|p.Data| > 0 && NoSpecial(p.Data))
  }

  predicate WordsClean(parts: seq<MaskPart>) {
    forall k :: 0 <= k < |parts| ==> WordClean(parts[k])
  }

  lemma StepWordsClean(d: string, i: nat, fe: string, compiles: string -> bool)
    requires i < |d| && MiddleShaped(d)
    ensures WordsClean(NextStep(d, i, fe, compiles).parts)
  {
    var c := d[i];
    if IsQuant(c) {
    } else if c == '`' || c == '^' {
    } else if c == '{' {
      var st := BraceStep(d, i, fe);
      if d[i + 1] == '{' {
        BlockKind(d, i + 2, "}}", MaskCondition, fe);
      } else {
        BlockKind(d, i + 1, "}", MaskSlashAware, fe);
      }
    } else {
      var st := WordStep(d, i, fe);
      assert |d[i..st.next]| > 0;
    }
  }

  /** A block step emits only parts of its own kind. */
  lemma BlockKind(d: string, start: nat, closer: string, kind: PartKind, fe: string)
    requires start <= |d| && |closer| > 0
    ensures forall k :: 0 <= k < |BlockStep(d, start, closer, kind, fe).parts| ==>
      BlockStep(d, start, closer, kind, fe).parts[k].Kind == kind
  {
  }

  /** Every word part the scan emits is the error marker or a non-empty literal free of special characters. */
  lemma {:induction false} MiddleWordsClean(d: string, i: nat, fe: string, compiles: string -> bool)
    requires i <= |d| && MiddleShaped(d)
    ensures WordsClean(MiddleFrom(d, i, fe, compiles).0)
    decreases |d| - i
  {
    if i < |d| {
      var st := NextStep(d, i, fe, compiles);
      StepWordsClean(d, i, fe, compiles);
      if !st.done {
        MiddleWordsClean(d, st.next, st.fixedEnd, compiles);
        WordsCleanAppend(st.parts, MiddleFrom(d, st.next, st.fixedEnd, compiles).0);
      }
    }
  }

  lemma WordsCleanAppend(a: seq<MaskPart>, b: seq<MaskPart>)
    requires WordsClean(a) && WordsClean(b)
    ensures WordsClean(a + b)
  {
    assert forall k :: |a| <= k < |a + b| ==> (a + b)[k] == b[k - |a|];
  }

  lemma CompiledWordsClean(data: string, compiles: string -> bool)
    ensures WordsClean(CompileMask(data, compiles).Middle)
  {
    MiddleTextShaped(data);
    MiddleWordsClean(MiddleTextOf(data), 0, CutOff(data).FixedEnd, compiles);
  }

  // ---------------------------------------------------------- ScanNamedIds

  /** The capture names of two runs of parts are those of the first, then those of the second. */
  lemma {:induction false} NamedIdsAppend(a: seq<MaskPart>, b: seq<MaskPart>)
    ensures NamedIds(a + b) == NamedIds(a) + NamedIds(b)
    decreases |b|
  {
    if |b| == 0 {
      assert a + b == a;
    } else {
      var init := b[..|b| - 1];
      NamedIdsAppend(a, init);
      assert (a + b)[..|a + b| - 1] == a + init;
      assert (a + b)[|a + b| - 1] == b[|b| - 1];
    }
  }

  /** Each name is the non-empty Data of a slash-aware part. */
  lemma {:induction false} NamedIdsAreCaptures(parts: seq<MaskPart>)
    ensures forall k :: 0 <= k < |NamedIds(parts)| ==>
      exists j :: 0 <= j < |parts| && parts[j].Kind == MaskSlashAware && parts[j].Data == NamedIds(parts)[k] && |parts[j].Data| > 0
    decreases |parts|
  {
    if |parts| > 0 {
      var init := parts[..|parts| - 1];
      NamedIdsAreCaptures(init);
      var p := parts[|parts| - 1];
      var ids := NamedIds(parts);
      assert ids == NamedIds(init) + (if p.Kind == MaskSlashAware && |p.Data| > 0 then [p.Data] else []);
      forall k | 0 <= k < |ids|
        ensures exists j :: 0 <= j < |parts| && parts[j].Kind == MaskSlashAware && parts[j].Data == ids[k] && |parts[j].Data| > 0
      {
        if k < |NamedIds(init)| {
          var j :| 0 <= j < |init| && init[j].Kind == MaskSlashAware && init[j].Data == NamedIds(init)[k] && |init[j].Data| > 0;
          assert parts[j] == init[j];
        } else {
          assert parts[|parts| - 1].Data == ids[k];
        }
      }
    } else {
      assert NamedIds(parts) == [];
    }
  }

  // ---------------------------------------------------------- one example

  /** The literal scan of "/api/" drops the leading slash and keeps the trailing one. */
  lemma LiteralApi()
    ensures LiteralScan("/api/") == ("api/", false)
  {
    assert "/"[..0] == [];
    assert LiteralScan("/") == ("", true);
    assert "/a"[..1] == "/" && "" + ['a'] == "a";
    assert LiteralScan("/a") == ("a", false);
    assert "/ap"[..2] == "/a" && "a" + ['p'] == "ap";
    assert LiteralScan("/ap") == ("ap", false);
    assert "/api"[..3] == "/ap" && "ap" + ['i'] == "api";
    assert LiteralScan("/api") == ("api", false);
    assert "/api/"[..4] == "/api" && "api" + ['/'] == "api/";
  }
  lemma ApiSplit()
    ensures ModifierRunLength("/api/{id}") == 0 && Body("/api/{id}") == "/api/{id}"
    ensures StartCut("/api/{id}") == 5
  {
    var p := "/api/{id}";
    assert ModifierRunLength(p) == 0;
    assert p[0..] == p;
    assert Body(p) == p;
    assert FirstSpecialFrom(p, 5) == 5;
  }
  lemma ApiSuffix()
    ensures LastStopEnd("{id}") == 0 && CollapseFrom("{id}", 0) == "{id}"
  {
    assert "{id}"[..3] == "{id" && "{id"[..2] == "{i" && "{i"[..1] == "{" && "{"[..0] == [];
    assert CollapseFrom("{id}", 3) == "}";
    assert CollapseFrom("{id}", 2) == "d}";
    assert CollapseFrom("{id}", 1) == "id}";
  }
  /**
   * The pattern "/api/{id}": the code keeps "api/" as the fixed start and, because
   * `}` is no end-stop, the whole "{id}" as the fixed end, so no capture part is made.
   */
  lemma ApiId(compiles: string -> bool)
    ensures CompileMask("/api/{id}", compiles) == MaskInfo(false, CaseUnset, "api/", "{id}", [])
  {
    var p := "/api/{id}";
    ApiSplit();
    LiteralApi();
    ApiSuffix();
    assert p[..5] == "/api/" && p[5..] == "{id}" && p[..0] == [];
    assert CutOff(p) == MaskInfo(false, CaseUnset, "api/", "{id}", []);
    assert MiddleTextOf(p) == [];
  }
}
