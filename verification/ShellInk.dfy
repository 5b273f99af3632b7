// What the scanner keeps: every visible character, in order, and flag offsets that stay
// valid. A fence keeps every visible character; a command line also loses `;` and `\`,
// which the layout adds and drops there.
module ShellInk {
  import opened Text
  import opened ShellScan

  predicate Visible(c: char, fence: bool) {
    !IsSpace(c) && (fence || (c != ';' && c != '\\'))
  }

  function Ink(s: string, fence: bool): string {
    if s == "" then "" else (if Visible(s[0], fence) then [s[0]] else "") + Ink(s[1..], fence)
  }

  lemma {:induction false} InkConcat(a: string, b: string, fence: bool)
    ensures Ink(a + b, fence) == Ink(a, fence) + Ink(b, fence)
  {
    hide IsSpace, Visible;
    if a == "" {
      assert a + b == b;
    } else {
      assert (a + b)[1..] == a[1..] + b && (a + b)[0] == a[0];
      InkConcat(a[1..], b, fence);
      hide Ink;
      InkFirst(a, fence);
      InkFirst(a + b, fence);
      var first := if Visible(a[0], fence) then [a[0]] else "";
      assert first + (Ink(a[1..], fence) + Ink(b, fence)) == (first + Ink(a[1..], fence)) + Ink(b, fence);
    }
  }

  lemma {:induction false} InkFirst(s: string, fence: bool)
    requires s != ""
    ensures Ink(s, fence) == (if Visible(s[0], fence) then [s[0]] else "") + Ink(s[1..], fence)
  {
    hide Visible;
  }

  lemma {:induction false} InkBlank(s: string, fence: bool)
    requires AllSpace(s)
    ensures Ink(s, fence) == ""
  {
    if s != "" {
      InkBlank(s[1..], fence);
    }
  }

  lemma {:induction false} InkCut(s: string, at: nat, fence: bool)
    requires at <= |s|
    ensures Ink(s, fence) == Ink(s[..at], fence) + Ink(s[at..], fence)
  {
    hide *;
    assert s == s[..at] + s[at..];
    InkConcat(s[..at], s[at..], fence);
  }

  lemma {:induction false} InkTrimStart(s: string, fence: bool)
    ensures Ink(TrimStart(s), fence) == Ink(s, fence)
  {
    hide IsSpace, Ink;
    InkCut(s, LeadEnd(s, 0), fence);
    InkBlank(s[..LeadEnd(s, 0)], fence);
  }

  lemma {:induction false} InkTrim(s: string, fence: bool)
    ensures Ink(Trim(s), fence) == Ink(s, fence)
  {
    hide IsSpace, Ink;
    InkTrimStart(s, fence);
    var t := TrimStart(s);
    InkCut(t, TailStart(t, |t|), fence);
    InkBlank(t[TailStart(t, |t|)..], fence);
  }

  // ----- what stages and segments hold -----

  function OpenInk(stages: seq<Stage>, fence: bool): string {
    if stages == [] then "" else Ink(stages[0].text, fence) + "|" + OpenInk(stages[1..], fence)
  }

  function StagesInk(stages: seq<Stage>, fence: bool): string
    requires stages != []
  {
    OpenInk(stages[..|stages| - 1], fence) + Ink(stages[|stages| - 1].text, fence)
  }

  function SegmentInk(seg: Segment, fence: bool): string
    requires seg.stages != []
  {
    StagesInk(seg.stages, fence) + Ink(Suffix(seg.sep, fence), fence)
  }

  predicate HaveStages(segments: seq<Segment>) {
    forall k :: 0 <= k < |segments| ==> segments[k].stages != []
  }

  function SegmentsInk(segments: seq<Segment>, fence: bool): string
    requires HaveStages(segments)
  {
    if segments == [] then ""
    else SegmentsInk(segments[..|segments| - 1], fence) + SegmentInk(segments[|segments| - 1], fence)
  }

  function ScanInk(sc: Scan, fence: bool): string
    requires HaveStages(sc.segments)
  {
    SegmentsInk(sc.segments, fence) + OpenInk(sc.stages, fence) + Ink(sc.current, fence)
  }

  lemma {:induction false} InkNothing(fence: bool)
    ensures Ink("", fence) == "" && Ink(Suffix(NoSep, fence), fence) == ""
    ensures OpenInk([], fence) == "" && SegmentsInk([], fence) == ""
  {
  }

  lemma {:induction false} OpenInkAppend(stages: seq<Stage>, more: seq<Stage>, fence: bool)
    ensures OpenInk(stages + more, fence) == OpenInk(stages, fence) + OpenInk(more, fence)
  {
    hide Ink;
    if stages == [] {
      assert stages + more == more;
    } else {
      assert (stages + more)[1..] == stages[1..] + more;
      OpenInkAppend(stages[1..], more, fence);
    }
  }

  lemma {:induction false} OpenInkPush(stages: seq<Stage>, stage: Stage, fence: bool)
    ensures OpenInk(stages + [stage], fence) == OpenInk(stages, fence) + Ink(stage.text, fence) + "|"
    ensures StagesInk(stages + [stage], fence) == OpenInk(stages, fence) + Ink(stage.text, fence)
  {
    hide Ink;
    OpenInkAppend(stages, [stage], fence);
    assert OpenInk([stage], fence) == Ink(stage.text, fence) + "|";
    assert (stages + [stage])[..|stages|] == stages;
  }

  lemma {:induction false} SegmentsInkPush(segments: seq<Segment>, seg: Segment, fence: bool)
    requires HaveStages(segments) && seg.stages != []
    ensures SegmentsInk(segments + [seg], fence) == SegmentsInk(segments, fence) + SegmentInk(seg, fence)
  {
    hide Ink, StagesInk;
    assert (segments + [seg])[..|segments|] == segments;
  }

  // ----- one step -----

  lemma {:induction false} CutInk(chars: string, i: nat, sep: Sep, n: nat, fence: bool)
    requires i < |chars| && i + n <= |chars|
    requires TopLevel(chars[i], At(chars, i + 1), Before(chars, i)) == Cut(sep, n)
    ensures Ink(chars[i..i + n], fence) == Ink(Suffix(sep, fence), fence)
  {
    hide IsOperator;
    if sep == And || sep == Or {
      assert chars[i..i + n] == [chars[i], chars[i]];
      assert Ink([chars[i], chars[i]][1..], fence) == [chars[i]];
      assert Suffix(sep, fence) == [' ', chars[i], chars[i]];
      assert Suffix(sep, fence)[1..] == [chars[i], chars[i]];
    } else {
      assert chars[i..i + n] == [chars[i]];
      if sep == Background {
        assert Suffix(sep, fence)[1..] == [chars[i]];
      }
    }
  }

  lemma {:induction false} BarInk(chars: string, i: nat, fence: bool)
    requires i < |chars|
    requires TopLevel(chars[i], At(chars, i + 1), Before(chars, i)) == Bar
    ensures Ink(chars[i..i + 1], fence) == "|"
  {
    assert chars[i..i + 1] == ['|'];
  }

  lemma {:induction false} TopLevelOnly(chars: string, i: nat, stack: seq<Ctx>, groups: nat)
    requires i < |chars|
    requires NextAct(chars, i, stack, groups).Cut? || NextAct(chars, i, stack, groups).Bar?
    ensures stack == [] && groups == 0
    ensures NextAct(chars, i, stack, groups) == TopLevel(chars[i], At(chars, i + 1), Before(chars, i))
  {
    hide CloseQuote, IsSpace;
  }

  lemma {:induction false} CopyInk(chars: string, i: nat, n: nat, plain: bool, sc: Scan, fence: bool)
    requires i < |chars| && i + n <= |chars| && HaveStages(sc.segments)
    ensures Copied(chars, i, n, plain, sc).segments == sc.segments
    ensures ScanInk(Copied(chars, i, n, plain, sc), fence) == ScanInk(sc, fence) + Ink(chars[i..i + n], fence)
  {
    hide Ink, OpenInk, SegmentsInk, FlagHere;
    InkConcat(sc.current, chars[i..i + n], fence);
  }

  lemma {:induction false} TakeInk(sc: Scan, fence: bool)
    requires TakeReady(sc) && HaveStages(sc.segments) && StageTaken(sc).Some?
    ensures var took := StageTaken(sc).value;
            && took.segments == sc.segments
            && ScanInk(took, fence) == ScanInk(sc, fence) + "|"
  {
    hide Ink, OpenInk, StagesInk, SegmentsInk, Trim;
    InkNothing(fence);
    InkTrim(sc.current, fence);
    OpenInkPush(sc.stages, StageTaken(sc).value.stages[|sc.stages|], fence);
  }

  lemma {:induction false} EndInk(sc: Scan, sep: Sep, fence: bool)
    requires TakeReady(sc) && HaveStages(sc.segments) && SegmentEnded(sc, sep).Some?
    ensures var ended := SegmentEnded(sc, sep).value;
            && HaveStages(ended.segments)
            && ScanInk(ended, fence) == ScanInk(sc, fence) + Ink(Suffix(sep, fence), fence)
            && SegmentsInk(ended.segments, fence) == ScanInk(ended, fence)
  {
    hide Ink, OpenInk, StagesInk, SegmentsInk, Trim, Suffix;
    InkNothing(fence);
    InkTrim(sc.current, fence);
    var took := StageTaken(sc).value;
    OpenInkPush(sc.stages, took.stages[|sc.stages|], fence);
    SegmentsInkPush(sc.segments, Segment(took.stages, sep), fence);
  }

  lemma {:induction false} StepInk(chars: string, p: Pos, fence: bool)
    requires Ok(chars, p) && p.i < |chars| && HaveStages(p.sc.segments) && Step(chars, p).Some?
    ensures var q := Step(chars, p).value;
            && p.i <= q.i <= |chars| && HaveStages(q.sc.segments)
            && ScanInk(q.sc, fence) == ScanInk(p.sc, fence) + Ink(chars[p.i..q.i], fence)
  {
    hide Ink, ScanInk, NextAct, TopLevel, SegmentEnded, StageTaken, Copied, FlagsGrowing, Suffix;
    StepOk(chars, p);
    ReadyFromGrowing(chars, p.i, p.stack, p.groups, p.sc);
    var a := NextAct(chars, p.i, p.stack, p.groups);
    if a.Copy? {
      CopyInk(chars, p.i, a.n, a.plain, p.sc, fence);
    } else {
      TopLevelOnly(chars, p.i, p.stack, p.groups);
      if a.Cut? {
        EndInk(p.sc, a.sep, fence);
        CutInk(chars, p.i, a.sep, a.n, fence);
      } else {
        TakeInk(p.sc, fence);
        BarInk(chars, p.i, fence);
      }
    }
  }

  lemma {:induction false} FinishInk(sc: Scan, fence: bool)
    requires TakeReady(sc) && HaveStages(sc.segments) && Finished(sc).Some?
    ensures HaveStages(Finished(sc).value)
    ensures SegmentsInk(Finished(sc).value, fence) == ScanInk(sc, fence)
  {
    hide Ink, StagesInk, SegmentsInk, SegmentEnded;
    InkNothing(fence);
    if Trim(sc.current) == "" && sc.stages == [] {
      InkTrim(sc.current, fence);
    } else {
      EndInk(sc, NoSep, fence);
    }
  }

  lemma {:induction false} ScanFromKeepsInk(chars: string, p: Pos, fence: bool)
    requires Ok(chars, p) && HaveStages(p.sc.segments) && ScanFrom(chars, p).Some?
    ensures HaveStages(ScanFrom(chars, p).value)
    ensures SegmentsInk(ScanFrom(chars, p).value, fence) == ScanInk(p.sc, fence) + Ink(chars[p.i..], fence)
    decreases |chars| - p.i
  {
    hide Ink, ScanInk, Step, FlagsGrowing, Finished, SegmentsInk;
    InkNothing(fence);
    if p.i == |chars| {
      assert chars[p.i..] == "";
      ReadyFromGrowing(chars, p.i, p.stack, p.groups, p.sc);
      FinishInk(p.sc, fence);
    } else {
      StepOk(chars, p);
      var q := Step(chars, p).value;
      StepInk(chars, p, fence);
      ScanFromKeepsInk(chars, q, fence);
      assert chars[p.i..] == chars[p.i..q.i] + chars[q.i..];
      InkConcat(chars[p.i..q.i], chars[q.i..], fence);
    }
  }

  // Scanning loses no visible character and reorders none.
  lemma {:induction false} ScanKeepsInk(chars: string, fence: bool)
    requires ScanSpec(chars).Some?
    ensures HaveStages(ScanSpec(chars).value)
    ensures SegmentsInk(ScanSpec(chars).value, fence) == Ink(chars, fence)
  {
    hide ScanFrom, IsSpace, Ink, FlagsGrowing;
    assert Ok(chars, Pos(0, [], 0, START)) by { StartOk(chars); }
    ScanFromKeepsInk(chars, Pos(0, [], 0, START), fence);
    InkNothing(fence);
    assert chars[0..] == chars;
  }
}
