// Printing keeps the command: the visible characters of the laid out lines, once the
// continuation backslashes are taken off, are those of the command in the same order.
module ShellConserve {
  import opened Text
  import opened ShellScan
  import opened ShellShape
  import opened ShellInk
  import opened ShellLayout

  predicate EndsOpen(line: string) {
    line != "" && line[|line| - 1] == '\\'
  }

  function DropTail(line: string): string {
    if EndsOpen(line) then line[..|line| - 1] else line
  }

  // The ink of lines that another line follows: a trailing backslash is a continuation.
  function AllInk(lines: seq<string>, fence: bool): string {
    if lines == [] then ""
    else AllInk(lines[..|lines| - 1], fence) + Ink(DropTail(lines[|lines| - 1]), fence)
  }

  // The ink of a whole text: the last line keeps its last character.
  function LinesInk(lines: seq<string>, fence: bool): string {
    if lines == [] then ""
    else AllInk(lines[..|lines| - 1], fence) + Ink(lines[|lines| - 1], fence)
  }

  // No continuation hangs at the end of the lines.
  predicate Settled(lines: seq<string>, fence: bool) {
    fence && lines != [] ==> !EndsOpen(lines[|lines| - 1])
  }

  // A line that `str::lines` gives back, ending in a visible character.
  predicate GoodLine(line: string) {
    line != "" && PlainLine(line) && !IsSpace(line[|line| - 1])
  }

  predicate GoodLines(lines: seq<string>) {
    forall k :: 0 <= k < |lines| ==> GoodLine(lines[k])
  }

  lemma {:induction false} AllInkAppend(a: seq<string>, b: seq<string>, fence: bool)
    ensures AllInk(a + b, fence) == AllInk(a, fence) + AllInk(b, fence)
  {
    hide Ink, DropTail;
    if b == [] {
      assert a + b == a;
    } else {
      var front, last := b[..|b| - 1], b[|b| - 1];
      assert (a + b)[..|a + b| - 1] == a + front;
      AllInkAppend(a, front, fence);
    }
  }

  lemma {:induction false} DropTailCommand(line: string)
    ensures Ink(DropTail(line), false) == Ink(line, false)
  {
    hide IsSpace, Ink;
    if EndsOpen(line) {
      var front := line[..|line| - 1];
      assert line == front + "\\";
      InkConcat(front, "\\", false);
      BackslashInk();
    }
  }

  lemma {:induction false} BackslashInk()
    ensures Ink("\\", false) == ""
  {
  }

  lemma {:induction false} SettledInk(lines: seq<string>, fence: bool)
    requires Settled(lines, fence)
    ensures LinesInk(lines, fence) == AllInk(lines, fence)
  {
    hide Ink;
    if lines != [] && !fence {
      DropTailCommand(lines[|lines| - 1]);
    }
  }

  lemma {:induction false} LinesInkAppend(a: seq<string>, b: seq<string>, fence: bool)
    requires Settled(a, fence) && b != []
    ensures LinesInk(a + b, fence) == LinesInk(a, fence) + LinesInk(b, fence)
  {
    hide Ink, AllInk, Settled;
    SettledInk(a, fence);
    var front := b[..|b| - 1];
    assert (a + b)[..|a + b| - 1] == a + front;
    AllInkAppend(a, front, fence);
  }

  lemma {:induction false} OneLineInk(line: string, fence: bool)
    ensures LinesInk([line], fence) == Ink(line, fence)
    ensures AllInk([line], fence) == Ink(DropTail(line), fence)
  {
    hide Ink, DropTail;
    assert [line][..0] == [];
  }

  lemma {:induction false} LineInk(indent: nat, text: string, sep: Sep, fence: bool)
    ensures Ink(Line(indent, text, sep, fence), fence) == Ink(text, fence) + Ink(Suffix(sep, fence), fence)
  {
    hide Ink, Suffix;
    InkConcat(Repeat(' ', indent) + text, Suffix(sep, fence), fence);
    InkConcat(Repeat(' ', indent), text, fence);
    InkBlank(Repeat(' ', indent), fence);
  }

  lemma {:induction false} SuffixVisible(sep: Sep, fence: bool)
    ensures var s := Suffix(sep, fence);
            && PlainLine(s)
            && (s != "" ==> !IsSpace(s[|s| - 1]) && s[|s| - 1] != '\\')
            && (fence && sep != NoSep ==> s != "")
  {
  }

  lemma {:induction false} LineGood(indent: nat, text: string, sep: Sep, fence: bool)
    requires GoodLine(text)
    ensures GoodLine(Line(indent, text, sep, fence))
    ensures fence && sep != NoSep ==> !EndsOpen(Line(indent, text, sep, fence))
  {
    hide IsSpace, Suffix;
    SuffixVisible(sep, fence);
  }

  // ----- one stage -----

  lemma {:induction false} PieceInk(indent: nat, prefix: string, stage: Stage, fence: bool, k: nat)
    requires FlagsOk(stage.text, stage.flags) && k < |stage.flags|
    ensures PieceStart(stage.flags, k) < stage.flags[k] < |stage.text|
    ensures Ink(DropTail(PieceLine(indent, prefix, stage, fence, k)), fence)
         == (if k == 0 then Ink(prefix, fence) else "")
            + Ink(stage.text[PieceStart(stage.flags, k)..stage.flags[k]], fence)
  {
    hide Ink, IsSpace, FlagsOk;
    PieceBounds(stage.text, stage.flags, k);
    var start, end := PieceStart(stage.flags, k), stage.flags[k];
    var text := stage.text[start..end - 1];
    var lead := if k == 0 then prefix else "";
    var at := if k == 0 then indent else indent + INDENT;
    assert PieceLine(indent, prefix, stage, fence, k) == (Repeat(' ', at) + (lead + text) + " ") + "\\" by {
      assert Suffix(NoSep, fence) == "";
      assert " \\" == " " + "\\";
    }
    assert DropTail(PieceLine(indent, prefix, stage, fence, k)) == Repeat(' ', at) + (lead + text) + " ";
    PieceTextInk(at, lead, text, fence);
    BlankAfter(stage.text, start, end, fence, stage.flags, k);
    EmptyInk(fence);
  }

  lemma {:induction false} EmptyInk(fence: bool)
    ensures Ink("", fence) == ""
  {
  }

  lemma {:induction false} PieceTextInk(at: nat, lead: string, text: string, fence: bool)
    ensures Ink(Repeat(' ', at) + (lead + text) + " ", fence) == Ink(lead, fence) + Ink(text, fence)
  {
    hide Ink;
    InkConcat(Repeat(' ', at) + (lead + text), " ", fence);
    InkConcat(Repeat(' ', at), lead + text, fence);
    InkConcat(lead, text, fence);
    InkBlank(Repeat(' ', at), fence);
    InkBlank(" ", fence);
  }

  // The blank before a flag is not visible.
  lemma {:induction false} BlankAfter(text: string, start: nat, end: nat, fence: bool, flags: seq<nat>, k: nat)
    requires FlagsOk(text, flags) && k < |flags| && end == flags[k] && start < end < |text|
    ensures Ink(text[start..end], fence) == Ink(text[start..end - 1], fence)
  {
    hide Ink, IsSpace;
    assert IsSpace(text[end - 1]);
    assert text[start..end] == text[start..end - 1] + [text[end - 1]];
    InkConcat(text[start..end - 1], [text[end - 1]], fence);
    InkBlank([text[end - 1]], fence);
  }

  lemma {:induction false} PiecesPushInk(indent: nat, prefix: string, stage: Stage, fence: bool, k: nat)
    requires FlagsOk(stage.text, stage.flags) && k < |stage.flags|
    ensures AllInk(Pieces(indent, prefix, stage, fence, k + 1), fence)
         == AllInk(Pieces(indent, prefix, stage, fence, k), fence)
            + Ink(DropTail(PieceLine(indent, prefix, stage, fence, k)), fence)
  {
    hide Ink, FlagsOk, PieceLine, DropTail, AllInk;
    var line := PieceLine(indent, prefix, stage, fence, k);
    AllInkAppend(Pieces(indent, prefix, stage, fence, k), [line], fence);
    OneLineInk(line, fence);
  }

  lemma {:induction false} PrefixInk(text: string, start: nat, end: nat, fence: bool)
    requires start <= end <= |text|
    ensures Ink(text[..end], fence) == Ink(text[..start], fence) + Ink(text[start..end], fence)
  {
    hide Ink;
    assert text[..end] == text[..start] + text[start..end];
    InkConcat(text[..start], text[start..end], fence);
  }

  lemma {:induction false} NoPiecesInk(indent: nat, prefix: string, stage: Stage, fence: bool)
    requires FlagsOk(stage.text, stage.flags)
    ensures AllInk(Pieces(indent, prefix, stage, fence, 0), fence) == "" && Ink(stage.text[..0], fence) == ""
  {
    hide FlagsOk, PieceLine, DropTail;
  }

  lemma {:induction false} PiecesInk(indent: nat, prefix: string, stage: Stage, fence: bool, k: nat)
    requires FlagsOk(stage.text, stage.flags) && k <= |stage.flags|
    ensures PieceStart(stage.flags, k) <= |stage.text|
    ensures AllInk(Pieces(indent, prefix, stage, fence, k), fence)
         == (if k == 0 then "" else Ink(prefix, fence)) + Ink(stage.text[..PieceStart(stage.flags, k)], fence)
  {
    hide Ink, FlagsOk, PieceLine, DropTail, AllInk, Pieces;
    PieceBounds(stage.text, stage.flags, k);
    NoPiecesInk(indent, prefix, stage, fence);
    if k > 0 {
      PieceBounds(stage.text, stage.flags, k - 1);
      PiecesInk(indent, prefix, stage, fence, k - 1);
      PiecesPushInk(indent, prefix, stage, fence, k - 1);
      PieceInk(indent, prefix, stage, fence, k - 1);
      PrefixInk(stage.text, PieceStart(stage.flags, k - 1), stage.flags[k - 1], fence);
    }
  }

  lemma {:induction false} StageLinesInk(indent: nat, prefix: string, stage: Stage, sep: Sep, width: nat, fence: bool)
    requires FlagsOk(stage.text, stage.flags)
    ensures StageLines(indent, prefix, stage, sep, width, fence) != []
    ensures LinesInk(StageLines(indent, prefix, stage, sep, width, fence), fence)
         == Ink(prefix, fence) + Ink(stage.text, fence) + Ink(Suffix(sep, fence), fence)
  {
    hide Ink, FlagsOk, AllInk, Pieces, Suffix, Line;
    var n := |stage.flags|;
    var lines := StageLines(indent, prefix, stage, sep, width, fence);
    var front := lines[..|lines| - 1];
    if indent + |prefix| + |stage.text| + |Suffix(sep, fence)| <= width || n == 0 {
      OneLineInk(lines[0], fence);
      LineInk(indent, prefix + stage.text, sep, fence);
      InkConcat(prefix, stage.text, fence);
    } else {
      PieceBounds(stage.text, stage.flags, n);
      assert front == Pieces(indent, prefix, stage, fence, n);
      PiecesInk(indent, prefix, stage, fence, n);
      LineInk(indent + INDENT, stage.text[PieceStart(stage.flags, n)..], sep, fence);
      InkCut(stage.text, PieceStart(stage.flags, n), fence);
    }
  }

  lemma {:induction false} GoodSlice(text: string, start: nat)
    requires GoodLine(text) && start < |text|
    ensures GoodLine(text[start..])
  {
    hide IsSpace;
  }

  lemma {:induction false} GoodPrefixed(prefix: string, text: string)
    requires PlainLine(prefix) && GoodLine(text)
    ensures GoodLine(prefix + text)
  {
    hide IsSpace;
  }

  lemma {:induction false} PieceGood(indent: nat, prefix: string, stage: Stage, fence: bool, k: nat)
    requires StageOk(stage) && PlainLine(prefix) && k < |stage.flags|
    ensures GoodLine(PieceLine(indent, prefix, stage, fence, k))
  {
    hide FlagsOk;
    PieceBounds(stage.text, stage.flags, k);
    var text := stage.text[PieceStart(stage.flags, k)..stage.flags[k] - 1];
    var full := (if k == 0 then prefix else "") + text + " \\";
    assert PlainLine(full);
    assert !IsSpace('\\');
    hide IsSpace, PlainLine;
    LineGood(if k == 0 then indent else indent + INDENT, full, NoSep, fence);
    assert "" + text + " \\" == text + " \\";
  }

  lemma {:induction false} PiecesGood(indent: nat, prefix: string, stage: Stage, fence: bool, k: nat)
    requires StageOk(stage) && PlainLine(prefix) && k <= |stage.flags|
    ensures GoodLines(Pieces(indent, prefix, stage, fence, k))
  {
    hide StageOk, GoodLine, PieceLine, PlainLine;
    if k > 0 {
      PiecesGood(indent, prefix, stage, fence, k - 1);
      PieceGood(indent, prefix, stage, fence, k - 1);
    }
  }

  lemma {:induction false} StageGood(stage: Stage)
    requires StageOk(stage)
    ensures GoodLine(stage.text) && FlagsOk(stage.text, stage.flags)
  {
    hide IsSpace, FlagsOk;
  }

  lemma {:induction false} StageLinesGood(indent: nat, prefix: string, stage: Stage, sep: Sep, width: nat, fence: bool)
    requires StageOk(stage) && PlainLine(prefix)
    ensures var lines := StageLines(indent, prefix, stage, sep, width, fence);
            && lines != [] && GoodLines(lines)
            && (sep != NoSep ==> Settled(lines, fence))
  {
    hide StageOk, FlagsOk, GoodLine, Pieces, Suffix, Line, PlainLine, EndsOpen;
    StageGood(stage);
    var n := |stage.flags|;
    if indent + |prefix| + |stage.text| + |Suffix(sep, fence)| <= width || n == 0 {
      GoodPrefixed(prefix, stage.text);
      LineGood(indent, prefix + stage.text, sep, fence);
    } else {
      PieceBounds(stage.text, stage.flags, n);
      LastPieceStart(stage);
      PiecesGood(indent, prefix, stage, fence, n);
      GoodSlice(stage.text, PieceStart(stage.flags, n));
      LineGood(indent + INDENT, stage.text[PieceStart(stage.flags, n)..], sep, fence);
    }
  }

  lemma {:induction false} LastPieceStart(stage: Stage)
    requires StageOk(stage)
    ensures PieceStart(stage.flags, |stage.flags|) < |stage.text|
  {
    hide IsSpace;
  }

  // ----- pipelines and statements -----

  lemma {:induction false} StagesInkPush(stages: seq<Stage>, k: nat, fence: bool)
    requires k < |stages|
    ensures OpenInk(stages[..k + 1], fence) == OpenInk(stages[..k], fence) + Ink(stages[k].text, fence) + "|"
    ensures StagesInk(stages[..k + 1], fence) == OpenInk(stages[..k], fence) + Ink(stages[k].text, fence)
  {
    hide Ink, OpenInk, StagesInk;
    assert stages[..k + 1] == stages[..k] + [stages[k]];
    OpenInkPush(stages[..k], stages[k], fence);
  }

  // The ink of the first `k` stages of a pipeline that is split over lines.
  function PipeInk(stages: seq<Stage>, sep: Sep, fence: bool, k: nat): string
    requires k <= |stages|
  {
    if k == 0 then ""
    else if k == |stages| then StagesInk(stages[..k], fence) + Ink(Suffix(sep, fence), fence)
    else if fence then OpenInk(stages[..k], fence)
    else StagesInk(stages[..k], fence)
  }

  lemma {:induction false} PipeSigns()
    ensures Ink(Suffix(Pipe, true), true) == "|" && Ink("| ", false) == "|"
    ensures Ink(Suffix(NoSep, false), false) == "" && Ink("", true) == "" && Ink("", false) == ""
    ensures PlainLine("| ") && PlainLine("")
  {
    assert " |"[1..] == "|" && "| "[1..] == " ";
  }

  lemma {:induction false} PipeInkStep(stages: seq<Stage>, sep: Sep, fence: bool, k: nat)
    requires k < |stages|
    ensures PipeInk(stages, sep, fence, k + 1)
         == PipeInk(stages, sep, fence, k)
            + Ink(if k == 0 || fence then "" else "| ", fence) + Ink(stages[k].text, fence)
            + Ink(Suffix(if k + 1 == |stages| then sep else if fence then Pipe else NoSep, fence), fence)
  {
    hide Ink, StagesInk, OpenInk, Suffix;
    StagesInkPush(stages, k, fence);
    if k > 0 {
      StagesInkPush(stages, k - 1, fence);
    }
    PipeSigns();
    assert OpenInk(stages[..0], fence) == "" by { InkNothing(fence); assert stages[..0] == []; }
    assert stages[..0] == [];
  }

  // One more stage of a split pipeline, printed behind the earlier ones.
  lemma {:induction false} PipeStageInk(indent: nat, stages: seq<Stage>, sep: Sep, width: nat, fence: bool, k: nat)
    requires StagesOk(stages) && k < |stages|
    requires var before := PipeLines(indent, stages, sep, width, fence, k);
             GoodLines(before) && Settled(before, fence) && LinesInk(before, fence) == PipeInk(stages, sep, fence, k)
    ensures var lines := PipeLines(indent, stages, sep, width, fence, k + 1);
            && lines != [] && GoodLines(lines)
            && LinesInk(lines, fence) == PipeInk(stages, sep, fence, k + 1)
            && ((k + 1 < |stages| || sep != NoSep) ==> Settled(lines, fence))
  {
    hide Ink, PipeInk, StageLines, StageOk, GoodLine, LinesInk, PlainLine, FlagsOk, Suffix, EndsOpen;
    var at := if k == 0 then indent else indent + INDENT;
    var prefix := if k == 0 || fence then "" else "| ";
    var suffix := if k + 1 == |stages| then sep else if fence then Pipe else NoSep;
    PipeSigns();
    StageFlags(stages, k);
    StageLinesInk(at, prefix, stages[k], suffix, width, fence);
    StageLinesGood(at, prefix, stages[k], suffix, width, fence);
    LinesInkAppend(PipeLines(indent, stages, sep, width, fence, k),
                   StageLines(at, prefix, stages[k], suffix, width, fence), fence);
    PipeInkStep(stages, sep, fence, k);
  }

  lemma {:induction false} PipeLinesInk(indent: nat, stages: seq<Stage>, sep: Sep, width: nat, fence: bool, k: nat)
    requires StagesOk(stages) && k <= |stages|
    ensures var lines := PipeLines(indent, stages, sep, width, fence, k);
            && (k > 0 ==> lines != []) && GoodLines(lines)
            && LinesInk(lines, fence) == PipeInk(stages, sep, fence, k)
            && ((k < |stages| || sep != NoSep) ==> Settled(lines, fence))
  {
    hide *;
    if k == 0 {
      PipeInkNone(indent, stages, sep, width, fence);
    } else {
      PipeLinesInk(indent, stages, sep, width, fence, k - 1);
      PipeStageInk(indent, stages, sep, width, fence, k - 1);
    }
  }

  lemma {:induction false} PipeInkNone(indent: nat, stages: seq<Stage>, sep: Sep, width: nat, fence: bool)
    requires StagesOk(stages)
    ensures PipeInk(stages, sep, fence, 0) == "" && PipeLines(indent, stages, sep, width, fence, 0) == []
    ensures GoodLines([]) && Settled([], fence) && LinesInk([], fence) == ""
  {
    hide StageOk, StageLines, Ink, StagesInk;
  }

  lemma {:induction false} JoinInk(stages: seq<Stage>, fence: bool)
    requires stages != []
    ensures Ink(JoinStages(stages), fence) == StagesInk(stages, fence)
  {
    hide Ink;
    var texts := Texts(stages);
    if |stages| == 1 {
      assert stages[..0] == [];
    } else {
      var rest := stages[1..];
      JoinInk(rest, fence);
      assert Texts(rest) == texts[1..];
      JoinedInk(stages[0].text, JoinStages(rest), fence);
      assert stages[..|stages| - 1][1..] == rest[..|rest| - 1];
    }
  }

  lemma {:induction false} JoinedInk(a: string, b: string, fence: bool)
    ensures Ink(a + " | " + b, fence) == Ink(a, fence) + "|" + Ink(b, fence)
  {
    BarAlone(fence);
    hide Ink;
    InkConcat(a + " | ", b, fence);
    InkConcat(a, " | ", fence);
  }

  lemma {:induction false} InkOne(c: char, fence: bool)
    ensures Ink([c], fence) == if Visible(c, fence) then [c] else ""
  {
    hide IsSpace;
  }

  lemma {:induction false} BarAlone(fence: bool)
    ensures Ink(" | ", fence) == "|"
  {
    InkOne(' ', fence);
    InkOne('|', fence);
    assert " " == [' '] && "|" == ['|'];
    hide Ink;
    InkConcat(" ", "|", fence);
    InkConcat(" |", " ", fence);
    assert " |" + " " == " | ";
  }

  lemma {:induction false} JoinGood(stages: seq<Stage>)
    requires stages != [] && StagesOk(stages)
    ensures GoodLine(JoinStages(stages))
  {
    hide IsSpace, FlagsOk;
    assert StageOk(stages[0]);
    if |stages| > 1 {
      assert forall k :: 0 <= k < |stages[1..]| ==> StageOk(stages[1..][k]);
      JoinGood(stages[1..]);
      assert Texts(stages[1..]) == Texts(stages)[1..];
      GoodPrefixed(stages[0].text + " | ", JoinStages(stages[1..]));
    }
  }

  lemma {:induction false} JoinedLine(indent: nat, stages: seq<Stage>, sep: Sep, fence: bool)
    requires stages != [] && StagesOk(stages)
    ensures var line := Line(indent, JoinStages(stages), sep, fence);
            && GoodLine(line)
            && LinesInk([line], fence) == StagesInk(stages, fence) + Ink(Suffix(sep, fence), fence)
            && (sep != NoSep ==> Settled([line], fence))
  {
    hide Ink, JoinStages, GoodLine, Line, StagesInk, StageOk, AllInk, LinesInk, EndsOpen;
    JoinGood(stages);
    JoinInk(stages, fence);
    LineGood(indent, JoinStages(stages), sep, fence);
    LineInk(indent, JoinStages(stages), sep, fence);
    OneLineInk(Line(indent, JoinStages(stages), sep, fence), fence);
  }

  lemma {:induction false} StatementInk(indent: nat, stages: seq<Stage>, sep: Sep, width: nat, fence: bool)
    requires StagesOk(stages) && stages != []
    ensures var lines := StatementLines(indent, stages, sep, width, fence);
            && lines != [] && GoodLines(lines)
            && LinesInk(lines, fence) == StagesInk(stages, fence) + Ink(Suffix(sep, fence), fence)
            && (sep != NoSep ==> Settled(lines, fence))
  {
    hide Ink, JoinStages, GoodLine, Line, StageOk, LinesInk, OpenInk, PipeLines, StageLines, Settled, Suffix, FlagsOk;
    if |stages| > 1 && indent + |JoinStages(stages)| + |Suffix(sep, fence)| > width {
      PipeLinesInk(indent, stages, sep, width, fence, |stages|);
      assert stages[..|stages|] == stages;
    } else if |stages| == 1 {
      StageFlags(stages, 0);
      assert PlainLine("");
      StageLinesInk(indent, "", stages[0], sep, width, fence);
      StageLinesGood(indent, "", stages[0], sep, width, fence);
      PipeSigns();
      assert stages[..0] == [];
      InkNothing(fence);
    } else {
      JoinedLine(indent, stages, sep, fence);
    }
  }

  // ----- one segment -----

  // `after` prints `ink` more than `before`; `settled` says no continuation hangs behind it.
  predicate Grew(before: seq<string>, after: seq<string>, ink: string, fence: bool, settled: bool) {
    && after != [] && GoodLines(after)
    && LinesInk(after, fence) == LinesInk(before, fence) + ink
    && (settled ==> Settled(after, fence))
  }

  lemma {:induction false} GrewLines(before: seq<string>, more: seq<string>, ink: string, fence: bool, settled: bool)
    requires GoodLines(before) && Settled(before, fence)
    requires more != [] && GoodLines(more) && LinesInk(more, fence) == ink && (settled ==> Settled(more, fence))
    ensures Grew(before, before + more, ink, fence, settled)
  {
    hide LinesInk, GoodLine, EndsOpen;
    LinesInkAppend(before, more, fence);
  }

  lemma {:induction false} TailInk(before: seq<string>, more: string, fence: bool)
    requires before != []
    ensures LinesInk(AppendLast(before, more), fence) == LinesInk(before, fence) + Ink(more, fence)
  {
    hide Ink, AllInk;
    var after := AppendLast(before, more);
    assert after[..|after| - 1] == before[..|before| - 1];
    InkConcat(before[|before| - 1], more, fence);
  }

  lemma {:induction false} GoodTail(line: string, more: string)
    requires GoodLine(line) && PlainLine(more)
    requires more != "" ==> !IsSpace(more[|more| - 1]) && more[|more| - 1] != '\\'
    ensures GoodLine(line + more)
    ensures !EndsOpen(line) ==> !EndsOpen(line + more)
  {
    hide IsSpace;
    assert more == "" ==> line + more == line;
  }

  lemma {:induction false} GrewTail(before: seq<string>, more: string, fence: bool)
    requires GoodLines(before) && before != [] && Settled(before, fence)
    requires PlainLine(more) && (more != "" ==> !IsSpace(more[|more| - 1]) && more[|more| - 1] != '\\')
    ensures Grew(before, AppendLast(before, more), Ink(more, fence), fence, true)
  {
    hide Ink, IsSpace, LinesInk, EndsOpen, GoodLine, PlainLine;
    TailInk(before, more, fence);
    assert GoodLine(before[|before| - 1]);
    GoodTail(before[|before| - 1], more);
  }

  lemma {:induction false} WordInk(stages: seq<Stage>, fence: bool)
    requires StagesOk(stages) && stages != []
    ensures var first := AfterWord(stages[0]);
            StagesInk(stages, fence) == Ink(FirstWord(stages[0].text), fence) + StagesInk(stages[0 := first], fence)
  {
    hide Ink, FirstWord, AfterWord, StageOk;
    var stage := stages[0];
    var word, first := FirstWord(stage.text), AfterWord(stage);
    AfterWordInk(stage, fence);
    var after := stages[0 := first];
    if |stages| == 1 {
      assert stages[..0] == after[..0] == [];
    } else {
      assert stages[..|stages| - 1][1..] == after[..|stages| - 1][1..];
    }
  }

  lemma {:induction false} AfterWordInk(stage: Stage, fence: bool)
    requires StageOk(stage)
    ensures Ink(stage.text, fence) == Ink(FirstWord(stage.text), fence) + Ink(AfterWord(stage).text, fence)
  {
    hide Ink, StageOk, FirstWord, LaterFlags;
    AfterWordSlice(stage);
    var word := FirstWord(stage.text);
    InkConcat(word, stage.text[|word|..], fence);
    InkTrimStart(stage.text[|word|..], fence);
  }

  lemma {:induction false} KeywordPlain(word: string)
    requires ParseKeyword(word).Some?
    ensures GoodLine(word) && !EndsOpen(word)
    ensures ParseKeyword(word) == Some(Else) ==> word == "else"
  {
  }

  lemma {:induction false} JoinerInk(word: string, fence: bool)
    requires ParseKeyword(word).Some?
    ensures var more := (if fence then " " else "; ") + word;
            && Ink(more, fence) == Ink(word, fence)
            && PlainLine(more) && !IsSpace(more[|more| - 1]) && more[|more| - 1] != '\\'
  {
    hide Ink, IsSpace, ParseKeyword, PlainLine;
    KeywordPlain(word);
    JoinerBlank(fence);
    var joiner := if fence then " " else "; ";
    InkConcat(joiner, word, fence);
    PlainPieces(joiner, word);
  }

  lemma {:induction false} JoinerBlank(fence: bool)
    ensures var joiner := if fence then " " else "; "; Ink(joiner, fence) == "" && PlainLine(joiner)
  {
    hide Ink;
    InkOne(' ', fence);
    if !fence {
      InkOne(';', fence);
      InkConcat(";", " ", fence);
      assert ";" + " " == "; ";
    }
  }

  lemma {:induction false} KeywordInk(lay: Lay, keyword: Keyword, word: string, stages: seq<Stage>, sep: Sep, fence: bool)
    requires LayOk(lay) && StagesOk(stages) && stages != [] && ParseKeyword(word) == Some(keyword)
    requires GoodLines(lay.lines) && Settled(lay.lines, fence)
    requires KeywordDone(lay, keyword, word, JoinStages(stages), sep, fence).Some?
    ensures var (lay', more) := KeywordDone(lay, keyword, word, JoinStages(stages), sep, fence).value;
            Grew(lay.lines, lay'.lines,
                 if more then Ink(word, fence) else StagesInk(stages, fence) + Ink(Suffix(sep, fence), fence),
                 fence, more || sep != NoSep)
  {
    hide Ink, ParseKeyword, JoinStages, Line, StageOk, Grew, StagesInk, GoodLine, EndsOpen, LinesInk, Suffix, IsSpace;
    match keyword
    case Header =>
      JoinedLine(INDENT * |lay.stack|, stages, sep, fence);
      GrewLines(lay.lines, [Line(INDENT * |lay.stack|, JoinStages(stages), sep, fence)],
                StagesInk(stages, fence) + Ink(Suffix(sep, fence), fence), fence, sep != NoSep);
    case Elif =>
      JoinedLine(INDENT * (|lay.stack| - 1), stages, sep, fence);
      GrewLines(lay.lines, [Line(INDENT * (|lay.stack| - 1), JoinStages(stages), sep, fence)],
                StagesInk(stages, fence) + Ink(Suffix(sep, fence), fence), fence, sep != NoSep);
    case Do | Then =>
      JoinerInk(word, fence);
      GrewTail(lay.lines, (if fence then " " else "; ") + word, fence);
    case Else =>
      var line := Line(INDENT * (|lay.stack| - 1), "else", NoSep, fence);
      ElseLine(INDENT * (|lay.stack| - 1), fence);
      KeywordPlain(word);
      GrewLines(lay.lines, [line], Ink("else", fence), fence, true);
    case Done | Fi =>
      var stack := lay.stack[..|lay.stack| - 1];
      JoinedLine(INDENT * |stack|, stages, sep, fence);
      GrewLines(lay.lines, [Line(INDENT * |stack|, JoinStages(stages), sep, fence)],
                StagesInk(stages, fence) + Ink(Suffix(sep, fence), fence), fence, sep != NoSep);
  }

  lemma {:induction false} ElseLine(indent: nat, fence: bool)
    ensures var line := Line(indent, "else", NoSep, fence);
            && GoodLine(line) && LinesInk([line], fence) == Ink("else", fence) && Settled([line], fence)
  {
    KeywordPlain("else");
    LineGood(indent, "else", NoSep, fence);
    LineInk(indent, "else", NoSep, fence);
    InkNothing(fence);
    OneLineInk(Line(indent, "else", NoSep, fence), fence);
    var line := Line(indent, "else", NoSep, fence);
    assert line == Repeat(' ', indent) + "else";
    assert line[|line| - 1] == "else"[3];
  }

  lemma {:induction false} GrewTwice(a: seq<string>, b: seq<string>, c: seq<string>, x: string, y: string, fence: bool, settled: bool)
    requires Grew(a, b, x, fence, true) && Grew(b, c, y, fence, settled)
    ensures Grew(a, c, x + y, fence, settled)
  {
    hide LinesInk, GoodLine, Settled;
    assert LinesInk(a, fence) + x + y == LinesInk(a, fence) + (x + y);
  }

  lemma {:induction false} PlaceInk(lay: Lay, stages: seq<Stage>, sep: Sep, prev: Sep, chain: bool, width: nat, fence: bool)
    requires LayOk(lay) && StagesOk(stages) && stages != []
    requires GoodLines(lay.lines) && Settled(lay.lines, fence)
    requires Place(lay, stages, sep, prev, chain, width, fence).Some?
    ensures Grew(lay.lines, Place(lay, stages, sep, prev, chain, width, fence).value.lines,
                 StagesInk(stages, fence) + Ink(Suffix(sep, fence), fence), fence, sep != NoSep)
    decreases |stages[0].text|, 1
  {
    hide Ink, ParseKeyword, JoinStages, StageOk, Grew, StagesInk, GoodLine, LinesInk, Suffix, KeywordDone,
         StatementLines, StatementIndent, FirstWord, Settled, PlaceRest;
    var word := FirstWord(stages[0].text);
    var keyword := ParseKeyword(word);
    if keyword.None? {
      var indent := StatementIndent(lay, chain);
      StatementInk(indent, stages, sep, width, fence);
      GrewLines(lay.lines, StatementLines(indent, stages, sep, width, fence),
                StagesInk(stages, fence) + Ink(Suffix(sep, fence), fence), fence, sep != NoSep);
    } else {
      KeywordInk(lay, keyword.value, word, stages, sep, fence);
      var (lay', more) := KeywordDone(lay, keyword.value, word, JoinStages(stages), sep, fence).value;
      if more {
        GrewFacts(lay.lines, lay'.lines, Ink(word, fence), fence, true);
        PlaceRestInk(lay', stages, sep, prev, width, fence);
        WordInk(stages, fence);
        var rest := StagesInk(stages[0 := AfterWord(stages[0])], fence) + Ink(Suffix(sep, fence), fence);
        GrewTwice(lay.lines, lay'.lines, PlaceRest(lay', stages, sep, prev, width, fence).value.lines,
                  Ink(word, fence), rest, fence, sep != NoSep);
        assert Ink(word, fence) + rest == StagesInk(stages, fence) + Ink(Suffix(sep, fence), fence);
      }
    }
  }

  lemma {:induction false} GrewFacts(before: seq<string>, after: seq<string>, ink: string, fence: bool, settled: bool)
    requires Grew(before, after, ink, fence, settled)
    ensures after != [] && GoodLines(after)
    ensures LinesInk(after, fence) == LinesInk(before, fence) + ink
    ensures settled ==> Settled(after, fence)
  {
  }

  lemma {:induction false} PlaceRestInk(lay: Lay, stages: seq<Stage>, sep: Sep, prev: Sep, width: nat, fence: bool)
    requires LayOk(lay) && lay.lines != [] && StagesOk(stages) && stages != []
    requires GoodLines(lay.lines) && Settled(lay.lines, fence)
    requires PlaceRest(lay, stages, sep, prev, width, fence).Some?
    ensures Grew(lay.lines, PlaceRest(lay, stages, sep, prev, width, fence).value.lines,
                 StagesInk(stages[0 := AfterWord(stages[0])], fence) + Ink(Suffix(sep, fence), fence),
                 fence, sep != NoSep)
    decreases |stages[0].text|, 0
  {
    hide Ink, StageOk, Grew, StagesInk, GoodLine, LinesInk, Suffix, AfterWord, Settled, Place, IsSpace;
    AfterWordOk(stages[0]);
    var first := AfterWord(stages[0]);
    if first.text == "" {
      SuffixVisible(sep, fence);
      GrewTail(lay.lines, Suffix(sep, fence), fence);
      EmptyStageInk(first, fence);
      assert stages[0 := first] == [first];
      GrewWeaker(lay.lines, AppendLast(lay.lines, Suffix(sep, fence)), Ink(Suffix(sep, fence), fence), fence, sep != NoSep);
      assert "" + Ink(Suffix(sep, fence), fence) == Ink(Suffix(sep, fence), fence);
    } else {
      PlaceInk(lay, stages[0 := first], sep, prev, false, width, fence);
    }
  }

  lemma {:induction false} GrewWeaker(before: seq<string>, after: seq<string>, ink: string, fence: bool, settled: bool)
    requires Grew(before, after, ink, fence, true)
    ensures Grew(before, after, ink, fence, settled)
  {
  }

  lemma {:induction false} EmptyStageInk(stage: Stage, fence: bool)
    requires stage.text == ""
    ensures StagesInk([stage], fence) == ""
  {
    assert [stage][..0] == [];
  }

  // ----- the whole layout -----

  lemma {:induction false} LayUpToInk(segments: seq<Segment>, k: nat, width: nat, fence: bool)
    requires k <= |segments| && SegmentsOk(segments) && HaveStages(segments)
    requires LayUpTo(segments, k, width, fence).Some?
    ensures var lines := LayUpTo(segments, k, width, fence).value.lines;
            && GoodLines(lines) && (k > 0 ==> lines != [])
            && LinesInk(lines, fence) == SegmentsInk(segments[..k], fence)
            && (k < |segments| ==> Settled(lines, fence))
  {
    hide Ink, StagesInk, Suffix, GoodLine, Place, Grew, StageOk, AllInk, EndsOpen;
    if k > 0 {
      LayUpToInk(segments, k - 1, width, fence);
      var lay, seg, prev := LayUpTo(segments, k - 1, width, fence).value, segments[k - 1], PrevSep(segments, k - 1);
      assert SegmentOk(seg);
      PlaceInk(lay, seg.stages, seg.sep, prev, IsChain(prev), width, fence);
      var after := LayUpTo(segments, k, width, fence).value;
      GrewFacts(lay.lines, after.lines, StagesInk(seg.stages, fence) + Ink(Suffix(seg.sep, fence), fence), fence, seg.sep != NoSep);
      SegmentsInkUpTo(segments, k - 1, fence);
    } else {
      InkNothing(fence);
      assert segments[..0] == [];
    }
  }

  lemma {:induction false} SegmentsInkUpTo(segments: seq<Segment>, k: nat, fence: bool)
    requires k < |segments| && HaveStages(segments)
    ensures SegmentsInk(segments[..k + 1], fence) == SegmentsInk(segments[..k], fence) + SegmentInk(segments[k], fence)
  {
    hide SegmentInk, SegmentsInk;
    assert segments[..k + 1] == segments[..k] + [segments[k]];
    SegmentsInkPush(segments[..k], segments[k], fence);
  }

  lemma {:induction false} LayoutInk(segments: seq<Segment>, width: nat, fence: bool)
    requires SegmentsOk(segments) && segments != [] && HaveStages(segments)
    requires LayoutSpec(segments, width, fence).Some?
    ensures var lines := LayoutSpec(segments, width, fence).value;
            && lines != [] && GoodLines(lines)
            && LinesInk(lines, fence) == SegmentsInk(segments, fence)
  {
    hide LayUpTo, GoodLine, LinesInk, SegmentsInk, SegmentOk;
    LayUpToInk(segments, |segments|, width, fence);
    assert segments[..|segments|] == segments;
  }
}
