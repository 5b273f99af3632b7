// Where the lines of a formatted fence end: the shell goes on reading, or a command is over.
module ShellLineEnds {
  import opened Text
  import opened ShellScan
  import opened ShellShape
  import opened ShellLayout
  import opened ShellFormat

  predicate EndsWith(line: string, end: string) {
    |end| <= |line| && line[|line| - |end|..] == end
  }

  predicate IsElse(line: string) {
    EndsWith(line, "else") && AllSpace(line[..|line| - 4])
  }

  // A continuation, a separator, or a keyword that other commands follow.
  predicate MayBreak(line: string) {
    || EndsWith(line, " \\") || EndsWith(line, ";") || EndsWith(line, " &&") || EndsWith(line, " ||")
    || EndsWith(line, " &") || EndsWith(line, " |") || EndsWith(line, " do") || EndsWith(line, " then")
    || IsElse(line)
  }

  // Every line may break; the last one need not when no separator ends it.
  predicate Breaks(lines: seq<string>, sep: Sep) {
    forall k :: 0 <= k < |lines| && (k < |lines| - 1 || sep != NoSep) ==> MayBreak(lines[k])
  }

  lemma {:induction false} EndKept(front: string, end: string)
    ensures EndsWith(front + end, end)
  {
  }

  lemma {:induction false} LineBreaks(indent: nat, text: string, sep: Sep)
    requires sep != NoSep
    ensures MayBreak(Line(indent, text, sep, true))
  {
    EndKept(Repeat(' ', indent) + text, Suffix(sep, true));
    hide EndsWith;
  }

  lemma {:induction false} OneBreaks(indent: nat, text: string, sep: Sep)
    ensures Breaks([Line(indent, text, sep, true)], sep)
  {
    hide MayBreak, Line;
    if sep != NoSep {
      LineBreaks(indent, text, sep);
    }
  }

  lemma {:induction false} BreaksConcat(a: seq<string>, b: seq<string>, sep: Sep)
    requires Breaks(a, Semi) && Breaks(b, sep) && b != []
    ensures Breaks(a + b, sep)
  {
    hide MayBreak;
  }

  lemma {:induction false} ContinuedBreaks(indent: nat, text: string)
    ensures MayBreak(Line(indent, text + " \\", NoSep, true))
  {
    assert Repeat(' ', indent) + (text + " \\") + "" == Repeat(' ', indent) + text + " \\";
    EndKept(Repeat(' ', indent) + text, " \\");
    hide EndsWith;
  }

  lemma {:induction false} PieceBreaks(indent: nat, stage: Stage, k: nat)
    requires FlagsOk(stage.text, stage.flags) && k < |stage.flags|
    ensures MayBreak(PieceLine(indent, "", stage, true, k))
  {
    PieceBounds(stage.text, stage.flags, k);
    var text := stage.text[PieceStart(stage.flags, k)..stage.flags[k] - 1];
    hide FlagsOk, MayBreak, Line;
    assert "" + text + " \\" == text + " \\";
    ContinuedBreaks(if k == 0 then indent else indent + INDENT, text);
  }

  lemma {:induction false} PiecesBreak(indent: nat, stage: Stage, k: nat)
    requires FlagsOk(stage.text, stage.flags) && k <= |stage.flags|
    ensures Breaks(Pieces(indent, "", stage, true, k), Semi)
  {
    hide FlagsOk, MayBreak, PieceLine;
    if k > 0 {
      PiecesBreak(indent, stage, k - 1);
      PieceBreaks(indent, stage, k - 1);
    }
  }

  lemma {:induction false} StageBreaks(indent: nat, stage: Stage, sep: Sep, width: nat)
    requires FlagsOk(stage.text, stage.flags)
    ensures StageLines(indent, "", stage, sep, width, true) != [] && Breaks(StageLines(indent, "", stage, sep, width, true), sep)
  {
    hide FlagsOk, Breaks, Line, Pieces, Suffix;
    var n := |stage.flags|;
    OneBreaks(indent, "" + stage.text, sep);
    PieceBounds(stage.text, stage.flags, n);
    OneBreaks(indent + INDENT, stage.text[PieceStart(stage.flags, n)..], sep);
    PiecesBreak(indent, stage, n);
    BreaksConcat(Pieces(indent, "", stage, true, n), [LastPiece(indent, stage, sep, true)], sep);
  }

  lemma {:induction false} PipeBreaks(indent: nat, stages: seq<Stage>, sep: Sep, width: nat, k: nat)
    requires StagesOk(stages) && k <= |stages|
    ensures Breaks(PipeLines(indent, stages, sep, width, true, k), if k == |stages| then sep else Pipe)
  {
    hide StageOk, FlagsOk, MayBreak, StageLines;
    if k > 0 {
      hide Breaks;
      StageFlags(stages, k - 1);
      PipeBreaks(indent, stages, sep, width, k - 1);
      PipeIsSemi(PipeLines(indent, stages, sep, width, true, k - 1));
      var at := if k == 1 then indent else indent + INDENT;
      var last := if k == |stages| then sep else Pipe;
      StageBreaks(at, stages[k - 1], last, width);
      BreaksConcat(PipeLines(indent, stages, sep, width, true, k - 1), StageLines(at, "", stages[k - 1], last, width, true), last);
    }
  }

  lemma {:induction false} PipeIsSemi(lines: seq<string>)
    ensures Breaks(lines, Pipe) ==> Breaks(lines, Semi)
  {
    hide MayBreak;
  }

  lemma {:induction false} StatementBreaks(indent: nat, stages: seq<Stage>, sep: Sep, width: nat)
    requires StagesOk(stages) && stages != []
    ensures Breaks(StatementLines(indent, stages, sep, width, true), sep)
  {
    hide StageOk, FlagsOk, Breaks, PipeLines, StageLines, Line, JoinStages, Suffix;
    PipeBreaks(indent, stages, sep, width, |stages|);
    StageFlags(stages, 0);
    StageBreaks(indent, stages[0], sep, width);
    OneBreaks(indent, JoinStages(stages), sep);
  }

  // ----- segments -----

  lemma {:induction false} AppendBreaks(lines: seq<string>, more: string)
    requires lines != [] && Breaks(lines, Semi) && (more == " do" || more == " then" || more == ";")
    ensures Breaks(AppendLast(lines, more), Semi)
  {
    EndKept(lines[|lines| - 1], more);
    hide EndsWith;
    assert MayBreak(lines[|lines| - 1] + more);
    hide MayBreak;
  }

  lemma {:induction false} ElseBreaks(indent: nat)
    ensures Breaks([Line(indent, "else", NoSep, true)], Semi)
  {
    var line := Line(indent, "else", NoSep, true);
    assert line == Repeat(' ', indent) + "else";
    EndKept(Repeat(' ', indent), "else");
    assert line[..|line| - 4] == Repeat(' ', indent);
    assert IsElse(line);
  }

  lemma {:induction false} MoreBreaks(lines: seq<string>, line: string, sep: Sep)
    requires Breaks(lines, Semi) && Breaks([line], sep)
    ensures Breaks(lines + [line], sep)
  {
    hide Breaks;
    BreaksConcat(lines, [line], sep);
  }

  lemma {:induction false} KeywordBreaks(lay: Lay, keyword: Keyword, word: string, stages: seq<Stage>, sep: Sep)
    requires LayOk(lay) && ParseKeyword(word) == Some(keyword) && Breaks(lay.lines, Semi)
    requires KeywordDone(lay, keyword, word, JoinStages(stages), sep, true).Some?
    ensures var (lay', more) := KeywordDone(lay, keyword, word, JoinStages(stages), sep, true).value;
            Breaks(lay'.lines, if more then Semi else sep)
  {
    KeywordWords(word);
    hide Breaks, Line, JoinStages, ParseKeyword;
    match keyword
    case Do | Then =>
      AppendBreaks(lay.lines, " " + word);
    case Else =>
      ElseBreaks(INDENT * (|lay.stack| - 1));
      MoreBreaks(lay.lines, Line(INDENT * (|lay.stack| - 1), "else", NoSep, true), Semi);
    case Header =>
      OneBreaks(INDENT * |lay.stack|, JoinStages(stages), sep);
      MoreBreaks(lay.lines, Line(INDENT * |lay.stack|, JoinStages(stages), sep, true), sep);
    case _ =>
      OneBreaks(INDENT * (|lay.stack| - 1), JoinStages(stages), sep);
      MoreBreaks(lay.lines, Line(INDENT * (|lay.stack| - 1), JoinStages(stages), sep, true), sep);
  }

  lemma {:induction false} KeywordWords(word: string)
    ensures ParseKeyword(word) == Some(Do) ==> " " + word == " do"
    ensures ParseKeyword(word) == Some(Then) ==> " " + word == " then"
  {
  }

  lemma {:induction false} PlaceBreaks(lay: Lay, stages: seq<Stage>, sep: Sep, prev: Sep, chain: bool, width: nat)
    requires LayOk(lay) && StagesOk(stages) && stages != [] && Breaks(lay.lines, Semi)
    requires Place(lay, stages, sep, prev, chain, width, true).Some?
    ensures Breaks(Place(lay, stages, sep, prev, chain, width, true).value.lines, sep)
    decreases |stages[0].text|, 1
  {
    hide ParseKeyword, JoinStages, StageOk, Breaks, KeywordDone, StatementLines, StatementIndent, FirstWord, PlaceRest;
    var word := FirstWord(stages[0].text);
    var keyword := ParseKeyword(word);
    if keyword.None? {
      var indent := StatementIndent(lay, chain);
      StatementBreaks(indent, stages, sep, width);
      if StatementLines(indent, stages, sep, width, true) != [] {
        BreaksConcat(lay.lines, StatementLines(indent, stages, sep, width, true), sep);
      } else {
        NothingMore(lay.lines, sep);
      }
    } else {
      KeywordBreaks(lay, keyword.value, word, stages, sep);
      var (lay', more) := KeywordDone(lay, keyword.value, word, JoinStages(stages), sep, true).value;
      if more {
        PlaceRestBreaks(lay', stages, sep, prev, width);
      }
    }
  }

  lemma {:induction false} NothingMore(lines: seq<string>, sep: Sep)
    requires Breaks(lines, Semi)
    ensures Breaks(lines + [], sep)
  {
    hide MayBreak;
    assert lines + [] == lines;
  }

  lemma {:induction false} PlaceRestBreaks(lay: Lay, stages: seq<Stage>, sep: Sep, prev: Sep, width: nat)
    requires LayOk(lay) && lay.lines != [] && StagesOk(stages) && stages != [] && Breaks(lay.lines, Semi)
    requires PlaceRest(lay, stages, sep, prev, width, true).Some?
    ensures Breaks(PlaceRest(lay, stages, sep, prev, width, true).value.lines, sep)
    decreases |stages[0].text|, 0
  {
    hide StageOk, Breaks, AfterWord, Place;
    assert StageOk(stages[0]);
    AfterWordOk(stages[0]);
    var first := AfterWord(stages[0]);
    if first.text != "" {
      PlaceBreaks(lay, stages[0 := first], sep, prev, false, width);
    } else if sep == Semi {
      AppendBreaks(lay.lines, ";");
    } else {
      NothingAppended(lay.lines);
    }
  }

  lemma {:induction false} NothingAppended(lines: seq<string>)
    requires lines != [] && Breaks(lines, Semi)
    ensures Breaks(AppendLast(lines, Suffix(NoSep, true)), NoSep)
  {
    hide MayBreak;
    assert lines[|lines| - 1] + "" == lines[|lines| - 1];
    assert AppendLast(lines, "") == lines;
  }

  lemma {:induction false} LayUpToBreaks(segments: seq<Segment>, k: nat, width: nat)
    requires k <= |segments| && SegmentsOk(segments) && LayUpTo(segments, k, width, true).Some?
    ensures Breaks(LayUpTo(segments, k, width, true).value.lines, PrevSep(segments, k))
  {
    hide StageOk, Place, MayBreak;
    if k > 0 {
      LayUpToBreaks(segments, k - 1, width);
      var lay, seg, prev := LayUpTo(segments, k - 1, width, true).value, segments[k - 1], PrevSep(segments, k - 1);
      assert SegmentOk(seg);
      AnySemi(lay.lines, prev);
      PlaceBreaks(lay, seg.stages, seg.sep, prev, IsChain(prev), width);
    }
  }

  lemma {:induction false} AnySemi(lines: seq<string>, sep: Sep)
    requires Breaks(lines, sep) && sep != NoSep
    ensures Breaks(lines, Semi)
  {
    hide MayBreak;
  }

  // Every line of a formatted fence command but the last ends where the shell goes on reading or a
  // command is over: a pipeline is broken behind its bar, a chain behind its operator.
  lemma {:induction false} FormatBreaks(command: string, width: nat)
    requires FormatLines(command, width, true).Some?
    ensures var lines := FormatLines(command, width, true).value;
            forall k :: 0 <= k < |lines| - 1 ==> MayBreak(lines[k])
  {
    hide ScanSpec, LayUpTo, SegmentsOk, HasSequence, MayBreak;
    ScanShaped(command);
    LayUpToBreaks(ScanSpec(command).value, |ScanSpec(command).value|, width);
  }
}
