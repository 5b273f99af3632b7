// A command as pieces of text with blanks between them: stages cut at their separators, at the
// keywords in front and before their top-level options. Every other blank belongs to a piece.
module ShellTokens {
  import opened Text
  import opened ShellScan
  import opened ShellShape
  import opened ShellLayout
  import opened ShellPieces

  // A piece of text; `after` says a blank must stand in front of it.
  datatype Tok = Tok(text: string, after: bool)

  // `s` is the pieces in order, and blanks.
  ghost predicate Spaced(toks: seq<Tok>, s: string)
    decreases |toks|
  {
    if toks == [] then AllSpace(s) else
      var t := toks[|toks| - 1];
      exists i, j :: 0 <= i <= j <= |s| && Ends(t, s, i, j) && Spaced(toks[..|toks| - 1], s[..i])
  }

  // `s` ends with the piece at `i..j` and blanks.
  predicate Ends(t: Tok, s: string, i: nat, j: nat)
    requires i <= j <= |s|
  {
    s[i..j] == t.text && AllSpace(s[j..]) && (t.after ==> i > 0 && IsSpace(s[i - 1]))
  }

  lemma {:induction false} AllSpaceJoins(a: string, b: string)
    ensures AllSpace(a + b) <==> AllSpace(a) && AllSpace(b)
  {
    hide IsSpace;
    assert forall k :: 0 <= k < |a| ==> (a + b)[k] == a[k];
    assert forall k :: 0 <= k < |b| ==> (a + b)[|a| + k] == b[k];
  }

  lemma {:induction false} SpacedEnd(toks: seq<Tok>, s: string) returns (i: nat, j: nat)
    requires toks != [] && Spaced(toks, s)
    ensures i <= j <= |s| && Ends(toks[|toks| - 1], s, i, j) && Spaced(toks[..|toks| - 1], s[..i])
  {
    hide Ends;
    i, j :| 0 <= i <= j <= |s| && Ends(toks[|toks| - 1], s, i, j) && Spaced(toks[..|toks| - 1], s[..i]);
  }

  lemma {:induction false} SpacedLast(toks: seq<Tok>, t: Tok, s: string, i: nat, j: nat)
    requires i <= j <= |s| && Ends(t, s, i, j) && Spaced(toks, s[..i])
    ensures Spaced(toks + [t], s)
  {
    hide Ends;
    var whole := toks + [t];
    assert whole[..|whole| - 1] == toks && whole[|whole| - 1] == t;
    assert Spaced(whole[..|whole| - 1], s[..i]);
  }

  lemma {:induction false} EndsFurther(t: Tok, lead: string, s: string, i: nat, j: nat)
    requires i <= j <= |s| && Ends(t, s, i, j)
    ensures Ends(t, lead + s, |lead| + i, |lead| + j)
    ensures (lead + s)[..|lead| + i] == lead + s[..i]
  {
    hide IsSpace, AllSpace;
    assert (lead + s)[|lead| + i..|lead| + j] == s[i..j] && (lead + s)[|lead| + j..] == s[j..];
  }

  lemma {:induction false} EndsLater(t: Tok, s: string, blank: string, i: nat, j: nat)
    requires i <= j <= |s| && Ends(t, s, i, j) && AllSpace(blank)
    ensures Ends(t, s + blank, i, j) && (s + blank)[..i] == s[..i]
  {
    hide IsSpace, AllSpace;
    assert (s + blank)[i..j] == s[i..j] && (s + blank)[j..] == s[j..] + blank;
    AllSpaceJoins(s[j..], blank);
  }

  lemma {:induction false} SpacedNone(s: string)
    ensures Spaced([], s) <==> AllSpace(s)
  {
  }

  lemma {:induction false} SpacedBlank(toks: seq<Tok>, s: string, blank: string)
    requires Spaced(toks, s) && AllSpace(blank)
    ensures Spaced(toks, s + blank)
  {
    hide AllSpace, Spaced, Ends;
    if toks == [] {
      SpacedNone(s);
      SpacedNone(s + blank);
      AllSpaceJoins(s, blank);
    } else {
      var i, j := SpacedEnd(toks, s);
      EndsLater(toks[|toks| - 1], s, blank, i, j);
      SpacedLast(toks[..|toks| - 1], toks[|toks| - 1], s + blank, i, j);
      assert toks[..|toks| - 1] + [toks[|toks| - 1]] == toks;
    }
  }

  lemma {:induction false} SpacedPush(toks: seq<Tok>, s: string, gap: string, t: Tok)
    requires Spaced(toks, s) && AllSpace(gap) && (t.after ==> gap != "")
    ensures Spaced(toks + [t], s + gap + t.text)
  {
    hide IsSpace, Spaced;
    SpacedBlank(toks, s, gap);
    var whole := s + gap + t.text;
    var i := |s + gap|;
    assert whole[..i] == s + gap && whole[i..|whole|] == t.text && whole[|whole|..] == "";
    assert gap != "" ==> whole[i - 1] == gap[|gap| - 1];
    SpacedLast(toks, t, whole, i, |whole|);
  }

  lemma {:induction false} SpacedConcat(a: seq<Tok>, s: string, b: seq<Tok>, r: string)
    requires Spaced(a, s) && Spaced(b, r)
    ensures Spaced(a + b, s + r)
    decreases |b|
  {
    hide Spaced, Ends, AllSpace;
    if b == [] {
      assert a + b == a;
      SpacedNone(r);
      SpacedBlank(a, s, r);
    } else {
      var front, t := b[..|b| - 1], b[|b| - 1];
      var i, j := SpacedEnd(b, r);
      SpacedConcat(a, s, front, r[..i]);
      EndsFurther(t, s, r, i, j);
      SpacedLast(a + front, t, s + r, |s| + i, |s| + j);
      assert (a + front) + [t] == a + b;
    }
  }

  // ----- the pieces of a command -----

  // Where the `k`-th piece of a stage ends: at the blank before the next flag.
  function PieceEnd(stage: Stage, k: nat): nat
    requires FlagsOk(stage.text, stage.flags) && k <= |stage.flags|
  {
    if k < |stage.flags| then stage.flags[k] - 1 else |stage.text|
  }

  function StagePiece(stage: Stage, k: nat, after: bool): Tok
    requires FlagsOk(stage.text, stage.flags) && k <= |stage.flags|
  {
    PieceBounds(stage.text, stage.flags, k);
    Tok(stage.text[PieceStart(stage.flags, k)..PieceEnd(stage, k)], k > 0 || after)
  }

  // The first `k` pieces.
  function StageToks(stage: Stage, after: bool, k: nat): seq<Tok>
    requires FlagsOk(stage.text, stage.flags) && k <= |stage.flags| + 1
  {
    if k == 0 then [] else StageToks(stage, after, k - 1) + [StagePiece(stage, k - 1, after)]
  }

  function WholeStage(stage: Stage, after: bool): seq<Tok>
    requires FlagsOk(stage.text, stage.flags)
  {
    StageToks(stage, after, |stage.flags| + 1)
  }

  function SepToks(sep: Sep): seq<Tok> {
    if sep == NoSep then [] else [Tok(Mark(sep), false)]
  }

  function StagesToks(stages: seq<Stage>, sep: Sep, after: bool): seq<Tok>
    requires StagesOk(stages)
    decreases |stages|
  {
    if stages == [] then [] else
      var n := |stages| - 1;
      StageFlags(stages, n);
      StagesToks(stages[..n], Pipe, after) + WholeStage(stages[n], n == 0 && after) + SepToks(sep)
  }

  predicate Goes(keyword: Option<Keyword>) {
    keyword == Some(Do) || keyword == Some(Then) || keyword == Some(Else)
  }

  // The pieces of one segment: keywords that other commands follow stand alone.
  function SegmentToks(stages: seq<Stage>, sep: Sep, after: bool): seq<Tok>
    requires StagesOk(stages) && stages != []
    decreases |stages[0].text|
  {
    assert StageOk(stages[0]);
    AfterWordOk(stages[0]);
    var word := FirstWord(stages[0].text);
    if Goes(ParseKeyword(word)) && AfterWord(stages[0]).text != "" then
      [Tok(word, after)] + SegmentToks(stages[0 := AfterWord(stages[0])], sep, true)
    else StagesToks(stages, sep, after)
  }

  // The pieces of the first `k` segments.
  function CommandToks(segments: seq<Segment>, k: nat): seq<Tok>
    requires SegmentsOk(segments) && k <= |segments|
  {
    if k == 0 then [] else
      assert SegmentOk(segments[k - 1]);
      CommandToks(segments, k - 1) + SegmentToks(segments[k - 1].stages, segments[k - 1].sep, false)
  }

  // ----- the command is spaced out from its pieces -----

  lemma {:induction false} BlankAtFlag(stage: Stage, k: nat)
    requires FlagsOk(stage.text, stage.flags) && 0 < k <= |stage.flags|
    ensures 0 < PieceEnd(stage, k - 1) < PieceStart(stage.flags, k) <= PieceEnd(stage, k) <= |stage.text|
    ensures PieceStart(stage.flags, k) == PieceEnd(stage, k - 1) + 1
    ensures AllSpace(stage.text[PieceEnd(stage, k - 1)..PieceStart(stage.flags, k)])
  {
    hide IsSpace;
  }

  lemma {:induction false} PiecesInText(stage: Stage, after: bool, gap: string, k: nat)
    requires FlagsOk(stage.text, stage.flags) && k <= |stage.flags|
    requires AllSpace(gap) && (after ==> gap != "")
    ensures PieceEnd(stage, k) <= |stage.text|
    ensures Spaced(StageToks(stage, after, k + 1), gap + stage.text[..PieceEnd(stage, k)])
  {
    hide IsSpace, AllSpace, Spaced;
    var text := stage.text;
    PieceBounds(text, stage.flags, k);
    if k == 0 {
      NothingSpaced();
      SpacedPush([], "", gap, StagePiece(stage, 0, after));
      assert [] + [StagePiece(stage, 0, after)] == StageToks(stage, after, 1);
      assert "" + gap + text[0..PieceEnd(stage, 0)] == gap + text[..PieceEnd(stage, 0)];
    } else {
      PiecesInText(stage, after, gap, k - 1);
      BlankAtFlag(stage, k);
      var end, start := PieceEnd(stage, k - 1), PieceStart(stage.flags, k);
      SpacedPush(StageToks(stage, after, k), gap + text[..end], text[end..start], StagePiece(stage, k, after));
      ThreeSlices(gap, text, end, start, PieceEnd(stage, k));
    }
  }

  lemma {:induction false} ThreeSlices(lead: string, text: string, a: nat, b: nat, c: nat)
    requires a <= b <= c <= |text|
    ensures lead + text[..c] == lead + text[..a] + text[a..b] + text[b..c]
  {
  }

  lemma {:induction false} NothingSpaced()
    ensures Spaced([], "")
  {
  }

  lemma {:induction false} StageInText(stage: Stage, after: bool, gap: string)
    requires FlagsOk(stage.text, stage.flags) && AllSpace(gap) && (after ==> gap != "")
    ensures Spaced(WholeStage(stage, after), gap + stage.text)
  {
    hide FlagsOk, Spaced, StageToks, AllSpace;
    PiecesInText(stage, after, gap, |stage.flags|);
    assert stage.text[..|stage.text|] == stage.text;
  }

  lemma {:induction false} SepInText(toks: seq<Tok>, s: string, gap: string, sep: Sep)
    requires Spaced(toks, s) && AllSpace(gap)
    ensures Spaced(toks + SepToks(sep), s + gap + Mark(sep))
  {
    hide Spaced, AllSpace;
    if sep == NoSep {
      SpacedBlank(toks, s, gap);
      assert toks + [] == toks && s + gap + "" == s + gap;
    } else {
      SpacedPush(toks, s, gap, Tok(Mark(sep), false));
    }
  }

  // Stages as the command has them, each between its blanks.
  function Portion(stages: seq<Stage>, sep: Sep, gaps: seq<Gap>): string
    requires |gaps| == |stages|
    decreases |stages|
  {
    if stages == [] then "" else
      var n := |stages| - 1;
      Portion(stages[..n], Pipe, gaps[..n]) + (gaps[n].0 + stages[n].text + gaps[n].1 + Mark(sep))
  }

  lemma {:induction false} StagesToksLast(stages: seq<Stage>, sep: Sep, after: bool)
    requires StagesOk(stages) && stages != []
    ensures var n := |stages| - 1;
            && StagesOk(stages[..n]) && FlagsOk(stages[n].text, stages[n].flags)
            && StagesToks(stages, sep, after) ==
               StagesToks(stages[..n], Pipe, after) + WholeStage(stages[n], n == 0 && after) + SepToks(sep)
  {
    hide WholeStage, StageOk, FlagsOk;
    StageFlags(stages, |stages| - 1);
  }

  lemma {:induction false} PortionLast(stages: seq<Stage>, sep: Sep, gaps: seq<Gap>)
    requires stages != [] && |gaps| == |stages|
    ensures var n := |stages| - 1;
            Portion(stages, sep, gaps) ==
            Portion(stages[..n], Pipe, gaps[..n]) + (gaps[n].0 + stages[n].text) + gaps[n].1 + Mark(sep)
  {
    var n := |stages| - 1;
    var front := Portion(stages[..n], Pipe, gaps[..n]);
    assert front + (gaps[n].0 + stages[n].text + gaps[n].1 + Mark(sep)) ==
           front + (gaps[n].0 + stages[n].text) + gaps[n].1 + Mark(sep);
  }

  lemma {:induction false} StagesInPortion(stages: seq<Stage>, sep: Sep, after: bool, gaps: seq<Gap>)
    requires StagesOk(stages) && |gaps| == |stages| && Blank(gaps)
    requires after && stages != [] ==> gaps[0].0 != ""
    ensures Spaced(StagesToks(stages, sep, after), Portion(stages, sep, gaps))
    decreases |stages|
  {
    if stages == [] {
      NothingSpaced();
    } else {
      hide Spaced, StageOk, FlagsOk, AllSpace, WholeStage, Mark, SepToks, Portion, StagesToks;
      var n := |stages| - 1;
      StagesToksLast(stages, sep, after);
      PortionLast(stages, sep, gaps);
      StagesInPortion(stages[..n], Pipe, after, gaps[..n]);
      StageInText(stages[n], n == 0 && after, gaps[n].0);
      var front, stage := StagesToks(stages[..n], Pipe, after), WholeStage(stages[n], n == 0 && after);
      var s, r := Portion(stages[..n], Pipe, gaps[..n]), gaps[n].0 + stages[n].text;
      SpacedConcat(front, s, stage, r);
      SepInText(front + stage, s + r, gaps[n].1, sep);
    }
  }

  lemma {:induction false} PortionWord(stages: seq<Stage>, sep: Sep, gaps: seq<Gap>, word: string, blank: string, rest: Stage)
    requires stages != [] && |gaps| == |stages| && stages[0].text == word + blank + rest.text
    ensures Portion(stages, sep, gaps) ==
            gaps[0].0 + word + Portion(stages[0 := rest], sep, gaps[0 := (blank, gaps[0].1)])
    decreases |stages|
  {
    hide Mark;
    var n := |stages| - 1;
    var (stages', gaps') := (stages[0 := rest], gaps[0 := (blank, gaps[0].1)]);
    if n == 0 {
      assert stages[..0] == stages'[..0] == [];
      assert Portion(stages', sep, gaps') == "" + (blank + rest.text + gaps[0].1 + Mark(sep));
      assert gaps[0].0 + (word + blank + rest.text) + gaps[0].1 + Mark(sep) ==
             gaps[0].0 + word + (blank + rest.text + gaps[0].1 + Mark(sep));
    } else {
      PortionWord(stages[..n], Pipe, gaps[..n], word, blank, rest);
      assert stages'[..n] == stages[..n][0 := rest] && gaps'[..n] == gaps[..n][0 := (blank, gaps[0].1)];
      var more := gaps[n].0 + stages[n].text + gaps[n].1 + Mark(sep);
      var inner := Portion(stages'[..n], Pipe, gaps'[..n]);
      assert gaps[0].0 + word + inner + more == gaps[0].0 + word + (inner + more);
    }
  }

  lemma {:induction false} BlankAfterWord(stage: Stage) returns (blank: string)
    requires StageOk(stage)
    ensures AllSpace(blank) && stage.text == FirstWord(stage.text) + blank + AfterWord(stage).text
    ensures AfterWord(stage).text != "" ==> blank != ""
  {
    hide IsSpace, FlagsOk, LaterFlags;
    AfterWordSlice(stage);
    var word := FirstWord(stage.text);
    var rest := stage.text[|word|..];
    blank := rest[..LeadEnd(rest, 0)];
    WordStops(stage.text, LeadEnd(stage.text, 0));
    assert LeadEnd(stage.text, 0) == 0;
    assert rest != "" ==> rest[0] == stage.text[|word|];
    assert rest == blank + TrimStart(rest);
  }

  lemma {:induction false} WordStops(text: string, i: nat)
    requires i <= |text|
    ensures var end := WordEnd(text, i); end < |text| ==> IsSpace(text[end])
    ensures forall k :: i <= k < WordEnd(text, i) ==> !IsSpace(text[k])
    decreases |text| - i
  {
    hide IsSpace;
    if i < |text| && !IsSpace(text[i]) {
      WordStops(text, i + 1);
    }
  }

  lemma {:induction false} SegmentInPortion(stages: seq<Stage>, sep: Sep, after: bool, gaps: seq<Gap>)
    requires StagesOk(stages) && stages != [] && |gaps| == |stages| && Blank(gaps)
    requires after ==> gaps[0].0 != ""
    ensures Spaced(SegmentToks(stages, sep, after), Portion(stages, sep, gaps))
    decreases |stages[0].text|
  {
    hide Spaced, StageOk, AllSpace, Mark, StagesToks, Portion, FirstWord, AfterWord, ParseKeyword;
    AfterWordOk(stages[0]);
    var (word, rest) := (FirstWord(stages[0].text), AfterWord(stages[0]));
    if Goes(ParseKeyword(word)) && rest.text != "" {
      var blank := BlankAfterWord(stages[0]);
      var gaps' := gaps[0 := (blank, gaps[0].1)];
      SegmentInPortion(stages[0 := rest], sep, true, gaps');
      PortionWord(stages, sep, gaps, word, blank, rest);
      NothingSpaced();
      SpacedPush([], "", gaps[0].0, Tok(word, after));
      assert "" + gaps[0].0 + word == gaps[0].0 + word;
      SpacedConcat([] + [Tok(word, after)], gaps[0].0 + word, SegmentToks(stages[0 := rest], sep, true),
                   Portion(stages[0 := rest], sep, gaps'));
      assert [] + [Tok(word, after)] == [Tok(word, after)];
    } else {
      StagesInPortion(stages, sep, after, gaps);
    }
  }
}
