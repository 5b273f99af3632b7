// What the sanitizer guarantees over whole runs: chunks do not matter, and the output is a
// word of printable characters, newlines, tabs and whole colour sequences.
module SanitizerRuns {
  import opened Text
  import opened Utf8
  import opened Sanitizer

  // ----- chunks -----

  function FedAll(s: San, chunks: seq<seq<byte>>): (San, string)
    decreases |chunks|
  {
    if chunks == [] then (s, "") else
      var (mid, out) := Fed(s, chunks[0]);
      var (last, more) := FedAll(mid, chunks[1..]);
      (last, out + more)
  }

  // Two chunks give the same text and the same state as the bytes fed at once.
  lemma {:induction false} TwoChunks(s: San, a: seq<byte>, b: seq<byte>)
    ensures var (mid, out) := Fed(s, a);
            var (last, more) := Fed(mid, b);
            Fed(s, a + b) == (last, out + more)
  {
    hide Decode, Steps;
    assert s.pending + a + b == s.pending + (a + b);
    DecodeConcat(s.pending + a, b);
    var (text, rest) := Decode(s.pending + a);
    StepsConcat(s.st, text, Decode(rest + b).0);
  }

  lemma {:induction false} NoBytes(s: San)
    requires Unfinished(s.pending)
    ensures Fed(s, []) == (s, "")
  {
    hide Decode, Step, Unfinished;
    assert s.pending + [] == s.pending;
    LeftOver(s.pending);
    StepsNone(s.st);
  }

  // Any number of chunks give what one feed of all their bytes gives.
  lemma {:induction false} ChunksDoNotMatter(s: San, chunks: seq<seq<byte>>)
    requires Unfinished(s.pending)
    ensures FedAll(s, chunks) == Fed(s, Flatten(chunks))
    ensures Unfinished(FedAll(s, chunks).0.pending)
    decreases |chunks|
  {
    hide Fed, Unfinished;
    if chunks == [] {
      NoBytes(s);
    } else {
      FedWaits(s, chunks[0]);
      var mid := Fed(s, chunks[0]).0;
      ChunksDoNotMatter(mid, chunks[1..]);
      TwoChunks(s, chunks[0], Flatten(chunks[1..]));
    }
  }

  lemma {:induction false} FedWaits(s: San, bytes: seq<byte>)
    ensures Unfinished(Fed(s, bytes).0.pending)
  {
    hide Decode, Steps, Unfinished;
    LeftOver(s.pending + bytes);
  }

  // A whole run: all the chunks, then the end of the stream.
  function RunOutput(keepSgr: bool, chunks: seq<seq<byte>>): string {
    var (s, out) := FedAll(Fresh(keepSgr), chunks);
    out + Finished(s).1
  }

  lemma {:induction false} RunsOfSameBytes(keepSgr: bool, a: seq<seq<byte>>, b: seq<seq<byte>>)
    requires Flatten(a) == Flatten(b)
    ensures RunOutput(keepSgr, a) == RunOutput(keepSgr, b)
  {
    hide FedAll, Finished;
    assert Unfinished(Fresh(keepSgr).pending);
    ChunksDoNotMatter(Fresh(keepSgr), a);
    ChunksDoNotMatter(Fresh(keepSgr), b);
  }

  // ----- the shape of the output -----

  datatype Piece = Glyph(c: char) | Colour(params: string)

  predicate IsGlyph(c: char) {
    !IsControl(c) || c == '\n' || c == '\t'
  }

  predicate PieceOk(p: Piece, keepSgr: bool) {
    match p
    case Glyph(c) => IsGlyph(c)
    case Colour(params) => keepSgr && PlainParams(params) && |params| <= SGR_PARAMS_MAX
  }

  function PieceText(p: Piece): string {
    match p
    case Glyph(c) => [c]
    case Colour(params) => SgrText(params)
  }

  function Spell(pieces: seq<Piece>): string {
    if pieces == [] then "" else PieceText(pieces[0]) + Spell(pieces[1..])
  }

  predicate PiecesOk(pieces: seq<Piece>, keepSgr: bool) {
    forall k :: 0 <= k < |pieces| ==> PieceOk(pieces[k], keepSgr)
  }

  ghost predicate Clean(text: string, keepSgr: bool) {
    exists pieces :: PiecesOk(pieces, keepSgr) && Spell(pieces) == text
  }

  lemma {:induction false} SpellConcat(a: seq<Piece>, b: seq<Piece>)
    ensures Spell(a + b) == Spell(a) + Spell(b)
  {
    hide PieceText;
    if a == [] {
      assert a + b == b;
    } else {
      assert (a + b)[1..] == a[1..] + b;
      SpellConcat(a[1..], b);
    }
  }

  lemma {:induction false} CleanConcat(a: string, b: string, keepSgr: bool)
    requires Clean(a, keepSgr) && Clean(b, keepSgr)
    ensures Clean(a + b, keepSgr)
  {
    hide PieceOk, Spell;
    var p :| PiecesOk(p, keepSgr) && Spell(p) == a;
    var q :| PiecesOk(q, keepSgr) && Spell(q) == b;
    SpellConcat(p, q);
    assert PiecesOk(p + q, keepSgr);
  }

  lemma {:induction false} CleanPiece(p: Piece, keepSgr: bool)
    requires PieceOk(p, keepSgr)
    ensures Clean(PieceText(p), keepSgr)
  {
    hide PieceOk, PieceText;
    assert PiecesOk([p], keepSgr);
    assert Spell([p]) == PieceText(p) + "";
  }

  lemma {:induction false} CleanNothing(keepSgr: bool)
    ensures Clean("", keepSgr)
  {
    assert PiecesOk([], keepSgr) && Spell([]) == "";
  }

  // Parameters under collection are at most 64 characters.
  predicate Bounded(st: State) {
    st.escape.Csi? ==> |st.escape.params| <= SGR_PARAMS_MAX
  }

  // What one step may do: print nothing, one glyph, or one colour sequence.
  predicate StepShape(before: State, after: State, out: string) {
    && Bounded(after) && after.keepSgr == before.keepSgr
    && (|| (out == "" && after.styled == before.styled)
        || (|out| == 1 && IsGlyph(out[0]) && after.styled == before.styled)
        || (before.escape.Csi? && before.keepSgr && PlainParams(before.escape.params)
            && out == SgrText(before.escape.params) && after.styled))
  }

  lemma {:induction false} StepHasShape(st: State, c: char)
    requires Bounded(st)
    ensures StepShape(st, Step(st, c).0, Step(st, c).1)
  {
    hide PlainParams, SgrText;
  }

  lemma {:induction false} StepClean(st: State, c: char)
    requires Bounded(st)
    ensures var (next, out) := Step(st, c);
            && Bounded(next) && next.keepSgr == st.keepSgr
            && Clean(out, st.keepSgr)
            && (next.styled <==> st.styled || ESC in out)
  {
    hide Step, Clean, Bounded, PlainParams;
    StepHasShape(st, c);
    BoundedParams(st);
    CleanNothing(st.keepSgr);
    var (next, out) := Step(st, c);
    if |out| == 1 && IsGlyph(out[0]) {
      assert out == [out[0]];
      CleanPiece(Glyph(out[0]), st.keepSgr);
    } else if out != "" {
      CleanPiece(Colour(st.escape.params), st.keepSgr);
      assert out[0] == ESC;
    }
  }

  lemma {:induction false} BoundedParams(st: State)
    requires Bounded(st)
    ensures st.escape.Csi? ==> |st.escape.params| <= SGR_PARAMS_MAX
  {
  }

  lemma {:induction false} StepsClean(st: State, text: string)
    requires Bounded(st)
    ensures var (last, out) := Steps(st, text);
            && Bounded(last) && last.keepSgr == st.keepSgr
            && Clean(out, st.keepSgr)
            && (last.styled <==> st.styled || ESC in out)
    decreases |text|
  {
    hide Step, Clean, Bounded;
    if text == "" {
      CleanNothing(st.keepSgr);
    } else {
      StepClean(st, text[0]);
      var (next, out) := Step(st, text[0]);
      StepsClean(next, text[1..]);
      CleanConcat(out, Steps(next, text[1..]).1, st.keepSgr);
    }
  }

  lemma {:induction false} FedClean(s: San, bytes: seq<byte>)
    requires Bounded(s.st)
    ensures var (next, out) := Fed(s, bytes);
            && Bounded(next.st) && next.st.keepSgr == s.st.keepSgr
            && Clean(out, s.st.keepSgr)
            && (next.st.styled <==> s.st.styled || ESC in out)
  {
    hide Steps, Decode, Clean, Bounded;
    StepsClean(s.st, Decode(s.pending + bytes).0);
  }

  lemma {:induction false} FedAllClean(s: San, chunks: seq<seq<byte>>)
    requires Bounded(s.st)
    ensures var (next, out) := FedAll(s, chunks);
            && Bounded(next.st) && next.st.keepSgr == s.st.keepSgr
            && Clean(out, s.st.keepSgr)
            && (next.st.styled <==> s.st.styled || ESC in out)
    decreases |chunks|
  {
    hide Fed, Clean, Bounded;
    if chunks == [] {
      CleanNothing(s.st.keepSgr);
    } else {
      FedClean(s, chunks[0]);
      var (mid, out) := Fed(s, chunks[0]);
      FedAllClean(mid, chunks[1..]);
      CleanConcat(out, FedAll(mid, chunks[1..]).1, s.st.keepSgr);
    }
  }

  lemma {:induction false} ResetClean()
    ensures Clean(SGR_RESET, true)
  {
    assert SGR_RESET == SgrText("0");
    CleanPiece(Colour("0"), true);
  }

  lemma {:induction false} FinishClean(s: San)
    requires Bounded(s.st)
    ensures var (next, out) := Finished(s);
            && next == Fresh(s.st.keepSgr)
            && ((s.st.styled ==> s.st.keepSgr) ==> Clean(out, s.st.keepSgr))
  {
    hide Steps, Clean, Bounded;
    var text := if s.pending == [] then "" else [REPLACEMENT];
    StepsClean(s.st, text);
    var (st, out) := Steps(s.st, text);
    if st.styled && (s.st.styled ==> s.st.keepSgr) {
      if ESC in out {
        EscNeedsColour(out, s.st.keepSgr);
      }
      ResetClean();
      CleanConcat(out, SGR_RESET, true);
    } else {
      assert out + "" == out;
    }
  }

  // Without colour there is no escape character at all.
  lemma {:induction false} EscNeedsColour(text: string, keepSgr: bool)
    requires Clean(text, keepSgr) && ESC in text
    ensures keepSgr
  {
    hide Spell;
    var pieces :| PiecesOk(pieces, keepSgr) && Spell(pieces) == text;
    if !keepSgr {
      NoEscInGlyphs(pieces);
    }
  }

  lemma {:induction false} NoEscInGlyphs(pieces: seq<Piece>)
    requires PiecesOk(pieces, false)
    ensures ESC !in Spell(pieces)
  {
    if pieces != [] {
      assert PieceOk(pieces[0], false);
      NoEscInGlyphs(pieces[1..]);
    }
  }

  // A whole run prints a clean word; with colour off it has no escape; and once a colour
  // sequence is printed the output ends in a reset.
  lemma {:induction false} RunIsClean(keepSgr: bool, chunks: seq<seq<byte>>)
    ensures var out := RunOutput(keepSgr, chunks);
            && Clean(out, keepSgr)
            && (ESC in out ==> keepSgr)
            && (ESC in out ==> |out| >= |SGR_RESET| && out[|out| - |SGR_RESET|..] == SGR_RESET)
  {
    hide FedAll, Clean, Steps;
    var s0 := Fresh(keepSgr);
    FedAllClean(s0, chunks);
    var (s, out) := FedAll(s0, chunks);
    if ESC in out {
      EscNeedsColour(out, keepSgr);
    }
    FinishClean(s);
    var end := Finished(s).1;
    CleanConcat(out, end, keepSgr);
    if ESC in out + end {
      EscNeedsColour(out + end, keepSgr);
      ResetAtEnd(s, out);
    }
  }

  lemma {:induction false} ResetAtEnd(s: San, out: string)
    requires Bounded(s.st) && (s.st.styled <==> ESC in out) && ESC in out + Finished(s).1
    ensures var whole := out + Finished(s).1;
            |whole| >= |SGR_RESET| && whole[|whole| - |SGR_RESET|..] == SGR_RESET
  {
    hide Steps, Clean, Bounded;
    var text := if s.pending == [] then "" else [REPLACEMENT];
    StepsClean(s.st, text);
    var (st, more) := Steps(s.st, text);
    assert !st.styled ==> Finished(s).1 == more;
    assert st.styled;
    var whole := out + Finished(s).1;
    assert whole == (out + more) + SGR_RESET;
  }

  // ----- clean text passes unchanged -----

  lemma {:induction false} ColourPasses(st: State, params: string)
    requires st.keepSgr && st.escape.NoEscape? && !st.afterCr
    requires PlainParams(params) && |params| <= SGR_PARAMS_MAX
    ensures Steps(st, SgrText(params)) == (st.(styled := true), SgrText(params))
  {
    hide Steps, StartStep;
    StepsOne(st, ESC);
    StepsOne(st.(escape := Start), '[');
    StepsConcat(st, [ESC], ['[']);
    BracketStarts(st);
    var head := [ESC] + ['['];
    assert "" + "" == "";
    assert Steps(st, head) == (st.(escape := Csi("")), "");
    CollectParams(st, "", params);
    assert "" + params == params;
    StepsConcat(st, head, params);
    assert Steps(st, head + params) == (st.(escape := Csi(params)), "");
    StepsOne(st.(escape := Csi(params)), 'm');
    StepsConcat(st, head + params, "m");
    assert SgrText(params) == head + params + "m";
    assert "" + SgrText(params) == SgrText(params);
  }

  lemma {:induction false} BracketStarts(st: State)
    requires !st.afterCr
    ensures Step(st.(escape := Start), '[') == (st.(escape := Csi("")), "")
  {
  }

  lemma {:induction false} CollectParams(st: State, before: string, more: string)
    requires !st.afterCr && PlainParams(more) && |before + more| <= SGR_PARAMS_MAX
    ensures Steps(st.(escape := Csi(before)), more) == (st.(escape := Csi(before + more)), "")
    decreases |more|
  {
    if more == "" {
      assert before + more == before;
    } else {
      assert IsSgrParam(more[0]);
      assert before + [more[0]] + more[1..] == before + more;
      var next := st.(escape := Csi(before + [more[0]]));
      assert Step(st.(escape := Csi(before)), more[0]) == (next, "");
      CollectParams(st, before + [more[0]], more[1..]);
      assert "" + Steps(next, more[1..]).1 == "";
    }
  }

  lemma {:induction false} GlyphPasses(st: State, c: char)
    requires st.escape.NoEscape? && !st.afterCr && IsGlyph(c)
    ensures Steps(st, [c]) == (st, [c])
  {
    hide Steps;
    StepsOne(st, c);
  }

  lemma {:induction false} PiecesPass(st: State, pieces: seq<Piece>)
    requires st.escape.NoEscape? && !st.afterCr && PiecesOk(pieces, st.keepSgr)
    ensures var (last, out) := Steps(st, Spell(pieces));
            out == Spell(pieces) && last.(styled := false) == st.(styled := false)
    decreases |pieces|
  {
    hide Steps, Step, IsGlyph, PlainParams;
    StepsNone(st);
    if pieces != [] {
      var p := pieces[0];
      assert PieceOk(p, st.keepSgr);
      match p {
        case Glyph(c) => GlyphPasses(st, c);
        case Colour(params) => ColourPasses(st, params);
      }
      var next := Steps(st, PieceText(p)).0;
      PiecesPass(next, pieces[1..]);
      StepsConcat(st, PieceText(p), Spell(pieces[1..]));
    }
  }

  // Sanitizing is idempotent: the encoded output of any run passes unchanged.
  lemma {:induction false} CleanTextPasses(keepSgr: bool, text: string)
    requires Clean(text, keepSgr)
    ensures Fed(Fresh(keepSgr), EncodeAll(text)).1 == text
    ensures Fed(Fresh(keepSgr), EncodeAll(text)).0.pending == []
  {
    hide Steps, Spell, Decode;
    var pieces :| PiecesOk(pieces, keepSgr) && Spell(pieces) == text;
    assert [] + EncodeAll(text) == EncodeAll(text);
    DecodeEncoded(text);
    PiecesPass(Fresh(keepSgr).st, pieces);
  }

  // ----- where a line starts -----

  function LineFlags(text: string, atStart: bool, inSgr: bool): (bool, bool)
    decreases |text|
  {
    if text == "" then (atStart, inSgr) else
      var c := text[0];
      if !inSgr && c == ESC then LineFlags(text[1..], atStart, true)
      else if inSgr then LineFlags(text[1..], atStart, c != 'm')
      else LineFlags(text[1..], c == '\n', false)
  }

  method EndsAtLineStart(clean: string, before: bool) returns (atStart: bool)
    ensures atStart == LineFlags(clean, before, false).0
  {
    atStart := before;
    var inSgr := false;
    var k := 0;
    while k < |clean|
      invariant k <= |clean|
      invariant LineFlags(clean[k..], atStart, inSgr) == LineFlags(clean, before, false)
    {
      var c := clean[k];
      assert clean[k..][1..] == clean[k + 1..];
      if !inSgr && c == ESC {
        inSgr := true;
      } else if inSgr {
        inSgr := c != 'm';
      } else {
        atStart := c == '\n';
      }
      k := k + 1;
    }
  }

  lemma {:induction false} LineFlagsConcat(a: string, b: string, atStart: bool, inSgr: bool)
    ensures LineFlags(a + b, atStart, inSgr)
         == LineFlags(b, LineFlags(a, atStart, inSgr).0, LineFlags(a, atStart, inSgr).1)
    decreases |a|
  {
    if a == "" {
      assert a + b == b;
    } else {
      assert (a + b)[1..] == a[1..] + b;
      var c := a[0];
      if !inSgr && c == ESC {
        LineFlagsConcat(a[1..], b, atStart, true);
      } else if inSgr {
        LineFlagsConcat(a[1..], b, atStart, c != 'm');
      } else {
        LineFlagsConcat(a[1..], b, c == '\n', false);
      }
    }
  }

  // Whether the last glyph is a newline; without glyphs, what held before.
  function LastGlyphBreaks(pieces: seq<Piece>, before: bool): bool {
    if pieces == [] then before
    else match pieces[|pieces| - 1]
      case Glyph(c) => c == '\n'
      case Colour(_) => LastGlyphBreaks(pieces[..|pieces| - 1], before)
  }

  lemma {:induction false} ParamsSkipped(params: string, atStart: bool)
    requires PlainParams(params)
    ensures LineFlags(params + "m", atStart, true) == (atStart, false)
    decreases |params|
  {
    if params == "" {
      assert params + "m" == "m" && "m"[1..] == "";
    } else {
      assert IsSgrParam(params[0]);
      assert (params + "m")[1..] == params[1..] + "m";
      ParamsSkipped(params[1..], atStart);
    }
  }

  lemma {:induction false} PieceFlags(p: Piece, keepSgr: bool, atStart: bool)
    requires PieceOk(p, keepSgr)
    ensures LineFlags(PieceText(p), atStart, false) == (if p.Glyph? then p.c == '\n' else atStart, false)
  {
    match p
    case Glyph(c) =>
      assert [c][1..] == "";
    case Colour(params) =>
      assert SgrText(params)[1..] == ['['] + params + "m";
      assert (['['] + params + "m")[1..] == params + "m";
      ParamsSkipped(params, atStart);
  }

  lemma {:induction false} LineStartIsLastGlyph(pieces: seq<Piece>, keepSgr: bool, before: bool)
    requires PiecesOk(pieces, keepSgr)
    ensures LineFlags(Spell(pieces), before, false) == (LastGlyphBreaks(pieces, before), false)
  {
    hide PieceOk, PieceText, LineFlags, Spell;
    if pieces == [] {
      NoFlags(before);
    } else {
      var front, p := pieces[..|pieces| - 1], pieces[|pieces| - 1];
      LineStartIsLastGlyph(front, keepSgr, before);
      assert pieces == front + [p];
      SpellConcat(front, [p]);
      SpellOne(p);
      LineFlagsConcat(Spell(front), PieceText(p), before, false);
      PieceFlags(p, keepSgr, LastGlyphBreaks(front, before));
    }
  }

  lemma {:induction false} NoFlags(before: bool)
    ensures Spell([]) == "" && LineFlags("", before, false) == (before, false)
  {
  }

  lemma {:induction false} SpellOne(p: Piece)
    ensures Spell([p]) == PieceText(p)
  {
    assert Spell([p]) == PieceText(p) + "";
  }

  // Folding the line-start flag over clean chunks is one call on their concatenation.
  lemma {:induction false} LineStartFolds(a: string, b: string, keepSgr: bool, before: bool)
    requires Clean(a, keepSgr)
    ensures LineFlags(a + b, before, false).0 == LineFlags(b, LineFlags(a, before, false).0, false).0
  {
    hide Spell, LineFlags;
    var pieces :| PiecesOk(pieces, keepSgr) && Spell(pieces) == a;
    LineStartIsLastGlyph(pieces, keepSgr, before);
    LineFlagsConcat(a, b, before, false);
  }

  // The outputs of the feeds of a run, one by one.
  function Outputs(s: San, chunks: seq<seq<byte>>): seq<string>
    decreases |chunks|
  {
    if chunks == [] then [] else
      var (mid, out) := Fed(s, chunks[0]);
      [out] + Outputs(mid, chunks[1..])
  }

  function FoldStart(outputs: seq<string>, before: bool): bool {
    if outputs == [] then before else FoldStart(outputs[1..], LineFlags(outputs[0], before, false).0)
  }

  lemma {:induction false} FeedsLineStart(s: San, chunks: seq<seq<byte>>, before: bool)
    requires Bounded(s.st)
    ensures FoldStart(Outputs(s, chunks), before) == LineFlags(FedAll(s, chunks).1, before, false).0
    decreases |chunks|
  {
    hide Fed, Clean, Bounded, LineFlags;
    if chunks == [] {
      NoFlags(before);
    } else {
      FedClean(s, chunks[0]);
      var (mid, out) := Fed(s, chunks[0]);
      var outputs := Outputs(mid, chunks[1..]);
      assert ([out] + outputs)[1..] == outputs;
      FeedsLineStart(mid, chunks[1..], LineFlags(out, before, false).0);
      LineStartFolds(out, FedAll(mid, chunks[1..]).1, s.st.keepSgr, before);
    }
  }

  lemma {:induction false} FoldOneMore(outputs: seq<string>, out: string, before: bool)
    ensures FoldStart(outputs + [out], before) == LineFlags(out, FoldStart(outputs, before), false).0
    decreases |outputs|
  {
    hide LineFlags;
    if outputs == [] {
      assert outputs + [out] == [out] && [out][1..] == [];
    } else {
      assert (outputs + [out])[1..] == outputs[1..] + [out];
      FoldOneMore(outputs[1..], out, LineFlags(outputs[0], before, false).0);
    }
  }

  // What a run prints: the outputs of its feeds and the one at the end of the stream.
  function RunOutputs(keepSgr: bool, chunks: seq<seq<byte>>): seq<string> {
    Outputs(Fresh(keepSgr), chunks) + [Finished(FedAll(Fresh(keepSgr), chunks).0).1]
  }

  // Folding the flag over everything a run prints, text by text, is one call on the whole output.
  lemma {:induction false} RunLineStart(keepSgr: bool, chunks: seq<seq<byte>>, before: bool)
    ensures FoldStart(RunOutputs(keepSgr, chunks), before) == LineFlags(RunOutput(keepSgr, chunks), before, false).0
  {
    hide FedAll, Finished, Outputs, Clean, Bounded, LineFlags, FoldStart;
    assert Bounded(Fresh(keepSgr).st) by { FreshBounded(keepSgr); }
    var (s, out) := FedAll(Fresh(keepSgr), chunks);
    FedAllClean(Fresh(keepSgr), chunks);
    FeedsLineStart(Fresh(keepSgr), chunks, before);
    FoldOneMore(Outputs(Fresh(keepSgr), chunks), Finished(s).1, before);
    LineStartFolds(out, Finished(s).1, keepSgr, before);
  }

  lemma {:induction false} FreshBounded(keepSgr: bool)
    ensures Bounded(Fresh(keepSgr).st) && Fresh(keepSgr).st.keepSgr == keepSgr
  {
  }
}
