// Exactly which commands are formatted: those that can be scanned and laid out, are too wide or a
// sequence, and take more than one line.
module ShellWhen {
  import opened Text
  import opened ShellScan
  import opened ShellShape
  import opened ShellLayout
  import opened ShellBlocks
  import opened ShellFormat
  import opened ShellCuts
  import opened ShellScanExact

  ghost predicate SomePieceSemi(pieces: seq<Piece>) {
    exists k :: 0 <= k < |pieces| && pieces[k].sep == Semi
  }

  ghost predicate SomeSegmentSemi(segments: seq<Segment>) {
    exists k :: 0 <= k < |segments| && segments[k].sep == Semi
  }

  lemma {:induction false} SemiPushed(segments: seq<Segment>, seg: Segment)
    ensures SomeSegmentSemi(segments + [seg]) <==> SomeSegmentSemi(segments) || seg.sep == Semi
  {
    var all := segments + [seg];
    if SomeSegmentSemi(segments) {
      var k :| 0 <= k < |segments| && segments[k].sep == Semi;
      assert all[k].sep == Semi;
    }
    assert all[|segments|] == seg;
  }

  lemma {:induction false} PieceSemiPushed(pieces: seq<Piece>, piece: Piece)
    ensures SomePieceSemi(pieces + [piece]) <==> SomePieceSemi(pieces) || piece.sep == Semi
  {
    var all := pieces + [piece];
    if SomePieceSemi(pieces) {
      var k :| 0 <= k < |pieces| && pieces[k].sep == Semi;
      assert all[k].sep == Semi;
    }
    assert all[|pieces|] == piece;
  }

  lemma {:induction false} SemisCollected(chars: string, pieces: seq<Piece>)
    ensures SomeSegmentSemi(Collect(chars, pieces).segments) <==> SomePieceSemi(pieces)
  {
    hide StageOf, SomeSegmentSemi, SomePieceSemi;
    if pieces == [] {
      NoSemis();
    } else {
      var n := |pieces| - 1;
      SemisCollected(chars, pieces[..n]);
      assert pieces == pieces[..n] + [pieces[n]];
      PieceSemiPushed(pieces[..n], pieces[n]);
      var before := Collect(chars, pieces[..n]);
      SemiPushed(before.segments, Segment(before.stages + [StageOf(chars, pieces[n])], pieces[n].sep));
    }
  }

  lemma {:induction false} NoSemis()
    ensures !SomeSegmentSemi([]) && !SomePieceSemi([])
  {
  }

  // A `;` with a piece behind it.
  ghost predicate IsSequence(pieces: seq<Piece>) {
    exists k :: 0 <= k < |pieces| - 1 && pieces[k].sep == Semi
  }

  lemma {:induction false} SequenceIs(chars: string, pieces: seq<Piece>)
    requires pieces != [] && pieces[|pieces| - 1].sep != Pipe
    ensures HasSequence(Collect(chars, pieces).segments) <==> IsSequence(pieces)
  {
    hide StageOf;
    var n := |pieces| - 1;
    SemisCollected(chars, pieces[..n]);
    var segments := Collect(chars, pieces).segments;
    var front := Collect(chars, pieces[..n]).segments;
    assert segments[..|segments| - 1] == front;
    assert HasSequence(segments) <==> SomeSegmentSemi(front) by { FrontSemi(segments); }
    assert forall k :: 0 <= k < n ==> pieces[..n][k] == pieces[k];
  }

  lemma {:induction false} FrontSemi(segments: seq<Segment>)
    requires segments != []
    ensures HasSequence(segments) <==> SomeSegmentSemi(segments[..|segments| - 1])
  {
    assert forall k :: 0 <= k < |segments| - 1 ==> segments[..|segments| - 1][k] == segments[k];
  }

  // The segments of a scannable command.
  function SegmentsOf(command: string): seq<Segment> {
    Collect(command, AllPieces(command)).segments
  }

  // The blocks are well nested, and every keyword stands where it may.
  ghost predicate IsLaidOut(segments: seq<Segment>) {
    && SegmentsOk(segments) && Bracketed(CommandTokens(segments, |segments|))
    && forall k :: 0 <= k < |segments| ==> SegmentFits(segments, k)
  }

  // A command is formatted exactly when it is one line, can be scanned, is wider than the width or has a
  // `;` with something behind it, has well-nested blocks with their keywords in place, and takes more
  // than one line.
  lemma {:induction false} FormatIff(command: string, width: nat, fence: bool)
    ensures FormatSpec(command, width, fence).Some? <==>
            && PlainLine(command) && Scannable(command)
            && (width < |command| || IsSequence(AllPieces(command)))
            && IsLaidOut(SegmentsOf(command))
            && |LayoutSpec(SegmentsOf(command), width, fence).GetOr([])| >= 2
  {
    hide *;
    ScanIsCuts(command);
    FormatParts(command, width, fence);
    if PlainLine(command) && Scannable(command) {
      ScanShaped(command);
      Ends(command);
      SequenceIs(command, AllPieces(command));
      Segments(command);
      LaidOut(SegmentsOf(command), width, fence);
      LineCount(LayoutSpec(SegmentsOf(command), width, fence));
    }
  }

  lemma {:induction false} LineCount(lines: Option<seq<string>>)
    ensures |lines.GetOr([])| == if lines.Some? then |lines.value| else 0
  {
  }

  lemma {:induction false} Segments(command: string)
    ensures SegmentsOf(command) == Collect(command, AllPieces(command)).segments
  {
  }

  lemma {:induction false} Ends(command: string)
    requires Scannable(command)
    ensures AllPieces(command) != [] && AllPieces(command)[|AllPieces(command)| - 1].sep != Pipe
  {
    hide AllPieces, Bad, ReadAt, Groups, NoneBlank, Cuts;
  }

  lemma {:induction false} LaidOut(segments: seq<Segment>, width: nat, fence: bool)
    requires SegmentsOk(segments)
    ensures IsLaidOut(segments) <==> LayoutSpec(segments, width, fence).Some?
  {
    hide LayoutSpec, SegmentsOk, Bracketed, CommandTokens, SegmentFits;
    LayoutIff(segments, width, fence);
  }

  lemma {:induction false} FormatParts(command: string, width: nat, fence: bool)
    ensures ScanSpec(command).Some? && PlainLine(command) ==> SegmentsOk(ScanSpec(command).value)
    ensures FormatSpec(command, width, fence).Some? <==>
            && PlainLine(command) && ScanSpec(command).Some?
            && (width < |command| || HasSequence(ScanSpec(command).value))
            && LayoutSpec(ScanSpec(command).value, width, fence).Some?
            && |LayoutSpec(ScanSpec(command).value, width, fence).value| >= 2
  {
    hide ScanSpec, LayoutSpec, HasSequence, SegmentsOk;
    if PlainLine(command) && ScanSpec(command).Some? {
      ScanShaped(command);
    }
  }
}
