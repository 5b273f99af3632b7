// What one poll of the usage file does, in full: where it reads from, how far it gets, and which lines
// become rows.
module UsagePolls {
  import opened Text
  import opened Utf8
  import opened Usage

  // Another file, or one that became shorter than what was read: it is read anew.
  predicate Replaced(tail: Tail, p: Poll) {
    p.file.id != tail.file || p.seen < tail.offset
  }

  // No line ends between the two places.
  predicate NoLineEnds(bytes: seq<byte>, from: nat, to: nat) {
    forall k :: from <= k < to && k < |bytes| ==> bytes[k] != 10
  }

  lemma {:induction false} ReplacedIsReset(tail: Tail, p: Poll)
    ensures var read := ReadFrom(tail, Stamp(p.file.id, p.seen));
            (read.reset <==> Replaced(tail, p)) && read.from == if Replaced(tail, p) then 0 else tail.offset
  {
  }

  // After a poll the rows are those of every complete line that was read, from where the rows began or,
  // in a replaced file, from the start; only an unfinished line is left.
  lemma {:induction false} PollReadsAll(tail: Tail, before: File, p: Poll, base: nat, run: string, parse: Parser)
    requires Holds(tail, before, base, run, parse) && PollOk(tail, before, p)
    ensures var now, from := Polled(tail, p, run, parse), if Replaced(tail, p) then 0 else base;
            && now.file == p.file.id && from <= now.offset <= p.upTo <= |p.file.bytes|
            && (now.offset == 0 || p.file.bytes[now.offset - 1] == 10) && NoLineEnds(p.file.bytes, now.offset, p.upTo)
            && now.rows == SessionRows(Lossy(p.file.bytes[from..now.offset]), run, parse)
  {
    hide SessionRows, Lossy, LastBreak, ReadFrom;
    ReplacedIsReset(tail, p);
    PollKeeps(tail, before, p, base, run, parse);
    var from := ReadFrom(tail, Stamp(p.file.id, p.seen)).from;
    var chunk := p.file.bytes[from..p.upTo];
    var consumed := LastBreak(chunk, |chunk|);
    assert forall k :: from + consumed <= k < p.upTo ==> p.file.bytes[k] == chunk[k - from];
  }

  // The line is a turn or a ping of this run.
  predicate Counted(line: string, run: string, parse: Parser) {
    && parse(line).Some? && parse(line).value.kind in {"turn", "ping"}
    && parse(line).value.run.Some? && parse(line).value.run.value == run
  }

  // The rows are the counted lines from `from` on, in order: none is left out, doubled or changed.
  predicate Picked(at: seq<nat>, rows: seq<UsageLine>, lines: seq<string>, from: nat, run: string, parse: Parser) {
    && |at| == |rows|
    && (forall i :: 0 <= i < |at| ==> from <= at[i] < |lines| && Counted(lines[at[i]], run, parse) && parse(lines[at[i]]) == Some(rows[i]))
    && (forall i, j :: 0 <= i < j < |at| ==> at[i] < at[j])
    && (forall k :: from <= k < |lines| && Counted(lines[k], run, parse) ==> k in at)
  }

  lemma {:induction false} RowIsCounted(line: string, run: string, parse: Parser)
    ensures RowOf(line, run, parse) == if Counted(line, run, parse) then [parse(line).value] else []
  {
  }

  lemma {:induction false} PickOne(at: seq<nat>, rows: seq<UsageLine>, lines: seq<string>, from: nat, run: string, parse: Parser)
    requires from < |lines| && Counted(lines[from], run, parse) && Picked(at, rows, lines, from + 1, run, parse)
    ensures Picked([from] + at, [parse(lines[from]).value] + rows, lines, from, run, parse)
  {
    assert parse(lines[from]).Some?;
    hide Counted;
  }

  lemma {:induction false} PickNone(at: seq<nat>, rows: seq<UsageLine>, lines: seq<string>, from: nat, run: string, parse: Parser)
    requires from < |lines| && !Counted(lines[from], run, parse) && Picked(at, rows, lines, from + 1, run, parse)
    ensures Picked(at, [] + rows, lines, from, run, parse)
  {
    hide Counted;
    assert [] + rows == rows;
  }

  lemma {:induction false} RowsArePicked(lines: seq<string>, from: nat, run: string, parse: Parser) returns (at: seq<nat>)
    requires from <= |lines|
    ensures Picked(at, RowsOf(lines[from..], run, parse), lines, from, run, parse)
    decreases |lines| - from
  {
    if from == |lines| {
      at := [];
    } else {
      var rest := RowsArePicked(lines, from + 1, run, parse);
      RowIsCounted(lines[from], run, parse);
      assert lines[from..][1..] == lines[from + 1..];
      hide Picked, Counted, RowOf;
      if Counted(lines[from], run, parse) {
        PickOne(rest, RowsOf(lines[from + 1..], run, parse), lines, from, run, parse);
        at := [from] + rest;
      } else {
        PickNone(rest, RowsOf(lines[from + 1..], run, parse), lines, from, run, parse);
        at := rest;
      }
    }
  }
}
