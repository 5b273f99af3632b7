// Token usage lines and the incremental reading of the usage file.
module Usage {
  import opened Text
  import opened Utf8

  type U64 = n: nat | n <= U64_MAX

  // One line of the usage file. Its cost, when the harness gave one, is an exact number here.
  datatype UsageLine = UsageLine(
    kind: string, at: string,
    inputTokens: U64, cacheCreationTokens: U64, cacheReadTokens: U64, outputTokens: U64,
    processTurn: Option<U64>, run: Option<string>, workerId: Option<string>, sessionId: Option<string>,
    harness: Option<string>, model: Option<string>,
    reasoningTokens: Option<U64>, cacheWrite5m: Option<U64>, cacheWrite1h: Option<U64>, cost: Option<real>)

  // JSON parsing is a parameter: text of one line to a usage line, if it is one.
  type Parser = string -> Option<UsageLine>

  predicate InSession(line: Option<UsageLine>, run: string) {
    line.Some? && (line.value.kind == "turn" || line.value.kind == "ping") && line.value.run == Some(run)
  }

  function RowOf(line: string, run: string, parse: Parser): seq<UsageLine> {
    if InSession(parse(line), run) then [parse(line).value] else []
  }

  function RowsOf(lines: seq<string>, run: string, parse: Parser): seq<UsageLine> {
    if lines == [] then [] else
      RowOf(lines[0], run, parse) + RowsOf(lines[1..], run, parse)
  }

  // Batch parsing.
  function SessionRows(text: string, run: string, parse: Parser): seq<UsageLine> {
    RowsOf(Lines(text), run, parse)
  }

  type FileId = Option<(nat, nat)>

  datatype Stamp = Stamp(id: FileId, len: nat)
  datatype Tail = Tail(file: FileId, offset: nat, rows: seq<UsageLine>)
  datatype TailRead = TailRead(from: nat, reset: bool)

  function StartingAt(stamp: Stamp): Tail {
    Tail(stamp.id, stamp.len, [])
  }

  function ReadFrom(tail: Tail, stamp: Stamp): TailRead {
    var reset := tail.file != stamp.id || stamp.len < tail.offset;
    TailRead(if reset then 0 else tail.offset, reset)
  }

  const NEWLINE: byte := 10

  // Just after the last newline of the first `k` bytes, or 0.
  function LastBreak(chunk: seq<byte>, k: nat): (at: nat)
    requires k <= |chunk|
    ensures at <= k
    ensures at > 0 ==> chunk[at - 1] == NEWLINE
    ensures forall j :: at <= j < k ==> chunk[j] != NEWLINE
  {
    if k == 0 || chunk[k - 1] == NEWLINE then k else LastBreak(chunk, k - 1)
  }

  function Absorb(tail: Tail, stamp: Stamp, read: TailRead, chunk: seq<byte>, run: string, parse: Parser): Tail {
    var consumed := LastBreak(chunk, |chunk|);
    Tail(stamp.id, read.from + consumed,
         (if read.reset then [] else tail.rows) + SessionRows(Lossy(chunk[..consumed]), run, parse))
  }

  // ----- reading in pieces that end in newlines -----

  lemma {:induction false} RowsConcat(a: seq<string>, b: seq<string>, run: string, parse: Parser)
    ensures RowsOf(a + b, run, parse) == RowsOf(a, run, parse) + RowsOf(b, run, parse)
  {
    hide RowOf;
    if a == [] {
      assert a + b == b;
      assert [] + RowsOf(b, run, parse) == RowsOf(b, run, parse);
    } else {
      assert (a + b)[1..] == a[1..] + b && (a + b)[0] == a[0];
      RowsConcat(a[1..], b, run, parse);
      var first, rest := RowOf(a[0], run, parse), RowsOf(a[1..], run, parse);
      assert first + (rest + RowsOf(b, run, parse)) == (first + rest) + RowsOf(b, run, parse);
    }
  }

  predicate AtBreak(bytes: seq<byte>, k: nat) {
    k <= |bytes| && (k == 0 || bytes[k - 1] == NEWLINE)
  }

  // A newline byte is always a character of its own.
  lemma {:induction false} HeadStopsAtNewline(s: seq<byte>)
    requires s != [] && s[|s| - 1] == NEWLINE
    ensures !Head(s).Short?
    ensures Head(s).n == |s| ==> Head(s) == Char('\n', 1)
  {
  }

  lemma {:induction false} DecodeAtBreak(s: seq<byte>)
    requires s != [] && s[|s| - 1] == NEWLINE
    ensures var (text, rest) := Decode(s);
            rest == [] && text != "" && text[|text| - 1] == '\n'
  {
    hide Head;
    HeadStopsAtNewline(s);
    DecodeFirst(s);
    var n := Head(s).n;
    if n == |s| {
      assert s[n..] == [];
    } else {
      DecodeAtBreak(s[n..]);
    }
  }

  // Text cut after a newline reads as its two pieces.
  lemma {:induction false} RowsOfPieces(a: seq<byte>, b: seq<byte>, run: string, parse: Parser)
    requires AtBreak(a, |a|)
    ensures SessionRows(Lossy(a + b), run, parse)
         == SessionRows(Lossy(a), run, parse) + SessionRows(Lossy(b), run, parse)
  {
    hide Decode, Lines, RowsOf;
    DecodeConcat(a, b);
    assert [] + b == b;
    if a == [] {
      NothingDecodes();
    } else {
      DecodeAtBreak(a);
    }
    var text := Decode(a).0;
    assert Lossy(a + b) == text + Lossy(b);
    LinesOfPieces(text, Lossy(b));
    RowsConcat(Lines(text), Lines(Lossy(b)), run, parse);
  }

  lemma {:induction false} NothingDecodes()
    ensures Decode([]) == ("", [])
  {
  }

  // ----- runs of polls -----

  datatype File = File(id: FileId, bytes: seq<byte>)

  // The held rows are those of the file's lines between `base` and the offset.
  predicate Holds(tail: Tail, file: File, base: nat, run: string, parse: Parser) {
    && tail.file == file.id
    && base <= tail.offset && AtBreak(file.bytes, base) && AtBreak(file.bytes, tail.offset)
    && tail.rows == SessionRows(Lossy(file.bytes[base..tail.offset]), run, parse)
  }

  // A poll finds the file with anything behind the offset changed, or another file, or a
  // shorter one. It looks at the length first, and may then read more than that or less.
  datatype Poll = Poll(file: File, seen: nat, upTo: nat)

  predicate PollOk(tail: Tail, before: File, p: Poll) {
    var read := ReadFrom(tail, Stamp(p.file.id, p.seen));
    && p.seen <= |p.file.bytes| && read.from <= p.upTo <= |p.file.bytes|
    && (!read.reset ==> tail.offset <= |before.bytes| && p.file.bytes[..tail.offset] == before.bytes[..tail.offset])
  }

  function Polled(tail: Tail, p: Poll, run: string, parse: Parser): Tail {
    var stamp := Stamp(p.file.id, p.seen);
    var read := ReadFrom(tail, stamp);
    if read.from <= p.upTo <= |p.file.bytes|
    then Absorb(tail, stamp, read, p.file.bytes[read.from..p.upTo], run, parse)
    else tail
  }

  lemma {:induction false} PolledBreak(bytes: seq<byte>, from: nat, upTo: nat)
    requires from <= upTo <= |bytes| && AtBreak(bytes, from)
    ensures var consumed := LastBreak(bytes[from..upTo], upTo - from);
            && AtBreak(bytes, from + consumed)
            && bytes[from..upTo][..consumed] == bytes[from..from + consumed]
  {
  }

  lemma {:induction false} PrefixKept(before: seq<byte>, after: seq<byte>, offset: nat, base: nat)
    requires offset <= |before| && offset <= |after| && after[..offset] == before[..offset] && base <= offset
    ensures after[base..offset] == before[base..offset]
    ensures AtBreak(before, base) ==> AtBreak(after, base)
    ensures AtBreak(before, offset) ==> AtBreak(after, offset)
  {
    assert forall k :: 0 <= k < offset ==> after[..offset][k] == before[..offset][k];
    assert forall k :: 0 <= k < offset ==> after[k] == before[k];
  }

  lemma {:induction false} PollContinues(tail: Tail, bytes: seq<byte>, base: nat, more: seq<byte>, consumed: nat, run: string, parse: Parser)
    requires base <= tail.offset && tail.offset + consumed <= |bytes|
    requires AtBreak(bytes, base) && AtBreak(bytes, tail.offset)
    requires more == bytes[tail.offset..tail.offset + consumed]
    requires tail.rows == SessionRows(Lossy(bytes[base..tail.offset]), run, parse)
    ensures tail.rows + SessionRows(Lossy(more), run, parse)
         == SessionRows(Lossy(bytes[base..tail.offset + consumed]), run, parse)
  {
    hide SessionRows, Lossy;
    var held := bytes[base..tail.offset];
    assert bytes[base..tail.offset + consumed] == held + more;
    RowsOfPieces(held, more, run, parse);
  }

  lemma {:induction false} PollAnew(tail: Tail, p: Poll, run: string, parse: Parser)
    requires ReadFrom(tail, Stamp(p.file.id, p.seen)).reset && p.seen <= |p.file.bytes| && p.upTo <= |p.file.bytes|
    ensures Holds(Polled(tail, p, run, parse), p.file, 0, run, parse)
  {
    hide SessionRows, Lossy, LastBreak, AtBreak;
    var bytes := p.file.bytes;
    StartIsBreak(bytes);
    PolledBreak(bytes, 0, p.upTo);
    var more := bytes[0..LastBreak(bytes[0..p.upTo], p.upTo)];
    assert [] + SessionRows(Lossy(more), run, parse) == SessionRows(Lossy(more), run, parse);
  }

  lemma {:induction false} PollMore(tail: Tail, before: File, p: Poll, base: nat, run: string, parse: Parser)
    requires Holds(tail, before, base, run, parse) && PollOk(tail, before, p)
    requires !ReadFrom(tail, Stamp(p.file.id, p.seen)).reset
    ensures Holds(Polled(tail, p, run, parse), p.file, base, run, parse)
  {
    hide SessionRows, Lossy, LastBreak, AtBreak;
    var bytes := p.file.bytes;
    PrefixKept(before.bytes, bytes, tail.offset, base);
    PolledBreak(bytes, tail.offset, p.upTo);
    var consumed := LastBreak(bytes[tail.offset..p.upTo], p.upTo - tail.offset);
    PollContinues(tail, bytes, base, bytes[tail.offset..tail.offset + consumed], consumed, run, parse);
  }

  lemma {:induction false} PollKeeps(tail: Tail, before: File, p: Poll, base: nat, run: string, parse: Parser)
    requires Holds(tail, before, base, run, parse) && PollOk(tail, before, p)
    ensures var read := ReadFrom(tail, Stamp(p.file.id, p.seen));
            Holds(Polled(tail, p, run, parse), p.file, if read.reset then 0 else base, run, parse)
  {
    hide Holds, Polled;
    if ReadFrom(tail, Stamp(p.file.id, p.seen)).reset {
      PollAnew(tail, p, run, parse);
    } else {
      PollMore(tail, before, p, base, run, parse);
    }
  }

  lemma {:induction false} StartIsBreak(bytes: seq<byte>)
    ensures AtBreak(bytes, 0)
  {
  }

  // A run of polls, each on the file as it then is.
  predicate PollsOk(tail: Tail, before: File, polls: seq<Poll>, run: string, parse: Parser)
    decreases |polls|
  {
    polls == [] ||
    (PollOk(tail, before, polls[0]) && PollsOk(Polled(tail, polls[0], run, parse), polls[0].file, polls[1..], run, parse))
  }

  function PolledAll(tail: Tail, polls: seq<Poll>, run: string, parse: Parser): Tail
    decreases |polls|
  {
    if polls == [] then tail else PolledAll(Polled(tail, polls[0], run, parse), polls[1..], run, parse)
  }

  function LastFile(before: File, polls: seq<Poll>): File {
    if polls == [] then before else polls[|polls| - 1].file
  }

  // Where the held rows begin: the start offset until the file is first replaced, then 0.
  function BaseAfter(tail: Tail, polls: seq<Poll>, base: nat, run: string, parse: Parser): nat
    decreases |polls|
  {
    if polls == [] then base else
      var read := ReadFrom(tail, Stamp(polls[0].file.id, polls[0].seen));
      BaseAfter(Polled(tail, polls[0], run, parse), polls[1..], if read.reset then 0 else base, run, parse)
  }

  // Incremental reading is batch parsing of the current file up to the offset.
  lemma {:induction false} PollsKeep(tail: Tail, before: File, polls: seq<Poll>, base: nat, run: string, parse: Parser)
    requires Holds(tail, before, base, run, parse) && PollsOk(tail, before, polls, run, parse)
    ensures Holds(PolledAll(tail, polls, run, parse), LastFile(before, polls),
                  BaseAfter(tail, polls, base, run, parse), run, parse)
    decreases |polls|
  {
    hide Holds, PollOk, Polled;
    if polls != [] {
      var p := polls[0];
      var read := ReadFrom(tail, Stamp(p.file.id, p.seen));
      PollKeeps(tail, before, p, base, run, parse);
      PollsKeep(Polled(tail, p, run, parse), p.file, polls[1..], if read.reset then 0 else base, run, parse);
    }
  }

  // From the start of tailing, at a line boundary.
  lemma {:induction false} TailingIsBatch(start: File, polls: seq<Poll>, run: string, parse: Parser)
    requires var tail := StartingAt(Stamp(start.id, |start.bytes|));
             AtBreak(start.bytes, |start.bytes|) && PollsOk(tail, start, polls, run, parse)
    ensures var tail := StartingAt(Stamp(start.id, |start.bytes|));
            var now, file := PolledAll(tail, polls, run, parse), LastFile(start, polls);
            var base := BaseAfter(tail, polls, |start.bytes|, run, parse);
            && base <= now.offset && AtBreak(file.bytes, now.offset)
            && now.rows == SessionRows(Lossy(file.bytes[base..now.offset]), run, parse)
  {
    hide PollsOk, PolledAll, BaseAfter, LastFile, SessionRows, Lossy;
    var tail := StartingAt(Stamp(start.id, |start.bytes|));
    assert start.bytes[|start.bytes|..|start.bytes|] == [];
    NoRows(run, parse);
    PollsKeep(tail, start, polls, |start.bytes|, run, parse);
  }

  lemma {:induction false} NoRows(run: string, parse: Parser)
    ensures SessionRows(Lossy([]), run, parse) == []
  {
  }

  // When nothing before the start belongs to this run, a complete read is the whole batch.
  lemma {:induction false} CompleteReadIsWholeFile(tail: Tail, file: File, base: nat, run: string, parse: Parser)
    requires Holds(tail, file, base, run, parse) && tail.offset == |file.bytes|
    requires SessionRows(Lossy(file.bytes[..base]), run, parse) == []
    ensures tail.rows == SessionRows(Lossy(file.bytes), run, parse)
  {
    hide SessionRows, Lossy;
    var front, back := file.bytes[..base], file.bytes[base..tail.offset];
    assert file.bytes == front + back;
    RowsOfPieces(front, back, run, parse);
  }
}
