// The cost table: usage lines grouped by run, cut into processes, filtered by time and grouped
// again by source and model. Prices are not part of this model.
module WorkerCosts {
  import opened Text
  import opened Usage
  import opened Tokens

  datatype Source = Main | Nap | Ask | Subagent | Worker(harness: string)

  type Key = (Source, string)

  // Whether the time in a line lies in the window asked for.
  type Window = string -> bool

  datatype MainProcess = MainProcess(run: Option<string>, rows: seq<UsageLine>)

  datatype CostRow = CostRow(harness: string, model: string, runs: Option<nat>, tokens: Count)

  const UNKNOWN := "unknown"

  function SourceOf(line: UsageLine): Option<Source> {
    if line.kind == "turn" || line.kind == "ping" then Some(Main)
    else if line.kind == "nap" || line.kind == "merge" then Some(Nap)
    else if line.kind == "ask" then Some(Ask)
    else if line.kind == "subagent" then Some(Subagent)
    else if line.kind == "worker" then Some(Worker(line.harness.GetOr(UNKNOWN)))
    else None
  }

  function Label(source: Source): string {
    match source
    case Main => "main"
    case Nap => "nap"
    case Ask => "ask"
    case Subagent => "subagent"
    case Worker(harness) => harness
  }

  // Which lines count, and under which name.
  lemma {:induction false} SourceByKind(line: UsageLine)
    ensures var name := if SourceOf(line).Some? then Label(SourceOf(line).value) else "";
            && (SourceOf(line).Some? <==> line.kind in {"turn", "ping", "nap", "merge", "ask", "subagent", "worker"})
            && (SourceOf(line) == Some(Main) <==> line.kind in {"turn", "ping"})
            && (line.kind in {"turn", "ping"} ==> name == "main")
            && (line.kind in {"nap", "merge"} ==> SourceOf(line) == Some(Nap) && name == "nap")
            && (line.kind in {"ask", "subagent"} ==> SourceOf(line).value in {Ask, Subagent} && name == line.kind)
            && (line.kind == "worker" ==> SourceOf(line).value.Worker? && name == line.harness.GetOr("unknown"))
  {
  }

  // ----- the orders of the map keys -----

  function Rank(source: Source): nat {
    match source
    case Main => 0
    case Nap => 1
    case Ask => 2
    case Subagent => 3
    case Worker(_) => 4
  }

  predicate SourceBefore(a: Source, b: Source) {
    Rank(a) < Rank(b) || (a.Worker? && b.Worker? && TextBefore(a.harness, b.harness))
  }

  predicate KeyBefore(a: Key, b: Key) {
    SourceBefore(a.0, b.0) || (a.0 == b.0 && TextBefore(a.1, b.1))
  }

  predicate RunBefore(a: Option<string>, b: Option<string>) {
    b.Some? && (a.None? || TextBefore(a.value, b.value))
  }

  lemma {:induction false} TextIsOrder()
    ensures IsOrder(TextBefore)
  {
    hide TextBefore;
    forall a, b ensures !TextBefore(a, a) && (TextBefore(a, b) || TextBefore(b, a) || a == b) {
      TextBeforeTotal(a, b);
    }
    forall a, b, c | TextBefore(a, b) && TextBefore(b, c) ensures TextBefore(a, c) {
      TextBeforeTransitive(a, b, c);
    }
  }

  lemma {:induction false} SourceIsOrder()
    ensures IsOrder(SourceBefore)
  {
    hide TextBefore;
    TextIsOrder();
  }

  lemma {:induction false} KeyIsOrder()
    ensures IsOrder(KeyBefore)
  {
    hide TextBefore, SourceBefore;
    TextIsOrder();
    SourceIsOrder();
  }

  // ----- processes -----

  predicate Opens(rows: seq<UsageLine>, at: nat)
    requires at < |rows|
  {
    at == 0 || rows[at].processTurn == Some(1)
  }

  // The rows among the first `k` at which a process starts.
  function Starts(rows: seq<UsageLine>, k: nat): seq<nat>
    requires k <= |rows|
  {
    if k == 0 then [] else
      Starts(rows, k - 1) + if Opens(rows, k - 1) then [k - 1] else []
  }

  lemma {:induction false} StartOpens(rows: seq<UsageLine>, k: nat, i: nat)
    requires k <= |rows| && i < |Starts(rows, k)|
    ensures Starts(rows, k)[i] < k && Opens(rows, Starts(rows, k)[i])
    ensures i > 0 ==> Starts(rows, k)[i - 1] < Starts(rows, k)[i]
  {
    hide Opens;
    var before := Starts(rows, k - 1);
    if i < |before| {
      StartOpens(rows, k - 1, i);
    } else if i > 0 {
      StartOpens(rows, k - 1, i - 1);
    }
  }

  lemma {:induction false} OpeningIsStart(rows: seq<UsageLine>, k: nat, at: nat) returns (i: nat)
    requires at < k <= |rows| && Opens(rows, at)
    ensures i < |Starts(rows, k)| && Starts(rows, k)[i] == at
  {
    hide Opens;
    if at == k - 1 {
      i := |Starts(rows, k - 1)|;
    } else {
      i := OpeningIsStart(rows, k - 1, at);
    }
  }

  // Where the `n`th process starts, or the end after the last one.
  function StartOf(rows: seq<UsageLine>, n: nat): (at: nat)
    ensures at <= |rows|
  {
    if n < |Starts(rows, |rows|)| then
      StartOpens(rows, |rows|, n);
      Starts(rows, |rows|)[n]
    else |rows|
  }

  lemma {:induction false} StartsGrow(rows: seq<UsageLine>, n: nat, m: nat)
    requires n < m && n < |Starts(rows, |rows|)|
    ensures StartOf(rows, n) < StartOf(rows, m)
  {
    hide Starts, Opens;
    StartOpens(rows, |rows|, n);
    if m < |Starts(rows, |rows|)| {
      StartOpens(rows, |rows|, m);
      if n < m - 1 {
        StartsGrow(rows, n, m - 1);
      }
    }
  }

  function Piece(rows: seq<UsageLine>, n: nat): seq<UsageLine> {
    if n < |Starts(rows, |rows|)| then
      StartsGrow(rows, n, n + 1);
      rows[StartOf(rows, n)..StartOf(rows, n + 1)]
    else []
  }

  function Processes(rows: seq<UsageLine>): seq<seq<UsageLine>> {
    seq(|Starts(rows, |rows|)|, n requires n >= 0 => Piece(rows, n))
  }

  lemma {:induction false} FirstStart(rows: seq<UsageLine>)
    requires rows != []
    ensures Starts(rows, |rows|) != [] && StartOf(rows, 0) == 0
  {
    hide Starts;
    var i := OpeningIsStart(rows, |rows|, 0);
    if i > 0 {
      StartsGrow(rows, 0, i);
    }
  }

  lemma {:induction false} PiecesSoFar(rows: seq<UsageLine>, n: nat)
    requires 0 < n <= |Starts(rows, |rows|)|
    ensures Flatten(Processes(rows)[..n]) == rows[..StartOf(rows, n)]
  {
    hide Starts, StartOf, Flatten, Opens;
    var pieces: seq<seq<UsageLine>> := Processes(rows);
    assert pieces[..n] == pieces[..n - 1] + [Piece(rows, n - 1)];
    FlattenAppend(pieces[..n - 1], [Piece(rows, n - 1)]);
    FlattenOne(Piece(rows, n - 1));
    StartsGrow(rows, n - 1, n);
    if n == 1 {
      assert rows != [] by { StartOpens(rows, |rows|, 0); }
      FirstStart(rows);
      assert pieces[..0] == [];
      assert rows[0..StartOf(rows, 1)] == rows[..StartOf(rows, 1)];
    } else {
      PiecesSoFar(rows, n - 1);
      assert rows[..StartOf(rows, n - 1)] + rows[StartOf(rows, n - 1)..StartOf(rows, n)] == rows[..StartOf(rows, n)];
    }
  }

  // The processes are the rows, cut before every row that opens one and nowhere else.
  lemma {:induction false} ProcessesPartition(rows: seq<UsageLine>)
    ensures Flatten(Processes(rows)) == rows
    ensures forall n :: 0 <= n < |Processes(rows)| ==> Processes(rows)[n] != []
    ensures forall n :: 0 < n < |Processes(rows)| ==> Processes(rows)[n][0].processTurn == Some(1)
    ensures forall n, at :: 0 <= n < |Processes(rows)| && 0 < at < |Processes(rows)[n]| ==>
                              Processes(rows)[n][at].processTurn != Some(1)
  {
    hide Starts, StartOf, Flatten, Opens, Piece;
    var pieces: seq<seq<UsageLine>> := Processes(rows);
    ProcessesFlatten(rows);
    forall n | 0 <= n < |pieces|
      ensures pieces[n] != [] && (n > 0 ==> pieces[n][0].processTurn == Some(1))
    {
      PieceOpens(rows, n);
    }
    forall n, at | 0 <= n < |pieces| && 0 < at < |pieces[n]| ensures pieces[n][at].processTurn != Some(1) {
      PieceInside(rows, n, at);
    }
  }

  lemma {:induction false} ProcessesFlatten(rows: seq<UsageLine>)
    ensures Flatten(Processes(rows)) == rows
  {
    var pieces: seq<seq<UsageLine>> := Processes(rows);
    if rows == [] {
      assert pieces == [];
    } else {
      FirstStart(rows);
      hide Starts, Flatten, Opens, Piece;
      PiecesSoFar(rows, |pieces|);
      assert pieces[..|pieces|] == pieces && rows[..|rows|] == rows;
    }
  }

  lemma {:induction false} PieceOpens(rows: seq<UsageLine>, n: nat)
    requires n < |Starts(rows, |rows|)|
    ensures Piece(rows, n) != [] && (n > 0 ==> Piece(rows, n)[0].processTurn == Some(1))
  {
    hide Starts;
    StartsGrow(rows, n, n + 1);
    StartOpens(rows, |rows|, n);
  }

  lemma {:induction false} PieceInside(rows: seq<UsageLine>, n: nat, at: nat)
    requires 0 < at < |Piece(rows, n)|
    ensures Piece(rows, n)[at].processTurn != Some(1)
  {
    hide Starts;
    StartsGrow(rows, n, n + 1);
    var row := StartOf(rows, n) + at;
    if Opens(rows, row) {
      var i := OpeningIsStart(rows, |rows|, row);
      if i < n {
        StartsGrow(rows, i, n);
      } else if n + 1 < i {
        StartsGrow(rows, n + 1, i);
      }
    }
  }
}
