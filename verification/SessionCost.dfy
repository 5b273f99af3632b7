// What a session cost: the last known cost of each of its processes, and the last turn's share.
module SessionCost {
  import opened Text
  import opened Usage
  import opened WorkerCosts

  datatype Cost = Cost(total: real, delta: Option<real>, missing: bool)

  // The last known cost in the rows.
  function LastCost(rows: seq<UsageLine>): Option<real> {
    if rows == [] then None
    else if rows[|rows| - 1].cost.Some? then rows[|rows| - 1].cost
    else LastCost(rows[..|rows| - 1])
  }

  predicate CarriesTokens(row: UsageLine) {
    row.inputTokens > 0 || row.cacheCreationTokens > 0 || row.cacheReadTokens > 0 || row.outputTokens > 0
  }

  // Whether the last row with tokens has no cost.
  predicate LastTokensUnpriced(rows: seq<UsageLine>) {
    rows != [] &&
    if CarriesTokens(rows[|rows| - 1]) then rows[|rows| - 1].cost.None?
    else LastTokensUnpriced(rows[..|rows| - 1])
  }

  predicate Missing(process: seq<UsageLine>) {
    LastCost(process).None? || LastTokensUnpriced(process)
  }

  // The known costs of the processes, added up.
  function TotalOf(pieces: seq<seq<UsageLine>>): real {
    if pieces == [] then 0.0 else
      TotalOf(pieces[..|pieces| - 1]) + LastCost(pieces[|pieces| - 1]).GetOr(0.0)
  }

  // The last cost before row `k`, no further back than the row that opened its process.
  function CostBefore(rows: seq<UsageLine>, k: nat): Option<real>
    requires k <= |rows|
  {
    if k == 0 then None
    else if rows[k - 1].cost.Some? then rows[k - 1].cost
    else if rows[k - 1].processTurn == Some(1) then None
    else CostBefore(rows, k - 1)
  }

  // The last turn, searched from row `k` down.
  function LastTurn(rows: seq<UsageLine>, k: nat): (at: Option<nat>)
    requires k <= |rows|
    ensures at.Some? ==> at.value < k && rows[at.value].kind == "turn"
    ensures forall j :: 0 <= j < k && (at.None? || at.value < j) ==> rows[j].kind != "turn"
  {
    if k == 0 then None else if rows[k - 1].kind == "turn" then Some(k - 1) else LastTurn(rows, k - 1)
  }

  function LastDelta(rows: seq<UsageLine>): Option<real> {
    var turn := LastTurn(rows, |rows|);
    if turn.None? then None
    else
      var at := turn.value;
      var own := rows[at].cost;
      var base := if rows[at].processTurn == Some(1) then Some(0.0) else CostBefore(rows, at);
      if own.None? || base.None? || own.value - base.value < 0.0 then None else Some(own.value - base.value)
  }

  function SessionCost(rows: seq<UsageLine>): Option<Cost> {
    var pieces := Processes(rows);
    if forall n :: 0 <= n < |pieces| ==> LastCost(pieces[n]).None? then None
    else Some(Cost(TotalOf(pieces), LastDelta(rows), exists n :: 0 <= n < |pieces| && Missing(pieces[n])))
  }

  function Total(rows: seq<UsageLine>): real {
    TotalOf(Processes(rows))
  }

  // ----- one more row -----

  lemma {:induction false} StartsOfMore(rows: seq<UsageLine>, more: seq<UsageLine>, k: nat)
    requires k <= |rows|
    ensures Starts(rows + more, k) == Starts(rows, k)
  {
    if k > 0 {
      StartsOfMore(rows, more, k - 1);
      assert (rows + more)[k - 1] == rows[k - 1];
    }
  }

  lemma {:induction false} StartsOfOne(rows: seq<UsageLine>, row: UsageLine)
    ensures var (all, starts) := (rows + [row], Starts(rows, |rows|));
            Starts(all, |all|) == if rows == [] || row.processTurn == Some(1) then starts + [|rows|] else starts
  {
    hide Starts;
    StartsOfMore(rows, [row], |rows|);
    StartsStep(rows + [row]);
    assert Starts(rows, |rows|) + [] == Starts(rows, |rows|);
  }

  lemma {:induction false} StartsStep(rows: seq<UsageLine>)
    requires rows != []
    ensures var n := |rows| - 1;
            Starts(rows, |rows|) == Starts(rows, n) + if Opens(rows, n) then [n] else []
  {
  }

  // A row that opens a process is a process of its own for now; any other joins the last one.
  lemma {:induction false} OneMoreRow(rows: seq<UsageLine>, row: UsageLine)
    ensures var (pieces, n) := (Processes(rows), |Processes(rows)|);
            if rows == [] || row.processTurn == Some(1) then Processes(rows + [row]) == pieces + [[row]]
            else n > 0 && Processes(rows + [row]) == pieces[..n - 1] + [pieces[n - 1] + [row]]
  {
    hide Starts;
    var all: seq<UsageLine>, starts := rows + [row], Starts(rows, |rows|);
    StartsOfOne(rows, row);
    var opens := rows == [] || row.processTurn == Some(1);
    if !opens {
      FirstStart(rows);
    }
    forall n | 0 <= n < |Starts(all, |all|)|
      ensures Piece(all, n) ==
              if n == |starts| then [row]
              else if n == |starts| - 1 && !opens then Piece(rows, n) + [row]
              else Piece(rows, n)
    {
      PieceOfMore(rows, row, n);
    }
  }

  lemma {:induction false} PieceOfMore(rows: seq<UsageLine>, row: UsageLine, n: nat)
    requires n < |Starts(rows + [row], |rows| + 1)|
    ensures var (starts, opens) := (Starts(rows, |rows|), rows == [] || row.processTurn == Some(1));
            Piece(rows + [row], n) ==
            if n == |starts| then [row]
            else if n == |starts| - 1 && !opens then Piece(rows, n) + [row]
            else Piece(rows, n)
  {
    hide Starts;
    var all := rows + [row];
    StartsOfOne(rows, row);
    StartsGrow(all, n, n + 1);
    if n < |Starts(rows, |rows|)| {
      StartsGrow(rows, n, n + 1);
      StartOpens(rows, |rows|, n);
    }
  }

  // ----- the share of the last turn -----

  // Looking back from a row that opens no process finds the cost of the last process so far.
  lemma {:induction false} LookBackIsLastCost(rows: seq<UsageLine>)
    requires rows != []
    ensures Processes(rows) != []
    ensures var pieces := Processes(rows); CostBefore(rows, |rows|) == LastCost(pieces[|pieces| - 1])
  {
    hide Processes;
    var front, row := rows[..|rows| - 1], rows[|rows| - 1];
    assert rows == front + [row];
    OneMoreRow(front, row);
    CostBeforeOfMore(front, [row], |front|);
    var last := Processes(rows)[|Processes(rows)| - 1];
    assert last[|last| - 1] == row;
    if front == [] || row.processTurn == Some(1) {
      assert [row][..0] == [];
      assert front == [] ==> CostBefore(rows, 0) == None;
    } else {
      LookBackIsLastCost(front);
      assert last[..|last| - 1] == Processes(front)[|Processes(front)| - 1];
    }
  }

  lemma {:induction false} CostBeforeOfMore(rows: seq<UsageLine>, more: seq<UsageLine>, k: nat)
    requires k <= |rows|
    ensures CostBefore(rows + more, k) == CostBefore(rows, k)
  {
    if k > 0 {
      CostBeforeOfMore(rows, more, k - 1);
      assert (rows + more)[k - 1] == rows[k - 1];
    }
  }

  lemma {:induction false} TotalOfMore(pieces: seq<seq<UsageLine>>, piece: seq<UsageLine>)
    ensures TotalOf(pieces + [piece]) == TotalOf(pieces) + LastCost(piece).GetOr(0.0)
  {
    hide LastCost;
    assert (pieces + [piece])[..|pieces|] == pieces;
  }

  lemma {:induction false} LastCostOfMore(rows: seq<UsageLine>, row: UsageLine)
    ensures LastCost(rows + [row]) == if row.cost.Some? then row.cost else LastCost(rows)
  {
    assert (rows + [row])[..|rows|] == rows;
  }

  // The total grows by what a new row's cost exceeds its process's cost so far.
  lemma {:induction false} TotalGrows(rows: seq<UsageLine>, row: UsageLine)
    requires row.cost.Some?
    ensures Total(rows + [row]) == Total(rows) + row.cost.value -
            if row.processTurn == Some(1) then 0.0 else CostBefore(rows, |rows|).GetOr(0.0)
  {
    hide Processes, LastCost, TotalOf, CostBefore;
    var pieces: seq<seq<UsageLine>>, n := Processes(rows), |Processes(rows)|;
    OneMoreRow(rows, row);
    if rows == [] || row.processTurn == Some(1) {
      TotalOfMore(pieces, [row]);
      LastCostOfMore([], row);
      assert [] + [row] == [row];
      NoCostBefore(rows);
    } else {
      LookBackIsLastCost(rows);
      TotalOfMore(pieces[..n - 1], pieces[n - 1] + [row]);
      TotalOfMore(pieces[..n - 1], pieces[n - 1]);
      assert pieces[..n - 1] + [pieces[n - 1]] == pieces;
      LastCostOfMore(pieces[n - 1], row);
    }
  }

  lemma {:induction false} NoCostBefore(rows: seq<UsageLine>)
    ensures CostBefore(rows, 0) == None
  {
  }

  // The delta shown for the last turn is what the turn added to the session's total.
  lemma {:induction false} DeltaIsGrowth(rows: seq<UsageLine>)
    requires LastDelta(rows).Some?
    ensures var at := LastTurn(rows, |rows|).value;
            && LastDelta(rows).value >= 0.0
            && Total(rows[..at + 1]) == Total(rows[..at]) + LastDelta(rows).value
  {
    hide Total, CostBefore, LastTurn;
    var at := LastTurn(rows, |rows|).value;
    TotalGrows(rows[..at], rows[at]);
    assert rows[..at + 1] == rows[..at] + [rows[at]];
    CostBeforeOfMore(rows[..at], rows[at..], at);
    assert rows == rows[..at] + rows[at..];
  }

  // The deltas of the first `k` rows, added up.
  function Deltas(rows: seq<UsageLine>, k: nat): real
    requires k <= |rows|
  {
    if k == 0 then 0.0 else Deltas(rows, k - 1) + LastDelta(rows[..k]).GetOr(0.0)
  }

  // Row `j` is a turn, and its delta is shown.
  predicate ShownAt(rows: seq<UsageLine>, j: nat)
    requires j < |rows|
  {
    rows[j].kind == "turn" && LastDelta(rows[..j + 1]).Some?
  }

  // When every row is a turn whose delta is shown, the deltas add up to the session's total.
  lemma {:induction false} DeltasAddUp(rows: seq<UsageLine>, k: nat)
    requires k <= |rows|
    requires forall j :: 0 <= j < k ==> ShownAt(rows, j)
    ensures Deltas(rows, k) == Total(rows[..k])
  {
    hide Total, LastDelta;
    if k == 0 {
      NothingSpent();
      assert rows[..0] == [];
    } else {
      DeltasAddUp(rows, k - 1);
      var now := rows[..k];
      assert ShownAt(rows, k - 1) && rows[..(k - 1) + 1] == now;
      DeltaIsGrowth(now);
      TurnAtEnd(now);
      assert now[..k - 1] == rows[..k - 1] && now[..k] == now;
    }
  }

  lemma {:induction false} NothingSpent()
    ensures Total([]) == 0.0
  {
    assert Starts([], 0) == [];
    assert Processes([]) == [];
  }

  lemma {:induction false} TurnAtEnd(rows: seq<UsageLine>)
    requires rows != [] && rows[|rows| - 1].kind == "turn"
    ensures LastTurn(rows, |rows|) == Some(|rows| - 1)
  {
  }

  // ----- when a cost is shown, and when it is complete -----

  // Some row has a cost.
  predicate Known(rows: seq<UsageLine>) {
    exists k :: 0 <= k < |rows| && rows[k].cost.Some?
  }

  lemma {:induction false} KnownInEither(a: seq<UsageLine>, b: seq<UsageLine>)
    ensures Known(a + b) <==> Known(a) || Known(b)
  {
    assert forall k :: 0 <= k < |a| ==> (a + b)[k] == a[k];
    assert forall k :: 0 <= k < |b| ==> (a + b)[|a| + k] == b[k];
  }

  lemma {:induction false} LastCostKnown(rows: seq<UsageLine>)
    ensures LastCost(rows).Some? <==> Known(rows)
  {
    if rows != [] {
      var front, row := rows[..|rows| - 1], rows[|rows| - 1];
      LastCostKnown(front);
      KnownInEither(front, [row]);
      assert rows == front + [row];
      assert [row][0] == row;
    }
  }

  lemma {:induction false} FlattenKnown(pieces: seq<seq<UsageLine>>, k: nat)
    requires k <= |pieces|
    ensures Known(Flatten(pieces[..k])) <==> exists n :: 0 <= n < k && LastCost(pieces[n]).Some?
  {
    hide LastCost, Known, Flatten;
    if k == 0 {
      assert pieces[..0] == [];
      FlattenOne<UsageLine>([]);
      NothingKnown();
    } else {
      FlattenKnown(pieces, k - 1);
      assert pieces[..k] == pieces[..k - 1] + [pieces[k - 1]];
      FlattenAppend(pieces[..k - 1], [pieces[k - 1]]);
      FlattenOne(pieces[k - 1]);
      KnownInEither(Flatten(pieces[..k - 1]), pieces[k - 1]);
      LastCostKnown(pieces[k - 1]);
    }
  }

  lemma {:induction false} NothingKnown()
    ensures !Known([])
  {
  }

  // A session has a cost exactly when one of its rows has.
  lemma {:induction false} CostKnownIff(rows: seq<UsageLine>)
    ensures SessionCost(rows).Some? <==> exists k :: 0 <= k < |rows| && rows[k].cost.Some?
  {
    hide LastCost, LastDelta, TotalOf, Missing, Processes;
    var pieces: seq<seq<UsageLine>> := Processes(rows);
    FlattenKnown(pieces, |pieces|);
    assert pieces[..|pieces|] == pieces;
    ProcessesFlatten(rows);
  }

  // A process that is not marked incomplete used no tokens after its last known cost.
  lemma {:induction false} NothingAfterLastCost(process: seq<UsageLine>) returns (k: nat)
    requires !Missing(process)
    ensures k < |process| && process[k].cost.Some? && LastCost(process) == process[k].cost
    ensures forall j :: k < j < |process| ==> !CarriesTokens(process[j])
  {
    k := |process| - 1;
    if process[k].cost.None? {
      k := NothingAfterLastCost(process[..k]);
    }
  }

  predicate Used(row: UsageLine) {
    row.inputTokens + row.outputTokens + row.cacheReadTokens + row.cacheCreationTokens > 0
  }

  // The last row that used tokens is the `j`-th, and it has no cost.
  ghost predicate UnpricedAt(rows: seq<UsageLine>, j: nat) {
    j < |rows| && Used(rows[j]) && rows[j].cost.None? && forall k :: j < k < |rows| ==> !Used(rows[k])
  }

  // A process is incomplete exactly when no row of it has a cost, or the last row that used tokens has none.
  lemma {:induction false} MissingIff(process: seq<UsageLine>)
    ensures Missing(process) <==>
            (forall k :: 0 <= k < |process| ==> process[k].cost.None?) || exists j: nat :: UnpricedAt(process, j)
  {
    CostOfSome(process);
    UnpricedIff(process);
    hide LastCost, LastTokensUnpriced;
  }

  lemma {:induction false} CostOfSome(rows: seq<UsageLine>)
    ensures LastCost(rows).None? <==> forall k :: 0 <= k < |rows| ==> rows[k].cost.None?
  {
    if rows != [] {
      var front := rows[..|rows| - 1];
      CostOfSome(front);
      assert forall k :: 0 <= k < |front| ==> front[k] == rows[k];
    }
  }

  lemma {:induction false} UnpricedIff(rows: seq<UsageLine>)
    ensures LastTokensUnpriced(rows) <==> exists j: nat :: UnpricedAt(rows, j)
  {
    if rows != [] {
      var n := |rows| - 1;
      var front := rows[..n];
      UnpricedIff(front);
      assert CarriesTokens(rows[n]) <==> Used(rows[n]);
      hide Used, CarriesTokens;
      if Used(rows[n]) {
        assert rows[n].cost.None? ==> UnpricedAt(rows, n);
      } else {
        forall j: nat ensures UnpricedAt(front, j) <==> UnpricedAt(rows, j) {
          assert j < n ==> front[j] == rows[j];
          assert forall k :: j < k < n ==> front[k] == rows[k];
        }
      }
    }
  }

  // ----- the last turn's share, read off the rows -----

  predicate LastTurnAt(rows: seq<UsageLine>, t: nat) {
    t < |rows| && rows[t].kind == "turn" && forall k :: t < k < |rows| ==> rows[k].kind != "turn"
  }

  // The last cost before row `t`, with no row that opens a process in between.
  predicate CostAt(rows: seq<UsageLine>, t: nat, j: nat) {
    && j < t <= |rows| && rows[j].cost.Some?
    && forall k :: j < k < t ==> rows[k].cost.None? && rows[k].processTurn != Some(1)
  }

  ghost predicate BaseIs(rows: seq<UsageLine>, t: nat, base: real)
    requires t < |rows|
  {
    if rows[t].processTurn == Some(1) then base == 0.0
    else exists j: nat :: CostAt(rows, t, j) && rows[j].cost == Some(base)
  }

  // Row `t` is the last turn, and has a cost that is not below its base.
  ghost predicate TurnAdds(rows: seq<UsageLine>, t: nat, base: real, delta: real) {
    && LastTurnAt(rows, t) && rows[t].cost.Some? && BaseIs(rows, t, base)
    && delta == rows[t].cost.value - base && delta >= 0.0
  }

  lemma {:induction false} CostBeforeIs(rows: seq<UsageLine>, t: nat)
    requires t <= |rows|
    ensures CostBefore(rows, t).None? ==> forall j: nat :: !CostAt(rows, t, j)
    ensures CostBefore(rows, t).Some? ==> exists j: nat :: CostAt(rows, t, j)
    ensures forall j: nat :: CostAt(rows, t, j) ==> CostBefore(rows, t) == rows[j].cost
  {
    if t > 0 {
      var n: nat := t - 1;
      if rows[n].cost.Some? {
        assert CostAt(rows, t, n);
      } else if rows[n].processTurn != Some(1) {
        CostBeforeIs(rows, n);
        hide CostBefore;
        forall j: nat ensures CostAt(rows, t, j) <==> CostAt(rows, n, j) {
        }
      }
    }
  }

  lemma {:induction false} BaseFound(rows: seq<UsageLine>, t: nat, base: real)
    requires t < |rows|
    ensures BaseIs(rows, t, base) <==>
            (if rows[t].processTurn == Some(1) then Some(0.0) else CostBefore(rows, t)) == Some(base)
  {
    CostBeforeIs(rows, t);
    hide CostBefore, CostAt;
  }

  // A delta is shown exactly when the last turn and its base have costs and the turn's is not smaller;
  // it is their difference.
  lemma {:induction false} DeltaIff(rows: seq<UsageLine>, delta: real)
    ensures LastDelta(rows) == Some(delta) <==> exists t: nat, base: real :: TurnAdds(rows, t, base, delta)
  {
    var turn := LastTurn(rows, |rows|);
    forall t: nat ensures LastTurnAt(rows, t) <==> turn == Some(t) {
    }
    forall t: nat, base: real | t < |rows|
      ensures BaseIs(rows, t, base) <==> (if rows[t].processTurn == Some(1) then Some(0.0) else CostBefore(rows, t)) == Some(base)
    {
      BaseFound(rows, t, base);
    }
    hide LastTurn, BaseIs, CostBefore, LastTurnAt;
    if LastDelta(rows) == Some(delta) {
      var t: nat := turn.value;
      var base := if rows[t].processTurn == Some(1) then Some(0.0) else CostBefore(rows, t);
      assert TurnAdds(rows, t, base.value, delta);
    }
  }

  // What a session's cost says besides its total.
  lemma {:induction false} CostSays(rows: seq<UsageLine>)
    requires SessionCost(rows).Some?
    ensures var (cost, pieces) := (SessionCost(rows).value, Processes(rows));
            && cost.total == Total(rows)
            && (cost.delta.Some? ==> exists t: nat, base: real :: TurnAdds(rows, t, base, cost.delta.value))
            && (cost.delta.None? ==> forall t: nat, base: real, delta: real :: !TurnAdds(rows, t, base, delta))
            && (!cost.missing <==> forall process :: process in pieces ==> !Missing(process))
  {
    var cost := SessionCost(rows).value;
    assert cost.delta == LastDelta(rows);
    hide Missing, Processes, TotalOf, LastDelta, LastCost, TurnAdds;
    if cost.delta.Some? {
      DeltaIff(rows, cost.delta.value);
    } else {
      forall t: nat, base: real, delta: real ensures !TurnAdds(rows, t, base, delta) {
        DeltaIff(rows, delta);
      }
    }
  }
}
