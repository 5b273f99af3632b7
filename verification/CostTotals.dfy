// What the cost table conserves: every line counted once, under its own key, in key order.
module CostTotals {
  import opened Text
  import opened Usage
  import opened Tokens
  import opened WorkerCosts
  import opened CostTable

  // ----- keeping lines -----

  lemma {:induction false} KeepConcat(a: seq<UsageLine>, b: seq<UsageLine>, wanted: Wanted)
    ensures Keep(a + b, wanted) == Keep(a, wanted) + Keep(b, wanted)
  {
    if b == [] {
      assert a + b == a;
    } else {
      assert (a + b)[..|a + b| - 1] == a + b[..|b| - 1];
      KeepConcat(a, b[..|b| - 1], wanted);
    }
  }

  lemma {:induction false} KeepOne(line: UsageLine, wanted: Wanted)
    ensures Keep([line], wanted) == if wanted(line) then [line] else []
  {
    assert [line][..0] == [];
  }

  lemma {:induction false} SumNone()
    ensures SumOf([]) == ZERO
  {
  }

  // Every kept line comes from the main session or from something else.
  lemma {:induction false} CountedByKind(lines: seq<UsageLine>, w: Window)
    ensures SumOf(Keep(lines, Counts(w))) ==
            Plus(SumOf(Keep(lines, IsOther(w))), SumOf(Keep(Keep(lines, IsMain()), InWindow(w))))
  {
    hide Plus, CountOf, SumOf, SourceOf, Keep;
    if lines == [] {
      assert forall wanted: Wanted :: Keep([], wanted) == [] by {
        forall wanted: Wanted ensures Keep([], wanted) == [] { KeepNone(wanted); }
      }
      SumNone();
      PlusIsMonoid(ZERO, ZERO, ZERO);
    } else {
      var front, last := lines[..|lines| - 1], lines[|lines| - 1];
      CountedByKind(front, w);
      KeepLast(lines, Counts(w));
      KeepLast(lines, IsOther(w));
      KeepLast(lines, IsMain());
      var main := Keep(front, IsMain());
      KeepConcat(main, if IsMain()(last) then [last] else [], InWindow(w));
      KeepOne(last, InWindow(w));
      KeepNone(InWindow(w));
      var others, seen := Keep(front, IsOther(w)), Keep(main, InWindow(w));
      PlusIsMonoid(SumOf(others), SumOf(seen), SumOf([last]));
      PlusIsMonoid(SumOf(others), SumOf([last]), SumOf(seen));
      PlusIsMonoid(SumOf(seen), SumOf([last]), ZERO);
      SumConcat(Keep(front, Counts(w)), [last]);
      SumConcat(others, [last]);
      SumConcat(seen, [last]);
      AddNothing(Keep(front, Counts(w)));
      AddNothing(others);
      AddNothing(seen);
    }
  }

  lemma {:induction false} AddNothing(lines: seq<UsageLine>)
    ensures lines + [] == lines
  {
  }

  lemma {:induction false} KeepNone(wanted: Wanted)
    ensures Keep([], wanted) == []
  {
  }

  lemma {:induction false} KeepLast(lines: seq<UsageLine>, wanted: Wanted)
    requires lines != []
    ensures Keep(lines, wanted) ==
            Keep(lines[..|lines| - 1], wanted) + if wanted(lines[|lines| - 1]) then [lines[|lines| - 1]] else []
  {
  }

  // ----- the main session -----

  // Everything in the window that the runs of a map hold.
  function SeenSum(runs: Groups<Option<string>, UsageLine>, w: Window): Count {
    if runs == [] then ZERO else Plus(SumOf(Keep(runs[0].1, InWindow(w))), SeenSum(runs[1..], w))
  }

  function NamedSum(named: seq<Named>): Count {
    if named == [] then ZERO else Plus(NamedSum(named[..|named| - 1]), SumOf(named[|named| - 1].1.rows))
  }

  lemma {:induction false} NamedConcat(a: seq<Named>, b: seq<Named>)
    ensures NamedSum(a + b) == Plus(NamedSum(a), NamedSum(b))
  {
    hide Plus, SumOf;
    if b == [] {
      assert a + b == a;
      PlusIsMonoid(NamedSum(a), ZERO, ZERO);
    } else {
      assert (a + b)[..|a + b| - 1] == a + b[..|b| - 1];
      NamedConcat(a, b[..|b| - 1]);
      PlusIsMonoid(NamedSum(a), NamedSum(b[..|b| - 1]), SumOf(b[|b| - 1].1.rows));
    }
  }

  lemma {:induction false} VisibleSum(run: Option<string>, process: seq<UsageLine>, w: Window)
    ensures NamedSum(Visible(run, process, w)) == SumOf(Keep(process, InWindow(w)))
  {
    hide Plus, SumOf, Keep, LastModel;
    var within := Keep(process, InWindow(w));
    if within == [] {
      SumNone();
    } else {
      var named := Visible(run, process, w);
      assert named[..0] == [];
      PlusIsMonoid(SumOf(within), ZERO, ZERO);
    }
  }

  // Cutting a run into processes and dropping the empty ones loses no line in the window.
  lemma {:induction false} VisibleAllSum(run: Option<string>, pieces: seq<seq<UsageLine>>, w: Window)
    ensures NamedSum(VisibleAll(run, pieces, w)) == SumOf(Keep(Flatten(pieces), InWindow(w)))
  {
    hide Plus, SumOf, Keep, Visible;
    if pieces == [] {
      KeepNone(InWindow(w));
      SumNone();
    } else {
      var first, rest := pieces[0], pieces[1..];
      NamedConcat(Visible(run, first, w), VisibleAll(run, rest, w));
      VisibleSum(run, first, w);
      VisibleAllSum(run, rest, w);
      KeepConcat(first, Flatten(rest), InWindow(w));
      SumConcat(Keep(first, InWindow(w)), Keep(Flatten(rest), InWindow(w)));
    }
  }

  lemma {:induction false} VisibleRunsSum(runs: Groups<Option<string>, UsageLine>, w: Window)
    ensures NamedSum(VisibleRuns(runs, w)) == SeenSum(runs, w)
  {
    hide Plus, SumOf, Keep, VisibleAll, Processes;
    if runs != [] {
      var (run, rows) := runs[0];
      NamedConcat(VisibleAll(run, Processes(rows), w), VisibleRuns(runs[1..], w));
      VisibleAllSum(run, Processes(rows), w);
      ProcessesFlatten(rows);
      VisibleRunsSum(runs[1..], w);
    }
  }

  lemma {:induction false} SeenExtended(runs: Groups<Option<string>, UsageLine>, run: Option<string>, line: UsageLine, w: Window)
    ensures SeenSum(Extended(runs, run, [line], RunBefore), w) ==
            Plus(SeenSum(runs, w), SumOf(Keep([line], InWindow(w))))
  {
    hide Plus, SumOf, Keep, RunBefore;
    var own := SumOf(Keep([line], InWindow(w)));
    if runs == [] {
      assert [(run, [line])][1..] == [];
      PlusIsMonoid(own, ZERO, ZERO);
    } else {
      var first, rest := SumOf(Keep(runs[0].1, InWindow(w))), SeenSum(runs[1..], w);
      PlusIsMonoid(first, rest, own);
      PlusIsMonoid(own, Plus(first, rest), ZERO);
      if runs[0].0 == run {
        KeepConcat(runs[0].1, [line], InWindow(w));
        SumConcat(Keep(runs[0].1, InWindow(w)), Keep([line], InWindow(w)));
        assert ([(run, runs[0].1 + [line])] + runs[1..])[1..] == runs[1..];
        PlusIsMonoid(first, own, rest);
        PlusIsMonoid(own, rest, ZERO);
      } else if RunBefore(run, runs[0].0) {
        assert ([(run, [line])] + runs)[1..] == runs;
      } else {
        var grown := Extended(runs[1..], run, [line], RunBefore);
        assert ([runs[0]] + grown)[1..] == grown;
        SeenExtended(runs[1..], run, line, w);
      }
    }
  }

  // Grouping by run only changes the order of the lines.
  lemma {:induction false} ByRunSum(lines: seq<UsageLine>, w: Window)
    ensures SeenSum(ByRun(lines), w) == SumOf(Keep(lines, InWindow(w)))
  {
    hide Plus, SumOf, Keep, Extended;
    if lines == [] {
      KeepNone(InWindow(w));
      SumNone();
    } else {
      var front, last := lines[..|lines| - 1], lines[|lines| - 1];
      ByRunSum(front, w);
      SeenExtended(ByRun(front), last.run, last, w);
      KeepConcat(front, [last], InWindow(w));
      SumConcat(Keep(front, InWindow(w)), Keep([last], InWindow(w)));
      assert lines == front + [last];
    }
  }

  // ----- the table -----

  lemma {:induction false} OtherSum(lines: seq<UsageLine>, w: Window)
    ensures MapSum(OtherGroups(lines, w)) == SumOf(Keep(lines, IsOther(w)))
  {
    hide Plus, SumOf, Extended, SourceOf, IsOther, KeyOf;
    if lines == [] {
      SumNone();
    } else {
      var front, last := lines[..|lines| - 1], lines[|lines| - 1];
      OtherSum(front, w);
      if IsOther(w)(last) {
        ExtendedSum(OtherGroups(front, w), KeyOf(last), [last], KeyBefore);
        SumConcat(Keep(front, IsOther(w)), [last]);
      } else {
        AddNothing(Keep(front, IsOther(w)));
      }
    }
  }

  lemma {:induction false} WithMainSum(groups: Groups<Key, UsageLine>, named: seq<Named>)
    ensures MapSum(WithMain(groups, named)) == Plus(MapSum(groups), NamedSum(named))
  {
    hide Plus, SumOf, Extended, MapSum;
    if named == [] {
      PlusIsMonoid(MapSum(groups), ZERO, ZERO);
    } else {
      var front, last := named[..|named| - 1], named[|named| - 1];
      WithMainSum(groups, front);
      ExtendedSum(WithMain(groups, front), (Main, last.0), last.1.rows, KeyBefore);
      PlusIsMonoid(MapSum(groups), NamedSum(front), SumOf(last.1.rows));
    }
  }

  lemma {:induction false} MapSumLast(groups: Groups<Key, UsageLine>)
    requires groups != []
    ensures MapSum(groups) == Plus(MapSum(groups[..|groups| - 1]), SumOf(groups[|groups| - 1].1))
  {
    hide Plus, SumOf;
    var front, last := groups[..|groups| - 1], SumOf(groups[|groups| - 1].1);
    PlusIsMonoid(last, ZERO, ZERO);
    if |groups| == 1 {
      assert groups[1..] == [] && front == [];
    } else {
      MapSumLast(groups[1..]);
      assert groups[1..][..|groups| - 2] == front[1..];
      PlusIsMonoid(SumOf(groups[0].1), MapSum(front[1..]), last);
    }
  }

  lemma {:induction false} RowsSum(groups: Groups<Key, UsageLine>, owners: Groups<string, MainProcess>)
    ensures TotalTokens(RowsFor(groups, owners)) == MapSum(groups)
  {
    hide Plus, SumOf, RunsOf, Get, Label;
    if groups != [] {
      var front := groups[..|groups| - 1];
      RowsSum(front, owners);
      var rows := RowsFor(groups, owners);
      assert rows[..|rows| - 1] == RowsFor(front, owners);
      MapSumLast(groups);
    }
  }

  // The total row holds the tokens of every line of known source in the window, each once.
  lemma {:induction false} TotalCountsEveryLine(lines: seq<UsageLine>, w: Window)
    ensures TotalRow(RowsFor(GroupsOf(lines, w), OwnersOf(lines, w))).tokens == SumOf(Keep(lines, Counts(w)))
  {
    hide *;
    hide SumOf;
    TotalIsMap(lines, w);
    var main := Keep(lines, IsMain());
    GroupsSum(lines, w);
    VisibleRunsSum(ByRun(main), w);
    ByRunSum(main, w);
    OtherSum(lines, w);
    CountedByKind(lines, w);
  }

  // The numbers of the total row are the plain sums over those lines, each capped once at the end.
  lemma {:induction false} TotalAddsUp(lines: seq<UsageLine>, w: Window)
    ensures AddsUp(TotalRow(RowsFor(GroupsOf(lines, w), OwnersOf(lines, w))).tokens, Keep(lines, Counts(w)))
  {
    hide *;
    TotalCountsEveryLine(lines, w);
    SumAddsUp(Keep(lines, Counts(w)));
  }

  lemma {:induction false} TotalIsMap(lines: seq<UsageLine>, w: Window)
    ensures TotalRow(RowsFor(GroupsOf(lines, w), OwnersOf(lines, w))).tokens == MapSum(GroupsOf(lines, w))
  {
    hide TotalTokens, RowsFor, MapSum, GroupsOf, OwnersOf;
    RowsSum(GroupsOf(lines, w), OwnersOf(lines, w));
  }

  lemma {:induction false} GroupsSum(lines: seq<UsageLine>, w: Window)
    ensures MapSum(GroupsOf(lines, w)) ==
            Plus(MapSum(OtherGroups(lines, w)), NamedSum(VisibleRuns(ByRun(Keep(lines, IsMain())), w)))
  {
    hide WithMain, OtherGroups, VisibleRuns, ByRun, Keep, MapSum, NamedSum, Plus;
    WithMainSum(OtherGroups(lines, w), VisibleRuns(ByRun(Keep(lines, IsMain())), w));
  }

  // ----- each key's own lines -----

  // The rows of the main processes of one model.
  function RowsOfModel(named: seq<Named>, model: string): seq<UsageLine> {
    if named == [] then [] else
      RowsOfModel(named[..|named| - 1], model) +
      if named[|named| - 1].0 == model then named[|named| - 1].1.rows else []
  }

  function ProcessesOfModel(named: seq<Named>, model: string): seq<MainProcess> {
    if named == [] then [] else
      ProcessesOfModel(named[..|named| - 1], model) +
      if named[|named| - 1].0 == model then [named[|named| - 1].1] else []
  }

  // A map in order, without empty lists.
  ghost predicate Neat<K(!new), V>(groups: Groups<K, V>, less: (K, K) -> bool) {
    InOrder(groups, less) && forall i :: 0 <= i < |groups| ==> groups[i].1 != []
  }

  lemma {:induction false} ExtendedNeat<K(!new), V>(groups: Groups<K, V>, key: K, values: seq<V>, less: (K, K) -> bool)
    requires IsOrder(less) && Neat(groups, less) && values != []
    ensures Neat(Extended(groups, key, values, less), less)
  {
    ExtendedOrder(groups, key, values, less);
    hide IsOrder, InOrder;
    var grown := Extended(groups, key, values, less);
    forall i | 0 <= i < |grown| ensures grown[i].1 != [] {
      ExtendedFilled(groups, key, values, less, i);
    }
  }

  lemma {:induction false} ExtendedFilled<K(!new), V>(groups: Groups<K, V>, key: K, values: seq<V>, less: (K, K) -> bool, i: nat)
    requires values != []
    requires forall j :: 0 <= j < |groups| ==> groups[j].1 != []
    requires i < |Extended(groups, key, values, less)|
    ensures Extended(groups, key, values, less)[i].1 != []
  {
    var grown := Extended(groups, key, values, less);
    if groups == [] {
    } else if groups[0].0 == key {
      assert |grown[0].1| > 0;
      assert i > 0 ==> grown[i] == groups[i];
    } else if less(key, groups[0].0) {
      assert i > 0 ==> grown[i] == groups[i - 1];
    } else if i == 0 {
      assert grown[0] == groups[0];
    } else {
      ExtendedFilled(groups[1..], key, values, less, i - 1);
    }
  }

  lemma {:induction false} OtherLines(lines: seq<UsageLine>, w: Window, key: Key)
    ensures Neat(OtherGroups(lines, w), KeyBefore)
    ensures Get(OtherGroups(lines, w), key) == Keep(lines, HasKey(w, key))
  {
    KeyIsOrder();
    hide IsOrder, Extended, Get, IsOther, KeyOf, KeyBefore;
    if lines == [] {
      GetNone<Key, UsageLine>(key);
    } else {
      var front, last := lines[..|lines| - 1], lines[|lines| - 1];
      OtherLines(front, w, key);
      if IsOther(w)(last) {
        ExtendedNeat(OtherGroups(front, w), KeyOf(last), [last], KeyBefore);
        ExtendedGet(OtherGroups(front, w), KeyOf(last), [last], KeyBefore, key);
      } else {
        AddNothing(Keep(front, HasKey(w, key)));
      }
    }
  }

  lemma {:induction false} GetNone<K, V>(key: K)
    ensures Get<K, V>([], key) == []
  {
  }

  predicate Filled(named: seq<Named>) {
    forall i :: 0 <= i < |named| ==> named[i].1.rows != []
  }

  lemma {:induction false} VisibleFilled(runs: Groups<Option<string>, UsageLine>, w: Window)
    ensures Filled(VisibleRuns(runs, w))
  {
    hide Processes, VisibleAll;
    if runs != [] {
      PiecesFilled(runs[0].0, Processes(runs[0].1), w);
      VisibleFilled(runs[1..], w);
    }
  }

  lemma {:induction false} PiecesFilled(run: Option<string>, pieces: seq<seq<UsageLine>>, w: Window)
    ensures Filled(VisibleAll(run, pieces, w))
  {
    hide Keep, LastModel;
    if pieces != [] {
      PiecesFilled(run, pieces[1..], w);
    }
  }

  lemma {:induction false} WithMainLines(groups: Groups<Key, UsageLine>, named: seq<Named>, key: Key)
    requires Neat(groups, KeyBefore) && Filled(named)
    ensures Neat(WithMain(groups, named), KeyBefore)
    ensures Get(WithMain(groups, named), key) ==
            Get(groups, key) + if key.0 == Main then RowsOfModel(named, key.1) else []
  {
    KeyIsOrder();
    hide IsOrder, Extended, Get, KeyBefore;
    if named == [] {
      AddNothing(Get(groups, key));
    } else {
      var front, last := named[..|named| - 1], named[|named| - 1];
      WithMainLines(groups, front, key);
      ExtendedNeat(WithMain(groups, front), (Main, last.0), last.1.rows, KeyBefore);
      ExtendedGet(WithMain(groups, front), (Main, last.0), last.1.rows, KeyBefore, key);
      assert (Main, last.0) == key <==> key.0 == Main && last.0 == key.1;
      assert forall a: seq<UsageLine>, b: seq<UsageLine>, c: seq<UsageLine> {:trigger (a + b) + c} :: (a + b) + c == a + (b + c);
      AddNothing(Get(WithMain(groups, front), key));
    }
  }

  lemma {:induction false} OwnersAre(named: seq<Named>, model: string)
    ensures InOrder(Owners(named), TextBefore)
    ensures Get(Owners(named), model) == ProcessesOfModel(named, model)
  {
    TextIsOrder();
    hide IsOrder, Extended, Get, TextBefore;
    if named == [] {
      GetNone<string, MainProcess>(model);
    } else {
      var front, last := named[..|named| - 1], named[|named| - 1];
      OwnersAre(front, model);
      ExtendedOrder(Owners(front), last.0, [last.1], TextBefore);
      ExtendedGet(Owners(front), last.0, [last.1], TextBefore, model);
    }
  }

  // What the table says of one key.
  function LinesUnder(lines: seq<UsageLine>, w: Window, key: Key): seq<UsageLine> {
    Keep(lines, HasKey(w, key)) +
    if key.0 == Main then RowsOfModel(VisibleRuns(ByRun(Keep(lines, IsMain())), w), key.1) else []
  }

  // The table has one row for each key that has lines, in strict key order, and that row's lines
  // are exactly the key's own.
  lemma {:induction false} RowsAreKeys(lines: seq<UsageLine>, w: Window, key: Key)
    ensures Neat(GroupsOf(lines, w), KeyBefore)
    ensures Get(GroupsOf(lines, w), key) == LinesUnder(lines, w, key)
    ensures LinesUnder(lines, w, key) != [] <==>
            exists i :: 0 <= i < |GroupsOf(lines, w)| && GroupsOf(lines, w)[i].0 == key
  {
    KeyIsOrder();
    hide IsOrder, Neat, ByRun, VisibleRuns, Keep, Get, WithMain, OtherGroups, RowsOfModel, HasKey, KeyBefore, Filled;
    OtherLines(lines, w, key);
    VisibleFilled(ByRun(Keep(lines, IsMain())), w);
    WithMainLines(OtherGroups(lines, w), VisibleRuns(ByRun(Keep(lines, IsMain())), w), key);
    KeyHasLines(GroupsOf(lines, w), key, KeyBefore);
  }

  lemma {:induction false} KeyHasLines<K(!new), V>(groups: Groups<K, V>, key: K, less: (K, K) -> bool)
    requires IsOrder(less) && Neat(groups, less)
    ensures Get(groups, key) != [] <==> exists i :: 0 <= i < |groups| && groups[i].0 == key
  {
    if groups != [] && groups[0].0 != key {
      KeyHasLines(groups[1..], key, less);
      assert forall i :: 0 < i < |groups| ==> groups[i] == groups[1..][i - 1];
    }
  }

  lemma {:induction false} RowAt(groups: Groups<Key, UsageLine>, owners: Groups<string, MainProcess>, i: nat)
    requires i < |groups|
    ensures |RowsFor(groups, owners)| == |groups|
    ensures RowsFor(groups, owners)[i] == RowFor(groups[i], owners)
  {
    hide RowFor;
    if i < |groups| - 1 {
      RowAt(groups[..|groups| - 1], owners, i);
    } else if i > 0 {
      RowAt(groups[..|groups| - 1], owners, i - 1);
    }
  }

  lemma {:induction false} GetAt<K(!new), V>(groups: Groups<K, V>, i: nat, less: (K, K) -> bool)
    requires IsOrder(less) && InOrder(groups, less) && i < |groups|
    ensures Get(groups, groups[i].0) == groups[i].1
  {
    if i > 0 {
      assert less(groups[0].0, groups[i].0);
      GetAt(groups[1..], i - 1, less);
    }
  }

  // Each row sums its own key's lines; a main row counts the runs of its model's processes.
  lemma {:induction false} RowSaysItsKey(lines: seq<UsageLine>, w: Window, i: nat)
    requires i < |GroupsOf(lines, w)|
    ensures var (source, model) := GroupsOf(lines, w)[i].0;
            var own := if source.Main? then ProcessesOfModel(VisibleRuns(ByRun(Keep(lines, IsMain())), w), model) else [];
            var under := LinesUnder(lines, w, (source, model));
            var rows := RowsFor(GroupsOf(lines, w), OwnersOf(lines, w));
            i < |rows| && rows[i] == CostRow(Label(source), model, Some(RunsOf(source, under, own)), SumOf(under))
  {
    KeyIsOrder();
    hide IsOrder, InOrder, GroupsOf, LinesUnder, RowsFor, Get, RunsOf, Label, Owners, SumOf, KeyBefore, VisibleRuns, ByRun, Keep, ProcessesOfModel;
    var key := GroupsOf(lines, w)[i].0;
    RowAt(GroupsOf(lines, w), OwnersOf(lines, w), i);
    RowsAreKeys(lines, w, key);
    GetAt(GroupsOf(lines, w), i, KeyBefore);
    OwnersAre(VisibleRuns(ByRun(Keep(lines, IsMain())), w), key.1);
  }

  // And so are the numbers of each row, over its own key's lines.
  lemma {:induction false} RowAddsUp(lines: seq<UsageLine>, w: Window, i: nat)
    requires i < |GroupsOf(lines, w)|
    ensures var rows := RowsFor(GroupsOf(lines, w), OwnersOf(lines, w));
            i < |rows| && AddsUp(rows[i].tokens, LinesUnder(lines, w, GroupsOf(lines, w)[i].0))
  {
    RowSaysItsKey(lines, w, i);
    hide GroupsOf, OwnersOf, RowsFor, LinesUnder, AddsUp, SumOf;
    SumAddsUp(LinesUnder(lines, w, GroupsOf(lines, w)[i].0));
  }

  // A process is shown under the last model its rows name.
  lemma {:induction false} LastModelIs(rows: seq<UsageLine>, k: nat)
    requires k < |rows| ==> rows[k].model.Some? && forall j :: k < j < |rows| ==> rows[j].model.None?
    requires k >= |rows| ==> forall j :: 0 <= j < |rows| ==> rows[j].model.None?
    ensures LastModel(rows) == if k < |rows| then rows[k].model.value else "unknown"
  {
    if rows != [] && rows[|rows| - 1].model.None? {
      var front := rows[..|rows| - 1];
      assert forall j :: 0 <= j < |front| ==> front[j] == rows[j];
      LastModelIs(front, if k < |rows| then k else |front|);
    }
  }

  // Main rows count the different runs of their processes, worker rows the different workers and
  // sessions of their lines, the others their lines.
  lemma {:induction false} RunsCounted(source: Source, lines: seq<UsageLine>, own: seq<MainProcess>)
    returns (runs: set<Option<string>>, workers: set<(Option<string>, Option<string>)>)
    ensures forall run :: run in runs <==> exists i: nat :: i < |own| && own[i].run == run
    ensures forall id, session :: (id, session) in workers <==>
              exists i: nat :: i < |lines| && lines[i].workerId == id && lines[i].sessionId == session
    ensures RunsOf(source, lines, own) == if source.Main? then |runs| else if source.Worker? then |workers| else |lines|
  {
    runs := set i | 0 <= i < |own| :: own[i].run;
    workers := set i | 0 <= i < |lines| :: (lines[i].workerId, lines[i].sessionId);
  }
}
