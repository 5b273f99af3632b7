// From the usage file to the rows of the cost table, and what the rows add up to.
module CostTable {
  import opened Text
  import opened Usage
  import opened Tokens
  import opened WorkerCosts

  type Wanted = UsageLine -> bool

  // The wanted lines, in order.
  function Keep(lines: seq<UsageLine>, wanted: Wanted): seq<UsageLine> {
    if lines == [] then [] else
      Keep(lines[..|lines| - 1], wanted) + if wanted(lines[|lines| - 1]) then [lines[|lines| - 1]] else []
  }

  function InWindow(w: Window): Wanted {
    (line: UsageLine) => w(line.at)
  }

  function IsMain(): Wanted {
    (line: UsageLine) => SourceOf(line) == Some(Main)
  }

  // Lines in the window from anything but the main session.
  function IsOther(w: Window): Wanted {
    (line: UsageLine) => SourceOf(line).Some? && SourceOf(line) != Some(Main) && w(line.at)
  }

  // Lines that belong in the table.
  function Counts(w: Window): Wanted {
    (line: UsageLine) => SourceOf(line).Some? && w(line.at)
  }

  function KeyOf(line: UsageLine): Key {
    (SourceOf(line).GetOr(Main), line.model.GetOr(UNKNOWN))
  }

  function HasKey(w: Window, key: Key): Wanted {
    (line: UsageLine) => IsOther(w)(line) && KeyOf(line) == key
  }

  // ----- the main session -----

  function ByRun(lines: seq<UsageLine>): Groups<Option<string>, UsageLine> {
    if lines == [] then [] else
      var last := lines[|lines| - 1];
      Extended(ByRun(lines[..|lines| - 1]), last.run, [last], RunBefore)
  }

  // The last model named in the rows.
  function LastModel(rows: seq<UsageLine>): string {
    if rows == [] then UNKNOWN else
      rows[|rows| - 1].model.GetOr(LastModel(rows[..|rows| - 1]))
  }

  type Named = (string, MainProcess)

  function Visible(run: Option<string>, process: seq<UsageLine>, w: Window): seq<Named> {
    var within := Keep(process, InWindow(w));
    if within == [] then [] else [(LastModel(within), MainProcess(run, within))]
  }

  function VisibleAll(run: Option<string>, pieces: seq<seq<UsageLine>>, w: Window): seq<Named> {
    if pieces == [] then [] else Visible(run, pieces[0], w) + VisibleAll(run, pieces[1..], w)
  }

  function VisibleRuns(runs: Groups<Option<string>, UsageLine>, w: Window): seq<Named> {
    if runs == [] then [] else
      VisibleAll(runs[0].0, Processes(runs[0].1), w) + VisibleRuns(runs[1..], w)
  }

  method MainProcesses(lines: seq<UsageLine>, w: Window) returns (named: seq<Named>)
    ensures named == VisibleRuns(ByRun(lines), w)
  {
    hide Extended, VisibleRuns;
    var runs := [];
    for i := 0 to |lines|
      invariant runs == ByRun(lines[..i])
    {
      assert lines[..i + 1][..i] == lines[..i];
      runs := Extended(runs, lines[i].run, [lines[i]], RunBefore);
    }
    assert lines[..|lines|] == lines;
    named := VisibleRuns(runs, w);
  }

  // ----- the groups -----

  function Parsed(texts: seq<string>, parse: Parser): seq<UsageLine> {
    if texts == [] then [] else
      Parsed(texts[..|texts| - 1], parse) +
      match parse(texts[|texts| - 1]) case Some(line) => [line] case None => []
  }

  function OtherGroups(lines: seq<UsageLine>, w: Window): Groups<Key, UsageLine> {
    if lines == [] then [] else
      var before, last := OtherGroups(lines[..|lines| - 1], w), lines[|lines| - 1];
      if IsOther(w)(last) then Extended(before, KeyOf(last), [last], KeyBefore) else before
  }

  function WithMain(groups: Groups<Key, UsageLine>, named: seq<Named>): Groups<Key, UsageLine> {
    if named == [] then groups else
      var last := named[|named| - 1];
      Extended(WithMain(groups, named[..|named| - 1]), (Main, last.0), last.1.rows, KeyBefore)
  }

  function Owners(named: seq<Named>): Groups<string, MainProcess> {
    if named == [] then [] else
      var last := named[|named| - 1];
      Extended(Owners(named[..|named| - 1]), last.0, [last.1], TextBefore)
  }

  function RunsOf(source: Source, lines: seq<UsageLine>, own: seq<MainProcess>): nat {
    match source
    case Main => |set i | 0 <= i < |own| :: own[i].run|
    case Worker(_) => |set i | 0 <= i < |lines| :: (lines[i].workerId, lines[i].sessionId)|
    case _ => |lines|
  }

  function RowFor(group: (Key, seq<UsageLine>), owners: Groups<string, MainProcess>): CostRow {
    var (source, model) := group.0;
    var own := if source.Main? then Get(owners, model) else [];
    CostRow(Label(source), model, Some(RunsOf(source, group.1, own)), SumOf(group.1))
  }

  function RowsFor(groups: Groups<Key, UsageLine>, owners: Groups<string, MainProcess>): seq<CostRow> {
    if groups == [] then [] else RowsFor(groups[..|groups| - 1], owners) + [RowFor(groups[|groups| - 1], owners)]
  }

  function GroupsOf(lines: seq<UsageLine>, w: Window): Groups<Key, UsageLine> {
    WithMain(OtherGroups(lines, w), VisibleRuns(ByRun(Keep(lines, IsMain())), w))
  }

  function OwnersOf(lines: seq<UsageLine>, w: Window): Groups<string, MainProcess> {
    Owners(VisibleRuns(ByRun(Keep(lines, IsMain())), w))
  }

  method CostRows(text: string, w: Window, parse: Parser) returns (rows: seq<CostRow>)
    ensures var lines := Parsed(Lines(text), parse); rows == RowsFor(GroupsOf(lines, w), OwnersOf(lines, w))
  {
    hide Lines, Parsed, Keep, Extended, RowsFor, VisibleRuns, ByRun, SourceOf, OtherGroups, WithMain, Owners;
    var texts := Lines(text);
    var groups, main := [], [];
    NothingRead(w, parse);
    for i := 0 to |texts|
      invariant main == Keep(Parsed(texts[..i], parse), IsMain())
      invariant groups == OtherGroups(Parsed(texts[..i], parse), w)
    {
      ReadOne(texts, i, w, parse);
      var parsed := parse(texts[i]);
      if parsed.Some? && (w(parsed.value.at) || SourceOf(parsed.value) == Some(Main)) {
        var line := parsed.value;
        match SourceOf(line) {
          case Some(Main) => main := main + [line];
          case Some(source) =>
            var model := line.model.GetOr(UNKNOWN);
            groups := Extended(groups, (source, model), [line], KeyBefore);
          case None =>
        }
      }
    }
    assert texts[..|texts|] == texts;
    ghost var others := groups;
    var owners := [];
    var named := MainProcesses(main, w);
    NoProcess(others);
    for i := 0 to |named|
      invariant groups == WithMain(others, named[..i])
      invariant owners == Owners(named[..i])
    {
      OneProcess(others, named, i);
      var (model, process) := named[i];
      groups := Extended(groups, (Main, model), process.rows, KeyBefore);
      owners := Extended(owners, model, [process], TextBefore);
    }
    assert named[..|named|] == named;
    rows := RowsFor(groups, owners);
  }

  lemma {:induction false} NothingRead(w: Window, parse: Parser)
    ensures Keep(Parsed([], parse), IsMain()) == []
    ensures OtherGroups(Parsed([], parse), w) == []
  {
  }

  // What one more line of the file adds.
  lemma {:induction false} ReadOne(texts: seq<string>, i: nat, w: Window, parse: Parser)
    requires i < |texts|
    ensures var before, after, parsed := Parsed(texts[..i], parse), Parsed(texts[..i + 1], parse), parse(texts[i]);
            && (Keep(after, IsMain()) == Keep(before, IsMain()) +
                 if parsed.Some? && SourceOf(parsed.value) == Some(Main) then [parsed.value] else [])
            && (OtherGroups(after, w) ==
                if parsed.Some? && IsOther(w)(parsed.value)
                then Extended(OtherGroups(before, w), KeyOf(parsed.value), [parsed.value], KeyBefore)
                else OtherGroups(before, w))
  {
    hide Extended, SourceOf;
    assert texts[..i + 1][..i] == texts[..i];
    var before, after := Parsed(texts[..i], parse), Parsed(texts[..i + 1], parse);
    if parse(texts[i]).Some? {
      assert after[..|after| - 1] == before;
    } else {
      assert after == before;
      assert Keep(before, IsMain()) + [] == Keep(before, IsMain());
    }
  }

  lemma {:induction false} NoProcess(groups: Groups<Key, UsageLine>)
    ensures WithMain(groups, []) == groups && Owners([]) == []
  {
  }

  lemma {:induction false} OneProcess(groups: Groups<Key, UsageLine>, named: seq<Named>, i: nat)
    requires i < |named|
    ensures WithMain(groups, named[..i + 1]) ==
            Extended(WithMain(groups, named[..i]), (Main, named[i].0), named[i].1.rows, KeyBefore)
    ensures Owners(named[..i + 1]) == Extended(Owners(named[..i]), named[i].0, [named[i].1], TextBefore)
  {
    hide Extended;
    assert named[..i + 1][..i] == named[..i];
  }

  // The tokens of the total row.
  function TotalTokens(rows: seq<CostRow>): Count {
    if rows == [] then ZERO else Plus(TotalTokens(rows[..|rows| - 1]), rows[|rows| - 1].tokens)
  }

  function TotalRow(rows: seq<CostRow>): CostRow {
    CostRow("total", "", None, TotalTokens(rows))
  }
}
