// Lexical normalisation of paths.
module PathNorm {

  // A path as `std::path::Components` yields it.
  datatype Component = Prefix(drive: string) | RootDir | CurDir | ParentDir | Normal(name: string)

  type Path = seq<Component>

  // Prefixes stand first, and the root first or right behind a prefix.
  predicate WellFormed(path: Path) {
    forall i :: 0 <= i < |path| ==>
      && (path[i].Prefix? ==> i == 0)
      && (path[i].RootDir? ==> i == 0 || (i == 1 && path[0].Prefix?))
  }

  function Fold(parts: Path, part: Component): Path {
    match part
    case CurDir => parts
    case ParentDir =>
      if parts != [] && parts[|parts| - 1].Normal? then parts[..|parts| - 1]
      else if parts != [] && (parts[|parts| - 1].RootDir? || parts[|parts| - 1].Prefix?) then parts
      else parts + [part]
    case _ => parts + [part]
  }

  function Normalized(path: Path): Path {
    if path == [] then [] else Fold(Normalized(path[..|path| - 1]), path[|path| - 1])
  }

  method NormalizeLexically(path: Path) returns (parts: Path)
    ensures parts == Normalized(path)
  {
    parts := [];
    for i := 0 to |path|
      invariant parts == Normalized(path[..i])
    {
      assert path[..i + 1][..i] == path[..i];
      match path[i] {
        case CurDir =>
        case ParentDir =>
          if parts != [] && parts[|parts| - 1].Normal? {
            parts := parts[..|parts| - 1];
          } else if parts == [] || !(parts[|parts| - 1].RootDir? || parts[|parts| - 1].Prefix?) {
            parts := parts + [path[i]];
          }
        case _ => parts := parts + [path[i]];
      }
    }
    assert path[..|path|] == path;
  }

  // ----- where a path leads, in a world without links -----

  datatype Place = Place(drive: string, names: seq<string>)

  // The current directory of every drive.
  type World = string -> seq<string>

  function Go(world: World, at: Place, part: Component): Place {
    match part
    case Prefix(drive) => Place(drive, world(drive))
    case RootDir => Place(at.drive, [])
    case CurDir => at
    case ParentDir => if at.names == [] then at else Place(at.drive, at.names[..|at.names| - 1])
    case Normal(name) => Place(at.drive, at.names + [name])
  }

  function Walk(world: World, at: Place, path: Path): Place {
    if path == [] then at else Go(world, Walk(world, at, path[..|path| - 1]), path[|path| - 1])
  }

  // Some `..` of the path is met right behind a prefix without a root.
  predicate ClimbsPrefix(path: Path) {
    path != [] &&
    (|| ClimbsPrefix(path[..|path| - 1])
     || (&& path[|path| - 1].ParentDir?
         && var parts := Normalized(path[..|path| - 1]); parts != [] && parts[|parts| - 1].Prefix?))
  }

  lemma {:induction false} FoldLeads(world: World, at: Place, parts: Path, part: Component)
    requires !(part.ParentDir? && parts != [] && parts[|parts| - 1].Prefix?)
    ensures Walk(world, at, Fold(parts, part)) == Go(world, Walk(world, at, parts), part)
  {
    if part.ParentDir? && parts != [] && parts[|parts| - 1].Normal? {
      var front := Walk(world, at, parts[..|parts| - 1]);
      assert (front.names + [parts[|parts| - 1].name])[..|front.names|] == front.names;
    } else if part.ParentDir? && parts != [] && parts[|parts| - 1].RootDir? {
    } else if !part.CurDir? {
      assert (parts + [part])[..|parts|] == parts;
    }
  }

  // A normalised path leads where the path led, from everywhere.
  lemma {:induction false} NormalizedLeads(world: World, at: Place, path: Path)
    requires !ClimbsPrefix(path)
    ensures Walk(world, at, Normalized(path)) == Walk(world, at, path)
  {
    if path != [] {
      hide Fold, Go;
      NormalizedLeads(world, at, path[..|path| - 1]);
      FoldLeads(world, at, Normalized(path[..|path| - 1]), path[|path| - 1]);
    }
  }

  // ----- the shape of a normalised path -----

  // No `.`, and `..` only in front, where no root or prefix stands.
  predicate IsNormal(path: Path) {
    && WellFormed(path)
    && (forall i :: 0 <= i < |path| ==> !path[i].CurDir?)
    && (forall i :: 0 < i < |path| && path[i].ParentDir? ==> path[i - 1].ParentDir?)
  }

  lemma {:induction false} PrefixOfPath(path: Path, part: Component)
    requires WellFormed(path + [part])
    ensures WellFormed(path)
    ensures part.Prefix? ==> path == []
    ensures part.RootDir? ==> path == [] || (|path| == 1 && path[0].Prefix?)
  {
    assert (path + [part])[|path|] == part;
    assert forall i :: 0 <= i < |path| ==> (path + [part])[i] == path[i];
  }

  lemma {:induction false} FoldKeepsNormal(parts: Path, part: Component)
    requires IsNormal(parts)
    requires part.Prefix? ==> parts == []
    requires part.RootDir? ==> parts == [] || (|parts| == 1 && parts[0].Prefix?)
    ensures IsNormal(Fold(parts, part))
  {
  }

  lemma {:induction false} NormalizedShape(path: Path)
    requires WellFormed(path)
    ensures IsNormal(Normalized(path))
    ensures path == [] || (|path| == 1 && path[0].Prefix?) ==> Normalized(path) == path
  {
    if path != [] {
      hide Fold, IsNormal, WellFormed;
      var front, last := path[..|path| - 1], path[|path| - 1];
      assert path == front + [last];
      PrefixOfPath(front, last);
      NormalizedShape(front);
      FoldKeepsNormal(Normalized(front), last);
      FoldPrefix(last);
    } else {
      NothingIsNormal();
    }
  }

  lemma {:induction false} NothingIsNormal()
    ensures IsNormal([])
  {
  }

  lemma {:induction false} FoldPrefix(part: Component)
    ensures part.Prefix? ==> Fold([], part) == [part]
  {
  }

  // Normalising again changes nothing, and a path it does not change is normal.
  lemma {:induction false} NormalIffFixed(path: Path)
    requires WellFormed(path)
    ensures IsNormal(path) <==> Normalized(path) == path
  {
    if IsNormal(path) {
      NormalIsFixed(path);
    }
    NormalizedShape(path);
  }

  lemma {:induction false} NormalIsFixed(path: Path)
    requires IsNormal(path)
    ensures Normalized(path) == path
  {
    if path != [] {
      var front, last := path[..|path| - 1], path[|path| - 1];
      assert path == front + [last];
      PrefixOfPath(front, last);
      NormalIsFixed(front);
    }
  }

  lemma {:induction false} NormalizingTwice(path: Path)
    requires WellFormed(path)
    ensures Normalized(Normalized(path)) == Normalized(path)
  {
    NormalizedShape(path);
    NormalIsFixed(Normalized(path));
  }

  // ----- a prefix without a root -----

  predicate DriveRelative(path: Path) {
    path != [] && path[0].Prefix? && (|path| == 1 || !path[1].RootDir?)
  }

  // How many `..` of the path are dropped behind the prefix.
  function Dropped(path: Path): nat {
    if path == [] then 0 else
      var parts, last := Normalized(path[..|path| - 1]), path[|path| - 1];
      Dropped(path[..|path| - 1]) +
      if last.ParentDir? && parts != [] && parts[|parts| - 1].Prefix? then 1 else 0
  }

  lemma {:induction false} DroppedIffClimbs(path: Path)
    ensures Dropped(path) > 0 <==> ClimbsPrefix(path)
  {
    if path != [] {
      hide Normalized;
      DroppedIffClimbs(path[..|path| - 1]);
    }
  }

  // Behind a prefix without a root only names are left.
  predicate NamesBehindPrefix(parts: Path) {
    parts != [] && parts[0].Prefix? && forall i :: 0 < i < |parts| ==> parts[i].Normal?
  }

  lemma {:induction false} DroppedStep(front: Path, last: Component)
    requires var parts := Normalized(front); NamesBehindPrefix(parts)
    requires !last.Prefix? && !last.RootDir?
    ensures var parts := Normalized(front);
            var next := Fold(parts, last);
            && NamesBehindPrefix(next) && next[0] == parts[0]
            && |next| == if last.CurDir? then |parts| else if last.Normal? then |parts| + 1
                         else if |parts| == 1 then 1 else |parts| - 1
    ensures var parts := Normalized(front); parts[|parts| - 1].Prefix? <==> |parts| == 1
  {
    hide Normalized;
  }

  // With enough directories above the drive's current one, each dropped `..` is one missing level.
  lemma {:induction false} DroppedLevels(world: World, at: Place, path: Path)
    requires DriveRelative(path) && WellFormed(path)
    requires Dropped(path) <= |world(path[0].drive)|
    ensures var parts := Normalized(path);
            && NamesBehindPrefix(parts) && parts[0] == path[0]
            && |Walk(world, at, path).names| == |world(path[0].drive)| + |parts| - 1 - Dropped(path)
  {
    var front, last := path[..|path| - 1], path[|path| - 1];
    hide WellFormed;
    if |path| == 1 {
      assert front == [];
      assert Fold([], last) == [last];
    } else {
      assert path == front + [last];
      PrefixOfPath(front, last);
      assert !last.RootDir?;
      DroppedLevels(world, at, front);
      DroppedStep(front, last);
      assert Walk(world, at, path) == Go(world, Walk(world, at, front), last);
    }
  }

  lemma {:induction false} NamesAdd(world: World, at: Place, parts: Path)
    requires NamesBehindPrefix(parts)
    ensures |Walk(world, at, parts).names| == |world(parts[0].drive)| + |parts| - 1
  {
    var front := parts[..|parts| - 1];
    if |parts| == 1 {
      assert front == [];
    } else {
      NamesAdd(world, at, front);
    }
  }

  lemma {:induction false} FoldStaysRooted(parts: Path, part: Component)
    requires !DriveRelative(parts) && IsNormal(parts) && !part.Prefix?
    ensures !DriveRelative(Fold(parts, part))
  {
    assert parts != [] ==> (parts + [part])[0] == parts[0];
  }

  lemma {:induction false} RootedDropsNothing(path: Path)
    requires WellFormed(path) && !DriveRelative(path)
    ensures !ClimbsPrefix(path) && !DriveRelative(Normalized(path))
  {
    if path != [] {
      hide IsNormal, Fold;
      var front, last := path[..|path| - 1], path[|path| - 1];
      assert path == front + [last];
      PrefixOfPath(front, last);
      NormalizedShape(front);
      if DriveRelative(front) {
        PrefixThenRoot(path);
      } else {
        RootedDropsNothing(front);
        assert !last.Prefix?;
        FoldStaysRooted(Normalized(front), last);
      }
    }
  }

  lemma {:induction false} PrefixThenRoot(path: Path)
    requires WellFormed(path) && !DriveRelative(path) && path != [] && DriveRelative(path[..|path| - 1])
    ensures !ClimbsPrefix(path) && !DriveRelative(Normalized(path))
  {
    assert |path| == 2;
    assert path[..1][..0] == [];
    assert Normalized(path[..1]) == [path[0]];
    assert !ClimbsPrefix(path[..1][..0]);
    assert !ClimbsPrefix(path[..1]);
    assert path[..|path| - 1] == path[..1];
    assert Normalized(path) == [path[0], path[1]];
  }

  // ----- the condition, counted on the path -----

  // Names less `..`.
  function Balance(path: Path): int {
    if path == [] then 0 else
      Balance(path[..|path| - 1]) +
      match path[|path| - 1]
      case Normal(_) => 1
      case ParentDir => -1
      case _ => 0
  }

  // A prefix without a root, and somewhere behind it more `..` than names.
  predicate Overclimbs(path: Path) {
    DriveRelative(path) && exists k :: 0 <= k <= |path| && Balance(path[..k]) < 0
  }

  lemma {:induction false} SinksStep(path: Path)
    requires path != []
    ensures var front := path[..|path| - 1];
            (exists k :: 0 <= k <= |path| && Balance(path[..k]) < 0) <==>
            (exists k :: 0 <= k <= |front| && Balance(front[..k]) < 0) || Balance(path) < 0
  {
    hide Balance;
    var front := path[..|path| - 1];
    assert path[..|path|] == path;
    assert forall k :: 0 <= k <= |front| ==> path[..k] == front[..k];
    if exists k :: 0 <= k <= |path| && Balance(path[..k]) < 0 {
      var k :| 0 <= k <= |path| && Balance(path[..k]) < 0;
      assert k <= |front| ==> Balance(front[..k]) < 0;
    }
    if exists k :: 0 <= k <= |front| && Balance(front[..k]) < 0 {
      var k :| 0 <= k <= |front| && Balance(front[..k]) < 0;
      assert Balance(path[..k]) < 0;
    }
  }

  lemma {:induction false} OneMore(front: Path, last: Component)
    ensures var path := front + [last];
            && path[..|path| - 1] == front
            && Normalized(path) == Fold(Normalized(front), last)
            && Balance(path) == Balance(front) + (if last.Normal? then 1 else if last.ParentDir? then -1 else 0)
            && Dropped(path) == Dropped(front) +
               (var parts := Normalized(front);
                if last.ParentDir? && parts != [] && parts[|parts| - 1].Prefix? then 1 else 0)
  {
    hide Fold;
    assert (front + [last])[..|front|] == front;
  }

  lemma {:induction false} DroppedCount(path: Path)
    requires DriveRelative(path) && WellFormed(path)
    ensures NamesBehindPrefix(Normalized(path)) && |Normalized(path)| - 1 == Balance(path) + Dropped(path)
    ensures Dropped(path) > 0 <==> exists k :: 0 <= k <= |path| && Balance(path[..k]) < 0
  {
    var front, last := path[..|path| - 1], path[|path| - 1];
    assert path == front + [last];
    PrefixOfPath(front, last);
    SinksStep(path);
    OneMore(front, last);
    hide WellFormed, Normalized, Balance, Dropped, Fold;
    if |path| == 1 {
      OnlyPrefix(last);
      assert forall k :: 0 <= k <= |front| ==> front[..k] == [];
    } else {
      assert !last.RootDir?;
      DroppedCount(front);
      DroppedStep(front, last);
    }
  }

  lemma {:induction false} OnlyPrefix(last: Component)
    ensures Normalized([]) == [] && Balance([]) == 0 && Dropped([]) == 0
    ensures last.Prefix? ==> Fold([], last) == [last]
  {
  }

  lemma {:induction false} ClimbsIff(path: Path)
    requires WellFormed(path)
    ensures ClimbsPrefix(path) <==> Overclimbs(path)
  {
    hide Balance, ClimbsPrefix, Normalized, WellFormed, Dropped;
    DroppedIffClimbs(path);
    if DriveRelative(path) {
      DroppedCount(path);
    } else {
      RootedDropsNothing(path);
    }
  }

  // The exact condition: a well-formed path and its normal form lead to the same place from everywhere,
  // in every world, unless the path has a prefix without a root and climbs above where that leads.
  lemma {:induction false} SamePlaceIff(path: Path)
    requires WellFormed(path)
    ensures !Overclimbs(path) <==>
            forall world: World, at: Place {:trigger Walk(world, at, path)} :: Walk(world, at, Normalized(path)) == Walk(world, at, path)
  {
    hide Walk, Normalized, ClimbsPrefix, Overclimbs, Dropped, WellFormed;
    ClimbsIff(path);
    if !ClimbsPrefix(path) {
      forall world: World, at: Place ensures Walk(world, at, Normalized(path)) == Walk(world, at, path) {
        NormalizedLeads(world, at, path);
      }
    } else {
      if !DriveRelative(path) {
        RootedDropsNothing(path);
      }
      DroppedIffClimbs(path);
      var deep: seq<string> := seq(Dropped(path), _ => "");
      var world: World := _ => deep;
      var at := Place("", []);
      DroppedLevels(world, at, path);
      NamesAdd(world, at, Normalized(path));
      assert Walk(world, at, Normalized(path)) != Walk(world, at, path);
    }
  }

  // On a drive without a root the condition fails: `C:..` leads to the parent of the drive's
  // current directory, its normal form `C:` to the current directory itself.
  lemma {:induction false} DriveRelativeParentIsLost(world: World, at: Place)
    requires world("C:") != []
    ensures var path := [Prefix("C:"), ParentDir];
            && Normalized(path) == [Prefix("C:")]
            && Walk(world, at, Normalized(path)) != Walk(world, at, path)
  {
    var path := [Prefix("C:"), ParentDir];
    assert path[..1] == [Prefix("C:")] && path[..1][..0] == [];
    assert Normalized(path[..1]) == [Prefix("C:")];
    assert Walk(world, at, path[..1]) == Place("C:", world("C:"));
  }

  // ----- paths without prefixes: one normal form for each meaning -----

  predicate NoPrefix(path: Path) {
    forall i :: 0 <= i < |path| ==> !path[i].Prefix?
  }

  predicate Rooted(path: Path) {
    path != [] && path[0].RootDir?
  }

  // The leading `..` of a path.
  function Ups(path: Path): (ups: nat)
    ensures ups <= |path|
    ensures forall i :: 0 <= i < ups ==> path[i].ParentDir?
    ensures ups < |path| ==> !path[ups].ParentDir?
  {
    if path != [] && path[0].ParentDir? then 1 + Ups(path[1..]) else 0
  }

  predicate AllNames(path: Path) {
    forall i :: 0 <= i < |path| ==> path[i].Normal?
  }

  function NamesOf(path: Path): (names: seq<string>)
    requires AllNames(path)
    ensures |names| == |path|
    ensures forall i :: 0 <= i < |path| ==> names[i] == path[i].name
  {
    seq(|path|, i requires 0 <= i < |path| => path[i].name)
  }

  // A normal path is a root or some `..`, and names behind it.
  lemma {:induction false} NormalParts(path: Path)
    requires IsNormal(path) && NoPrefix(path)
    ensures Rooted(path) ==> AllNames(path[1..])
    ensures !Rooted(path) ==> AllNames(path[Ups(path)..])
  {
    var start := if Rooted(path) then 1 else Ups(path);
    forall i | start <= i < |path| ensures path[i].Normal? {
      NamesBehind(path, start, i);
    }
  }

  lemma {:induction false} NamesBehind(path: Path, start: nat, i: nat)
    requires IsNormal(path) && NoPrefix(path) && start <= i < |path|
    requires start == if Rooted(path) then 1 else Ups(path)
    ensures path[i].Normal?
  {
    hide Ups;
    if i > start {
      NamesBehind(path, start, i - 1);
    }
  }

  lemma {:induction false} WalkNames(world: World, at: Place, path: Path, names: Path)
    requires AllNames(names)
    ensures Walk(world, at, path + names) ==
            Place(Walk(world, at, path).drive, Walk(world, at, path).names + NamesOf(names))
  {
    var here := Walk(world, at, path);
    if names == [] {
      assert path + names == path;
      assert here.names + NamesOf(names) == here.names;
    } else {
      var front := names[..|names| - 1];
      WalkNames(world, at, path, front);
      assert (path + names)[..|path + names| - 1] == path + front;
      assert here.names + NamesOf(names) == (here.names + NamesOf(front)) + [names[|names| - 1].name];
    }
  }

  lemma {:induction false} WalkUps(world: World, at: Place, path: Path)
    requires forall i :: 0 <= i < |path| ==> path[i].ParentDir?
    requires |path| <= |at.names|
    ensures Walk(world, at, path) == Place(at.drive, at.names[..|at.names| - |path|])
  {
    if path == [] {
      assert at.names[..|at.names|] == at.names;
    } else {
      WalkUps(world, at, path[..|path| - 1]);
    }
  }

  // Where a normal path leads from a place deep enough.
  function Target(at: Place, path: Path): seq<string>
    requires IsNormal(path) && NoPrefix(path) && Ups(path) <= |at.names|
  {
    NormalParts(path);
    if Rooted(path) then NamesOf(path[1..])
    else at.names[..|at.names| - Ups(path)] + NamesOf(path[Ups(path)..])
  }

  lemma {:induction false} NormalLeads(world: World, at: Place, path: Path)
    requires IsNormal(path) && NoPrefix(path) && Ups(path) <= |at.names|
    ensures Walk(world, at, path).names == Target(at, path)
  {
    NormalParts(path);
    hide IsNormal, NoPrefix, AllNames, Walk, NamesOf, Ups;
    if Rooted(path) {
      assert path == [RootDir] + path[1..];
      RootedLeads(world, at, path[1..]);
    } else {
      var ups := path[..Ups(path)];
      assert path == ups + path[Ups(path)..];
      WalkUps(world, at, ups);
      WalkNames(world, at, ups, path[Ups(path)..]);
    }
  }

  lemma {:induction false} RootedLeads(world: World, at: Place, names: Path)
    requires AllNames(names)
    ensures Walk(world, at, [RootDir] + names).names == NamesOf(names)
  {
    hide AllNames, Walk, NamesOf;
    WalkNames(world, at, [RootDir], names);
    WalkRoot(world, at);
    assert [] + NamesOf(names) == NamesOf(names);
  }

  lemma {:induction false} WalkRoot(world: World, at: Place)
    ensures Walk(world, at, [RootDir]) == Place(at.drive, [])
  {
    assert [RootDir][..0] == [];
  }

  // A directory far below the root whose name neither path ends its climb with.
  function Deep(a: Path, b: Path): Place
    requires IsNormal(a) && NoPrefix(a) && IsNormal(b) && NoPrefix(b)
  {
    Place("", seq(|a| + |b| + 1, _ => FirstName(a) + FirstName(b) + "x"))
  }

  function FirstName(path: Path): string
    requires IsNormal(path) && NoPrefix(path)
  {
    NormalParts(path);
    if !Rooted(path) && Ups(path) < |path| then path[Ups(path)].name else ""
  }

  lemma {:induction false} SameNames(a: Path, b: Path)
    requires AllNames(a) && AllNames(b) && NamesOf(a) == NamesOf(b)
    ensures a == b
  {
    assert forall i :: 0 <= i < |a| ==> a[i].name == NamesOf(a)[i] == NamesOf(b)[i] == b[i].name;
  }

  // Two normal paths that lead to the same place from a deep enough directory are the same path.
  lemma {:induction false} NormalFormsDiffer(world: World, a: Path, b: Path)
    requires IsNormal(a) && NoPrefix(a) && IsNormal(b) && NoPrefix(b)
    requires Walk(world, Deep(a, b), a) == Walk(world, Deep(a, b), b)
    ensures a == b
  {
    hide Walk, Target;
    var at := Deep(a, b);
    NormalLeads(world, at, a);
    NormalLeads(world, at, b);
    TargetsDiffer(a, b);
  }

  lemma {:induction false} SameEnd<T>(front: seq<T>, a: seq<T>, b: seq<T>)
    requires front + a == front + b
    ensures a == b
  {
    assert (front + a)[|front|..] == a && (front + b)[|front|..] == b;
  }

  lemma {:induction false} SameUps(a: Path, b: Path)
    requires Ups(a) == Ups(b) && a[Ups(a)..] == b[Ups(b)..]
    ensures a == b
  {
    assert a[..Ups(a)] == b[..Ups(b)];
    assert a == a[..Ups(a)] + a[Ups(a)..] && b == b[..Ups(b)] + b[Ups(b)..];
  }

  lemma {:induction false} SameClimb(a: Path, b: Path)
    requires IsNormal(a) && NoPrefix(a) && IsNormal(b) && NoPrefix(b)
    requires !Rooted(a) && !Rooted(b) && Ups(a) == Ups(b)
    requires Target(Deep(a, b), a) == Target(Deep(a, b), b)
    ensures a == b
  {
    NormalParts(a);
    NormalParts(b);
    hide IsNormal, NoPrefix, AllNames, Ups, NamesOf;
    var ups := Ups(a);
    SameEnd(Deep(a, b).names[..|Deep(a, b).names| - ups], NamesOf(a[ups..]), NamesOf(b[ups..]));
    SameNames(a[ups..], b[ups..]);
    SameUps(a, b);
  }

  // A longer climb leaves the deep directory where the shorter one keeps it.
  lemma {:induction false} OtherClimb(a: Path, b: Path)
    requires IsNormal(a) && NoPrefix(a) && IsNormal(b) && NoPrefix(b)
    requires !Rooted(a) && !Rooted(b) && Ups(a) != Ups(b)
    ensures Target(Deep(a, b), a) != Target(Deep(a, b), b)
  {
    NormalParts(a);
    NormalParts(b);
    hide IsNormal, NoPrefix;
    var names := Deep(a, b).names;
    var fork := |names| - if Ups(a) < Ups(b) then Ups(b) else Ups(a);
    assert names[fork] != FirstName(a) && names[fork] != FirstName(b) by {
      assert |names[fork]| == |FirstName(a)| + |FirstName(b)| + 1;
    }
    var one, two := Target(Deep(a, b), a), Target(Deep(a, b), b);
    assert fork < |one| && fork < |two| ==> one[fork] != two[fork];
  }

  lemma {:induction false} RootedElsewhere(a: Path, b: Path)
    requires IsNormal(a) && NoPrefix(a) && IsNormal(b) && NoPrefix(b)
    requires Rooted(a) != Rooted(b)
    ensures Target(Deep(a, b), a) != Target(Deep(a, b), b)
  {
    NormalParts(a);
    NormalParts(b);
    hide IsNormal, NoPrefix;
    if Rooted(a) {
      assert |Target(Deep(a, b), a)| == |a| - 1;
      assert |Target(Deep(a, b), b)| > |a|;
    } else {
      assert |Target(Deep(a, b), b)| == |b| - 1;
      assert |Target(Deep(a, b), a)| > |b|;
    }
  }

  lemma {:induction false} TargetsDiffer(a: Path, b: Path)
    requires IsNormal(a) && NoPrefix(a) && IsNormal(b) && NoPrefix(b)
    requires Target(Deep(a, b), a) == Target(Deep(a, b), b)
    ensures a == b
  {
    hide Target, Deep;
    if Rooted(a) != Rooted(b) {
      RootedElsewhere(a, b);
    } else if Rooted(a) {
      SameRoot(a, b);
    } else if Ups(a) == Ups(b) {
      SameClimb(a, b);
    } else {
      OtherClimb(a, b);
    }
  }

  lemma {:induction false} SameRoot(a: Path, b: Path)
    requires IsNormal(a) && NoPrefix(a) && IsNormal(b) && NoPrefix(b)
    requires Rooted(a) && Rooted(b) && Target(Deep(a, b), a) == Target(Deep(a, b), b)
    ensures a == b
  {
    NormalParts(a);
    NormalParts(b);
    hide IsNormal, NoPrefix, Deep;
    SameNames(a[1..], b[1..]);
    assert a == [RootDir] + a[1..] && b == [RootDir] + b[1..];
  }

  lemma {:induction false} NoPrefixClimbs(path: Path)
    requires NoPrefix(path)
    ensures NoPrefix(Normalized(path)) && !ClimbsPrefix(path)
  {
    if path != [] {
      NoPrefixClimbs(path[..|path| - 1]);
    }
  }

  ghost predicate SameMeaning(world: World, a: Path, b: Path) {
    forall at: Place {:trigger Walk(world, at, a)} :: Walk(world, at, a) == Walk(world, at, b)
  }

  // Two paths without prefixes have the same normal form exactly when they lead to the same place
  // from everywhere.
  lemma {:induction false} SameFormIffSameMeaning(world: World, a: Path, b: Path)
    requires WellFormed(a) && WellFormed(b) && NoPrefix(a) && NoPrefix(b)
    ensures Normalized(a) == Normalized(b) <==> SameMeaning(world, a, b)
  {
    NoPrefixClimbs(a);
    NoPrefixClimbs(b);
    NormalizedShape(a);
    NormalizedShape(b);
    hide Walk, Normalized, ClimbsPrefix, IsNormal, NoPrefix, WellFormed, Deep;
    if Normalized(a) == Normalized(b) {
      forall at: Place ensures Walk(world, at, a) == Walk(world, at, b) {
        NormalizedLeads(world, at, a);
        NormalizedLeads(world, at, b);
      }
      assert SameMeaning(world, a, b);
    } else if SameMeaning(world, a, b) {
      var at := Deep(Normalized(a), Normalized(b));
      NormalizedLeads(world, at, a);
      NormalizedLeads(world, at, b);
      assert Walk(world, at, a) == Walk(world, at, b);
      NormalFormsDiffer(world, Normalized(a), Normalized(b));
    }
  }

  // ----- appending -----

  // `Path::join`: a rooted tail replaces the path it is joined to.
  function Joined(path: Path, tail: Path): Path {
    if Rooted(tail) then tail else path + tail
  }

  function AppendLexically(path: Path, tail: Path): Path {
    Normalized(Joined(path, tail))
  }

  lemma {:induction false} WalkOn(world: World, at: Place, path: Path, tail: Path)
    ensures Walk(world, at, path + tail) == Walk(world, Walk(world, at, path), tail)
  {
    hide Go;
    if tail == [] {
      assert path + tail == path;
    } else {
      assert (path + tail)[..|path + tail| - 1] == path + tail[..|tail| - 1];
      WalkOn(world, at, path, tail[..|tail| - 1]);
    }
  }

  // Appending leads where the tail leads from where the path leads.
  lemma {:induction false} AppendLeads(world: World, at: Place, path: Path, tail: Path)
    requires NoPrefix(path) && NoPrefix(tail)
    ensures Walk(world, at, AppendLexically(path, tail)) == Walk(world, Walk(world, at, path), tail)
  {
    hide Walk, Normalized, ClimbsPrefix;
    NoPrefixClimbs(Joined(path, tail));
    NormalizedLeads(world, at, Joined(path, tail));
    WalkOn(world, at, path, tail);
    if Rooted(tail) {
      StaysOnDrive(world, at, path);
      RootIsRoot(world, at, Walk(world, at, path), tail);
    }
  }

  lemma {:induction false} StaysOnDrive(world: World, at: Place, path: Path)
    requires NoPrefix(path)
    ensures Walk(world, at, path).drive == at.drive
  {
    if path != [] {
      StaysOnDrive(world, at, path[..|path| - 1]);
    }
  }

  lemma {:induction false} RootIsRoot(world: World, at: Place, other: Place, tail: Path)
    requires Rooted(tail) && at.drive == other.drive
    ensures Walk(world, at, tail) == Walk(world, other, tail)
  {
    if |tail| == 1 {
      assert tail[..0] == [];
    } else {
      RootIsRoot(world, at, other, tail[..|tail| - 1]);
    }
  }

  // What is appended is again a path in normal form.
  lemma {:induction false} AppendShape(path: Path, tail: Path)
    requires WellFormed(path) && WellFormed(tail) && NoPrefix(tail)
    ensures WellFormed(Joined(path, tail)) && IsNormal(AppendLexically(path, tail))
    ensures Rooted(tail) ==> AppendLexically(path, tail) == Normalized(tail)
  {
    hide IsNormal, Normalized;
    NormalizedShape(Joined(path, tail));
  }
}
