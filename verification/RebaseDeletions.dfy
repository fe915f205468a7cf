/**
 What becomes of the objects our changeset deletes: their blocks are not executed, and they only come back with what we
 create, with what a header enters inside them, or by a renaming.
 */
module RebaseDeletions {
  import opened Core
  import opened PathText
  import opened Grammar
  import opened Rebase
  import opened RebaseScript
  import opened RebaseReplay
  import opened RebaseSteps
  import opened RebaseLaws
  import opened RebaseExtras
  import opened Blocks
  import opened Lexer
  import opened Plans
  import opened ScriptFile
  import D = Database
  import E = Existence
  import RebaseLimits
  import Schema

  // ---- The steps of the plan, from the two differences ----

  /** One side changes an attribute of an object that we do not delete. */
  predicate Touches(readonly: set<(Ident, Ident)>, externDifference: seq<Modification>, ourDifference: seq<Modification>,
      m: Modification)
  {
    && m.SetAttribute? && (m in externDifference || m in ourDifference)
    && (m.kind, m.attribute) !in readonly
    && DeleteObject(m.kind, m.name) !in ourDifference
  }

  /** Our modification, unless the newer revision holds it as well. */
  predicate OursAlone(embeddedInto: map<Ident, Ident>, readonly: set<(Ident, Ident)>, externDifference: seq<Modification>,
      ourDifference: seq<Modification>, m: Modification)
  {
    Kept(embeddedInto, readonly, ourDifference, m) && !Kept(embeddedInto, readonly, externDifference, m)
  }

  lemma {:induction false} OpensTouched(deletions: Deletions, merged: seq<(Source, Modification)>,
      last: Option<(Source, Modification)>, o: Object) returns (i: nat)
    requires Action.Open(o) in Plan(deletions, merged, last)
    ensures i < |merged| && merged[i].1.SetAttribute? && !Deleted(deletions, merged[i].1) && ObjectOf(merged[i].1) == o
    decreases |merged|
  {
    hide ObjectOf;
    var first := PlanOf(deletions, merged[0].0, merged[0].1, LastOf(last));
    if Action.Open(o) in first {
      i := 0;
    } else {
      i := OpensTouched(deletions, merged[1..], Some(merged[0]), o);
      i := i + 1;
    }
  }

  lemma {:induction false} MergedFrom(extern: seq<Modification>, ours: seq<Modification>, i: nat)
    requires i < |Merge(extern, ours)|
    ensures var (source, m) := Merge(extern, ours)[i];
      if source == Ours then m in ours else m in extern
    decreases |extern| + |ours|
  {
    hide Less;
    var source := Merge(extern, ours)[0].0;
    if i > 0 {
      var extern' := if source == Ours then extern else extern[1..];
      var ours' := if source == Extern then ours else ours[1..];
      assert Merge(extern, ours)[1..] == Merge(extern', ours');
      MergedFrom(extern', ours', i - 1);
    }
  }

  /** A header is executed for exactly the objects with a changed attribute that we do not delete. */
  lemma HeadersOpened(embeddedInto: map<Ident, Ident>, readonly: set<(Ident, Ident)>, externDifference: seq<Modification>,
      ourDifference: seq<Modification>, o: Object)
    ensures Action.Open(o) in RebasePlan(embeddedInto, readonly, externDifference, ourDifference)
      <==> exists m :: Touches(readonly, externDifference, ourDifference, m) && ObjectOf(m) == o
  {
    hide ObjectOf, Prepared, Merge, Plan, DeletedObjects, DeletesParent;
    var deletions := DeletedObjects(ourDifference);
    var extern := Prepared(embeddedInto, readonly, externDifference);
    var ours := Prepared(embeddedInto, readonly, ourDifference);
    DeletionsCollected(ourDifference);
    PreparedMembers(embeddedInto, readonly, externDifference);
    PreparedMembers(embeddedInto, readonly, ourDifference);
    if Action.Open(o) in RebasePlan(embeddedInto, readonly, externDifference, ourDifference) {
      var i := OpensTouched(deletions, Merge(extern, ours), None, o);
      MergedFrom(extern, ours, i);
      assert Touches(readonly, externDifference, ourDifference, Merge(extern, ours)[i].1);
    }
    if m :| Touches(readonly, externDifference, ourDifference, m) && ObjectOf(m) == o {
      AttributesStay(embeddedInto, readonly, externDifference, m);
      AttributesStay(embeddedInto, readonly, ourDifference, m);
      var i := RebaseLimits.MergeHolds(extern, ours, m);
      RebaseLimits.BlockOpened(deletions, Merge(extern, ours), None, i);
    }
  }

  /** Clearing only ever takes deletions away. */
  lemma AttributesStay(embeddedInto: map<Ident, Ident>, readonly: set<(Ident, Ident)>, ms: seq<Modification>, m: Modification)
    requires m.SetAttribute? && (m.kind, m.attribute) !in readonly
    ensures Kept(embeddedInto, readonly, ms, m) <==> m in ms
  {
  }

  /** In particular none for an object that we delete. */
  lemma NoHeaderForDeleted(embeddedInto: map<Ident, Ident>, readonly: set<(Ident, Ident)>, externDifference: seq<Modification>,
      ourDifference: seq<Modification>, kind: Ident, name: Name)
    requires DeleteObject(kind, VectorToPath(name)) in ourDifference
    requires forall m | m in externDifference || m in ourDifference :: Canonical(m)
    ensures Action.Open(Object(kind, name)) !in RebasePlan(embeddedInto, readonly, externDifference, ourDifference)
  {
    hide PathToVector, VectorToPath, RebasePlan;
    HeadersOpened(embeddedInto, readonly, externDifference, ourDifference, Object(kind, name));
    forall m | Touches(readonly, externDifference, ourDifference, m) ensures ObjectOf(m) != Object(kind, name) {
      assert Canonical(m);
    }
  }

  /** The name is the text of the name it stands for. */
  predicate Canonical(m: Modification) {
    PathToVector(m.name).Some? && VectorToPath(PathToVector(m.name).value) == m.name
  }

  /** Where a modification comes from in the merge. */
  lemma {:induction false} MergeSources(extern: seq<Modification>, ours: seq<Modification>, m: Modification)
    requires StrictlySorted(extern) && StrictlySorted(ours)
    ensures (Ours, m) in Merge(extern, ours) <==> m in ours && m !in extern
    ensures (Both, m) in Merge(extern, ours) <==> m in ours && m in extern
    ensures (Extern, m) in Merge(extern, ours) <==> m !in ours && m in extern
    decreases |extern| + |ours|
  {
    hide Less, StrictlySorted;
    if extern != [] { HeadNotInTail(extern); assert extern == [extern[0]] + extern[1..]; }
    if ours != [] { HeadNotInTail(ours); assert ours == [ours[0]] + ours[1..]; }
    if extern == [] && ours == [] {
    } else if ours == [] {
      MergeSources(extern[1..], ours, m);
    } else if extern == [] {
      MergeSources(extern, ours[1..], m);
    } else if Less(extern[0], ours[0]) {
      MergeSources(extern[1..], ours, m);
      BelowAll(extern[0], ours);
    } else if extern[0] == ours[0] {
      MergeSources(extern[1..], ours[1..], m);
    } else {
      MergeSources(extern, ours[1..], m);
      RebaseLaws.OursAlone(ours[0], extern);
    }
  }

  lemma {:induction false} PlannedActions(deletions: Deletions, merged: seq<(Source, Modification)>,
      last: Option<(Source, Modification)>, a: Action)
    requires !a.Open?
    ensures a in Plan(deletions, merged, last) <==> exists m :: (Ours, m) in merged && ActionOf(m) == a
    decreases |merged|
  {
    hide ActionOf, Opens;
    if merged != [] {
      var (source, m) := merged[0];
      var first := PlanOf(deletions, source, m, LastOf(last));
      PlannedActions(deletions, merged[1..], Some(merged[0]), a);
      assert merged == [merged[0]] + merged[1..];
      assert a in first <==> source == Ours && ActionOf(m) == a;
      if a in first {
        assert (Ours, m) in merged;
      }
    }
  }

  /** The other steps are exactly our modifications that the newer revision does not hold as well. */
  lemma StepsOfOurs(embeddedInto: map<Ident, Ident>, readonly: set<(Ident, Ident)>, externDifference: seq<Modification>,
      ourDifference: seq<Modification>, a: Action)
    requires UniqueKeys(externDifference) && UniqueKeys(ourDifference) && !a.Open?
    ensures a in RebasePlan(embeddedInto, readonly, externDifference, ourDifference)
      <==> exists m :: OursAlone(embeddedInto, readonly, externDifference, ourDifference, m) && ActionOf(m) == a
  {
    hide ActionOf, Prepared, Merge, Plan, DeletedObjects, Kept, UniqueKeys, StrictlySorted;
    var extern := Prepared(embeddedInto, readonly, externDifference);
    var ours := Prepared(embeddedInto, readonly, ourDifference);
    PreparedSorted(embeddedInto, readonly, externDifference);
    PreparedSorted(embeddedInto, readonly, ourDifference);
    PlannedActions(DeletedObjects(ourDifference), Merge(extern, ours), None, a);
    forall m ensures (Ours, m) in Merge(extern, ours)
      <==> OursAlone(embeddedInto, readonly, externDifference, ourDifference, m)
    {
      MergeSources(extern, ours, m);
    }
  }

  // ---- What is gone stays gone ----

  /** The object itself or something embedded in it, at any depth. */
  predicate Within(r: D.Relations, o: Object, x: Object) {
    x == o || E.Below(r, o, x)
  }

  predicate Gone(r: D.Relations, objects: set<Object>, o: Object) {
    forall x | x in objects :: !Within(r, o, x)
  }

  /** A step that can make the object exist again: with itself, with something inside, or by a renaming. */
  predicate BringsBack(r: D.Relations, o: Object, a: Action) {
    match a
    case Create(x) => Within(r, o, x)
    case Open(x) => Within(r, o, x)
    case Rename(x, newName) => RenamesOnto(r, o, x, newName)
    case Delete(_) => false
    case Set(_) => false
  }

  /** The object is the target of the renaming, or embedded in it. */
  predicate RenamesOnto(r: D.Relations, o: Object, x: Object, newName: Ident) {
    x.name != [] && Within(r, E.Renamed(x, newName), o)
  }

  lemma {:induction false} LevelsKeepGone(r: D.Relations, server: Server, o: Object, x: Object)
    requires Gone(r, server.objects, o)
    ensures !E.Below(r, o, x) ==> Gone(r, WithOuter(r, server, x).objects, o)
    ensures !Within(r, o, x) ==> Gone(r, WithLevels(r, server, x).objects, o)
    decreases |x.name|
  {
    if x.kind in r.embeddedInto && |x.name| > 1 && !E.Below(r, o, x) {
      LevelsKeepGone(r, server, o, D.Parent(r, x));
    }
  }

  /** What something is embedded in lies on one line. */
  lemma {:induction false} OneLine(r: D.Relations, a: Object, b: Object, x: Object)
    requires E.Below(r, a, x) && E.Below(r, b, x)
    ensures a == b || E.Below(r, a, b) || E.Below(r, b, a)
    decreases |x.name|
  {
    var parent := D.Parent(r, x);
    if parent != a && parent != b {
      OneLine(r, a, b, parent);
    }
  }

  /** Renaming moves everything inside along. */
  lemma {:induction false} MovedInside(r: D.Relations, x: Object, newName: Ident, z: Object)
    requires x.name != [] && E.Below(r, x, z)
    ensures |x.name| < |z.name|
    ensures E.Below(r, E.Renamed(x, newName), Object(z.kind, z.name[|x.name| - 1 := newName]))
    decreases |z.name|
  {
    E.BelowNames(r, x, z);
    var moved := Object(z.kind, z.name[|x.name| - 1 := newName]);
    var parent := D.Parent(r, z);
    if parent == x {
      assert DropLast(moved.name) == E.Renamed(x, newName).name;
    } else {
      MovedInside(r, x, newName, parent);
      assert DropLast(moved.name) == parent.name[|x.name| - 1 := newName];
    }
  }

  lemma RenameKeepsGone(r: D.Relations, objects: set<Object>, o: Object, x: Object, newName: Ident)
    requires Gone(r, objects, o) && x in objects && x.name != [] && !RenamesOnto(r, o, x, newName)
    ensures Gone(r, E.Applied(r, "", objects, E.Rename(x, newName)), o)
  {
    hide E.Below, E.Renamed;
    E.RenamedNotBelow(r, o, x, newName);
    forall z | z in objects ensures !Within(r, o, E.Moved(r, x, newName, z)) {
      if z != x && E.Below(r, x, z) {
        MovedInside(r, x, newName, z);
        var moved := E.Moved(r, x, newName, z);
        if Within(r, o, moved) && moved != o {
          OneLine(r, o, E.Renamed(x, newName), moved);
        }
      }
    }
  }

  lemma StepKeepsGone(r: D.Relations, server: Server, o: Object, a: Action)
    requires Schema.Acyclic(r.embeddedInto) && Perform(r, server, a).ok
    requires Gone(r, server.objects, o) && !BringsBack(r, o, a)
    ensures Gone(r, Perform(r, server, a).server.objects, o)
  {
    hide E.Below, WithLevels, WithOuter, E.Applied, CanRename, InSomeOrder, RenamesOnto;
    match a {
      case Delete(x) => LevelsKeepGone(r, server, o, x);
      case Rename(x, newName) =>
        LevelsKeepGone(r, server, o, x);
        ShorterLevels(r, server, x);
        RenameKeepsGone(r, WithLevels(r, server, x).objects, o, x, newName);
      case Create(x) => LevelsKeepGone(r, server, o, x);
      case Open(x) => LevelsKeepGone(r, server, o, x);
      case Set(_) =>
    }
  }

  lemma DeletionMakesGone(r: D.Relations, server: Server, o: Object)
    requires Schema.Acyclic(r.embeddedInto) && Perform(r, server, Action.Delete(o)).ok
    ensures Gone(r, Perform(r, server, Action.Delete(o)).server.objects, o)
  {
    hide E.Below, WithLevels, InSomeOrder;
  }

  lemma {:induction false} PlanKeepsGone(r: D.Relations, server: Server, o: Object, plan: seq<Action>)
    requires Schema.Acyclic(r.embeddedInto) && PerformAll(r, server, plan).ok && Gone(r, server.objects, o)
    requires forall a | a in plan :: !BringsBack(r, o, a)
    ensures Gone(r, PerformAll(r, server, plan).server.objects, o)
    decreases |plan|
  {
    hide Perform, Gone, BringsBack;
    if plan != [] {
      assert plan[0] in plan;
      StepKeepsGone(r, server, o, plan[0]);
      PlanKeepsGone(r, Perform(r, server, plan[0]).server, o, plan[1..]);
    }
  }

  lemma {:induction false} DeletedStaysGone(r: D.Relations, server: Server, o: Object, plan: seq<Action>)
    requires Schema.Acyclic(r.embeddedInto) && PerformAll(r, server, plan).ok && Action.Delete(o) in plan
    requires forall a | a in plan :: !BringsBack(r, o, a)
    ensures Gone(r, PerformAll(r, server, plan).server.objects, o)
    decreases |plan|
  {
    hide Perform, Gone, BringsBack;
    assert plan == [plan[0]] + plan[1..];
    var next := Perform(r, server, plan[0]).server;
    if plan[0] == Action.Delete(o) {
      DeletionMakesGone(r, server, o);
      PlanKeepsGone(r, next, o, plan[1..]);
    } else {
      DeletedStaysGone(r, next, o, plan[1..]);
    }
  }

  // ---- What brings an object back ----

  /** Deletions and renamings come first. */
  predicate RemovesFirst(plan: seq<Action>) {
    forall i, j | 0 <= i < j < |plan| && (plan[i].Create? || plan[i].Open?) :: !plan[j].Delete? && !plan[j].Rename?
  }

  lemma {:induction false} LevelsReached(r: D.Relations, server: Server, o: Object, x: Object)
    ensures E.Below(r, o, x) ==> o in WithOuter(r, server, x).objects
    ensures Within(r, o, x) ==> o in WithLevels(r, server, x).objects
    decreases |x.name|
  {
    if E.Below(r, o, x) {
      LevelsReached(r, server, o, D.Parent(r, x));
    }
  }

  lemma {:induction false} NothingRemoved(r: D.Relations, server: Server, plan: seq<Action>)
    requires Schema.Acyclic(r.embeddedInto) && PerformAll(r, server, plan).ok
    requires forall a | a in plan :: !a.Delete? && !a.Rename?
    ensures server.objects <= PerformAll(r, server, plan).server.objects
    decreases |plan|
  {
    hide WithLevels, WithOuter;
    if plan != [] {
      assert plan[0] in plan;
      if plan[0].Create? || plan[0].Open? {
        ShorterLevels(r, server, plan[0].o);
      }
      NothingRemoved(r, Perform(r, server, plan[0]).server, plan[1..]);
    }
  }

  lemma {:induction false} BroughtBack(r: D.Relations, server: Server, o: Object, plan: seq<Action>, a: Action)
    requires Schema.Acyclic(r.embeddedInto) && PerformAll(r, server, plan).ok && RemovesFirst(plan)
    requires a in plan && (a.Create? || a.Open?) && Within(r, o, a.o)
    ensures o in PerformAll(r, server, plan).server.objects
    decreases |plan|
  {
    hide E.Below, WithLevels, WithOuter, CanRename, Within;
    var next := Perform(r, server, plan[0]).server;
    assert plan == [plan[0]] + plan[1..];
    if plan[0] == a {
      ReachedByStep(r, server, o, a);
      forall b | b in plan[1..] ensures !b.Delete? && !b.Rename? {
        var j :| 0 <= j < |plan[1..]| && plan[1..][j] == b;
        assert plan[j + 1] == b;
      }
      NothingRemoved(r, next, plan[1..]);
    } else {
      TailRemovesFirst(plan);
      BroughtBack(r, next, o, plan[1..], a);
    }
  }

  lemma TailRemovesFirst(plan: seq<Action>)
    requires plan != [] && RemovesFirst(plan)
    ensures RemovesFirst(plan[1..])
  {
    var rest := plan[1..];
    forall i, j | 0 <= i < j < |rest| && (rest[i].Create? || rest[i].Open?) ensures !rest[j].Delete? && !rest[j].Rename? {
      assert rest[i] == plan[i + 1] && rest[j] == plan[j + 1];
    }
  }

  lemma ReachedByStep(r: D.Relations, server: Server, o: Object, a: Action)
    requires Schema.Acyclic(r.embeddedInto) && Perform(r, server, a).ok
    requires (a.Create? || a.Open?) && Within(r, o, a.o)
    ensures o in Perform(r, server, a).server.objects
  {
    hide E.Below, WithLevels, WithOuter;
    LevelsReached(r, server, o, a.o);
  }

  lemma {:induction false} LateTypes(deletions: Deletions, merged: seq<(Source, Modification)>,
      last: Option<(Source, Modification)>)
    requires forall i | 0 <= i < |merged| :: Type(merged[i].1) >= 2
    ensures forall a | a in Plan(deletions, merged, last) :: !a.Delete? && !a.Rename?
    decreases |merged|
  {
    hide ObjectOf, Opens;
    if merged != [] {
      LateTypes(deletions, merged[1..], Some(merged[0]));
    }
  }

  lemma {:induction false} PlanRemovesFirst(deletions: Deletions, merged: seq<(Source, Modification)>,
      last: Option<(Source, Modification)>)
    requires MergedAscends(merged)
    ensures RemovesFirst(Plan(deletions, merged, last))
    decreases |merged|
  {
    hide ObjectOf;
    if merged != [] {
      var rest := merged[1..];
      assert forall i | 0 <= i < |rest| :: rest[i] == merged[i + 1];
      PlanRemovesFirst(deletions, rest, Some(merged[0]));
      var first := PlanOf(deletions, merged[0].0, merged[0].1, LastOf(last));
      var more := Plan(deletions, rest, Some(merged[0]));
      if Type(merged[0].1) >= 2 {
        LateTypes(deletions, merged, last);
        assert forall j | 0 <= j < |first + more| :: (first + more)[j] in first + more;
      } else {
        assert forall i | 0 <= i < |first| :: !first[i].Create? && !first[i].Open?;
        BehindRemovals(first, more);
      }
    }
  }

  lemma BehindRemovals(first: seq<Action>, more: seq<Action>)
    requires RemovesFirst(more) && forall i | 0 <= i < |first| :: !first[i].Create? && !first[i].Open?
    ensures RemovesFirst(first + more)
  {
    var all := first + more;
    forall i, j | 0 <= i < j < |all| && (all[i].Create? || all[i].Open?) ensures !all[j].Delete? && !all[j].Rename? {
      assert all[i] == more[i - |first|] && all[j] == more[j - |first|];
    }
  }

  // ---- The whole way ----

  /** We create the object or something inside it, or a header enters something inside it. */
  ghost predicate Returns(r: D.Relations, readonly: set<(Ident, Ident)>, externDifference: seq<Modification>,
      ourDifference: seq<Modification>, o: Object)
  {
    exists m ::
      && (Touches(readonly, externDifference, ourDifference, m)
          || (m.CreateObject? && OursAlone(r.embeddedInto, readonly, externDifference, ourDifference, m)))
      && Within(r, o, ObjectOf(m))
  }

  /** None of our renamings leads to the object or to something it is inside of. */
  predicate NoRenamingOnto(r: D.Relations, ourDifference: seq<Modification>, o: Object) {
    forall m | m in ourDifference && m.RenameObject? :: !RenamesOnto(r, o, ObjectOf(m), m.newName)
  }

  lemma NothingBringsBack(r: D.Relations, readonly: set<(Ident, Ident)>, externDifference: seq<Modification>,
      ourDifference: seq<Modification>, o: Object, a: Action)
    requires UniqueKeys(externDifference) && UniqueKeys(ourDifference) && NoRenamingOnto(r, ourDifference, o)
    requires a in RebasePlan(r.embeddedInto, readonly, externDifference, ourDifference)
    requires !Returns(r, readonly, externDifference, ourDifference, o)
    ensures !BringsBack(r, o, a)
  {
    hide RebasePlan, UniqueKeys, PathToVector, Within, RenamesOnto, DeletesParent;
    if a.Open? {
      HeadersOpened(r.embeddedInto, readonly, externDifference, ourDifference, a.o);
    } else {
      StepsOfOurs(r.embeddedInto, readonly, externDifference, ourDifference, a);
    }
  }

  lemma SomethingReturns(r: D.Relations, readonly: set<(Ident, Ident)>, externDifference: seq<Modification>,
      ourDifference: seq<Modification>, o: Object) returns (a: Action)
    requires UniqueKeys(externDifference) && UniqueKeys(ourDifference)
    requires Returns(r, readonly, externDifference, ourDifference, o)
    ensures a in RebasePlan(r.embeddedInto, readonly, externDifference, ourDifference)
    ensures (a.Create? || a.Open?) && Within(r, o, a.o)
  {
    hide RebasePlan, UniqueKeys, PathToVector, Within, OursAlone, Touches;
    var m :|
      && (Touches(readonly, externDifference, ourDifference, m)
          || (m.CreateObject? && OursAlone(r.embeddedInto, readonly, externDifference, ourDifference, m)))
      && Within(r, o, ObjectOf(m));
    if Touches(readonly, externDifference, ourDifference, m) {
      a := Action.Open(ObjectOf(m));
      HeadersOpened(r.embeddedInto, readonly, externDifference, ourDifference, a.o);
    } else {
      a := Action.Create(ObjectOf(m));
      StepsOfOurs(r.embeddedInto, readonly, externDifference, ourDifference, a);
    }
  }

  /**
   An object that we delete, and the newer revision does not, is there after a rebase that goes through if we create it or
   something inside it, or an attribute of something inside it is changed that we do not delete. Otherwise neither it nor
   anything inside it is left, unless we rename something onto it or around it.
   */
  lemma DeletedComesBack(r: D.Relations, tables: Tables, readonly: set<(Ident, Ident)>, server: Server,
      worlds: nat -> World, externDifference: seq<Modification>, ourDifference: seq<Modification>, m: Modification)
    requires Schema.Acyclic(r.embeddedInto) && tables.Valid() && SameEmbedding(r, tables) && AllWilling(worlds)
    requires UniqueKeys(externDifference) && UniqueKeys(ourDifference)
    requires PreparedFit(tables, readonly, externDifference, ourDifference)
    requires m.DeleteObject? && OursAlone(r.embeddedInto, readonly, externDifference, ourDifference, m)
    ensures var run := RunFile(r, tables, LexerOf(tables), server, worlds,
        FileText(RebaseScriptFor(tables.embeddedInto, readonly, externDifference, ourDifference)));
      var o := ObjectOf(m);
      run.ok ==>
        && (Returns(r, readonly, externDifference, ourDifference, o) ==> o in run.server.objects)
        && (!Returns(r, readonly, externDifference, ourDifference, o) && NoRenamingOnto(r, ourDifference, o) ==>
              Gone(r, run.server.objects, o) && o !in run.server.objects)
  {
    hide PreparedFit, AllWilling, UniqueKeys, OursAlone, NoRenamingOnto, RebasePlan, RunFile, FileText, RebaseScriptFor,
      PerformAll, Returns, Reached, PathToVector, BringsBack, E.Below, RemovesFirst;
    var plan := RebasePlan(r.embeddedInto, readonly, externDifference, ourDifference);
    var o := ObjectOf(m);
    RebaseRunsPlan(r, tables, readonly, server, worlds, externDifference, ourDifference);
    assert ActionOf(m) == Action.Delete(o);
    StepsOfOurs(r.embeddedInto, readonly, externDifference, ourDifference, ActionOf(m));
    if Executes(r, server, plan, false).ok {
      if Returns(r, readonly, externDifference, ourDifference, o) {
        var a := SomethingReturns(r, readonly, externDifference, ourDifference, o);
        RebaseRemovesFirst(tables, readonly, externDifference, ourDifference);
        BroughtBack(r, server, o, plan, a);
      } else if NoRenamingOnto(r, ourDifference, o) {
        forall a | a in plan ensures !BringsBack(r, o, a) {
          NothingBringsBack(r, readonly, externDifference, ourDifference, o, a);
        }
        DeletedStaysGone(r, server, o, plan);
      }
    }
  }

  lemma RebaseRemovesFirst(tables: Tables, readonly: set<(Ident, Ident)>, externDifference: seq<Modification>,
      ourDifference: seq<Modification>)
    requires tables.Valid() && UniqueKeys(externDifference) && UniqueKeys(ourDifference)
    requires PreparedFit(tables, readonly, externDifference, ourDifference)
    ensures RemovesFirst(RebasePlan(tables.embeddedInto, readonly, externDifference, ourDifference))
  {
    hide UniqueKeys, RemovesFirst, Plan, Merge, Prepared, DeletedObjects, Blocks.AllFit, Kept, StrictlySorted, MergedAscends;
    PreparedSorted(tables.embeddedInto, readonly, externDifference);
    PreparedSorted(tables.embeddedInto, readonly, ourDifference);
    var extern := Prepared(tables.embeddedInto, readonly, externDifference);
    var ours := Prepared(tables.embeddedInto, readonly, ourDifference);
    MergeAscends(tables, DeletedObjects(ourDifference), extern, ours);
    PlanRemovesFirst(DeletedObjects(ourDifference), Merge(extern, ours), None);
  }

  // ---- A deleted object comes back ----

  lemma DeletePlan(ours: Modification, theirs: Modification)
    requires ours.DeleteObject? && theirs.SetAttribute? && !SameObject(ours, theirs)
    ensures PlanFor([(ours.kind, ours.name)], [theirs], [ours]) == [Action.Delete(ObjectOf(ours)), Action.Open(ObjectOf(theirs))]
  {
    hide ObjectOf;
    var deletions := [(ours.kind, ours.name)];
    assert [ours][1..] == [] && [theirs][1..] == [];
    assert Merge([theirs], [ours]) == [(Ours, ours)] + Merge([theirs], []);
    assert Merge([theirs], []) == [(Extern, theirs)] + Merge([], []);
    var rest := [(Extern, theirs)];
    assert Merge([theirs], [ours])[1..] == rest && rest[1..] == [];
    PlanEnds(deletions, Some((Extern, theirs)));
    assert !Deleted(deletions, theirs);
    assert Plan(deletions, rest, Some((Ours, ours)))
      == PlanOf(deletions, Extern, theirs, Some(ours)) + Plan(deletions, [], Some((Extern, theirs)));
    assert PlanOf(deletions, Ours, ours, None) == [Action.Delete(ObjectOf(ours))];
    assert PlanOf(deletions, Extern, theirs, Some(ours)) == [Action.Open(ObjectOf(theirs))];
  }

  /**
   We delete an object, and the newer revision has an attribute on something inside it that we do not delete, such as an
   object created there meanwhile: the header creates the deleted object again.
   */
  lemma HeaderInsideRestores(r: D.Relations, tables: Tables, server: Server, worlds: nat -> World, ours: Modification,
      theirs: Modification)
    requires Schema.Acyclic(r.embeddedInto) && tables.Valid() && SameEmbedding(r, tables) && AllWilling(worlds)
    requires ours.DeleteObject? && theirs.SetAttribute? && !SameObject(ours, theirs)
    requires Blocks.AllFit(tables, [(ours.kind, ours.name)], [theirs], [ours])
    requires ObjectOf(ours) in server.objects && E.Below(r, ObjectOf(ours), ObjectOf(theirs))
    ensures var run := RunFile(r, tables, LexerOf(tables), server, worlds,
        FileText(ScriptFor([(ours.kind, ours.name)], [theirs], [ours])));
      run.ok && ObjectOf(ours) in run.server.objects
  {
    hide Blocks.AllFit, AllWilling, RunFile, ScriptFor, PlanFor, FileText, PathToVector, WithLevels, InSomeOrder, E.Below,
      Reached, RemovesFirst;
    var deletions := [(ours.kind, ours.name)];
    var plan := [Action.Delete(ObjectOf(ours)), Action.Open(ObjectOf(theirs))];
    UneditedScript(r, tables, deletions, server, worlds, [theirs], [ours]);
    DeletePlan(ours, theirs);
    ReachedIff(r.embeddedInto, plan, false);
    TwoSteps(r, server, ObjectOf(ours), ObjectOf(theirs));
    BroughtBack(r, server, ObjectOf(ours), plan, plan[1]);
  }

  lemma TwoSteps(r: D.Relations, server: Server, o: Object, x: Object)
    requires Schema.Acyclic(r.embeddedInto) && o in server.objects
    ensures RemovesFirst([Action.Delete(o), Action.Open(x)])
    ensures PerformAll(r, server, [Action.Delete(o), Action.Open(x)]).ok
  {
    hide WithLevels, InSomeOrder, Inside;
    var plan := [Action.Delete(o), Action.Open(x)];
    var next := Perform(r, server, plan[0]).server;
    assert plan[1..] == [Action.Open(x)];
    PerformOne(r, next, Action.Open(x));
    assert Perform(r, server, plan[0]).ok && Perform(r, next, Action.Open(x)).ok;
  }

  // ---- What clearing takes out ----

  /** Clearing takes out the deletion of an object embedded directly in the one the first modification deletes. */
  lemma ClearedInside(r: D.Relations, a: Modification, b: Modification)
    requires Canonical(a) && Canonical(b)
    ensures DeletesParent(r.embeddedInto, a, b) <==>
      && a.DeleteObject? && b.DeleteObject? && b.kind in r.embeddedInto && |ObjectOf(b).name| > 1
      && D.Parent(r, ObjectOf(b)) == ObjectOf(a)
    ensures DeletesParent(r.embeddedInto, a, b) ==> Within(r, ObjectOf(a), ObjectOf(b))
  {
    hide PathToVector, VectorToPath;
    var outer, inner := PathToVector(a.name).value, PathToVector(b.name).value;
    if |inner| > 1 && VectorToPath(DropLast(inner)) == a.name {
      PrefixReads(b.name);
    }
  }

  /** The text of the parent's name stands for the parent's name. */
  lemma PrefixReads(name: Ident)
    requires PathToVector(name).Some? && |PathToVector(name).value| > 1
    ensures var outer := DropLast(PathToVector(name).value); PathToVector(VectorToPath(outer)) == Some(outer)
  {
    hide PathToVector, VectorToPath, IsIdent;
    ReadThenPrint(name);
    PrintThenRead(DropLast(PathToVector(name).value));
  }
}
