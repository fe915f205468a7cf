/**
 Which modifications a rebase with the unedited script makes that nobody asked for: objects that headers create, and
 what deletions take along.
 */
module RebaseExtras {
  import opened Core
  import opened PathText
  import opened Grammar
  import opened Rebase
  import opened RebaseScript
  import opened RebaseReplay
  import opened RebaseSteps
  import opened RebaseLaws
  import opened Blocks
  import opened Lexer
  import opened LineBreaks
  import opened Plans
  import opened ScriptFile
  import opened RebaseOutcome
  import opened ScriptLines
  import D = Database
  import E = Existence
  import Reachability
  import Schema

  // ---- Everything that was done is listed ----

  /** All changes made in between are listed. */
  predicate Only(before: Server, after: Server, listed: set<Modification>) {
    forall i | |before.changes| <= i < |after.changes| :: after.changes[i] in listed
  }

  lemma OnlyInTurn(a: Server, b: Server, c: Server, listed: set<Modification>)
    requires a.changes <= b.changes <= c.changes
    ensures Only(a, c, listed) <==> Only(a, b, listed) && Only(b, c, listed)
  {
    if Only(a, c, listed) {
      forall i | |a.changes| <= i < |b.changes| ensures b.changes[i] in listed {
        assert c.changes[i] in listed;
      }
    }
  }

  lemma OnlyOneMore(a: Server, b: Server, change: Modification, listed: set<Modification>)
    requires b.changes == a.changes + [change]
    ensures Only(a, b, listed) <==> change in listed
  {
    assert b.changes[|a.changes|] == change;
  }

  // ---- Levels ----

  /** Every level that is missing is one we create ourselves. */
  predicate LevelsListed(r: D.Relations, objects: set<Object>, o: Object, listed: set<Modification>)
    decreases |o.name|, 1
  {
    (o in objects || Modification.CreateObject(o.kind, Text(o)) in listed) && OuterListed(r, objects, o, listed)
  }

  predicate OuterListed(r: D.Relations, objects: set<Object>, o: Object, listed: set<Modification>)
    decreases |o.name|, 0
  {
    o.kind in r.embeddedInto && |o.name| > 1 ==> LevelsListed(r, objects, D.Parent(r, o), listed)
  }

  lemma {:induction false} EnteringListed(r: D.Relations, server: Server, o: Object, listed: set<Modification>)
    ensures Only(server, WithOuter(r, server, o), listed) <==> OuterListed(r, server.objects, o, listed)
    ensures Only(server, WithLevels(r, server, o), listed) <==> LevelsListed(r, server.objects, o, listed)
    decreases |o.name|
  {
    hide Only;
    OnlyNothing(server, listed);
    if o.kind in r.embeddedInto && |o.name| > 1 {
      EnteringListed(r, server, D.Parent(r, o), listed);
    }
    LevelsGrow(r, server, o);
    ShorterLevels(r, server, o);
    var outer := WithOuter(r, server, o);
    if o !in outer.objects {
      OnlyInTurn(server, outer, Created(outer, o), listed);
      OnlyOneMore(outer, Created(outer, o), Modification.CreateObject(o.kind, Text(o)), listed);
    }
  }

  lemma OnlyNothing(server: Server, listed: set<Modification>)
    ensures Only(server, server, listed)
  {
  }

  /** Entering adds no name longer than the one that is entered, and no other one of the same length. */
  lemma {:induction false} ShorterLevels(r: D.Relations, server: Server, o: Object)
    ensures forall x | x in WithOuter(r, server, o).objects :: x in server.objects || |x.name| < |o.name|
    ensures forall x | x in WithLevels(r, server, o).objects :: x in server.objects || |x.name| < |o.name| || x == o
    ensures server.objects <= WithOuter(r, server, o).objects <= WithLevels(r, server, o).objects
    decreases |o.name|
  {
    if o.kind in r.embeddedInto && |o.name| > 1 {
      ShorterLevels(r, server, D.Parent(r, o));
    }
  }

  /** What is inside an existing object is the same before and after its levels are entered. */
  lemma InsideKept(r: D.Relations, server: Server, o: Object)
    ensures Inside(r, WithLevels(r, server, o).objects, o) == Inside(r, server.objects, o)
  {
    hide WithLevels, E.Below;
    ShorterLevels(r, server, o);
    forall x | E.Below(r, o, x) ensures |x.name| > |o.name| {
      E.BelowNames(r, o, x);
    }
  }

  // ---- One step ----

  /** Beyond what the step is meant to do it does only what is listed. */
  predicate StepListed(r: D.Relations, objects: set<Object>, action: Action, listed: set<Modification>) {
    match action
    case Delete(o) =>
      && OuterListed(r, objects, o, listed)
      && forall x | x in Inside(r, objects, o) :: DeleteObject(x.kind, Text(x)) in listed
    case Rename(o, newName) =>
      && OuterListed(r, objects, o, listed)
      && (|o.name| > 1 ==> RenameObject(o.kind, Text(o), Text(E.Renamed(o, newName))) in listed)
    case Create(o) => OuterListed(r, objects, o, listed)
    case Open(o) => LevelsListed(r, objects, o, listed)
    case Set(_) => true
  }

  lemma DeletionsListed(r: D.Relations, server: Server, o: Object, listed: set<Modification>)
    requires DeleteObject(o.kind, Text(o)) in listed && o in server.objects
    ensures Only(server, Removed(r, server, o), listed)
      <==> forall x | x in Inside(r, server.objects, o) :: DeleteObject(x.kind, Text(x)) in listed
    ensures server.changes <= Removed(r, server, o).changes
  {
    hide Inside, InSomeOrder;
    var order := InSomeOrder(Inside(r, server.objects, o));
    var first := server.changes + [DeleteObject(o.kind, Text(o))];
    var after := Removed(r, server, o).changes;
    assert after == first + DeletionsOf(order);
    assert forall x :: x in order <==> x in Elements(order);
    if Only(server, Removed(r, server, o), listed) {
      forall x | x in order ensures DeleteObject(x.kind, Text(x)) in listed {
        var k :| 0 <= k < |order| && order[k] == x;
        assert after[|first| + k] == DeletionsOf(order)[k];
      }
    } else {
      var i :| |server.changes| <= i < |after| && after[i] !in listed;
      assert after[|server.changes|] == DeleteObject(o.kind, Text(o));
      assert after[i] == DeletionsOf(order)[i - |first|];
      assert order[i - |first|] in order;
    }
  }

  lemma DeleteListed(r: D.Relations, server: Server, o: Object, listed: set<Modification>)
    requires Schema.Acyclic(r.embeddedInto) && o in server.objects && DeleteObject(o.kind, Text(o)) in listed
    ensures Only(server, Perform(r, server, Action.Delete(o)).server, listed)
      <==> StepListed(r, server.objects, Action.Delete(o), listed)
  {
    hide Inside, Perform, Only, WithLevels, OuterListed, Removed;
    var entered := WithLevels(r, server, o);
    DeletePerforms(r, server, o);
    EnteringListed(r, server, o, listed);
    ExistingListed(r, server.objects, o, listed);
    InsideKept(r, server, o);
    EnteringKeeps(r, server, o);
    DeletionsListed(r, entered, o, listed);
    LevelsGrow(r, server, o);
    OnlyInTurn(server, entered, Removed(r, entered, o), listed);
  }

  lemma ExistingListed(r: D.Relations, objects: set<Object>, o: Object, listed: set<Modification>)
    requires o in objects
    ensures LevelsListed(r, objects, o, listed) <==> OuterListed(r, objects, o, listed)
  {
  }

  lemma RenameListed(r: D.Relations, server: Server, o: Object, newName: Ident, listed: set<Modification>)
    requires Schema.Acyclic(r.embeddedInto) && RenameObject(o.kind, Text(o), newName) in listed
    requires Perform(r, server, Action.Rename(o, newName)).ok
    ensures Only(server, Perform(r, server, Action.Rename(o, newName)).server, listed)
      <==> StepListed(r, server.objects, Action.Rename(o, newName), listed)
  {
    hide Only, WithLevels, OuterListed, LevelsListed, CanRename, E.Applied;
    var entered := WithLevels(r, server, o);
    EnteringListed(r, server, o, listed);
    ExistingListed(r, server.objects, o, listed);
    LevelsGrow(r, server, o);
    NewNameText(o, newName);
    OnlyInTurn(server, entered, RenamedTo(r, entered, o, newName), listed);
    OnlyOneMore(entered, RenamedTo(r, entered, o, newName), RenameObject(o.kind, Text(o), Text(E.Renamed(o, newName))), listed);
  }

  lemma CreateListed(r: D.Relations, server: Server, o: Object, listed: set<Modification>)
    requires Schema.Acyclic(r.embeddedInto) && Modification.CreateObject(o.kind, Text(o)) in listed
    requires Perform(r, server, Action.Create(o)).ok
    ensures Only(server, Perform(r, server, Action.Create(o)).server, listed) <==> OuterListed(r, server.objects, o, listed)
  {
    hide Only, WithOuter, OuterListed;
    var outer := WithOuter(r, server, o);
    EnteringListed(r, server, o, listed);
    LevelsGrow(r, server, o);
    OnlyInTurn(server, outer, Created(outer, o), listed);
    OnlyOneMore(outer, Created(outer, o), Modification.CreateObject(o.kind, Text(o)), listed);
  }

  lemma StepOnlyListed(r: D.Relations, server: Server, action: Action, listed: set<Modification>)
    requires Schema.Acyclic(r.embeddedInto) && Perform(r, server, action).ok
    requires forall m | m in Meant(action) :: m in listed
    ensures Only(server, Perform(r, server, action).server, listed) <==> StepListed(r, server.objects, action, listed)
  {
    hide Only, WithLevels, WithOuter, OuterListed, LevelsListed, Inside;
    match action {
      case Delete(o) =>
        assert Meant(action)[0] in listed;
        DeleteListed(r, server, o, listed);
      case Rename(o, newName) =>
        assert Meant(action)[0] in listed;
        RenameListed(r, server, o, newName, listed);
      case Create(o) =>
        assert Meant(action)[0] in listed;
        CreateListed(r, server, o, listed);
      case Open(o) => EnteringListed(r, server, o, listed);
      case Set(m) =>
        assert Meant(action)[0] in listed;
        OnlyOneMore(server, Perform(r, server, action).server, CommandOf(m), listed);
    }
  }

  // ---- The whole plan ----

  function LevelsOf(r: D.Relations, objects: set<Object>, o: Object): set<Object>
    decreases |o.name|, 1
  {
    OuterOf(r, objects, o) + {o}
  }

  function OuterOf(r: D.Relations, objects: set<Object>, o: Object): set<Object>
    decreases |o.name|, 0
  {
    if o.kind in r.embeddedInto && |o.name| > 1 then LevelsOf(r, objects, D.Parent(r, o)) else objects
  }

  /** The objects after a step that goes through. */
  function ObjectsAfter(r: D.Relations, objects: set<Object>, action: Action): set<Object> {
    match action
    case Delete(o) => LevelsOf(r, objects, o) - {o} - Inside(r, objects, o)
    case Rename(o, newName) => E.Applied(r, "", LevelsOf(r, objects, o), E.Rename(o, newName))
    case Create(o) => OuterOf(r, objects, o) + {o}
    case Open(o) => LevelsOf(r, objects, o)
    case Set(_) => objects
  }

  lemma {:induction false} LevelsAdded(r: D.Relations, server: Server, o: Object)
    ensures WithOuter(r, server, o).objects == OuterOf(r, server.objects, o)
    ensures WithLevels(r, server, o).objects == LevelsOf(r, server.objects, o)
    decreases |o.name|
  {
    if o.kind in r.embeddedInto && |o.name| > 1 {
      LevelsAdded(r, server, D.Parent(r, o));
    }
  }

  lemma StepObjects(r: D.Relations, server: Server, action: Action)
    requires Schema.Acyclic(r.embeddedInto) && Perform(r, server, action).ok
    ensures Perform(r, server, action).server.objects == ObjectsAfter(r, server.objects, action)
  {
    hide WithLevels, WithOuter, LevelsOf, OuterOf, Inside, InSomeOrder, CanRename, E.Applied;
    if !action.Set? {
      LevelsAdded(r, server, action.o);
      InsideKept(r, server, action.o);
    }
  }

  /** Every step, on the objects the steps before it leave, does only what is listed. */
  predicate AllListed(r: D.Relations, objects: set<Object>, plan: seq<Action>, listed: set<Modification>)
    decreases |plan|
  {
    plan == [] ||
    (StepListed(r, objects, plan[0], listed) && AllListed(r, ObjectsAfter(r, objects, plan[0]), plan[1..], listed))
  }

  lemma {:induction false} PlanOnlyListed(r: D.Relations, server: Server, plan: seq<Action>, listed: set<Modification>)
    requires Schema.Acyclic(r.embeddedInto) && PerformAll(r, server, plan).ok
    requires forall m | m in AllMeant(plan) :: m in listed
    ensures Only(server, PerformAll(r, server, plan).server, listed) <==> AllListed(r, server.objects, plan, listed)
    decreases |plan|
  {
    hide Only, Perform, StepListed, Meant, ObjectsAfter;
    if plan == [] {
      OnlyNothing(server, listed);
    } else {
      var first := Perform(r, server, plan[0]);
      assert AllMeant(plan) == Meant(plan[0]) + AllMeant(plan[1..]);
      StepOnlyListed(r, server, plan[0], listed);
      StepObjects(r, server, plan[0]);
      PlanOnlyListed(r, first.server, plan[1..], listed);
      StepGrows(r, server, plan[0]);
      PlanGrows(r, first.server, plan[1..]);
      OnlyInTurn(server, first.server, PerformAll(r, server, plan).server, listed);
    }
  }

  // ---- From the two differences ----

  /** What a difference asks for, without the old values. */
  function AsCommands(ms: seq<Modification>): set<Modification> {
    set m | m in ms :: CommandOf(m)
  }

  lemma {:induction false} OnlyOursAmong(ours: seq<Modification>, extern: seq<Modification>)
    ensures forall x | x in OnlyOurs(ours, extern) :: x in AsCommands(ours)
    decreases |ours|
  {
    if ours != [] {
      OnlyOursAmong(ours[1..], extern);
      assert ours[0] in ours;
    }
  }

  lemma PlannedCommands(tables: Tables, readonly: set<(Ident, Ident)>, externDifference: seq<Modification>,
      ourDifference: seq<Modification>)
    requires tables.Valid() && UniqueKeys(externDifference) && UniqueKeys(ourDifference)
    requires PreparedFit(tables, readonly, externDifference, ourDifference)
    ensures AllMeant(RebasePlan(tables.embeddedInto, readonly, externDifference, ourDifference))
      == OnlyOurs(Prepared(tables.embeddedInto, readonly, ourDifference), Prepared(tables.embeddedInto, readonly, externDifference))
    ensures forall m | m in AllMeant(RebasePlan(tables.embeddedInto, readonly, externDifference, ourDifference)) ::
      m in AsCommands(ourDifference)
  {
    hide Blocks.AllFit, UniqueKeys, StrictlySorted, Prepared, DeletedObjects, Plan, AllMeant, Merge, OnlyOurs, CommandOf,
      DeletesParent, Stored, MergedFits;
    var extern := Prepared(tables.embeddedInto, readonly, externDifference);
    var ours := Prepared(tables.embeddedInto, readonly, ourDifference);
    var deletions := DeletedObjects(ourDifference);
    PreparedSorted(tables.embeddedInto, readonly, externDifference);
    PreparedSorted(tables.embeddedInto, readonly, ourDifference);
    MergeMembers(tables, deletions, extern, ours);
    PlanMeansCommands(tables, deletions, Merge(extern, ours), None);
    MergeKeepsOurs(extern, ours);
    OnlyOursAmong(ours, extern);
    assert forall m | m in ours :: m in ourDifference;
  }

  /**
   Executing the unedited script makes our modifications that are not in the newer revision as well, in sorted order, and
   no others, if and only if no block is opened behind the block of an embedded object and no step is disturbed: every level
   that is entered exists at that moment, nothing is inside what is deleted, nothing renamed is embedded, and what is
   created or renamed finds its place free.
   */
  lemma RebasePerformsOurs(r: D.Relations, tables: Tables, readonly: set<(Ident, Ident)>, server: Server, worlds: nat -> World,
      externDifference: seq<Modification>, ourDifference: seq<Modification>)
    requires Schema.Acyclic(r.embeddedInto) && tables.Valid() && SameEmbedding(r, tables) && AllWilling(worlds)
    requires UniqueKeys(externDifference) && UniqueKeys(ourDifference)
    requires PreparedFit(tables, readonly, externDifference, ourDifference)
    ensures var run := RunFile(r, tables, LexerOf(tables), server, worlds,
        FileText(RebaseScriptFor(tables.embeddedInto, readonly, externDifference, ourDifference)));
      var plan := RebasePlan(tables.embeddedInto, readonly, externDifference, ourDifference);
      var ours := Prepared(tables.embeddedInto, readonly, ourDifference);
      var extern := Prepared(tables.embeddedInto, readonly, externDifference);
      run.ok && run.server.changes == server.changes + OnlyOurs(ours, extern)
      <==> Undisturbed(r, server.objects, plan) && EmbeddedLast(r.embeddedInto, plan)
  {
    hide Blocks.AllFit, AllWilling, UniqueKeys, Prepared, DeletedObjects, RebasePlan, AllMeant, OnlyOurs, RunFile, Executes,
      RebaseScriptFor, Undisturbed, EmbeddedLast, FileText;
    RebaseRunsPlan(r, tables, readonly, server, worlds, externDifference, ourDifference);
    PlannedCommands(tables, readonly, externDifference, ourDifference);
    ExecutesExact(r, server, RebasePlan(tables.embeddedInto, readonly, externDifference, ourDifference));
  }

  /**
   A rebase that goes through makes only modifications of our difference if and only if we also create every level that a
   header finds missing, and also delete everything inside what we delete. The deletions that clearing took out of the
   script count: their parents take those objects along.
   */
  lemma RebasePerformsListed(r: D.Relations, tables: Tables, readonly: set<(Ident, Ident)>, server: Server, worlds: nat -> World,
      externDifference: seq<Modification>, ourDifference: seq<Modification>)
    requires Schema.Acyclic(r.embeddedInto) && tables.Valid() && SameEmbedding(r, tables) && AllWilling(worlds)
    requires UniqueKeys(externDifference) && UniqueKeys(ourDifference)
    requires PreparedFit(tables, readonly, externDifference, ourDifference)
    ensures var run := RunFile(r, tables, LexerOf(tables), server, worlds,
        FileText(RebaseScriptFor(tables.embeddedInto, readonly, externDifference, ourDifference)));
      var plan := RebasePlan(tables.embeddedInto, readonly, externDifference, ourDifference);
      run.ok ==>
        (Only(server, run.server, AsCommands(ourDifference)) <==> AllListed(r, server.objects, plan, AsCommands(ourDifference)))
  {
    hide Blocks.AllFit, AllWilling, UniqueKeys, Prepared, DeletedObjects, RebasePlan, AllMeant, OnlyOurs, RunFile, PerformAll,
      RebaseScriptFor, AllListed, Only, AsCommands, FileText, Reached;
    var plan := RebasePlan(tables.embeddedInto, readonly, externDifference, ourDifference);
    RebaseRunsPlan(r, tables, readonly, server, worlds, externDifference, ourDifference);
    PlannedCommands(tables, readonly, externDifference, ourDifference);
    if PerformAll(r, server, plan).ok {
      PlanOnlyListed(r, server, plan, AsCommands(ourDifference));
    }
  }

  // ---- What goes with a deleted object ----

  lemma {:induction false} BelowIsNested(db: D.Db, o: Object, x: Object)
    requires D.WellFormed(db) && D.ParentsExist(db.relations, db.objects) && x in db.objects && E.Below(db.relations, o, x)
    ensures Reachability.Reachable(db, Reachability.Nested, o, x)
    decreases |x.name|
  {
    hide D.WellFormed, D.ParentsExist;
    var parent := D.Parent(db.relations, x);
    assert D.ParentsExist(db.relations, db.objects) ==> parent in db.objects by { ParentIsThere(db, x); }
    if parent == o {
      Reachability.OneStep(db, Reachability.Nested, o, x);
    } else {
      BelowIsNested(db, o, parent);
      Reachability.StepLast(db, Reachability.Nested, o, parent, x);
    }
  }

  lemma ParentIsThere(db: D.Db, x: Object)
    requires D.ParentsExist(db.relations, db.objects) && x in db.objects && x.kind in db.relations.embeddedInto && x.name != []
    ensures D.Parent(db.relations, x) in db.objects
  {
  }

  lemma {:induction false} NestedIsBelow(db: D.Db, o: Object, path: seq<Object>)
    requires D.WellFormed(db) && Reachability.Walk(db, Reachability.Nested, o, path)
    ensures Last(path) in db.objects && E.Below(db.relations, o, Last(path))
    decreases |path|
  {
    hide D.FullName;
    var first := path[0];
    D.ParentFits(db.relations, first);
    assert E.Below(db.relations, o, first);
    if |path| > 1 {
      NestedIsBelow(db, first, path[1..]);
      assert Last(path[1..]) == Last(path);
      BelowBelow(db.relations, o, first, Last(path));
    }
  }

  lemma {:induction false} BelowBelow(r: D.Relations, a: Object, b: Object, c: Object)
    requires E.Below(r, a, b) && E.Below(r, b, c)
    ensures E.Below(r, a, c)
    decreases |c.name|
  {
    if D.Parent(r, c) != b {
      BelowBelow(r, a, b, D.Parent(r, c));
    }
  }

  /** What a deletion takes along is what the search through the nested kinds finds. */
  lemma InsideIsNested(db: D.Db, o: Object)
    requires D.WellFormed(db) && D.ParentsExist(db.relations, db.objects)
    ensures forall x :: x in Inside(db.relations, db.objects, o) <==> Reachability.Reachable(db, Reachability.Nested, o, x)
  {
    hide D.WellFormed, D.ParentsExist, E.Below;
    forall x ensures x in Inside(db.relations, db.objects, o) <==> Reachability.Reachable(db, Reachability.Nested, o, x) {
      if x in Inside(db.relations, db.objects, o) {
        BelowIsNested(db, o, x);
      } else if Reachability.Reachable(db, Reachability.Nested, o, x) {
        var path :| Reachability.Walk(db, Reachability.Nested, o, path) && Last(path) == x;
        NestedIsBelow(db, o, path);
      }
    }
  }

  // ---- A renamed object comes back ----

  /**
   We rename an object of which the newer revision changes an attribute: the header creates it anew. The first modification
   is ours exactly if the object is not embedded, as NewNameText says.
   */
  lemma RenamedComesBack(r: D.Relations, tables: Tables, server: Server, worlds: nat -> World, ours: Modification,
      theirs: Modification)
    requires Schema.Acyclic(r.embeddedInto) && tables.Valid() && SameEmbedding(r, tables) && AllWilling(worlds)
    requires ours.RenameObject? && theirs.SetAttribute? && theirs.kind == ours.kind && theirs.name == ours.name
    requires Blocks.AllFit(tables, [], [theirs], [ours])
    requires Present(r, server.objects, ObjectOf(ours)) && CanRename(r, server.objects, ObjectOf(ours), ours.newName)
    ensures var o := ObjectOf(ours);
      var run := RunFile(r, tables, LexerOf(tables), server, worlds, FileText(ScriptFor([], [theirs], [ours])));
      && run.ok && o.name != []
      && run.server.changes == server.changes +
           [RenameObject(ours.kind, ours.name, Text(E.Renamed(o, ours.newName))), Modification.CreateObject(ours.kind, ours.name)]
      && run.server.objects == E.Applied(r, "", server.objects, E.Rename(o, ours.newName)) + {o}
      && E.Renamed(o, ours.newName) in run.server.objects
  {
    hide Blocks.AllFit, AllWilling, RunFile, Schema.Acyclic, ScriptFor, PlanFor, PerformAll, CanRename, E.Renamed, E.Applied,
      PathToVector, Present, FileText, Executes;
    UneditedScript(r, tables, [], server, worlds, [theirs], [ours]);
    RenamePlan(ours, theirs);
    OurName(tables, ours, theirs);
    RenameThenOpen(r, server, ObjectOf(ours), ours.newName);
    OneOpen(r, server, ObjectOf(ours), ours.newName);
  }

  lemma OurName(tables: Tables, ours: Modification, theirs: Modification)
    requires tables.Valid() && Blocks.AllFit(tables, [], [theirs], [ours])
    ensures var o := ObjectOf(ours); o.name != [] && o.kind == ours.kind && Text(o) == ours.name
  {
    hide IsObjectToken, Text, PathToVector, SingleLine, IsIdent;
    assert OursFit(tables, [], [ours][0]);
    TextOfName(tables, ours.kind, ours.name);
  }

  lemma OneOpen(r: D.Relations, server: Server, o: Object, newName: Ident)
    requires Schema.Acyclic(r.embeddedInto)
    ensures var plan := [Action.Rename(o, newName), Action.Open(o)];
      Executes(r, server, plan, false) == PerformAll(r, server, plan)
  {
    hide PerformAll, Reached;
    var plan := [Action.Rename(o, newName), Action.Open(o)];
    ReachedIff(r.embeddedInto, plan, false);
  }

  /** The levels around the object are not moved. */
  lemma {:induction false} OuterStays(r: D.Relations, objects: set<Object>, o: Object, newName: Ident, x: Object)
    requires o.name != [] && |x.name| < |o.name| && Present(r, objects, x)
    ensures Present(r, E.Applied(r, "", objects, E.Rename(o, newName)), x)
    decreases |x.name|
  {
    hide E.Below, E.Renamed;
    if E.Below(r, o, x) {
      E.BelowNames(r, o, x);
    }
    assert E.Moved(r, o, newName, x) == x;
    if x.kind in r.embeddedInto && |x.name| > 1 {
      OuterStays(r, objects, o, newName, D.Parent(r, x));
    }
  }

  /** Renaming moves the object away, so entering it creates it. */
  lemma RenameThenOpen(r: D.Relations, server: Server, o: Object, newName: Ident)
    requires Schema.Acyclic(r.embeddedInto) && o.name != []
    requires Present(r, server.objects, o) && CanRename(r, server.objects, o, newName)
    ensures var done := PerformAll(r, server, [Action.Rename(o, newName), Action.Open(o)]);
      && done.ok && E.Renamed(o, newName) in done.server.objects
      && done.server.objects == E.Applied(r, "", server.objects, E.Rename(o, newName)) + {o}
      && done.server.changes == server.changes +
           [RenameObject(o.kind, Text(o), Text(E.Renamed(o, newName))), Modification.CreateObject(o.kind, Text(o))]
  {
    hide VectorToPath, E.Below, E.Applied, E.Renamed, CanRename, WithLevels, WithOuter;
    var plan := [Action.Rename(o, newName), Action.Open(o)];
    var renamed := RenamedTo(r, server, o, newName);
    assert plan[1..] == [Action.Open(o)];
    LevelsGrow(r, server, o);
    assert Perform(r, server, plan[0]) == Performed(renamed, true);
    MovedAway(r, server.objects, o, newName);
    if o.kind in r.embeddedInto && |o.name| > 1 {
      OuterStays(r, server.objects, o, newName, D.Parent(r, o));
    }
    LevelsGrow(r, renamed, o);
    EnterMissing(r, renamed, o);
    PerformOne(r, renamed, Action.Open(o));
    assert PerformAll(r, server, plan) == Performed(Created(renamed, o), true);
    var first := RenameObject(o.kind, Text(o), Text(E.Renamed(o, newName)));
    var second := Modification.CreateObject(o.kind, Text(o));
    assert (server.changes + [first]) + [second] == server.changes + [first, second];
  }

  lemma EnterMissing(r: D.Relations, server: Server, o: Object)
    requires WithOuter(r, server, o) == server && o !in server.objects
    ensures WithLevels(r, server, o) == Created(server, o)
  {
    hide WithOuter;
  }

  lemma MovedAway(r: D.Relations, objects: set<Object>, o: Object, newName: Ident)
    requires Schema.Acyclic(r.embeddedInto) && o.name != [] && CanRename(r, objects, o, newName)
    ensures o !in E.Applied(r, "", objects, E.Rename(o, newName))
    ensures E.Renamed(o, newName) in E.Applied(r, "", objects, E.Rename(o, newName))
  {
    hide E.Below, IsIdent;
    forall x | x in objects ensures E.Moved(r, o, newName, x) != o {
      if x != o && E.Below(r, o, x) {
        E.BelowNames(r, o, x);
      }
    }
    assert E.Moved(r, o, newName, o) == E.Renamed(o, newName);
  }

  lemma RenamePlan(ours: Modification, theirs: Modification)
    requires ours.RenameObject? && theirs.SetAttribute? && theirs.kind == ours.kind && theirs.name == ours.name
    ensures PlanFor([], [theirs], [ours]) == [Action.Rename(ObjectOf(ours), ours.newName), Action.Open(ObjectOf(ours))]
  {
    hide PathToVector;
    assert [ours][1..] == [] && [theirs][1..] == [];
    assert Merge([theirs], [ours]) == [(Ours, ours)] + Merge([theirs], []);
    assert Merge([theirs], []) == [(Extern, theirs)] + Merge([], []);
    var rest := [(Extern, theirs)];
    assert Merge([theirs], [ours])[1..] == rest && rest[1..] == [];
    PlanEnds([], Some((Extern, theirs)));
    assert Plan([], rest, Some((Ours, ours))) == PlanOf([], Extern, theirs, Some(ours)) + Plan([], [], Some((Extern, theirs)));
    assert PlanOf([], Ours, ours, None) == [Action.Rename(ObjectOf(ours), ours.newName)];
    assert PlanOf([], Extern, theirs, Some(ours)) == [Action.Open(ObjectOf(ours))];
  }

  lemma PlanEnds(deletions: Deletions, last: Option<(Source, Modification)>)
    ensures Plan(deletions, [], last) == []
  {
  }
}
