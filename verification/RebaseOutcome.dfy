/**
 When a rebase with the unedited script performs our modifications and nothing else: exactly if no header has to create
 its object and no deletion takes anything along.
 */
module RebaseOutcome {
  import opened Core
  import opened PathText
  import opened Grammar
  import opened Rebase
  import opened RebaseScript
  import opened RebaseReplay
  import opened RebaseSteps
  import opened RebaseLaws
  import opened Blocks
  import opened LineBreaks
  import opened Plans
  import D = Database
  import E = Existence
  import Schema

  // ---- The commands of a plan ----

  /** The modification a step is meant to make. */
  function Meant(action: Action): seq<Modification> {
    match action
    case Delete(o) => [DeleteObject(o.kind, Text(o))]
    case Rename(o, newName) => [RenameObject(o.kind, Text(o), newName)]
    case Create(o) => [Modification.CreateObject(o.kind, Text(o))]
    case Open(_) => []
    case Set(m) => [CommandOf(m)]
  }

  function AllMeant(plan: seq<Action>): seq<Modification> {
    if plan == [] then [] else Meant(plan[0]) + AllMeant(plan[1..])
  }

  lemma {:induction false} MeantConcat(a: seq<Action>, b: seq<Action>)
    ensures AllMeant(a + b) == AllMeant(a) + AllMeant(b)
    decreases |a|
  {
    if a == [] {
      assert a + b == b;
    } else {
      assert (a + b)[1..] == a[1..] + b;
      MeantConcat(a[1..], b);
    }
  }

  lemma MeantOne(tables: Tables, deletions: Deletions, source: Source, m: Modification, last: Option<Modification>)
    requires tables.Valid() && Blocks.Fits(tables, deletions, source, m)
    ensures AllMeant(PlanOf(deletions, source, m, last)) == if source == Ours then [CommandOf(m)] else []
  {
    hide BlockObject, Writable, Opens, IsObjectToken, VectorToPath, PathToVector, SingleLine, IsIdent;
    var lead := LeadPlan(deletions, m, last);
    var body := if source == Ours then [ActionOf(m)] else [];
    MeantConcat(lead, body);
    assert AllMeant(lead) == [] by { assert lead == [] || lead[1..] == []; }
    if source == Ours {
      TextOfName(tables, m.kind, m.name);
      assert Text(ObjectOf(m)) == m.name;
      assert body[1..] == [] && AllMeant([]) == [];
    }
  }

  lemma {:induction false} PlanMeansCommands(tables: Tables, deletions: Deletions, merged: seq<(Source, Modification)>,
      last: Option<(Source, Modification)>)
    requires tables.Valid() && MergedFits(tables, deletions, merged)
    ensures AllMeant(Plan(deletions, merged, last)) == Commands(merged)
    decreases |merged|
  {
    hide Blocks.Fits, PlanOf, AllMeant;
    if merged == [] {
      assert AllMeant([]) == [] by { NothingMeant(); }
    } else {
      var (source, m) := merged[0];
      MeantOne(tables, deletions, source, m, LastOf(last));
      MeantConcat(PlanOf(deletions, source, m, LastOf(last)), Plan(deletions, merged[1..], Some(merged[0])));
      PlanMeansCommands(tables, deletions, merged[1..], Some(merged[0]));
    }
  }

  lemma NothingMeant()
    ensures AllMeant([]) == []
  {
  }

  // ---- Levels ----

  /** The object and everything it is embedded in exist. */
  predicate Present(r: D.Relations, objects: set<Object>, o: Object)
    decreases |o.name|
  {
    o in objects && OuterPresent(r, objects, o)
  }

  predicate OuterPresent(r: D.Relations, objects: set<Object>, o: Object)
    decreases |o.name|, 0
  {
    o.kind in r.embeddedInto && |o.name| > 1 ==> D.Parent(r, o) in objects && OuterPresent(r, objects, D.Parent(r, o))
  }

  /** Where parents exist an object is present if it exists. */
  lemma {:induction false} PresentIfParentsExist(r: D.Relations, objects: set<Object>, o: Object)
    requires D.ParentsExist(r, objects)
    ensures Present(r, objects, o) <==> o in objects
    decreases |o.name|
  {
    if o in objects && o.kind in r.embeddedInto && |o.name| > 1 {
      PresentIfParentsExist(r, objects, D.Parent(r, o));
    }
  }

  /** Entering leaves the server alone exactly if all levels are there; otherwise it makes at least one more change. */
  lemma {:induction false} LevelsGrow(r: D.Relations, server: Server, o: Object)
    ensures var outer := WithOuter(r, server, o);
      && server.changes <= outer.changes
      && (if OuterPresent(r, server.objects, o) then outer == server else |outer.changes| > |server.changes|)
    ensures var entered := WithLevels(r, server, o);
      && server.changes <= entered.changes
      && (if Present(r, server.objects, o) then entered == server else |entered.changes| > |server.changes|)
    decreases |o.name|
  {
    if o.kind in r.embeddedInto && |o.name| > 1 {
      LevelsGrow(r, server, D.Parent(r, o));
    }
  }

  // ---- One step ----

  /** The step does what it is meant to do, and nothing else. */
  predicate Calm(r: D.Relations, objects: set<Object>, action: Action)
    requires Schema.Acyclic(r.embeddedInto)
  {
    match action
    case Delete(o) => Present(r, objects, o) && Inside(r, objects, o) == {}
    case Rename(o, newName) => Present(r, objects, o) && |o.name| == 1 && CanRename(r, objects, o, newName)
    case Create(o) => o !in objects && OuterPresent(r, objects, o)
    case Open(o) => Present(r, objects, o)
    case Set(m) => ObjectOf(m) in objects && PathToVector(m.name).Some?
  }

  /** The objects after a calm step. */
  function Planned(r: D.Relations, objects: set<Object>, action: Action): set<Object> {
    match action
    case Delete(o) => objects - {o}
    case Rename(o, newName) => E.Applied(r, "", objects, E.Rename(o, newName))
    case Create(o) => objects + {o}
    case Open(_) => objects
    case Set(_) => objects
  }

  lemma StepGrows(r: D.Relations, server: Server, action: Action)
    requires Schema.Acyclic(r.embeddedInto)
    ensures var done := Perform(r, server, action);
      server.changes <= done.server.changes
      && (done.ok ==> |done.server.changes| >= |server.changes| + |Meant(action)|)
  {
    hide WithLevels, WithOuter, CanRename, InSomeOrder, Inside, Present, OuterPresent;
    if action.Delete? || action.Rename? || action.Create? || action.Open? {
      LevelsGrow(r, server, action.o);
    }
  }

  lemma StepExact(r: D.Relations, server: Server, action: Action)
    requires Schema.Acyclic(r.embeddedInto)
    ensures var done := Perform(r, server, action);
      && (done.ok && done.server.changes == server.changes + Meant(action) <==> Calm(r, server.objects, action))
      && (Calm(r, server.objects, action) ==> done.server.objects == Planned(r, server.objects, action))
  {
    hide WithLevels, WithOuter, CanRename, Present, OuterPresent, E.Applied;
    match action {
      case Delete(o) => DeleteExact(r, server, o);
      case Rename(o, newName) => RenameExact(r, server, o, newName);
      case Create(o) => LevelsGrow(r, server, o);
      case Open(o) => LevelsGrow(r, server, o);
      case Set(_) =>
    }
  }

  lemma DeleteExact(r: D.Relations, server: Server, o: Object)
    requires Schema.Acyclic(r.embeddedInto)
    ensures var done := Perform(r, server, Action.Delete(o));
      && (done.ok && done.server.changes == server.changes + [DeleteObject(o.kind, Text(o))]
          <==> Calm(r, server.objects, Action.Delete(o)))
      && (Calm(r, server.objects, Action.Delete(o)) ==> done.server.objects == server.objects - {o})
  {
    hide WithLevels, Present, OuterPresent, Inside, Perform, Removed;
    var meant := [DeleteObject(o.kind, Text(o))];
    LevelsGrow(r, server, o);
    PresentExists(r, server.objects, o);
    if o in server.objects {
      var entered := WithLevels(r, server, o);
      EnteringKeeps(r, server, o);
      DeletionLength(r, entered, o);
      DeletePerforms(r, server, o);
      assert |server.changes + meant| == |server.changes| + 1;
      assert |entered.changes + meant| == |entered.changes| + 1;
    } else {
      DeleteFails(r, server, o);
    }
  }

  lemma DeletePerforms(r: D.Relations, server: Server, o: Object)
    requires Schema.Acyclic(r.embeddedInto) && o in server.objects
    ensures Perform(r, server, Action.Delete(o)) == Performed(Removed(r, WithLevels(r, server, o), o), true)
  {
    hide WithLevels, Removed;
  }

  lemma DeleteFails(r: D.Relations, server: Server, o: Object)
    requires Schema.Acyclic(r.embeddedInto) && o !in server.objects
    ensures !Perform(r, server, Action.Delete(o)).ok
  {
  }

  lemma DeletionLength(r: D.Relations, server: Server, o: Object)
    requires o in server.objects
    ensures var after := Removed(r, server, o);
      if Inside(r, server.objects, o) == {}
      then after == Server(server.objects - {o}, server.changes + [DeleteObject(o.kind, Text(o))])
      else |after.changes| > |server.changes| + 1
  {
    hide Inside, InSomeOrder;
    var inside := Inside(r, server.objects, o);
    ListedLength(inside);
    var listed := InSomeOrder(inside);
    var first := server.changes + [DeleteObject(o.kind, Text(o))];
    assert |first + DeletionsOf(listed)| == |first| + |listed|;
    if inside == {} {
      assert first + DeletionsOf(listed) == first;
    }
  }

  lemma PresentExists(r: D.Relations, objects: set<Object>, o: Object)
    ensures Present(r, objects, o) ==> o in objects
  {
  }

  lemma ListedLength(objects: set<Object>)
    ensures InSomeOrder(objects) == [] <==> objects == {}
  {
    assert Elements(InSomeOrder(objects)) == objects;
    if InSomeOrder(objects) != [] {
      assert InSomeOrder(objects)[0] in Elements(InSomeOrder(objects));
    }
  }

  lemma RenameExact(r: D.Relations, server: Server, o: Object, newName: Ident)
    requires Schema.Acyclic(r.embeddedInto)
    ensures var done := Perform(r, server, Action.Rename(o, newName));
      && (done.ok && done.server.changes == server.changes + [RenameObject(o.kind, Text(o), newName)]
          <==> Calm(r, server.objects, Action.Rename(o, newName)))
      && (Calm(r, server.objects, Action.Rename(o, newName)) ==>
            done.server.objects == E.Applied(r, "", server.objects, E.Rename(o, newName)))
  {
    hide WithLevels, CanRename, Present, OuterPresent, E.Applied, VectorToPath;
    LevelsGrow(r, server, o);
    PresentExists(r, server.objects, o);
    var entered := WithLevels(r, server, o);
    if o.name != [] {
      NewNameText(o, newName);
      var change := RenameObject(o.kind, Text(o), Text(E.Renamed(o, newName)));
      var meant := RenameObject(o.kind, Text(o), newName);
      assert |entered.changes + [change]| == |entered.changes| + 1;
      assert (server.changes + [meant])[|server.changes|] == meant;
      assert (entered.changes + [change])[|entered.changes|] == change;
    }
  }

  /** The new name in the command is the one the server is asked for exactly if the object is not embedded. */
  lemma NewNameText(o: Object, newName: Ident)
    requires o.name != []
    ensures Text(E.Renamed(o, newName)) == newName <==> |o.name| == 1
  {
    if |o.name| > 1 {
      PrintAppend(DropLast(o.name), newName);
      assert |Text(E.Renamed(o, newName))| > |newName|;
    } else {
      assert DropLast(o.name) + [newName] == [newName];
    }
  }

  // ---- The whole plan ----

  /** No step of the plan does more than it is meant to: every object is there, and nothing is inside what is deleted. */
  predicate Undisturbed(r: D.Relations, objects: set<Object>, plan: seq<Action>)
    requires Schema.Acyclic(r.embeddedInto)
    decreases |plan|
  {
    plan == [] || (Calm(r, objects, plan[0]) && Undisturbed(r, Planned(r, objects, plan[0]), plan[1..]))
  }

  lemma {:induction false} PlanGrows(r: D.Relations, server: Server, plan: seq<Action>)
    requires Schema.Acyclic(r.embeddedInto)
    ensures var done := PerformAll(r, server, plan);
      server.changes <= done.server.changes
      && (done.ok ==> |done.server.changes| >= |server.changes| + |AllMeant(plan)|)
    decreases |plan|
  {
    hide Perform, Meant;
    if plan != [] {
      StepGrows(r, server, plan[0]);
      PlanGrows(r, Perform(r, server, plan[0]).server, plan[1..]);
    }
  }

  /** The plan goes through with exactly the changes it is meant to make, if and only if it is undisturbed. */
  lemma {:induction false} PlanExact(r: D.Relations, server: Server, plan: seq<Action>)
    requires Schema.Acyclic(r.embeddedInto)
    ensures var done := PerformAll(r, server, plan);
      done.ok && done.server.changes == server.changes + AllMeant(plan) <==> Undisturbed(r, server.objects, plan)
    decreases |plan|
  {
    hide Perform, Meant, Calm, Planned;
    if plan != [] {
      var first := Perform(r, server, plan[0]);
      var done := PerformAll(r, server, plan);
      StepGrows(r, server, plan[0]);
      StepExact(r, server, plan[0]);
      PlanGrows(r, first.server, plan[1..]);
      PlanExact(r, first.server, plan[1..]);
      if first.ok {
        SplitChanges(server.changes, first.server.changes, Meant(plan[0]), AllMeant(plan[1..]), done.server.changes);
      }
    }
  }

  /** Line by line: the plan also has to be reached to its end. */
  lemma ExecutesExact(r: D.Relations, server: Server, plan: seq<Action>)
    requires Schema.Acyclic(r.embeddedInto)
    ensures var done := Executes(r, server, plan, false);
      done.ok && done.server.changes == server.changes + AllMeant(plan)
      <==> Undisturbed(r, server.objects, plan) && EmbeddedLast(r.embeddedInto, plan)
  {
    hide PerformAll, Reached, EmbeddedLast, AllMeant, Undisturbed;
    ReachedIff(r.embeddedInto, plan, false);
    PlanExact(r, server, plan);
  }

  lemma SplitChanges(before: seq<Modification>, middle: seq<Modification>, first: seq<Modification>, rest: seq<Modification>,
      after: seq<Modification>)
    requires before <= middle <= after && |middle| >= |before| + |first|
    ensures |after| >= |middle| + |rest| ==>
      (after == before + (first + rest) <==> middle == before + first && after == middle + rest)
  {
    assert before + (first + rest) == (before + first) + rest;
    if |after| >= |middle| + |rest| && after == before + (first + rest) {
      assert middle == after[..|middle|];
      assert ((before + first) + rest)[..|before + first|] == before + first;
    }
  }

  lemma {:induction false} UndisturbedConcat(r: D.Relations, objects: set<Object>, a: seq<Action>, b: seq<Action>)
    requires Schema.Acyclic(r.embeddedInto)
    ensures Undisturbed(r, objects, a + b) <==> Undisturbed(r, objects, a) && Undisturbed(r, PlannedAll(r, objects, a), b)
    decreases |a|
  {
    hide Calm, Planned;
    if a == [] {
      assert a + b == b;
    } else {
      assert (a + b)[1..] == a[1..] + b;
      UndisturbedConcat(r, Planned(r, objects, a[0]), a[1..], b);
    }
  }

  function PlannedAll(r: D.Relations, objects: set<Object>, plan: seq<Action>): set<Object>
    decreases |plan|
  {
    if plan == [] then objects else PlannedAll(r, Planned(r, objects, plan[0]), plan[1..])
  }

  /** Blocks change no objects, so all their headers are judged by the objects in front of the first block. */
  lemma {:induction false} BlocksUndisturbed(r: D.Relations, objects: set<Object>, plan: seq<Action>)
    requires Schema.Acyclic(r.embeddedInto) && forall a | a in plan :: a.Open? || a.Set?
    ensures Undisturbed(r, objects, plan) <==> forall a | a in plan :: Calm(r, objects, a)
    decreases |plan|
  {
    hide Calm;
    if plan != [] {
      assert forall a :: a in plan <==> a == plan[0] || a in plan[1..];
      assert plan[0] in plan;
      assert Planned(r, objects, plan[0]) == objects;
      BlocksUndisturbed(r, objects, plan[1..]);
    }
  }

  // ---- Deletions and creations, judged by the objects in front of them ----

  function Deletions(os: seq<Object>): seq<Action> {
    seq(|os|, i requires 0 <= i < |os| => Action.Delete(os[i]))
  }

  function Creations(os: seq<Object>): seq<Action> {
    seq(|os|, i requires 0 <= i < |os| => Action.Create(os[i]))
  }

  /** Each object exists, and everything inside it is deleted before it. */
  predicate InsideFirst(r: D.Relations, objects: set<Object>, os: seq<Object>) {
    forall i | 0 <= i < |os| :: os[i] in objects && forall x | x in Inside(r, objects, os[i]) :: x in os[..i]
  }

  /** Each object is new, and what it is embedded in exists or is created before it. */
  predicate OutsideFirst(r: D.Relations, objects: set<Object>, os: seq<Object>) {
    forall i | 0 <= i < |os| ::
      && os[i] !in objects && os[i] !in os[..i]
      && (os[i].kind in r.embeddedInto && os[i].name != [] ==>
            D.Parent(r, os[i]) in objects || D.Parent(r, os[i]) in os[..i])
  }

  lemma CalmDeletion(r: D.Relations, objects: set<Object>, o: Object)
    requires Schema.Acyclic(r.embeddedInto) && D.ParentsExist(r, objects)
    ensures Calm(r, objects, Action.Delete(o)) <==> o in objects && Inside(r, objects, o) == {}
  {
    hide Inside, Present;
    PresentIfParentsExist(r, objects, o);
  }

  lemma ParentsStay(r: D.Relations, objects: set<Object>, o: Object)
    requires Schema.Acyclic(r.embeddedInto) && D.ParentsExist(r, objects) && D.AllFit(r, objects)
    requires Inside(r, objects, o) == {}
    ensures D.ParentsExist(r, objects - {o}) && D.AllFit(r, objects - {o})
  {
    hide D.FullName;
    forall x | x in objects && x.kind in r.embeddedInto && x.name != [] ensures D.Parent(r, x) != o {
      D.ParentFits(r, x);
      assert x !in Inside(r, objects, o);
    }
  }

  lemma ConsPrefix(o: Object, rest: seq<Object>, i: nat, n: nat)
    requires i < |rest| && n == i + 1
    ensures ([o] + rest)[n] == rest[i]
    ensures forall x :: x in ([o] + rest)[..n] <==> x == o || x in rest[..i]
  {
    assert ([o] + rest)[..n] == [o] + rest[..i];
  }

  lemma InsideFirstSplits(r: D.Relations, objects: set<Object>, o: Object, rest: seq<Object>)
    requires o !in rest
    ensures InsideFirst(r, objects, [o] + rest) <==>
      o in objects && Inside(r, objects, o) == {} && InsideFirst(r, objects - {o}, rest)
  {
    hide Inside;
    var all := [o] + rest;
    if InsideFirst(r, objects, all) {
      assert all[0] == o && all[..0] == [];
      assert forall x :: x !in Inside(r, objects, o);
      forall i | 0 <= i < |rest|
        ensures rest[i] in objects - {o} && forall x | x in Inside(r, objects - {o}, rest[i]) :: x in rest[..i]
      {
        ConsPrefix(o, rest, i, i + 1);
        InsideLess(r, objects, o, rest[i]);
        assert all[i + 1] in objects;
      }
    }
    if o in objects && Inside(r, objects, o) == {} && InsideFirst(r, objects - {o}, rest) {
      forall i | 0 <= i < |all| ensures all[i] in objects && forall x | x in Inside(r, objects, all[i]) :: x in all[..i] {
        if i > 0 {
          var j := i - 1;
          ConsPrefix(o, rest, j, i);
          InsideLess(r, objects, o, rest[j]);
          assert i == j + 1 && rest[j] in objects - {o};
          forall x | x in Inside(r, objects, all[i]) ensures x in all[..i] {
            assert x == o || x in Inside(r, objects - {o}, rest[j]);
          }
        } else {
          assert all[i] == o;
        }
      }
    }
  }

  lemma InsideLess(r: D.Relations, objects: set<Object>, o: Object, y: Object)
    ensures Inside(r, objects - {o}, y) == Inside(r, objects, y) - {o}
  {
    hide E.Below;
  }

  /** Deletions are undisturbed exactly if every object exists and everything inside is deleted before it. */
  lemma {:induction false} DeletionsUndisturbed(r: D.Relations, objects: set<Object>, os: seq<Object>)
    requires Schema.Acyclic(r.embeddedInto) && D.ParentsExist(r, objects) && D.AllFit(r, objects) && NoDuplicates(os)
    ensures Undisturbed(r, objects, Deletions(os)) <==> InsideFirst(r, objects, os)
    decreases |os|
  {
    hide Calm, Inside, D.ParentsExist, D.AllFit;
    if os != [] {
      var o, rest := os[0], os[1..];
      assert os == [o] + rest;
      assert Deletions(os)[1..] == Deletions(rest);
      assert Planned(r, objects, Action.Delete(o)) == objects - {o};
      CalmDeletion(r, objects, o);
      InsideFirstSplits(r, objects, o, rest);
      if Inside(r, objects, o) == {} {
        ParentsStay(r, objects, o);
        DeletionsUndisturbed(r, objects - {o}, rest);
      }
    }
  }

  lemma CalmCreation(r: D.Relations, objects: set<Object>, o: Object)
    requires Schema.Acyclic(r.embeddedInto) && D.ParentsExist(r, objects) && D.Fits(r, o)
    ensures Calm(r, objects, Action.Create(o)) <==>
      o !in objects && (o.kind in r.embeddedInto && o.name != [] ==> D.Parent(r, o) in objects)
    ensures Calm(r, objects, Action.Create(o)) ==> D.ParentsExist(r, objects + {o})
  {
    hide D.FullName;
    if o.kind in r.embeddedInto {
      D.ParentFits(r, o);
      PresentIfParentsExist(r, objects, D.Parent(r, o));
    }
  }

  lemma OutsideFirstSplits(r: D.Relations, objects: set<Object>, o: Object, rest: seq<Object>)
    ensures OutsideFirst(r, objects, [o] + rest) <==>
      && o !in objects && (o.kind in r.embeddedInto && o.name != [] ==> D.Parent(r, o) in objects)
      && OutsideFirst(r, objects + {o}, rest)
  {
    hide D.Parent;
    var all := [o] + rest;
    assert all[0] == o && all[..0] == [];
    if OutsideFirst(r, objects, all) {
      forall i | 0 <= i < |rest|
        ensures rest[i] !in objects + {o} && rest[i] !in rest[..i]
        ensures rest[i].kind in r.embeddedInto && rest[i].name != [] ==>
          D.Parent(r, rest[i]) in objects + {o} || D.Parent(r, rest[i]) in rest[..i]
      {
        ConsPrefix(o, rest, i, i + 1);
        assert all[i + 1] !in objects;
      }
    }
    if o !in objects && OutsideFirst(r, objects + {o}, rest) {
      forall i | 0 < i < |all|
        ensures all[i] !in objects && all[i] !in all[..i]
        ensures all[i].kind in r.embeddedInto && all[i].name != [] ==>
          D.Parent(r, all[i]) in objects || D.Parent(r, all[i]) in all[..i]
      {
        var j := i - 1;
        ConsPrefix(o, rest, j, i);
        assert rest[j] !in objects + {o};
      }
    }
  }

  /** Creations are undisturbed exactly if every object is new and what it is embedded in is there before it. */
  lemma {:induction false} CreationsUndisturbed(r: D.Relations, objects: set<Object>, os: seq<Object>)
    requires Schema.Acyclic(r.embeddedInto) && D.ParentsExist(r, objects) && forall o | o in os :: D.Fits(r, o)
    ensures Undisturbed(r, objects, Creations(os)) <==> OutsideFirst(r, objects, os)
    decreases |os|
  {
    hide Calm, D.ParentsExist, D.Fits, D.Parent;
    if os != [] {
      var o, rest := os[0], os[1..];
      assert os == [o] + rest && o in os;
      assert Creations(os)[1..] == Creations(rest);
      assert Planned(r, objects, Action.Create(o)) == objects + {o};
      CalmCreation(r, objects, o);
      OutsideFirstSplits(r, objects, o, rest);
      if Calm(r, objects, Action.Create(o)) {
        CreationsUndisturbed(r, objects + {o}, rest);
      }
    }
  }
}
