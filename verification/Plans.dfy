/**
 What the unedited rebase script asks for, step by step, and how far its execution gets: the block of an embedded object
 stays open, so that no header is accepted behind it.
 */
module Plans {
  import opened Core
  import opened Grammar
  import opened PathText
  import opened Rebase
  import opened RebaseReplay
  import opened RebaseScript
  import opened RebaseSteps
  import D = Database
  import Schema

  // ---- The plan ----

  function ObjectOf(m: Modification): Object {
    Object(m.kind, if PathToVector(m.name).Some? then PathToVector(m.name).value else [])
  }

  function ActionOf(m: Modification): Action {
    match m
    case DeleteObject(_, _) => Action.Delete(ObjectOf(m))
    case RenameObject(_, _, newName) => Action.Rename(ObjectOf(m), newName)
    case CreateObject(_, _) => Action.Create(ObjectOf(m))
    case SetAttribute(_, _, _, _, _) => Set(m)
  }

  /** The header in front of a modification of an attribute is executed. */
  predicate Opens(deletions: Deletions, m: Modification, last: Option<Modification>) {
    && m.SetAttribute? && !Deleted(deletions, m)
    && (last.None? || !last.value.SetAttribute? || !SameObject(m, last.value))
  }

  function LeadPlan(deletions: Deletions, m: Modification, last: Option<Modification>): seq<Action> {
    if Opens(deletions, m, last) then [Action.Open(ObjectOf(m))] else []
  }

  /** What the lines of one merged modification ask for. */
  function PlanOf(deletions: Deletions, source: Source, m: Modification, last: Option<Modification>): seq<Action> {
    LeadPlan(deletions, m, last) + (if source == Ours then [ActionOf(m)] else [])
  }

  function LastOf(last: Option<(Source, Modification)>): Option<Modification> {
    if last.Some? then Some(last.value.1) else None
  }

  function Plan(deletions: Deletions, merged: seq<(Source, Modification)>, last: Option<(Source, Modification)>): seq<Action>
    decreases |merged|
  {
    if merged == [] then []
    else PlanOf(deletions, merged[0].0, merged[0].1, LastOf(last)) + Plan(deletions, merged[1..], Some(merged[0]))
  }

  /** What the unedited script asks for. */
  function PlanFor(deletions: Deletions, extern: seq<Modification>, ours: seq<Modification>): seq<Action> {
    Plan(deletions, Merge(extern, ours), None)
  }

  /** The steps of a plan, up to the first that fails. */
  ghost function PerformAll(r: D.Relations, server: Server, plan: seq<Action>): Performed
    requires Schema.Acyclic(r.embeddedInto)
    decreases |plan|
  {
    if plan == [] then Performed(server, true)
    else
      var first := Perform(r, server, plan[0]);
      if first.ok then PerformAll(r, first.server, plan[1..]) else first
  }

  lemma {:induction false} PerformConcat(r: D.Relations, server: Server, a: seq<Action>, b: seq<Action>)
    requires Schema.Acyclic(r.embeddedInto)
    ensures PerformAll(r, server, a + b) ==
      var first := PerformAll(r, server, a); if first.ok then PerformAll(r, first.server, b) else first
    decreases |a|
  {
    hide Perform;
    if a == [] {
      assert a + b == b;
    } else {
      assert (a + b)[1..] == a[1..] + b;
      PerformConcat(r, Perform(r, server, a[0]).server, a[1..], b);
    }
  }

  lemma PerformOne(r: D.Relations, server: Server, action: Action)
    requires Schema.Acyclic(r.embeddedInto)
    ensures PerformAll(r, server, [action]) == Perform(r, server, action)
  {
    hide Perform;
    assert [action][1..] == [];
    var first := Perform(r, server, action);
    assert PerformAll(r, first.server, []) == Performed(first.server, true);
  }

  lemma NothingPlanned(r: D.Relations, server: Server)
    requires Schema.Acyclic(r.embeddedInto)
    ensures PerformAll(r, server, []) == Performed(server, true)
  {
  }

  // ---- Headers behind blocks of embedded objects ----

  /** The header of a block that the single "end" does not close. */
  predicate OpensEmbedded(embeddedInto: map<Ident, Ident>, action: Action) {
    action.Open? && action.o.kind in embeddedInto
  }

  /** The block of an embedded object has been opened, now or before. */
  predicate StuckBehind(embeddedInto: map<Ident, Ident>, plan: seq<Action>, stuck: bool) {
    stuck || exists i | 0 <= i < |plan| :: OpensEmbedded(embeddedInto, plan[i])
  }

  /** The plan up to the first header that finds such a block open. */
  function Reached(embeddedInto: map<Ident, Ident>, plan: seq<Action>, stuck: bool): seq<Action>
    decreases |plan|
  {
    if plan == [] || (plan[0].Open? && stuck) then []
    else [plan[0]] + Reached(embeddedInto, plan[1..], stuck || OpensEmbedded(embeddedInto, plan[0]))
  }

  /** No block is opened behind the block of an embedded object. */
  predicate EmbeddedLast(embeddedInto: map<Ident, Ident>, plan: seq<Action>) {
    forall i, j | 0 <= i < j < |plan| && plan[j].Open? :: !OpensEmbedded(embeddedInto, plan[i])
  }

  lemma {:induction false} ReachedIff(embeddedInto: map<Ident, Ident>, plan: seq<Action>, stuck: bool)
    ensures Reached(embeddedInto, plan, stuck) == plan <==>
      EmbeddedLast(embeddedInto, plan) && (stuck ==> forall i | 0 <= i < |plan| :: !plan[i].Open?)
    decreases |plan|
  {
    if plan != [] {
      var rest := plan[1..];
      var next := stuck || OpensEmbedded(embeddedInto, plan[0]);
      ReachedIff(embeddedInto, rest, next);
      assert plan == [plan[0]] + rest;
      assert forall i | 0 <= i < |rest| :: rest[i] == plan[i + 1];
      assert forall i | 0 < i < |plan| :: plan[i] == rest[i - 1];
      LastSplits(embeddedInto, plan);
      if !(plan[0].Open? && stuck) {
        assert Reached(embeddedInto, plan, stuck)[1..] == Reached(embeddedInto, rest, next);
      }
    }
  }

  lemma LastSplits(embeddedInto: map<Ident, Ident>, plan: seq<Action>)
    requires plan != []
    ensures EmbeddedLast(embeddedInto, plan) <==>
      && EmbeddedLast(embeddedInto, plan[1..])
      && (OpensEmbedded(embeddedInto, plan[0]) ==> forall j | 0 < j < |plan| :: !plan[j].Open?)
  {
    hide OpensEmbedded;
    var rest := plan[1..];
    if EmbeddedLast(embeddedInto, plan) {
      forall i, j | 0 <= i < j < |rest| && rest[j].Open? ensures !OpensEmbedded(embeddedInto, rest[i]) {
        assert rest[i] == plan[i + 1] && rest[j] == plan[j + 1];
      }
    }
    if EmbeddedLast(embeddedInto, rest) && (OpensEmbedded(embeddedInto, plan[0]) ==> forall j | 0 < j < |plan| :: !plan[j].Open?) {
      forall i, j | 0 <= i < j < |plan| && plan[j].Open? ensures !OpensEmbedded(embeddedInto, plan[i]) {
        if i > 0 {
          assert plan[i] == rest[i - 1] && plan[j] == rest[j - 1];
        }
      }
    }
  }

  lemma ReachedStep(embeddedInto: map<Ident, Ident>, first: Action, rest: seq<Action>, stuck: bool)
    ensures Reached(embeddedInto, [first] + rest, stuck) ==
      if first.Open? && stuck then []
      else [first] + Reached(embeddedInto, rest, stuck || OpensEmbedded(embeddedInto, first))
  {
    hide OpensEmbedded;
    assert ([first] + rest)[1..] == rest;
  }

  lemma {:induction false} ReachedConcat(embeddedInto: map<Ident, Ident>, a: seq<Action>, b: seq<Action>, stuck: bool)
    ensures Reached(embeddedInto, a + b, stuck) ==
      if Reached(embeddedInto, a, stuck) == a then a + Reached(embeddedInto, b, StuckBehind(embeddedInto, a, stuck))
      else Reached(embeddedInto, a, stuck)
    decreases |a|
  {
    hide OpensEmbedded, Reached, StuckBehind;
    if a == [] {
      assert a + b == b;
      ReachedNothing(embeddedInto, stuck);
      StuckNothing(embeddedInto, stuck);
      assert a + Reached(embeddedInto, b, stuck) == Reached(embeddedInto, b, stuck);
    } else {
      var first, rest := a[0], a[1..];
      var next := stuck || OpensEmbedded(embeddedInto, first);
      assert a == [first] + rest && a + b == [first] + (rest + b);
      ReachedStep(embeddedInto, first, rest, stuck);
      ReachedStep(embeddedInto, first, rest + b, stuck);
      StuckInTurn(embeddedInto, a, stuck);
      if !(first.Open? && stuck) {
        ReachedConcat(embeddedInto, rest, b, next);
        HeadAgrees(first, Reached(embeddedInto, rest, next), rest);
        assert [first] + (rest + Reached(embeddedInto, b, StuckBehind(embeddedInto, rest, next)))
          == a + Reached(embeddedInto, b, StuckBehind(embeddedInto, rest, next));
      }
    }
  }

  lemma HeadAgrees(first: Action, a: seq<Action>, b: seq<Action>)
    ensures [first] + a == [first] + b <==> a == b
  {
    assert a == ([first] + a)[1..] && b == ([first] + b)[1..];
  }

  lemma StuckNothing(embeddedInto: map<Ident, Ident>, stuck: bool)
    ensures StuckBehind(embeddedInto, [], stuck) == stuck
  {
  }

  lemma ReachedNothing(embeddedInto: map<Ident, Ident>, stuck: bool)
    ensures Reached(embeddedInto, [], stuck) == []
  {
  }

  lemma StuckInTurn(embeddedInto: map<Ident, Ident>, a: seq<Action>, stuck: bool)
    requires a != []
    ensures StuckBehind(embeddedInto, a, stuck) ==
      StuckBehind(embeddedInto, a[1..], stuck || OpensEmbedded(embeddedInto, a[0]))
  {
    hide OpensEmbedded;
    var rest := a[1..];
    if i :| 0 <= i < |a| && OpensEmbedded(embeddedInto, a[i]) {
      assert i > 0 ==> OpensEmbedded(embeddedInto, rest[i - 1]);
    }
    if i :| 0 <= i < |rest| && OpensEmbedded(embeddedInto, rest[i]) {
      assert OpensEmbedded(embeddedInto, a[i + 1]);
    }
  }

  /** Executing a plan line by line: the header behind the block of an embedded object is refused. */
  ghost function Executes(r: D.Relations, server: Server, plan: seq<Action>, stuck: bool): Performed
    requires Schema.Acyclic(r.embeddedInto)
  {
    var done := PerformAll(r, server, Reached(r.embeddedInto, plan, stuck));
    Performed(done.server, done.ok && Reached(r.embeddedInto, plan, stuck) == plan)
  }
}
