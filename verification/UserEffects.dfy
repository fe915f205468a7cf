/**
 The effects that executing a script assumes are those of the user interface: its functions, on its DbInteraction, leave
 exactly these objects behind when nobody is asked.
 */
module UserEffects {
  import opened Core
  import opened Database
  import opened DbInteractions
  import opened Expansion
  import opened Functions
  import opened Grammar
  import opened PathText
  import opened Reachability
  import opened Rebase
  import opened RebaseReplay
  import opened Schema
  import opened Signals
  import E = Existence
  import RebaseExtras

  /** Signals of one completely named object that create, enter, delete or rename it. */
  predicate OnObject(signal: Signal) {
    match signal
    case CreateObject(context, kind, name) => FullContext(context) && Last(context) == Obj(kind, name)
    case CategoryEntered(context, kind, name) => FullContext(context) && Last(context) == Obj(kind, name)
    case FunctionDelete(context) => FullContext(context)
    case FunctionRename(context, _) => FullContext(context)
    case _ => false
  }

  /** What the server replies beyond what its objects decide. */
  function Refusing(refused: bool): Reply {
    Reply(refused, Confirmed, Thrown, {}, [], true)
  }

  /** The signal has the effect that executing a script gives it. */
  ghost predicate Agrees(before: Db, after: Db, changes: seq<Modification>, signal: Signal, refused: bool, applied: bool)
    requires Acyclic(before.relations.embeddedInto)
  {
    var e := EffectOf(before.relations, Server(before.objects, changes), signal, Refusing(refused));
    && after.relations == before.relations
    && after.objects == e.server.objects
    && (applied <==> e.reply.Applied?)
  }

  lemma ContextSignals(signal: Signal)
    requires OnObject(signal)
    ensures Determined(signal) && !signal.CategoryLeft?
    ensures FullContext(signal.context) && ObjectAt(signal.context) == TheObject(signal.context)
  {
    hide IsIdent;
  }

  lemma EnteredAgrees(before: Db, after: Db, changes: seq<Modification>, signal: Signal, refused: bool, done: bool)
    requires Acyclic(before.relations.embeddedInto) && OnObject(signal) && signal.CategoryEntered?
    requires after.relations == before.relations
    requires done <==> CanMake(before, TheObject(signal.context), !refused)
    requires if done then MadeSure(before, after, TheObject(signal.context)) else after == before
    ensures Agrees(before, after, changes, signal, refused, done)
  {
    hide E.Acceptable, FullContext, PlainContext;
    ContextSignals(signal);
    var o := TheObject(signal.context);
    assert o in before.objects ==> before.objects + {o} == before.objects;
  }

  lemma CreatedAgrees(before: Db, after: Db, changes: seq<Modification>, signal: Signal, refused: bool, done: bool)
    requires Acyclic(before.relations.embeddedInto) && OnObject(signal) && signal.CreateObject?
    requires after.relations == before.relations
    requires done <==> CanAdd(before, TheObject(signal.context), !refused)
    requires if done then MadeSure(before, after, TheObject(signal.context)) else after == before
    ensures Agrees(before, after, changes, signal, refused, done)
  {
    hide E.Acceptable, FullContext, PlainContext;
    ContextSignals(signal);
    FullPath(signal.context);
    if done {
      AddsNew(before, TheObject(signal.context), !refused);
    }
  }

  /** What can be added is not there. */
  lemma AddsNew(db: Db, o: Object, willing: bool)
    requires CanAdd(db, o, willing) && E.Named(o)
    ensures o !in db.objects
  {
    hide Fits;
  }

  /** What was made could be made. */
  lemma MadeCan(before: Db, after: Db, o: Object)
    requires MadeSure(before, after, o)
    ensures CanMake(before, o, true)
  {
    hide E.Acceptable;
  }

  /** The objects without the named one and everything inside it. */
  lemma DeletedAgrees(before: Db, after: Db, changes: seq<Modification>, signal: Signal, done: bool)
    requires WellFormed(before) && Acyclic(before.relations.embeddedInto)
    requires ParentsExist(before.relations, before.objects) && OnObject(signal) && signal.FunctionDelete?
    requires after.relations == before.relations
    requires if done then Functions.DeletedWithInside(before, after, signal.context) else after == before
    ensures Agrees(before, after, changes, signal, !done, done)
  {
    hide WellFormed, ParentsExist, FullContext, PlainContext, Denoted, InsideDenoted, Inside, InSomeOrder, Acyclic;
    ContextSignals(signal);
    if done {
      var o := TheObject(signal.context);
      RebaseExtras.InsideIsNested(before, o);
      forall x ensures x in after.objects <==> x in before.objects - {o} - Inside(before.relations, before.objects, o) {
        DenotedOne(before, signal.context, x);
        InsideOne(before, signal.context, x);
      }
    }
  }

  lemma DenotedOne(db: Db, context: Stack, x: Object)
    requires FullContext(context)
    ensures Denoted(db, context, x) <==> x == TheObject(context)
  {
    hide Denoted, IsIdent;
    FilterFreeDenotes(db, context, x);
  }

  lemma InsideOne(db: Db, context: Stack, x: Object)
    requires FullContext(context)
    ensures InsideDenoted(db, context, x) <==> Reachable(db, Nested, TheObject(context), x)
  {
    hide Denoted, Reachable, IsIdent;
    forall o ensures Denoted(db, context, o) <==> o == TheObject(context) {
      DenotedOne(db, context, o);
    }
  }

  lemma RenamedAgrees(before: Db, after: Db, changes: seq<Modification>, signal: Signal, generated: seq<Ident>, refused: bool,
      done: bool)
    requires Acyclic(before.relations.embeddedInto) && OnObject(signal) && signal.FunctionRename?
    requires after.relations == before.relations
    requires var renamings := E.Renamings([TheObject(signal.context)], signal.newName);
      && |generated| == |renamings|
      && (done <==> !refused && E.AcceptableAll(before.relations, generated, before.objects, renamings))
      && if done then after.objects == E.AppliedAll(before.relations, generated, before.objects, renamings)
         else after == before
    ensures Agrees(before, after, changes, signal, refused, done)
  {
    hide E.Acceptable, E.Applied, E.AcceptableAll, E.AppliedAll, FullContext, PlainContext;
    ContextSignals(signal);
    FullPath(signal.context);
    OneRenaming(before.relations, before.objects, TheObject(signal.context), signal.newName, generated);
  }

  lemma OneRenaming(r: Relations, objects: set<Object>, o: Object, newName: Ident, generated: seq<Ident>)
    requires Acyclic(r.embeddedInto) && |generated| == 1 && o.name != []
    ensures E.AcceptableAll(r, generated, objects, E.Renamings([o], newName)) <==> E.Acceptable(r, "", objects, E.Rename(o, newName))
    ensures E.AppliedAll(r, generated, objects, E.Renamings([o], newName)) == E.Applied(r, "", objects, E.Rename(o, newName))
  {
    hide E.AcceptableAll, E.AppliedAll, IsIdent;
    assert E.Renamings([o], newName) == [E.Rename(o, newName)];
    SingleChange(r, generated, objects, E.Rename(o, newName));
    SingleAcceptable(r, generated, objects, E.Rename(o, newName));
  }

  /** The names the server was asked for and did not give. */
  lemma SomeNames(before: Db, context: Stack, newName: Ident, batch: seq<Object>, names: seq<Ident>)
    requires FullContext(context) && Acyclic(before.relations.embeddedInto)
    requires RenameBatch(before, context, false, batch) && |names| == |batch|
    requires !E.AcceptableAll(before.relations, names, before.objects, E.Renamings(batch, newName))
    ensures |names| == 1
    ensures !E.AcceptableAll(before.relations, names, before.objects, E.Renamings([TheObject(context)], newName))
  {
    hide RenameBatch, FullContext, E.AcceptableAll;
    OneInBatch(before, context, batch);
  }

  /**
   One signal through the user interface in non-interactive mode. When the server refuses a new object because this
   changeset has deleted one of that name, the restoration is a second request, and its answer counts.
   */
  method Apply(ui: UserInterface, signal: Signal, reCreate: bool, ghost changes: seq<Modification>)
    returns (applied: bool, ghost refused: bool)
    requires ui.dbInteraction.Valid() && ui.nonInteractiveMode && OnObject(signal)
    requires Chained(ui.dbInteraction.db.relations, signal.context)
    requires ParentsExist(ui.dbInteraction.db.relations, ui.dbInteraction.db.objects)
    requires reCreate ==> TheObject(signal.context) !in ui.dbInteraction.db.objects
    modifies ui.dbInteraction
    ensures Acyclic(old(ui.dbInteraction.db).relations.embeddedInto)
    ensures Agrees(old(ui.dbInteraction.db), ui.dbInteraction.db, changes, signal, refused, applied)
    ensures !reCreate ==> refused == !old(ui.dbInteraction.willing)
  {
    hide WellFormed, ParentsExist, Chained, Agrees, FullContext, MadeSure, E.AcceptableAll, E.AppliedAll, Denoted, RenameBatch,
      Stuck, Unreadable, Acyclic;
    ghost var before := ui.dbInteraction.db;
    refused := !ui.dbInteraction.willing;
    ContextSignals(signal);
    WellFormedAcyclic(before);
    FullReadable(before, signal.context);
    match signal {
      case CreateObject(context, kind, name) =>
        var outcome := ui.ApplyCreateObject(context, kind, name, reCreate, true);
        applied := outcome.Done?;
        refused := if reCreate then !applied else refused;
        if applied {
          MadeCan(before, ui.dbInteraction.db, TheObject(context));
        }
        CreatedAgrees(before, ui.dbInteraction.db, changes, signal, refused, applied);
      case CategoryEntered(context, kind, name) =>
        var outcome := ui.ApplyCategoryEntered(context, kind, name, reCreate, true);
        applied := outcome.Done?;
        refused := if reCreate then !applied else refused;
        if applied {
          MadeCan(before, ui.dbInteraction.db, TheObject(context));
        }
        EnteredAgrees(before, ui.dbInteraction.db, changes, signal, refused, applied);
      case FunctionDelete(context) =>
        var outcome := ui.ApplyFunctionDelete(context, true);
        applied := outcome == Done(true);
        assert outcome.Done? ==> outcome == Done(if outcome.value then true else false);
        DeletedAgrees(before, ui.dbInteraction.db, changes, signal, applied);
      case FunctionRename(context, newName) =>
        var outcome, generated := ui.ApplyFunctionRename(context, newName, true);
        applied := outcome.Done?;
        ghost var names := generated;
        if applied {
          OneInBatch(before, context, outcome.value);
        } else if !refused {
          ghost var batch: seq<Object>;
          batch, names :| RenameBatch(before, context, false, batch) && |names| == |batch|
            && !E.AcceptableAll(before.relations, names, before.objects, E.Renamings(batch, newName));
          SomeNames(before, context, newName, batch, names);
        } else {
          names := [""];
        }
        RenamedAgrees(before, ui.dbInteraction.db, changes, signal, names, refused, applied);
    }
  }

  lemma WellFormedAcyclic(db: Db)
    requires WellFormed(db)
    ensures Acyclic(db.relations.embeddedInto)
  {
  }

  /** A completely named object can be expanded, whatever exists. */
  lemma FullReadable(db: Db, context: Stack)
    requires FullContext(context)
    ensures !Unreadable(db, context) && !Nameless(Last(context))
  {
    hide Denoted, IsIdent;
    FullPath(context);
    forall o | Denoted(db, context, o) ensures FullName(o.name) {
      FilterFreeDenotes(db, context, o);
    }
  }

  lemma OneInBatch(db: Db, context: Stack, batch: seq<Object>)
    requires FullContext(context) && RenameBatch(db, context, false, batch)
    ensures batch == [TheObject(context)]
  {
    hide Denoted, IsIdent, ConnectedToDenoted;
    var o := TheObject(context);
    forall x ensures x in batch <==> x == o {
      FilterFreeDenotes(db, context, x);
    }
    assert o in batch;
    assert |batch| > 1 ==> batch[0] != batch[1] && batch[0] in batch && batch[1] in batch;
  }
}
