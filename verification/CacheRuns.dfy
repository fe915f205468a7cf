/** Runs of the client against the server: what the existence cache answers over a whole session. */
module CacheRuns {
  import opened Core
  import opened PathText
  import opened Schema
  import opened Database
  import opened Existence
  import opened Expansion
  import opened DbInteractions

  /** view is what the server shows from then on. */
  datatype Step =
    | Attach(view: Db)
    | Leave(view: Db)
    | Freeze(view: Db)
    | UnFreeze(view: Db)
    | OthersCommit(view: Db)
    | Lookup(o: Object)
    | Enumerate(kind: Ident)
    | Expand(context: Stack)
    | Create(context: Stack, oldKind: Ident)
    | Restore(context: Stack)
    | Delete(context: Stack)
    | Rename(context: Stack, newName: Ident)

  /** Views follow the relations, context stacks come from the parser, and whatever is created is given a name. */
  ghost predicate Admissible(r: Relations, step: Step)
    requires Acyclic(r.embeddedInto)
  {
    match step
    case Attach(view) => WellFormed(view) && view.relations == r
    case Leave(view) => WellFormed(view) && view.relations == r
    case Freeze(view) => WellFormed(view) && view.relations == r
    case UnFreeze(view) => WellFormed(view) && view.relations == r
    case OthersCommit(view) => WellFormed(view) && view.relations == r
    case Lookup(_) => true
    case Enumerate(_) => true
    case Expand(context) => Chained(r, context)
    case Create(context, oldKind) =>
      context != [] && Chained(r, TargetStack(context, oldKind)) && !Nameless(Last(context))
    case Restore(context) => context != [] && Chained(r, context) && !Nameless(Last(context))
    case Delete(context) => context != [] && Chained(r, context)
    case Rename(context, _) => context != [] && Chained(r, context)
  }

  /** What a step can do to what the server shows; one that is refused does nothing. */
  ghost predicate Shows(step: Step, before: Db, after: Db) {
    before == after || match step
      case Attach(view) => after == view
      case Leave(view) => after == view
      case Freeze(view) => after == view
      case UnFreeze(view) => after == view
      case OthersCommit(view) => after == view
      case Lookup(_) => false
      case Enumerate(_) => false
      case Expand(_) => false
      case Create(context, oldKind) => context != [] && AllWantedExist(before, after, context, oldKind)
      case Restore(context) =>
        before.objects <= after.objects && forall o | o in after.objects :: o in before.objects || Denoted(before, context, o)
      case Delete(context) => forall o :: o in after.objects <==> o in before.objects && !Denoted(before, context, o)
      case Rename(context, newName) => RenamesListed(before, after, context, newName)
  }

  ghost predicate RenamesListed(before: Db, after: Db, context: Stack, newName: Ident) {
    exists objects, generated: seq<Ident> ::
      && Lists(before, context, objects) && |generated| == |objects|
      && after.objects == AppliedAll(before.relations, generated, before.objects, Renamings(objects, newName))
  }

  datatype Answer = Answer(o: Object, given: bool)

  /** One answer to each lookup, and about named objects what the server showed at that moment. */
  ghost predicate Truthful(steps: seq<Step>, views: seq<Db>, answers: seq<Answer>)
    requires |views| == |steps| + 1
    decreases |steps|
  {
    if steps == [] then answers == []
    else if Last(steps).Lookup? then
      && answers != []
      && Truthful(DropLast(steps), DropLast(views), DropLast(answers))
      && Last(answers).o == Last(steps).o
      && (Named(Last(steps).o) ==> Last(answers).given == (Last(steps).o in views[|steps| - 1].objects))
    else Truthful(DropLast(steps), DropLast(views), answers)
  }

  lemma TruthfulFurther(steps: seq<Step>, views: seq<Db>, answers: seq<Answer>, step: Step, view: Db, given: bool)
    requires |views| == |steps| + 1 && Truthful(steps, views, answers)
    requires step.Lookup? && Named(step.o) ==> given == (step.o in Last(views).objects)
    ensures Truthful(steps + [step], views + [view], if step.Lookup? then answers + [Answer(step.o, given)] else answers)
  {
    assert DropLast(steps + [step]) == steps && DropLast(views + [view]) == views;
    var answer := Answer(if step.Lookup? then step.o else Object("", []), given);
    assert DropLast(answers + [answer]) == answers;
  }

  class Session {
    const client: DbInteraction

    constructor (client: DbInteraction)
      ensures this.client == client
    {
      this.client := client;
    }

    /** After an exception the main loop of the user interface clears the cache. */
    method Recover()
      requires client.Steady()
      modifies client
      ensures client.Valid() && client.db == old(client.db)
    {
      client.ClearCache();
    }

    /** Opening a view; a refusal leaves stableView set without a stable view, and ends the run. */
    method ChangeView(step: Step) returns (stopped: bool)
      requires client.Valid() && Admissible(client.db.relations, step)
      requires step.Attach? || step.Leave? || step.Freeze? || step.UnFreeze? || step.OthersCommit?
      modifies client
      ensures client.db.relations == old(client.db.relations)
      ensures !stopped ==> client.Valid()
      ensures Shows(step, old(client.db), client.db)
      ensures stopped ==> step.Attach? || step.Freeze?
    {
      hide WellFormed, Sound;
      var thrown := false;
      match step {
        case Attach(view) => stopped := client.AttachChangeset(view);
        case Freeze(view) => stopped := client.FreezeView(view);
        case Leave(view) => thrown := client.LeaveChangeset(view); stopped := false;
        case UnFreeze(view) => thrown := client.UnFreezeView(view); stopped := false;
        case OthersCommit(view) =>
          if !client.viewIsFixed {
            client.OthersCommit(view);
          }
          stopped := false;
      }
    }

    /** Renamings of objects that have something nested in them are not part of these runs. */
    method RenameOuter(context: Stack, newName: Ident)
      requires client.Valid() && context != [] && Chained(client.db.relations, context)
      modifies client
      ensures client.Valid() && client.db.relations == old(client.db.relations)
      ensures client.db == old(client.db) || RenamesListed(old(client.db), client.db, context, newName)
    {
      hide WellFormed, Sound, Chained, Denoted, Stuck, NothingBelow, AppliedAll, Lists, AcceptableAll;
      var objects := client.ExpandContextStack(context);
      if objects.None? {
        Recover();
        return;
      }
      assert Lists(client.db, context, objects.value);
      ListedNamed(client.db, context, objects.value);
      var nested := AnyBelow(client.db, objects.value);
      if !nested {
        var thrown, generated := client.RenameObjects(objects.value, newName);
        if thrown {
          Recover();
        } else {
          assert RenamesListed(old(client.db), client.db, context, newName);
        }
      }
    }

    method Modify(step: Step)
      requires client.Valid() && Admissible(client.db.relations, step)
      requires step.Create? || step.Restore? || step.Delete? || step.Rename?
      modifies client
      ensures client.Valid() && client.db.relations == old(client.db.relations)
      ensures Shows(step, old(client.db), client.db)
    {
      hide WellFormed, Sound, Chained, Denoted, Stuck, AllWantedExist;
      match step {
        case Create(context, oldKind) =>
          var outcome := client.CreateObject(context, oldKind);
          if !outcome.Done? { Recover(); }
        case Restore(context) =>
          var outcome := client.RestoreDeletedObject(context);
          if !outcome.Done? { Recover(); }
        case Delete(context) =>
          var outcome := client.DeleteObject(context);
          if !outcome.Done? { Recover(); }
        case Rename(context, newName) => RenameOuter(context, newName);
      }
    }

    /** What a step answers, and what it does to the view; lookups are the only ones with an answer. */
    method Perform(step: Step) returns (given: bool, stopped: bool)
      requires client.Valid() && Admissible(client.db.relations, step)
      modifies client
      ensures client.db.relations == old(client.db.relations) && Shows(step, old(client.db), client.db)
      ensures !stopped ==> client.Valid()
      ensures stopped ==> step.Attach? || step.Freeze?
      ensures step.Lookup? && Named(step.o) ==> given == (step.o in old(client.db).objects)
    {
      hide WellFormed, Sound, Admissible;
      given, stopped := false, false;
      match step {
        case Lookup(o) => given := client.ObjectExists(o);
        case Enumerate(kind) => var _ := client.KindInstances(kind);
        case Expand(context) => ExpandOnly(context);
        case Create(_, _) => Modify(step);
        case Restore(_) => Modify(step);
        case Delete(_) => Modify(step);
        case Rename(_, _) => Modify(step);
        case _ => stopped := ChangeView(step);
      }
    }

    /**
     Over every run, every lookup is answered, and every answer about a named object is what the server showed then. Only a
     view that cannot be opened ends a run early.
     */
    method Run(steps: seq<Step>) returns (answers: seq<Answer>, stopped: bool, ghost views: seq<Db>)
      requires client.Valid() && forall s | s in steps :: Admissible(client.db.relations, s)
      modifies client
      ensures 1 <= |views| <= |steps| + 1 && views[0] == old(client.db)
      ensures forall i | 0 <= i < |views| - 1 :: Shows(steps[i], views[i], views[i + 1])
      ensures Truthful(steps[..|views| - 1], views, answers)
      ensures if stopped then |views| <= |steps| && (steps[|views| - 1].Attach? || steps[|views| - 1].Freeze?)
        else |views| == |steps| + 1 && Last(views) == client.db
      ensures !stopped ==> client.Valid()
      ensures !stopped && client.stableView ==> Sound(client.objectExistsCache, client.db.objects)
    {
      hide AllFit, Sound, Admissible, Shows, Truthful;
      answers, stopped, views := [], false, [client.db];
      ghost var r := client.db.relations;
      NoAnswers(views);
      for i := 0 to |steps|
        invariant client.Valid() && client.db.relations == r && !stopped
        invariant |views| == i + 1 && views[0] == old(client.db) && Last(views) == client.db
        invariant forall j | 0 <= j < i :: Shows(steps[j], views[j], views[j + 1])
        invariant Truthful(steps[..i], views, answers)
      {
        var step := steps[i];
        assert Admissible(r, step);
        ghost var before := client.db;
        var given, halted := Perform(step);
        if halted {
          return answers, true, views;
        }
        TruthfulFurther(steps[..i], views, answers, step, client.db, given);
        assert steps[..i + 1] == steps[..i] + [step];
        if step.Lookup? {
          answers := answers + [Answer(step.o, given)];
        }
        views := views + [client.db];
      }
      assert steps[..|steps|] == steps;
    }

    lemma NoAnswers(views: seq<Db>)
      requires |views| == 1
      ensures Truthful([], views, [])
    {
    }

    method ExpandOnly(context: Stack)
      requires client.Valid() && Admissible(client.db.relations, Expand(context))
      modifies client
      ensures client.Valid() && client.db == old(client.db)
    {
      hide WellFormed, Sound, Chained, Denoted, Stuck;
      var _ := client.ExpandContextStack(context);
    }
  }

  method AnyBelow(db: Db, objects: seq<Object>) returns (nested: bool)
    ensures !nested ==> forall o | o in objects :: NothingBelow(db.relations, o, db.objects)
  {
    nested := false;
    for i := 0 to |objects|
      invariant !nested ==> forall j | 0 <= j < i :: NothingBelow(db.relations, objects[j], db.objects)
    {
      nested := nested || !NothingBelow(db.relations, objects[i], db.objects);
    }
  }
}
