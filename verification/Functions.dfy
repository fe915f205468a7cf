/** The functions of the user interface that delete and rename whatever a context stack stands for. */
module Functions {
  import opened Core
  import opened PathText
  import opened Schema
  import opened Database
  import opened Existence
  import opened Expansion
  import opened Reachability
  import opened DbInteractions

  class UserInterface {
    const dbInteraction: DbInteraction
    var nonInteractiveMode: bool
    var forceNonInteractive: bool

    constructor (server: DbInteraction)
      ensures dbInteraction == server
    {
      dbInteraction := server;
    }

    /** A question is not asked outside interactive mode; its answer is a parameter. */
    predicate Agreed(confirms: bool)
      reads this
    {
      nonInteractiveMode || forceNonInteractive || confirms
    }

    /** An object that was deleted in this changeset is restored, if there is one and the user wants it. */
    method Restore(context: Stack, kind: Ident, name: Ident, confirms: bool) returns (outcome: Outcome<Item>)
      requires dbInteraction.Valid() && context != []
      modifies dbInteraction
      ensures dbInteraction.Steady() && dbInteraction.db.relations == old(dbInteraction.db.relations)
      ensures !outcome.Done? ==> dbInteraction.db == old(dbInteraction.db)
      ensures outcome.Done? ==> FilterFree(context) && outcome.value == Obj(kind, name)
      ensures outcome.Done? && FullContext(context) && kind == Last(context).kind ==>
        MadeSure(old(dbInteraction.db), dbInteraction.db, TheObject(context))
      ensures name == "" || !FilterFree(context) || !Agreed(confirms) ==> outcome.Failed?
      ensures Agreed(confirms) && FullContext(context) && kind == Last(context).kind && name != "" ==>
        (outcome.Done? <==> CanMake(old(dbInteraction.db), TheObject(context), old(dbInteraction.willing)))
        && !outcome.Failed?
    {
      hide WellFormed, Acyclic, PathToVector, Acceptable, IsIdent;
      if FullContext(context) {
        FullPath(context);
      }
      if name == "" || !FilterFree(context) {
        return Failed;
      }
      var objName := VectorToPath(StackPath(context));
      var ids := PathToVector(objName);
      if ids.None? || ids.value == [] || !Agreed(confirms) {
        return Failed;
      }
      var thrown := dbInteraction.RestoreWholePath(kind, objName);
      return if thrown then Refused else Done(Obj(kind, name));
    }

    /** reCreate: the server refuses a new object where this changeset has deleted one. */
    method ApplyCreateObject(context: Stack, kind: Ident, name: Ident, reCreate: bool, confirms: bool)
      returns (outcome: Outcome<Item>)
      requires dbInteraction.Valid() && Chained(dbInteraction.db.relations, context) && context != []
      requires Last(context).Obj? && Last(context).kind == kind
      requires reCreate && FullContext(context) ==> TheObject(context) !in dbInteraction.db.objects
      modifies dbInteraction
      ensures dbInteraction.Steady() && dbInteraction.db.relations == old(dbInteraction.db.relations)
      ensures outcome.Refused? ==> dbInteraction.db == old(dbInteraction.db)
      ensures outcome.Failed? && !Nameless(Last(context)) ==> dbInteraction.db == old(dbInteraction.db)
      ensures outcome.Done? && FullContext(context) ==>
        && TheObject(context) !in old(dbInteraction.db).objects
        && MadeSure(old(dbInteraction.db), dbInteraction.db, TheObject(context))
      ensures FullContext(context) && !reCreate ==>
        (outcome.Done? <==> CanAdd(old(dbInteraction.db), TheObject(context), old(dbInteraction.willing)))
        && !outcome.Failed?
      ensures outcome.Done? && FullContext(context) && reCreate && !Agreed(confirms) ==>
        CanAdd(old(dbInteraction.db), TheObject(context), old(dbInteraction.willing))
      ensures !reCreate && outcome.Done? ==> AllMade(old(dbInteraction.db), dbInteraction.db, context, outcome.value)
      ensures !reCreate && !Nameless(Last(context)) ==>
        (outcome.Failed? <==> NothingToMake(old(dbInteraction.db), context))
      ensures !reCreate && outcome.Refused? && old(dbInteraction.willing) && !Nameless(Last(context)) ==>
        SomeUnacceptable(old(dbInteraction.db), context)
    {
      hide WellFormed, Acyclic, Chained, Wanted, Stuck, PathToVector, IsIdent, Fits;
      outcome := dbInteraction.CreateObject(context, "");
      if FullContext(context) {
        FullPath(context);
        OnlyThis(old(dbInteraction.db), context);
      }
      if outcome.Refused? && reCreate {
        if !FilterFree(context) {
          return Failed;
        }
        outcome := Restore(context, kind, name, confirms);
      }
    }

    /** Entering what is not there creates it. */
    method ApplyCategoryEntered(context: Stack, kind: Ident, name: Ident, reCreate: bool, confirms: bool)
      returns (outcome: Outcome<Item>)
      requires dbInteraction.Valid() && Chained(dbInteraction.db.relations, context) && context != []
      requires Last(context).Obj? && Last(context).kind == kind
      requires reCreate && FullContext(context) ==> TheObject(context) !in dbInteraction.db.objects
      modifies dbInteraction
      ensures dbInteraction.Steady() && dbInteraction.db.relations == old(dbInteraction.db.relations)
      ensures outcome.Refused? ==> dbInteraction.db == old(dbInteraction.db)
      ensures outcome.Failed? && !Nameless(Last(context)) ==> dbInteraction.db == old(dbInteraction.db)
      ensures FullContext(context) && TheObject(context) in old(dbInteraction.db).objects ==>
        outcome == Done(Obj(kind, name)) && dbInteraction.db == old(dbInteraction.db)
      ensures outcome.Done? && FullContext(context) ==> MadeSure(old(dbInteraction.db), dbInteraction.db, TheObject(context))
      ensures FullContext(context) && !reCreate ==>
        (outcome.Done? <==> CanMake(old(dbInteraction.db), TheObject(context), old(dbInteraction.willing)))
        && !outcome.Failed?
      ensures outcome.Done? && FullContext(context) && reCreate && !Agreed(confirms) ==>
        CanMake(old(dbInteraction.db), TheObject(context), old(dbInteraction.willing))
      ensures AllThereAlready(old(dbInteraction.db), context) ==>
        outcome == Done(Obj(kind, name)) && dbInteraction.db == old(dbInteraction.db)
      ensures !AllThereAlready(old(dbInteraction.db), context) && !reCreate ==>
        && (outcome.Done? ==> AllMade(old(dbInteraction.db), dbInteraction.db, context, outcome.value))
        && (!Nameless(Last(context)) ==> (outcome.Failed? <==> NothingToMake(old(dbInteraction.db), context)))
        && (outcome.Refused? && old(dbInteraction.willing) && !Nameless(Last(context)) ==>
              SomeUnacceptable(old(dbInteraction.db), context))
    {
      hide WellFormed, Acyclic, Chained, Wanted, Stuck, Acceptable, PathToVector, IsIdent;
      var exists_ := dbInteraction.ContextExists(context, "");
      if FullContext(context) {
        OnlyThis(old(dbInteraction.db), context);
        AllNamedItems(context);
        if TheObject(context) in dbInteraction.db.objects {
          AlreadyThere(dbInteraction.db, TheObject(context));
        }
      }
      if exists_ {
        return Done(Obj(kind, name));
      }
      outcome := ApplyCreateObject(context, kind, name, reCreate, confirms);
    }

    /** The user is asked only when something nested would go as well; the answer is a parameter. */
    method ApplyFunctionDelete(context: Stack, confirms: bool) returns (outcome: Outcome<bool>)
      requires dbInteraction.Valid() && Chained(dbInteraction.db.relations, context) && context != []
      modifies dbInteraction
      ensures dbInteraction.Steady() && dbInteraction.db.relations == old(dbInteraction.db.relations)
      ensures outcome.Done? ==> dbInteraction.Valid()
      ensures outcome.Failed? <==> Unreadable(old(dbInteraction.db), context)
      ensures outcome == Done(true) ==> DeletedWithInside(old(dbInteraction.db), dbInteraction.db, context)
      ensures outcome == Done(false) <==>
        && !Unreadable(old(dbInteraction.db), context)
        && (exists x :: InsideDenoted(old(dbInteraction.db), context, x))
        && !confirms && !nonInteractiveMode && !forceNonInteractive
      ensures outcome == Done(true) ==> old(dbInteraction.willing)
      ensures outcome.Refused? ==> !old(dbInteraction.willing)
      ensures outcome != Done(true) ==> dbInteraction.db == old(dbInteraction.db)
      ensures outcome.Done? && ParentsExist(dbInteraction.db.relations, old(dbInteraction.db.objects)) ==>
        ParentsExist(dbInteraction.db.relations, dbInteraction.db.objects)
    {
      hide WellFormed, Chained, Stuck, Denoted, Sound, Consistent, AllFit, NoDuplicates, InsideDenoted, ParentsExist;
      ghost var before := dbInteraction.db;
      var nestedObjects := dbInteraction.AllNestedInContext(context);
      if nestedObjects.None? {
        return Failed;
      }
      NestedFound(before, context, nestedObjects.value);
      ReadableNamed(before, context);
      if nestedObjects.value == [] {
        outcome := dbInteraction.DeleteObject(context);
        if outcome.Done? {
          NothingInside(before, dbInteraction.db, context, nestedObjects.value);
        }
      } else if Agreed(confirms) {
        var toDelete := dbInteraction.ExpandContextStack(context);
        DeletionBatch(before, context, toDelete.value, nestedObjects.value);
        NamedBatch(before, context, toDelete.value, nestedObjects.value);
        var thrown := dbInteraction.DeleteObjects(toDelete.value + nestedObjects.value);
        if !thrown {
          EverythingInside(before, dbInteraction.db, context, toDelete.value, nestedObjects.value);
        }
        outcome := if thrown then Refused else Done(true);
      } else {
        return Done(false);
      }
      if outcome == Done(true) {
        if ParentsExist(before.relations, before.objects) {
          DeletionKeepsParents(before, dbInteraction.db, context);
        }
      }
    }

    /** Connected objects keep their common name if the user wants it; the batch is returned. */
    method ApplyFunctionRename(context: Stack, newName: Ident, confirms: bool)
      returns (outcome: Outcome<seq<Object>>, generated: seq<Ident>)
      requires dbInteraction.Valid() && Chained(dbInteraction.db.relations, context) && context != []
      modifies dbInteraction
      ensures dbInteraction.Steady() && dbInteraction.db.relations == old(dbInteraction.db.relations)
      ensures outcome.Failed? <==> Unreadable(old(dbInteraction.db), context)
      ensures !outcome.Done? ==> dbInteraction.db == old(dbInteraction.db)
      ensures outcome.Done? ==> old(dbInteraction.willing)
      ensures outcome.Refused? && old(dbInteraction.willing) ==> exists batch, names: seq<Ident> ::
        && RenameBatch(old(dbInteraction.db), context, confirms && !nonInteractiveMode && !forceNonInteractive, batch)
        && |names| == |batch| && Acyclic(dbInteraction.db.relations.embeddedInto)
        && !AcceptableAll(dbInteraction.db.relations, names, old(dbInteraction.db.objects), Renamings(batch, newName))
      ensures outcome.Done? ==>
        && RenameBatch(old(dbInteraction.db), context, confirms && !nonInteractiveMode && !forceNonInteractive, outcome.value)
        && |generated| == |outcome.value|
        && dbInteraction.db.objects == AppliedAll(dbInteraction.db.relations, generated, old(dbInteraction.db.objects),
             Renamings(outcome.value, newName))
        && Acyclic(dbInteraction.db.relations.embeddedInto)
        && AcceptableAll(dbInteraction.db.relations, generated, old(dbInteraction.db.objects), Renamings(outcome.value, newName))
      ensures outcome.Done? && NothingInsideAny(old(dbInteraction.db), outcome.value) ==> dbInteraction.Valid()
    {
      hide WellFormed, Chained, Stuck, Denoted, Sound, Consistent, AllFit, NoDuplicates, ConnectedToDenoted, AppliedAll,
        NothingBelow, AcceptableAll, Acyclic;
      ghost var before := dbInteraction.db;
      generated := [];
      var connectedObjects := dbInteraction.ConnectedInContext(context);
      if connectedObjects.None? {
        return Failed, generated;
      }
      var expanded := dbInteraction.ExpandContextStack(context);
      var toRename := expanded.value;
      var together := confirms && !nonInteractiveMode && !forceNonInteractive;
      if connectedObjects.value != [] && together {
        toRename := toRename + connectedObjects.value;
      }
      WholeRenameBatch(before, context, together, expanded.value, connectedObjects.value, toRename);
      var thrown;
      thrown, generated := dbInteraction.RenameObjects(toRename, newName);
      outcome := if thrown then Refused else Done(toRename);
    }
  }

  /** One completely named object. */
  predicate FullContext(context: Stack) {
    context != [] && FilterFree(context) && forall i | 0 <= i < |context| :: IsIdent(context[i].name)
  }

  function TheObject(context: Stack): Object
    requires FullContext(context)
  {
    Object(Last(context).kind, StackPath(context))
  }

  /** Afterwards the object exists, and the server had nothing against it if it did not before. */
  ghost predicate MadeSure(before: Db, after: Db, o: Object) {
    && after.objects == before.objects + {o}
    && Acyclic(before.relations.embeddedInto)
    && (o in before.objects || Acceptable(before.relations, "", before.objects, Create(o)))
  }

  /** Everything the stack stands for exists, or the one nameless object under the name the server gave it. */
  ghost predicate AllMade(before: Db, after: Db, context: Stack, item: Item)
    requires context != []
  {
    if !Nameless(Last(context)) then AllWantedExist(before, after, context, "")
    else exists o :: Wanted(before, context, "", o) && CompletesOne(before.objects, after.objects, o, item)
  }

  ghost predicate NothingToMake(db: Db, context: Stack)
    requires context != []
  {
    Stuck(db, context) || forall o :: !Wanted(db, context, "", o)
  }

  ghost predicate SomeUnacceptable(db: Db, context: Stack)
    requires context != []
  {
    Acyclic(db.relations.embeddedInto)
    && exists o :: Wanted(db, context, "", o) && !Acceptable(db.relations, "", db.objects, Create(o))
  }

  /** Nothing in the stack lacks a name, and everything it stands for exists. */
  ghost predicate AllThereAlready(db: Db, context: Stack)
    requires context != []
  {
    && (forall i | 0 <= i < |context| :: !Nameless(context[i]))
    && forall o | Wanted(db, context, "", o) :: o in db.objects
  }

  /** The server takes the request for the object. */
  ghost predicate CanAdd(db: Db, o: Object, willing: bool) {
    willing && Acyclic(db.relations.embeddedInto) && Acceptable(db.relations, "", db.objects, Create(o))
  }

  /** The object is there, or the server takes the request for it. */
  ghost predicate CanMake(db: Db, o: Object, willing: bool) {
    o in db.objects || CanAdd(db, o, willing)
  }

  lemma AlreadyThere(db: Db, o: Object)
    requires WellFormed(db) && o in db.objects
    ensures MadeSure(db, db, o)
  {
    hide AllFit;
    assert db.objects + {o} == db.objects;
  }

  /** The path of a completely named object is read back as it was printed. */
  lemma FullPath(context: Stack)
    requires FullContext(context)
    ensures PathToVector(VectorToPath(StackPath(context))) == Some(StackPath(context))
    ensures Named(TheObject(context)) && !Nameless(Last(context))
  {
    hide IsIdent, PathToVector, VectorToPath;
    var names := StackPath(context);
    forall i | 0 <= i < |names| ensures IsIdent(names[i]) {
      assert names[i] == context[i].name;
    }
    NotEmptyIdent(Last(names));
    PrintThenRead(names);
  }

  lemma NotEmptyIdent(s: Ident)
    requires IsIdent(s)
    ensures s != ""
  {
  }

  lemma AllNamedItems(context: Stack)
    requires FullContext(context)
    ensures forall i | 0 <= i < |context| :: !Nameless(context[i])
  {
  }

  lemma OnlyThis(db: Db, context: Stack)
    requires FullContext(context)
    ensures forall o :: Wanted(db, context, "", o) <==> o == TheObject(context)
  {
    hide Denoted, IsIdent;
    forall o ensures Wanted(db, context, "", o) <==> o == TheObject(context) {
      FilterFreeDenotes(db, context, o);
    }
  }

  predicate NothingInsideAny(db: Db, objects: seq<Object>) {
    forall o | o in objects :: NothingBelow(db.relations, o, db.objects)
  }

  /** The denoted objects, perhaps with those connected to them, and none of them twice. */
  ghost predicate RenameBatch(db: Db, context: Stack, together: bool, batch: seq<Object>) {
    && NoDuplicates(batch)
    && forall x :: x in batch <==> Denoted(db, context, x) || (together && ConnectedToDenoted(db, context, x))
  }

  lemma WholeRenameBatch(db: Db, context: Stack, together: bool, expanded: seq<Object>, connected: seq<Object>,
      batch: seq<Object>)
    requires Lists(db, context, expanded) && NoDuplicates(connected)
    requires forall x :: x in connected <==> ConnectedToDenoted(db, context, x)
    requires batch == if connected != [] && together then expanded + connected else expanded
    ensures RenameBatch(db, context, together, batch)
    ensures forall o | o in batch :: o.name != []
  {
    hide NoDuplicates, ConnectedToDenoted, Denoted;
    DenotedNamed(db, context);
    forall x | ConnectedToDenoted(db, context, x) ensures !Denoted(db, context, x) && x.name != [] {
      ConnectedNotDenoted(db, context, x);
    }
    Joined(expanded, connected);
  }

  lemma DenotedNamed(db: Db, context: Stack)
    ensures forall o | Denoted(db, context, o) :: o.name != []
  {
  }

  lemma ConnectedNotDenoted(db: Db, context: Stack, x: Object)
    requires ConnectedToDenoted(db, context, x)
    ensures !Denoted(db, context, x) && x.name != []
  {
    hide Reachable;
    var o :| Denoted(db, context, o) && ConnectedTo(db, o, x);
    SameNameConnected(db, o, x);
    assert o == Object(o.kind, o.name) && x == Object(x.kind, x.name);
  }

  /** What remains is what the stack does not stand for and is not inside of it. */
  ghost predicate DeletedWithInside(before: Db, after: Db, context: Stack) {
    forall x :: x in after.objects <==>
      x in before.objects && !Denoted(before, context, x) && !InsideDenoted(before, context, x)
  }

  lemma NestedFound(db: Db, context: Stack, nested: seq<Object>)
    requires forall x :: x in nested <==> InsideDenoted(db, context, x)
    ensures nested != [] <==> exists x :: InsideDenoted(db, context, x)
  {
    hide InsideDenoted;
    if nested != [] {
      assert nested[0] in nested;
    }
  }

  lemma ReadableNamed(db: Db, context: Stack)
    requires !Unreadable(db, context)
    ensures forall o | Denoted(db, context, o) :: Named(o)
  {
    hide Denoted, Stuck;
    forall o | Denoted(db, context, o) ensures Named(o) {
      assert FullName(o.name);
      NotEmptyIdent(Last(o.name));
    }
  }

  lemma NamedBatch(db: Db, context: Stack, expanded: seq<Object>, nested: seq<Object>)
    requires WellFormed(db) && Lists(db, context, expanded) && forall o | Denoted(db, context, o) :: Named(o)
    requires forall x :: x in nested <==> InsideDenoted(db, context, x)
    ensures AllNamed(expanded + nested)
  {
    hide Denoted, NoDuplicates, WellFormed;
    forall o | o in expanded + nested ensures Named(o) {
      if o in nested {
        InsideExists(db, context, o);
        Existing(db, o);
      }
    }
  }

  lemma InsideExists(db: Db, context: Stack, x: Object)
    requires WellFormed(db) && InsideDenoted(db, context, x)
    ensures x in db.objects
  {
    hide Denoted, WellFormed;
    var o :| Denoted(db, context, o) && Reachable(db, Nested, o, x);
    var path :| Walk(db, Nested, o, path) && Last(path) == x;
    NestedNames(db, o, path);
  }

  lemma NothingInside(before: Db, after: Db, context: Stack, nested: seq<Object>)
    requires nested == [] && forall x :: x in nested <==> InsideDenoted(before, context, x)
    requires forall x :: x in after.objects <==> x in before.objects && !Denoted(before, context, x)
    ensures DeletedWithInside(before, after, context)
  {
    hide Denoted, InsideDenoted;
    forall x ensures !InsideDenoted(before, context, x) {
      assert x !in nested;
    }
  }

  lemma EverythingInside(before: Db, after: Db, context: Stack, expanded: seq<Object>, nested: seq<Object>)
    requires Lists(before, context, expanded) && forall x :: x in nested <==> InsideDenoted(before, context, x)
    requires after.objects == before.objects - Elements(expanded + nested)
    ensures DeletedWithInside(before, after, context)
  {
    hide Denoted, InsideDenoted, NoDuplicates;
    assert forall x :: x in expanded + nested <==> x in expanded || x in nested;
  }

  /** Nothing is deleted twice. */
  lemma DeletionBatch(db: Db, context: Stack, expanded: seq<Object>, nested: seq<Object>)
    requires WellFormed(db) && Chained(db.relations, context) && !Unreadable(db, context)
    requires Lists(db, context, expanded)
    requires NoDuplicates(nested) && forall x :: x in nested <==> InsideDenoted(db, context, x)
    ensures NoDuplicates(expanded + nested)
  {
    hide WellFormed, Chained, Denoted, NoDuplicates, Stuck;
    forall x | x in expanded ensures x !in nested {
      if InsideDenoted(db, context, x) {
        var o :| Denoted(db, context, o) && Reachable(db, Nested, o, x);
        NotInsideEachOther(db, context, o, x);
      }
    }
    Joined(expanded, nested);
  }

  lemma NotInsideEachOther(db: Db, context: Stack, a: Object, b: Object)
    requires WellFormed(db) && Chained(db.relations, context) && !Unreadable(db, context)
    requires Denoted(db, context, a) && Denoted(db, context, b)
    ensures !Reachable(db, Nested, a, b)
  {
    hide Chained, Stuck;
    DenotedFits(db, context, a);
    DenotedFits(db, context, b);
    SameKindNames(db.relations, a, b);
    if Reachable(db, Nested, a, b) {
      var path :| Walk(db, Nested, a, path) && Last(path) == b;
      NestedNames(db, a, path);
    }
  }

  /** Deleting everything inside as well leaves no embedded object without its parent. */
  lemma DeletionKeepsParents(before: Db, after: Db, context: Stack)
    requires ParentsExist(before.relations, before.objects) && after.relations == before.relations
    requires DeletedWithInside(before, after, context)
    ensures ParentsExist(after.relations, after.objects)
  {
    hide Denoted, Reachable;
    var r := before.relations;
    forall x | x in after.objects && x.kind in r.embeddedInto && x.name != []
      ensures Parent(r, x) in after.objects
    {
      var p := Parent(r, x);
      assert x in before.objects && p in before.objects;
      assert x in Next(before, Nested, p);
      OneStep(before, Nested, p, x);
      if InsideDenoted(before, context, p) {
        var o :| Denoted(before, context, o) && Reachable(before, Nested, o, p);
        StepLast(before, Nested, o, p, x);
      }
    }
  }
}
