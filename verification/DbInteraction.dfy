/**
 The client's view of the database: every question and every modification goes through this class, which remembers
 which objects exist while nobody else can change what the server shows.
 */
module DbInteractions {
  import opened Core
  import opened PathText
  import opened Schema
  import opened Database
  import opened Existence
  import opened Expansion
  import opened Reachability

  /** Refused: the server raised an exception. Failed: the client itself did. */
  datatype Outcome<+T> = Done(value: T) | Refused | Failed

  class DbInteraction {
    /** What the server shows this client. */
    var db: Db
    /** A changeset is attached or the view is frozen: modifications of others do not show. */
    var viewIsFixed: bool
    var objectExistsCache: Cache
    var stableView: bool
    /** The server takes the next request, as far as that does not depend on its objects; settled anew for every request. */
    var willing: bool

    ghost predicate Steady()
      reads this
    {
      WellFormed(db) && (stableView ==> viewIsFixed)
    }

    ghost predicate Valid()
      reads this
    {
      Steady() && (stableView ==> Sound(objectExistsCache, db.objects))
    }

    constructor (server: Db)
      requires WellFormed(server)
      ensures Valid() && db == server && !stableView
    {
      db, viewIsFixed, objectExistsCache, stableView := server, false, map[], false;
      willing := *;
    }

    // ---- The view ----

    method ClearCache()
      requires Steady()
      modifies this`objectExistsCache
      ensures Valid() && objectExistsCache == map[]
    {
      objectExistsCache := map[];
    }

    /** createNewChangeset and resumeChangeset; view is what the server shows inside the changeset. */
    method AttachChangeset(view: Db) returns (thrown: bool)
      requires Valid() && WellFormed(view)
      modifies this
      ensures !thrown ==> Valid() && stableView && viewIsFixed && db == view
      ensures thrown ==> db == old(db) && stableView && objectExistsCache == map[] && viewIsFixed == old(viewIsFixed)
    {
      ClearCache();
      stableView := true;
      thrown := *;
      if !thrown {
        db, viewIsFixed := view, true;
      }
    }

    /** commitChangeset, detachFromChangeset, abortChangeset and restoringCommit. */
    method LeaveChangeset(view: Db) returns (thrown: bool)
      requires Steady() && WellFormed(view)
      modifies this
      ensures Valid() && !stableView && objectExistsCache == map[]
      ensures if thrown then db == old(db) && viewIsFixed == old(viewIsFixed) else db == view && !viewIsFixed
    {
      ClearCache();
      stableView := false;
      thrown := *;
      if !thrown {
        db, viewIsFixed := view, false;
      }
    }

    method FreezeView(view: Db) returns (thrown: bool)
      requires Valid() && WellFormed(view)
      modifies this
      ensures !thrown ==> Valid() && stableView && viewIsFixed && db == view
      ensures thrown ==> db == old(db) && stableView && objectExistsCache == map[] && viewIsFixed == old(viewIsFixed)
    {
      stableView := true;
      objectExistsCache := map[];
      thrown := *;
      if !thrown {
        db, viewIsFixed := view, true;
      }
    }

    method UnFreezeView(view: Db) returns (thrown: bool)
      requires Steady() && WellFormed(view)
      modifies this
      ensures Valid() && !stableView && objectExistsCache == map[]
      ensures if thrown then db == old(db) && viewIsFixed == old(viewIsFixed) else db == view && !viewIsFixed
    {
      stableView := false;
      objectExistsCache := map[];
      thrown := *;
      if !thrown {
        db, viewIsFixed := view, false;
      }
    }

    /** Somebody else commits; without a fixed view this client sees it at once. */
    method OthersCommit(view: Db)
      requires Valid() && WellFormed(view) && (viewIsFixed ==> view == db)
      modifies this`db
      ensures Valid() && db == view
    {
      db := view;
    }

    // ---- Looking up ----

    /** What objectExists answers. */
    function Answer(o: Object): bool
      reads this
    {
      if VectorToPath(o.name) == "" then false
      else if stableView && o in objectExistsCache then objectExistsCache[o]
      else o in db.objects
    }

    lemma NamedText(o: Object)
      requires Named(o)
      ensures VectorToPath(o.name) != ""
    {
    }

    method ObjectExists(o: Object) returns (exists_: bool)
      modifies this`objectExistsCache
      ensures exists_ == old(Answer(o))
      ensures objectExistsCache == old(objectExistsCache)
        || ((o !in old(objectExistsCache) || !stableView) && objectExistsCache == old(objectExistsCache)[o := exists_])
      ensures old(Valid()) ==> Valid() && (Named(o) ==> exists_ == (o in db.objects))
    {
      hide WellFormed;
      if Named(o) {
        NamedText(o);
      }
      if VectorToPath(o.name) == "" {
        return false;
      }
      if stableView && o in objectExistsCache {
        return objectExistsCache[o];
      }
      objectExistsCache := objectExistsCache[o := o in db.objects];
      return objectExistsCache[o];
    }

    /** The objects with these names; a stable view remembers that they exist. */
    method Remember(kind: Ident, names: seq<Name>) returns (objects: seq<Object>)
      requires Valid() && forall n | n in names :: Object(kind, n) in db.objects
      modifies this`objectExistsCache
      ensures Valid() && objects == Objects(kind, names)
    {
      hide WellFormed;
      objects := [];
      for i := 0 to |names|
        invariant Valid() && |objects| == i && forall j | 0 <= j < i :: objects[j] == Object(kind, names[j])
      {
        objects := objects + [Object(kind, names[i])];
        if stableView {
          objectExistsCache := objectExistsCache[Object(kind, names[i]) := true];
        }
      }
    }

    method KindInstances(kindName: Ident) returns (objects: seq<Object>)
      requires Valid()
      modifies this`objectExistsCache
      ensures Valid() && NoDuplicates(objects)
      ensures forall o :: o in objects <==> o in db.objects && o.kind == kindName
    {
      hide WellFormed, NoDuplicates, Sound;
      var names := Instances(db, kindName, None);
      objects := Remember(kindName, names);
      ObjectsOfNames(kindName, names);
      assert forall o: Object | o.kind == kindName :: o == Object(kindName, o.name);
    }

    // ---- Expanding context stacks ----

    /** The filter for everything embedded in the current objects that also satisfies the item's own filter. */
    method StepFilter(current: seq<Object>, own: Option<Filter>) returns (step: Filter)
      requires Consistent(db.relations) && forall o | o in current :: o.name != []
      ensures IsStepFilter(db.relations, step, current, own)
    {
      var currObjects := [];
      for i := 0 to |current|
        invariant |currObjects| == i && forall j | 0 <= j < i :: currObjects[j] == FilterOnName(db.relations, current[j])
      {
        assert current[i] in current;
        currObjects := currObjects + [FilterOnName(db.relations, current[i])];
      }
      var finalFilter := [Or(currObjects)];
      if own.Some? {
        finalFilter := finalFilter + [own.value];
      }
      step := And(finalFilter);
    }

    method StepInto(current: seq<Object>, kind: Ident, name: Ident) returns (objects: seq<Object>)
      ensures IsSteppedInto(current, kind, name, objects)
    {
      objects := current;
      for i := 0 to |objects|
        invariant |objects| == |current|
        invariant forall j | 0 <= j < i :: objects[j] == StepInContext(current[j], kind, name)
        invariant forall j | i <= j < |current| :: objects[j] == current[j]
      {
        objects := objects[i := StepInContext(objects[i], kind, name)];
      }
    }

    method HasNameless(current: seq<Object>) returns (found: Option<Object>)
      requires forall o | o in current :: o.name != []
      ensures found.None? ==> AllNamed(current)
      ensures found.Some? ==> found.value in current && found.value.name != [] && Last(found.value.name) == ""
    {
      found := None;
      for i := 0 to |current|
        invariant forall j | 0 <= j < i :: Last(current[j].name) != ""
        invariant found.None?
      {
        assert current[i] in current;
        if Last(current[i].name) == "" {
          return Some(current[i]);
        }
      }
    }

    /** The first item of a stack with filters. */
    method FirstObjects(context: Stack) returns (objects: seq<Object>)
      requires Valid() && Chained(db.relations, context) && context != []
      modifies this`objectExistsCache
      ensures Valid() && Lists(db, context[..1], objects)
      ensures objects == [] ==> context[0].Flt?
    {
      hide WellFormed, NoDuplicates, Sound, Lists, Chained;
      var item := context[0];
      PrefixEnd(context, 0);
      if item.Flt? {
        var names := Instances(db, item.kind, item.filter);
        objects := Remember(item.kind, names);
        FirstItemLists(db, context[..1], names);
      } else {
        objects := [Object(item.kind, [item.name])];
        FilterFreeLists(db, context[..1]);
        assert StackPath(context[..1]) == [item.name];
      }
    }

    /** A later item: the objects embedded in the current ones. */
    method NextObjects(context: Stack, i: nat, current: seq<Object>) returns (objects: seq<Object>)
      requires Valid() && Chained(db.relations, context) && 0 < i < |context|
      requires Lists(db, context[..i], current) && Ready(db.relations, context[i - 1].kind, current)
      modifies this`objectExistsCache
      ensures Valid() && Lists(db, context[..i + 1], objects)
      ensures context[i].Obj? ==> |objects| == |current|
    {
      hide NoDuplicates, Sound, Lists, Chained, IsStepFilter, IsSteppedInto, Fits;
      var item := context[i];
      var stack := context[..i + 1];
      PrefixEnd(context, i);
      if item.Flt? {
        var step := StepFilter(current, item.filter);
        var names := Instances(db, item.kind, Some(step));
        objects := Remember(item.kind, names);
        ChainedPrefix(db.relations, context, i + 1);
        FilterItemLists(db, stack, current, step, names);
      } else {
        objects := StepInto(current, item.kind, item.name);
        ObjectItemLists(db, stack, current, objects);
        SameLength(current, item.kind, item.name, objects);
      }
    }

    lemma SameLength(current: seq<Object>, kind: Ident, name: Ident, objects: seq<Object>)
      requires IsSteppedInto(current, kind, name, objects)
      ensures |objects| == |current|
    {
    }

    /** None stands for the exception that a name is missing below the last item. */
    method ExpandContextStack(context: Stack) returns (objects: Option<seq<Object>>)
      requires Valid() && Chained(db.relations, context)
      modifies this`objectExistsCache
      ensures Valid()
      ensures objects.None? <==> Stuck(db, context)
      ensures objects.Some? ==> Lists(db, context, objects.value)
    {
      hide WellFormed, NoDuplicates, Sound, Lists, Chained, Ready, AllNamed, NamedBelow, Stuck;
      if context == [] {
        NoItems(db, context);
        return Some([]);
      }
      if FilterFree(context) {
        FilterFreeLists(db, context);
        NotStuck(context);
        return Some([Object(Last(context).kind, StackPath(context))]);
      }
      var current := FirstObjects(context);
      BottomNamed(context);
      if current == [] {
        StoppedEarly(db, context, 0);
        return Some([]);
      }
      var i := 1;
      while i < |context|
        invariant 1 <= i <= |context| && Valid() && current != []
        invariant Lists(db, context[..i], current) && NamedBelow(context[..i])
      {
        DenotedNames(context[..i], current);
        var nameless := HasNameless(current);
        if nameless.Some? {
          FoundNameless(db, context, i, current, nameless.value);
          return None;
        }
        AllReady(db, context, i, current);
        current := NextObjects(context, i, current);
        if current == [] {
          StoppedEarly(db, context, i);
          return Some([]);
        }
        i := i + 1;
      }
      assert context[..i] == context;
      ReachedEnd(db, context);
      return Some(current);
    }

    lemma NotStuck(context: Stack)
      requires FilterFree(context)
      ensures !Stuck(db, context)
    {
    }

    lemma BottomNamed(context: Stack)
      requires context != []
      ensures NamedBelow(context[..1])
    {
    }

    lemma DenotedNames(stack: Stack, current: seq<Object>)
      requires Lists(db, stack, current)
      ensures forall o | o in current :: o.name != []
    {
    }

    // ---- Connected objects ----

    /** filterOnName asks for the one object of a kind with a given name; the code asserts that it finds no other. */
    method FindNamed(wanted: Object) returns (found: bool)
      requires Valid() && Fits(db.relations, wanted)
      modifies this`objectExistsCache
      ensures Valid() && found == (wanted in db.objects)
    {
      hide NoDuplicates, Matches;
      var instances := Instances(db, wanted.kind, Some(FilterOnName(db.relations, wanted)));
      OnlyNamed(db, wanted, instances);
      assert |instances| <= 1;
      found := instances != [];
      if found {
        assert instances[0] in instances && instances[0] == wanted.name;
        if stableView {
          objectExistsCache := objectExistsCache[wanted := true];
        }
      }
    }

    lemma OnlyNamed(db: Db, wanted: Object, instances: seq<Name>)
      requires WellFormed(db) && Fits(db.relations, wanted) && NoDuplicates(instances)
      requires forall n :: n in instances <==>
        Object(wanted.kind, n) in db.objects && Matches(db, FilterOnName(db.relations, wanted), Object(wanted.kind, n))
      ensures |instances| <= 1 && (instances != [] <==> wanted in db.objects)
      ensures forall n | n in instances :: n == wanted.name
    {
      hide FilterOnName, Matches, Fits;
      forall n ensures n in instances <==> n == wanted.name && wanted in db.objects {
        if Object(wanted.kind, n) in db.objects {
          Existing(db, Object(wanted.kind, n));
          FilterOnNameSelects(db, wanted, Object(wanted.kind, n));
        }
      }
      AtMostOne(instances, wanted.name);
      assert wanted in db.objects ==> wanted.name in instances;
      if instances != [] {
        IsMember(instances, 0);
      }
    }

    lemma AtMostOne(names: seq<Name>, n: Name)
      requires NoDuplicates(names) && forall x | x in names :: x == n
      ensures |names| <= 1
    {
      if |names| > 1 {
        IsMember(names, 0);
        IsMember(names, 1);
      }
    }

    lemma IsMember(names: seq<Name>, i: nat)
      requires i < |names|
      ensures names[i] in names
    {
    }

    /** One of the two loops of connectedObjectsTransitivelyRec, over the kinds of one relation. */
    method FollowKinds(o: Object, kinds: seq<Ident>, visited: seq<Object>) returns (after: seq<Object>)
      requires Valid() && Fits(db.relations, o) && NoDuplicates(visited) && forall v | v in visited :: v in db.objects
      requires forall k | k in kinds :: Related(db.relations, o.kind, k)
      modifies this`objectExistsCache
      ensures Valid() && Progress(db, Connected, o, visited, after)
      ensures forall k | k in kinds && Object(k, o.name) in db.objects :: Object(k, o.name) in after
      decreases db.objects - Elements(visited), 0
    {
      hide WellFormed, NoDuplicates, Sound, Fits, Progress, Covered;
      after := visited;
      ProgressStarts(db, Connected, o, visited);
      for i := 0 to |kinds|
        invariant Valid() && Progress(db, Connected, o, visited, after)
        invariant forall j | 0 <= j < i && Object(kinds[j], o.name) in db.objects :: Object(kinds[j], o.name) in after
      {
        var mObj := Object(kinds[i], o.name);
        RelatedFits(db, o, mObj);
        var found := FindNamed(mObj);
        if found && mObj !in after {
          ghost var middle := after;
          ProgressFacts(db, Connected, o, visited, middle);
          Appended(middle, mObj);
          MoreVisited(db.objects, visited, middle, mObj);
          after := ConnectedObjectsTransitivelyRec(mObj, after + [mObj]);
          VisitNeighbour(db, Connected, o, visited, middle, mObj, after);
          Kept(db, mObj, middle, after);
        }
      }
    }

    lemma ProgressFacts(db: Db, link: Link, o: Object, visited: seq<Object>, after: seq<Object>)
      requires Progress(db, link, o, visited, after)
      ensures visited <= after && NoDuplicates(after) && forall v | v in after :: v in db.objects
    {
    }

    lemma Kept(db: Db, o: Object, middle: seq<Object>, after: seq<Object>)
      requires Explored(db, Connected, o, middle + [o], after)
      ensures forall v | v in middle :: v in after
    {
      Prefixes(middle, middle + [o], after);
    }

    lemma MoreVisited(objects: set<Object>, visited: seq<Object>, middle: seq<Object>, o: Object)
      requires visited <= middle && o in objects && o !in middle
      ensures objects - Elements(middle + [o]) < objects - Elements(visited)
    {
      assert forall v | v in visited :: v in middle + [o];
      assert o in middle + [o] && o !in visited;
      assert o in objects - Elements(visited) && o !in objects - Elements(middle + [o]);
    }

    lemma RelatedFits(db: Db, o: Object, other: Object)
      requires WellFormed(db) && Fits(db.relations, o) && Related(db.relations, o.kind, other.kind) && other.name == o.name
      ensures Fits(db.relations, other)
    {
    }

    method ConnectedObjectsTransitivelyRec(o: Object, visited: seq<Object>) returns (after: seq<Object>)
      requires Valid() && Fits(db.relations, o) && NoDuplicates(visited) && forall v | v in visited :: v in db.objects
      modifies this`objectExistsCache
      ensures Valid() && Explored(db, Connected, o, visited, after)
      decreases db.objects - Elements(visited), 1
    {
      hide WellFormed, NoDuplicates, Sound, Fits, Progress, Covered;
      var contains := ListedFor(db.relations.contains, o.kind);
      var containable := ListedFor(db.relations.containable, o.kind);
      var middle := FollowKinds(o, contains, visited);
      ProgressFacts(db, Connected, o, visited, middle);
      FewerLeft(db.objects, visited, middle);
      after := FollowKinds(o, containable, middle);
      ProgressFurther(db, Connected, o, visited, middle, after);
      BothRelations(db, o, contains, containable, middle, after);
    }

    lemma FewerLeft(objects: set<Object>, visited: seq<Object>, middle: seq<Object>)
      requires visited <= middle
      ensures objects - Elements(middle) == objects - Elements(visited)
           || objects - Elements(middle) < objects - Elements(visited)
    {
      assert objects - Elements(middle) <= objects - Elements(visited);
    }

    lemma ProgressFurther(db: Db, link: Link, o: Object, visited: seq<Object>, middle: seq<Object>, after: seq<Object>)
      requires Progress(db, link, o, visited, middle) && Progress(db, link, o, middle, after)
      ensures Progress(db, link, o, visited, after)
    {
      hide Reachable, Next, NoDuplicates, Covered;
      Prefixes(visited, middle, after);
      forall v | v in after && v !in visited ensures Reachable(db, link, o, v) && Covered(db, link, v, after) {
        if v in middle {
          CoveredFurther(db, link, v, middle, after);
        }
      }
    }

    lemma BothRelations(db: Db, o: Object, contains: seq<Ident>, containable: seq<Ident>, middle: seq<Object>,
        after: seq<Object>)
      requires contains == ListedFor(db.relations.contains, o.kind)
      requires containable == ListedFor(db.relations.containable, o.kind)
      requires forall k | k in contains && Object(k, o.name) in db.objects :: Object(k, o.name) in middle
      requires forall k | k in containable && Object(k, o.name) in db.objects :: Object(k, o.name) in after
      requires Progress(db, Connected, o, middle, after)
      ensures Covered(db, Connected, o, after)
    {
      hide Reachable, NoDuplicates;
      Prefixes([], middle, after);
      forall n | n in Next(db, Connected, o) ensures n in after {
        assert n == Object(n.kind, o.name);
      }
    }

    /** None stands for the exception that names are missing. */
    method ConnectedObjectsTransitively(o: Object) returns (connected: Option<seq<Object>>)
      requires Valid() && (FullName(o.name) ==> Fits(db.relations, o))
      modifies this`objectExistsCache
      ensures Valid() && (connected.None? <==> !FullName(o.name))
      ensures connected.Some? ==> NoDuplicates(connected.value)
      ensures connected.Some? ==>
        forall x :: x in connected.value <==> x != o && Reachable(db, Connected, o, x)
    {
      hide WellFormed, Sound, Fits, Progress, Covered, Reachable, NoDuplicates;
      if !FullName(o.name) {
        return None;
      }
      NoneVisited();
      var containedObjects := ConnectedObjectsTransitivelyRec(o, []);
      SearchIsExact(db, Connected, o, containedObjects);
      ProgressFacts(db, Connected, o, [], containedObjects);
      containedObjects := EraseFirst(containedObjects, o);
      return Some(containedObjects);
    }

    lemma NoneVisited()
      ensures NoDuplicates<Object>([])
    {
    }

    /** std::find, then erase. */
    method EraseFirst(objects: seq<Object>, o: Object) returns (rest: seq<Object>)
      requires NoDuplicates(objects)
      ensures NoDuplicates(rest) && forall x :: x in rest <==> x in objects && x != o
    {
      var it := 0;
      while it < |objects| && objects[it] != o
        invariant 0 <= it <= |objects| && forall j | 0 <= j < it :: objects[j] != o
      {
        it := it + 1;
      }
      rest := if it < |objects| then objects[..it] + objects[it + 1..] else objects;
    }

    // ---- Nested objects ----

    /** The inner loop: the objects of one embedded kind. */
    method VisitNested(o: Object, kind: Ident, emb: seq<Name>, visited: seq<Object>) returns (after: seq<Object>)
      requires Valid() && Fits(db.relations, o) && NoDuplicates(visited) && forall v | v in visited :: v in db.objects
      requires forall n | n in emb :: Object(kind, n) in Next(db, Nested, o)
      modifies this`objectExistsCache
      ensures Valid() && Progress(db, Nested, o, visited, after)
      ensures forall n | n in emb :: Object(kind, n) in after
      decreases db.objects - Elements(visited), 0
    {
      hide WellFormed, NoDuplicates, Fits, Progress, Covered;
      after := visited;
      ProgressStarts(db, Nested, o, visited);
      for i := 0 to |emb|
        invariant Valid() && Progress(db, Nested, o, visited, after)
        invariant forall j | 0 <= j < i :: Object(kind, emb[j]) in after
      {
        var nObj := Object(kind, emb[i]);
        ExistingFits(db, nObj);
        if stableView {
          objectExistsCache := objectExistsCache[nObj := true];
        }
        if nObj !in after {
          ghost var middle := after;
          ProgressFacts(db, Nested, o, visited, middle);
          Appended(middle, nObj);
          MoreVisited(db.objects, visited, middle, nObj);
          after := AllNestedObjectsTransitivelyRec(nObj, after + [nObj]);
          VisitNeighbour(db, Nested, o, visited, middle, nObj, after);
          KeptNested(db, nObj, middle, after);
        }
      }
    }

    lemma ExistingFits(db: Db, o: Object)
      requires WellFormed(db) && o in db.objects
      ensures Fits(db.relations, o)
    {
    }

    lemma KeptNested(db: Db, o: Object, middle: seq<Object>, after: seq<Object>)
      requires Explored(db, Nested, o, middle + [o], after)
      ensures forall v | v in middle :: v in after
    {
      Prefixes(middle, middle + [o], after);
    }

    method AllNestedObjectsTransitivelyRec(o: Object, visited: seq<Object>) returns (after: seq<Object>)
      requires Valid() && Fits(db.relations, o) && NoDuplicates(visited) && forall v | v in visited :: v in db.objects
      modifies this`objectExistsCache
      ensures Valid() && Explored(db, Nested, o, visited, after)
      decreases db.objects - Elements(visited), 1
    {
      hide WellFormed, NoDuplicates, Sound, Fits, Progress, Covered, Selected, Next, FilterOnName;
      after := visited;
      ProgressStarts(db, Nested, o, visited);
      var kinds := ListedFor(db.relations.embeds, o.kind);
      for i := 0 to |kinds|
        invariant Valid() && Progress(db, Nested, o, visited, after)
        invariant forall j | 0 <= j < i :: CoveredKind(db, o, kinds[j], after)
      {
        FitsNamed(db, o);
        var emb := Instances(db, kinds[i], Some(FilterOnName(db.relations, o)));
        EmbeddedInstances(db, o, kinds[i], emb);
        ghost var middle := after;
        ProgressFacts(db, Nested, o, visited, middle);
        FewerLeft(db.objects, visited, middle);
        after := VisitNested(o, kinds[i], emb, after);
        ProgressFurther(db, Nested, o, visited, middle, after);
        ProgressFacts(db, Nested, o, middle, after);
        CoveredKindsKept(db, o, kinds[..i], middle, after);
        EmbeddedCovered(db, o, kinds[i], emb, after);
      }
      AllKindsCovered(db, o, kinds, after);
    }

    lemma FitsNamed(db: Db, o: Object)
      requires WellFormed(db) && Fits(db.relations, o)
      ensures o.name != [] && db.relations.column.Keys == db.relations.embeddedInto.Keys
    {
    }

    ghost predicate CoveredKind(db: Db, o: Object, kind: Ident, after: seq<Object>) {
      forall n | n in Next(db, Nested, o) && n.kind == kind :: n in after
    }

    lemma CoveredKindsKept(db: Db, o: Object, kinds: seq<Ident>, middle: seq<Object>, after: seq<Object>)
      requires middle <= after && forall k | k in kinds :: CoveredKind(db, o, k, middle)
      ensures forall k | k in kinds :: CoveredKind(db, o, k, after)
    {
      hide Next;
      Prefixes([], middle, after);
    }

    lemma EmbeddedInstances(db: Db, o: Object, kind: Ident, emb: seq<Name>)
      requires WellFormed(db) && Fits(db.relations, o) && kind in ListedFor(db.relations.embeds, o.kind) && o.name != []
      requires forall n :: n in emb <==>
        Object(kind, n) in db.objects && Selected(db, Some(FilterOnName(db.relations, o)), Object(kind, n))
      ensures forall n :: n in emb <==> Object(kind, n) in Next(db, Nested, o)
    {
      hide FilterOnName, Fits, Acyclic, Matches;
      assert EmbeddedIn(db.relations, kind, o.kind);
      BelowDiffers(db.relations, kind, o.kind);
      forall n ensures n in emb <==> Object(kind, n) in Next(db, Nested, o) {
        var x := Object(kind, n);
        if x in db.objects {
          Existing(db, x);
          ParentFits(db.relations, x);
          FilterOnNameSelects(db, o, x);
        }
      }
    }

    lemma EmbeddedCovered(db: Db, o: Object, kind: Ident, emb: seq<Name>, after: seq<Object>)
      requires forall n :: n in emb <==> Object(kind, n) in Next(db, Nested, o)
      requires forall n | n in emb :: Object(kind, n) in after
      ensures CoveredKind(db, o, kind, after)
    {
      hide Next;
      forall x | x in Next(db, Nested, o) && x.kind == kind ensures x in after {
        assert x == Object(kind, x.name);
      }
    }

    lemma AllKindsCovered(db: Db, o: Object, kinds: seq<Ident>, after: seq<Object>)
      requires WellFormed(db) && kinds == ListedFor(db.relations.embeds, o.kind)
      requires forall j | 0 <= j < |kinds| :: CoveredKind(db, o, kinds[j], after)
      ensures Covered(db, Nested, o, after)
    {
      forall n | n in Next(db, Nested, o) ensures n in after {
        assert EmbeddedIn(db.relations, n.kind, o.kind);
        assert n.kind in kinds;
      }
    }

    /** None stands for the exception that names are missing. */
    method AllNestedObjectsTransitively(o: Object) returns (nested: Option<seq<Object>>)
      requires Valid() && (FullName(o.name) ==> Fits(db.relations, o))
      modifies this`objectExistsCache
      ensures Valid() && (nested.None? <==> !FullName(o.name))
      ensures nested.Some? ==> NoDuplicates(nested.value)
      ensures nested.Some? ==> forall x :: x in nested.value <==> Reachable(db, Nested, o, x)
    {
      hide WellFormed, Sound, Fits, Progress, Covered, Reachable, NoDuplicates;
      if !FullName(o.name) {
        return None;
      }
      NoneVisited();
      var nestedObjects := AllNestedObjectsTransitivelyRec(o, []);
      SearchIsExact(db, Nested, o, nestedObjects);
      ProgressFacts(db, Nested, o, [], nestedObjects);
      return Some(nestedObjects);
    }

    /** Everything inside the objects a context stack stands for; the newest findings go to the front. */
    method AllNestedInContext(context: Stack) returns (nested: Option<seq<Object>>)
      requires Valid() && Chained(db.relations, context)
      modifies this`objectExistsCache
      ensures Valid() && (nested.None? <==> Unreadable(db, context))
      ensures nested.Some? ==> NoDuplicates(nested.value)
      ensures nested.Some? ==> forall x :: x in nested.value <==> InsideDenoted(db, context, x)
    {
      hide WellFormed, Sound, Fits, Reachable, NoDuplicates, Chained, Stuck, Denoted, FullName;
      var expanded := ExpandContextStack(context);
      if expanded.None? {
        return None;
      }
      var objects := expanded.value;
      var nestObjects := [];
      NoneVisited();
      for i := 0 to |objects|
        invariant Valid() && NoDuplicates(nestObjects)
        invariant forall j | 0 <= j < i :: FullName(objects[j].name)
        invariant forall x :: x in nestObjects <==> InsideOneOf(db, objects[..i], x)
      {
        assert objects[i] in objects;
        if FullName(objects[i].name) {
          DenotedFits(db, context, objects[i]);
        }
        var tmpObj := AllNestedObjectsTransitively(objects[i]);
        if tmpObj.None? {
          return None;
        }
        NestedBatch(db, context, objects, i, nestObjects, tmpObj.value);
        nestObjects := tmpObj.value + nestObjects;
      }
      assert objects[..|objects|] == objects;
      InsideListed(db, context, objects);
      return Some(nestObjects);
    }

    // ---- Modifications ----

    /** The server applies all changes if it is willing and they are acceptable one after the other, and otherwise none. */
    method ApplyBatchedChanges(changes: seq<Change>) returns (thrown: bool, generated: seq<Ident>)
      requires WellFormed(db)
      modifies this`db, this`willing
      ensures WellFormed(db) && Acyclic(db.relations.embeddedInto)
      ensures db.relations == old(db.relations) && |generated| == |changes|
      ensures thrown <==> !old(willing) || !AcceptableAll(db.relations, generated, old(db.objects), changes)
      ensures thrown ==> db == old(db)
      ensures !thrown ==> db.objects == AppliedAll(db.relations, generated, old(db.objects), changes)
    {
      hide Fits, AppliedAll, AcceptableAll;
      generated := *;
      if |generated| != |changes| {
        generated := seq(|changes|, _ => "");
      }
      var takes := willing;
      willing := *;
      if !takes || !AcceptableAll(db.relations, generated, db.objects, changes) {
        return true, generated;
      }
      var facts: set<(Filter, Object)> := *;
      AllAppliedFit(db.relations, generated, db.objects, changes);
      db := db.(objects := AppliedAll(db.relations, generated, db.objects, changes), facts := facts);
      return false, generated;
    }

    /** What the two loops over objects keep: the cache agrees with the server as it will be after the batch. */
    ghost predicate Foresees(objects: set<Object>)
      reads this
    {
      stableView ==> Sound(objectExistsCache, objects)
    }

    lemma Foreseen(o: Object, objects: set<Object>)
      requires Foresees(objects) && Named(o) && (o in objects <==> o in db.objects)
      ensures Answer(o) <==> o in db.objects
    {
      NamedText(o);
    }

    /** One round of the loop of deleteObjects; left is what exists once the batch so far is applied. */
    method PrepareDeletion(o: Object, ghost left: set<Object>) returns (exists_: bool)
      requires WellFormed(db) && Foresees(left) && (o in left <==> o in db.objects)
      modifies this`objectExistsCache
      ensures Foresees(left - {o})
      ensures o in db.objects ==> exists_
      ensures Named(o) ==> exists_ == (o in db.objects)
    {
      hide WellFormed, Answer;
      if o in db.objects {
        ExistingNamed(db, o);
      }
      if Named(o) && Foresees(left) {
        Foreseen(o, left);
      }
      exists_ := ObjectExists(o);
      if exists_ && stableView {
        objectExistsCache := objectExistsCache[o := false];
      }
    }

    /** One round of the loop of createObject. */
    method PrepareCreation(o: Object, ghost left: set<Object>) returns (missing: bool)
      requires Foresees(left) && (o in left <==> o in db.objects)
      modifies this`objectExistsCache
      ensures Foresees(left + {o})
      ensures Named(o) ==> missing == (o !in db.objects)
    {
      hide WellFormed, Answer;
      if Named(o) {
        Foreseen(o, left);
      }
      var exists_ := ObjectExists(o);
      missing := !exists_;
      if missing && stableView {
        objectExistsCache := objectExistsCache[o := true];
      }
    }

    lemma ExistingNamed(db: Db, o: Object)
      requires WellFormed(db) && o in db.objects
      ensures Named(o)
    {
    }

    /** Deletes the listed objects as far as they exist; the list must not name one twice. */
    method DeleteObjects(objects: seq<Object>) returns (thrown: bool)
      requires Valid() && NoDuplicates(objects)
      modifies this
      ensures Steady() && db.relations == old(db.relations)
      ensures stableView == old(stableView) && viewIsFixed == old(viewIsFixed)
      ensures thrown ==> db == old(db)
      ensures !thrown ==> Valid() && db.objects == old(db.objects) - Elements(objects)
      ensures !old(willing) ==> thrown
      ensures AllNamed(objects) && old(willing) ==> !thrown
    {
      hide WellFormed, NoDuplicates, Elements, Sound, Acyclic, AppliedAll, AcceptableAll, AllNamed;
      ghost var existing := db.objects;
      var modifications: seq<Change> := [];
      NothingListed(existing, objects);
      for i := 0 to |objects|
        invariant WellFormed(db) && db == old(db) && stableView == old(stableView) && viewIsFixed == old(viewIsFixed)
        invariant willing == old(willing)
        invariant Foresees(existing - Elements(objects[..i]))
        invariant DeletesSome(existing, objects[..i], modifications)
        invariant AllNamed(objects) ==> forall c | c in modifications :: c.o in existing
      {
        ListedNext(existing, objects, i);
        NamedAt(objects, i);
        var exists_ := PrepareDeletion(objects[i], existing - Elements(objects[..i]));
        ghost var before := modifications;
        if exists_ {
          modifications := modifications + [Delete(objects[i])];
        }
        DeletesMore(existing, objects, i, before, exists_);
      }
      assert objects[..|objects|] == objects;
      var generated: seq<Ident>;
      thrown, generated := ApplyBatchedChanges(modifications);
      if AllNamed(objects) {
        DeletionsAcceptable(db.relations, generated, existing, modifications);
      }
      if !thrown {
        DeletedBatch(db.relations, generated, existing, objects, modifications);
      }
    }

    method DeleteObject(context: Stack) returns (outcome: Outcome<bool>)
      requires Valid() && Chained(db.relations, context) && context != []
      modifies this
      ensures Steady() && db.relations == old(db.relations)
      ensures outcome.Done? ==> Valid() && outcome == Done(true)
      ensures outcome.Done? ==> forall x :: x in db.objects <==> x in old(db.objects) && !Denoted(old(db), context, x)
      ensures outcome.Failed? <==> Stuck(old(db), context)
      ensures !outcome.Done? ==> db == old(db)
      ensures !old(willing) ==> !outcome.Done?
      ensures old(willing) && (forall o | Denoted(old(db), context, o) :: Named(o)) ==> !outcome.Refused?
    {
      hide WellFormed, NoDuplicates, Sound, Chained, Denoted, Stuck, AllNamed;
      var objects := ExpandContextStack(context);
      if objects.None? {
        return Failed;
      }
      AllNamedListed(objects.value);
      var thrown := DeleteObjects(objects.value);
      outcome := if thrown then Refused else Done(true);
    }

    /** What createObject and objectExists expand: with oldKind a filter still selects objects of that kind. */
    method ExpandTargets(context: Stack, oldKind: Ident) returns (objects: Option<seq<Object>>)
      requires Valid() && context != [] && Chained(db.relations, TargetStack(context, oldKind))
      modifies this`objectExistsCache
      ensures Valid()
      ensures objects.None? <==> Stuck(db, TargetStack(context, oldKind))
      ensures objects.Some? ==> NoDuplicates(objects.value)
      ensures objects.Some? ==> forall o :: o in objects.value <==> Wanted(db, context, oldKind, o)
    {
      hide WellFormed, Sound, Chained, Denoted, Stuck, NoDuplicates;
      var stack := TargetStack(context, oldKind);
      objects := ExpandContextStack(stack);
      if objects.Some? {
        var expanded := objects.value;
        ghost var found := expanded;
        for i := 0 to |expanded|
          invariant |expanded| == |found|
          invariant forall j | 0 <= j < i :: expanded[j] == Object(Last(context).kind, found[j].name)
          invariant forall j | i <= j < |found| :: expanded[j] == found[j]
        {
          expanded := expanded[i := Object(Last(context).kind, expanded[i].name)];
        }
        KindsChanged(db, context, oldKind, found, expanded);
        objects := Some(expanded);
      }
    }

    /** objectExists for whatever a context stack stands for: all of it is there, and nothing in the stack is nameless. */
    method ContextExists(context: Stack, oldKind: Ident) returns (all: bool)
      requires Valid() && context != [] && Chained(db.relations, TargetStack(context, oldKind))
      modifies this`objectExistsCache
      ensures Valid()
      ensures all <==>
        && (forall i | 0 <= i < |context| :: !Nameless(context[i]))
        && (forall o | Wanted(db, context, oldKind, o) :: o in db.objects)
    {
      hide WellFormed, Sound, Chained, Stuck, NoDuplicates, Wanted;
      for i := 0 to |context|
        invariant forall j | 0 <= j < i :: !Nameless(context[j])
      {
        if Nameless(context[i]) {
          return false;
        }
      }
      var expanded := ExpandTargets(context, oldKind);
      NamedNotStuck(db, context, oldKind);
      var objects := expanded.value;
      WantedNamed(db, context, oldKind, objects);
      for i := 0 to |objects|
        invariant Valid() && forall j | 0 <= j < i :: objects[j] in db.objects
      {
        NamedAt(objects, i);
        var exists_ := ObjectExists(objects[i]);
        if !exists_ {
          assert objects[i] in objects;
          return false;
        }
      }
      forall o | Wanted(db, context, oldKind, o) ensures o in db.objects {
        assert o in objects;
      }
      return true;
    }

    /** createObject for one object: the server is not asked whether it exists, and may complete its name. */
    method CreateOne(o: Object) returns (outcome: Outcome<Item>)
      requires Valid() && o.name != []
      modifies this
      ensures Steady() && db.relations == old(db.relations)
      ensures if outcome.Done? then CompletesOne(old(db).objects, db.objects, o, outcome.value)
        else outcome.Refused? && db == old(db) && Valid()
      ensures outcome.Done? && Named(o) ==> Valid() && outcome.value.name == Last(o.name)
      ensures Acyclic(db.relations.embeddedInto)
      ensures outcome.Done? ==> old(willing)
      ensures outcome.Refused? && old(willing) ==> exists g :: !Acceptable(db.relations, g, old(db).objects, Create(o))
      ensures Named(o) ==> (outcome.Done? <==> old(willing) && Acceptable(db.relations, "", old(db).objects, Create(o)))
    {
      hide WellFormed, Acyclic, Acceptable;
      var thrown, generated := ApplyBatchedChanges([Create(o)]);
      ghost var before := old(db).objects;
      SingleAcceptable(db.relations, generated, before, Create(o));
      if Named(o) {
        NamedAcceptable(db.relations, generated[0], before, o);
      }
      if thrown {
        return Refused;
      }
      SingleChange(db.relations, generated, before, Create(o));
      if stableView {
        objectExistsCache := objectExistsCache[o := true];
      }
      var newName := Completed(generated[0], o).name;
      CompletedLast(o, generated[0]);
      return Done(Obj(o.kind, Last(newName)));
    }

    /** createObject for several objects: those that do not exist yet are created in one batch. */
    method CreateMany(context: Stack, objects: seq<Object>) returns (outcome: Outcome<Item>)
      requires Valid() && context != [] && NoDuplicates(objects) && forall o | o in objects :: o.kind == Last(context).kind
      modifies this
      ensures Steady() && db.relations == old(db.relations)
      ensures outcome.Refused? ==> db == old(db)
      ensures outcome.Failed? ==> Nameless(Last(context))
      ensures outcome.Done? ==> outcome.value == Last(context) && !Nameless(Last(context))
      ensures !outcome.Refused? && AllNamed(objects) ==> Valid() && db.objects == old(db.objects) + Elements(objects)
      ensures Acyclic(db.relations.embeddedInto)
      ensures !old(willing) ==> outcome.Refused?
      ensures AllNamed(objects) ==> (outcome.Refused? <==>
        !old(willing) || exists o :: o in objects && CannotAdd(db.relations, old(db).objects, o))
    {
      hide WellFormed, NoDuplicates, Elements, Sound, Acyclic, AppliedAll, AcceptableAll, AllNamed, Acceptable;
      ghost var existing := db.objects;
      var modifications: seq<Change> := [];
      NothingListed(existing, objects);
      for i := 0 to |objects|
        invariant WellFormed(db) && db == old(db) && stableView == old(stableView) && viewIsFixed == old(viewIsFixed)
        invariant willing == old(willing)
        invariant Foresees(existing + Elements(objects[..i]))
        invariant AllNamed(objects) ==> CreatesMissing(existing, objects[..i], modifications)
      {
        ListedNext(existing, objects, i);
        var missing := PrepareCreation(objects[i], existing + Elements(objects[..i]));
        ghost var before := modifications;
        if missing {
          modifications := modifications + [Create(objects[i])];
        }
        if AllNamed(objects) {
          CreatesMore(existing, objects, i, before, missing);
        }
      }
      assert objects[..|objects|] == objects;
      var thrown, generated := ApplyBatchedChanges(modifications);
      if AllNamed(objects) {
        CreatesAll(db.relations, generated, existing, objects, Last(context).kind, modifications);
      }
      if thrown {
        return Refused;
      }
      if AllNamed(objects) {
        CreatedBatch(db.relations, generated, existing, objects, modifications);
      }
      return if Nameless(Last(context)) then Failed else Done(Last(context));
    }

    /** createObject; the result is the item to continue with. */
    method CreateObject(context: Stack, oldKind: Ident) returns (outcome: Outcome<Item>)
      requires Valid() && context != [] && Chained(db.relations, TargetStack(context, oldKind))
      modifies this
      ensures Steady() && db.relations == old(db.relations)
      ensures outcome.Refused? ==> db == old(db)
      ensures outcome.Refused? && FilterFree(context) ==> Valid()
      ensures outcome.Done? && !Nameless(Last(context)) ==> Valid() && AllWantedExist(old(db), db, context, oldKind)
      ensures outcome.Done? && Last(context).Obj? && Last(context).name != "" ==> outcome.value == Last(context)
      ensures outcome.Done? && Nameless(Last(context)) ==>
        exists o :: Wanted(old(db), context, oldKind, o) && CompletesOne(old(db).objects, db.objects, o, outcome.value)
      ensures outcome.Failed? && !Nameless(Last(context)) ==> Valid() && db == old(db)
      ensures Acyclic(db.relations.embeddedInto)
      ensures FilterFree(context) && !Nameless(Last(context)) ==>
        var o := Object(Last(context).kind, StackPath(context));
        (outcome.Done? <==> old(willing) && Acceptable(db.relations, "", old(db).objects, Create(o)))
      ensures FilterFree(context) ==> !outcome.Failed?
      ensures !Nameless(Last(context)) ==> (outcome.Failed? <==>
        Stuck(old(db), TargetStack(context, oldKind)) || forall o :: !Wanted(old(db), context, oldKind, o))
      ensures outcome.Done? && !Nameless(Last(context)) ==>
        forall o | Wanted(old(db), context, oldKind, o) :: !CannotAdd(db.relations, old(db).objects, o)
      ensures !old(willing) ==> !outcome.Done?
      ensures outcome.Refused? && old(willing) && !Nameless(Last(context)) ==>
        exists o :: Wanted(old(db), context, oldKind, o) && !Acceptable(db.relations, "", old(db).objects, Create(o))
    {
      hide WellFormed, Sound, Chained, Stuck, NoDuplicates, Wanted, Elements, Acceptable, Acyclic;
      FollowsRelations(db);
      ghost var before := db;
      var expanded := ExpandTargets(context, oldKind);
      if FilterFree(context) {
        NotStuck(context);
        OneWanted(db, context, oldKind, expanded.value);
      }
      if expanded.None? || expanded.value == [] {
        return Failed;
      }
      var objects := expanded.value;
      assert objects[0] in objects && Wanted(before, context, oldKind, objects[0]);
      WantedNamed(db, context, oldKind, objects);
      if |objects| == 1 {
        assert objects[0] in objects;
        outcome := CreateOne(objects[0]);
        if outcome.Done? {
          CompletedAsWanted(old(db), db, context, oldKind, objects, outcome.value);
        }
      } else {
        outcome := CreateMany(context, objects);
        if outcome.Done? {
          CreatedAsWanted(old(db), db, context, oldKind, objects);
        }
      }
    }

    /** The loop of restoreDeletedObject: one request for each missing object. */
    method RestoreObjects(objects: seq<Object>) returns (thrown: bool)
      requires Valid() && NoDuplicates(objects) && forall o | o in objects :: o.name != []
      modifies this
      ensures Steady() && db.relations == old(db.relations)
      ensures AllNamed(objects) ==> Valid()
      ensures !thrown && AllNamed(objects) ==> db.objects == old(db.objects) + Elements(objects)
      ensures !thrown && AllNamed(objects) && objects != [] ==>
        && Acyclic(db.relations.embeddedInto)
        && (objects[0] in old(db.objects) || Acceptable(db.relations, "", old(db.objects), Create(objects[0])))
      ensures thrown && |objects| == 1 ==> db == old(db)
      ensures AllNamed(objects) ==> old(db.objects) <= db.objects <= old(db.objects) + Elements(objects)
      ensures AllNamed(objects) && !old(willing) ==>
        db == old(db) && (thrown <==> exists o :: o in objects && o !in old(db.objects))
      ensures |objects| == 1 && AllNamed(objects) ==>
        && Acyclic(db.relations.embeddedInto)
        && var can := old(willing) && Acceptable(db.relations, "", old(db.objects), Create(objects[0]));
           (thrown <==> objects[0] !in old(db.objects) && !can)
    {
      hide WellFormed, Sound, NoDuplicates, Elements, AllNamed, Acyclic, Acceptable;
      ghost var existing := db.objects;
      NothingListed(existing, objects);
      FollowsRelations(db);
      for i := 0 to |objects|
        invariant Acyclic(db.relations.embeddedInto)
        invariant i == 0 ==> db == old(db) && willing == old(willing)
        invariant AllNamed(objects) && !old(willing) ==>
          db == old(db) && !willing && forall j | 0 <= j < i :: objects[j] in existing
        invariant i > 0 && AllNamed(objects) ==>
          objects[0] in existing || (old(willing) && Acceptable(db.relations, "", existing, Create(objects[0])))
        invariant Steady() && db.relations == old(db.relations)
        invariant AllNamed(objects) ==> Valid() && db.objects == existing + Elements(objects[..i])
      {
        ListedNext(existing, objects, i);
        NamedAt(objects, i);
        var exists_ := ObjectExists(objects[i]);
        if !exists_ {
          var generated;
          thrown, generated := ApplyBatchedChanges([Create(objects[i])]);
          ghost var before := existing + Elements(objects[..i]);
          if AllNamed(objects) {
            SingleAcceptable(db.relations, generated, before, Create(objects[i]));
            NamedAcceptable(db.relations, generated[0], before, objects[i]);
          }
          if thrown {
            Lacking(objects, i, existing);
            return;
          }
          if AllNamed(objects) {
            SingleChange(db.relations, generated, before, Create(objects[i]));
            if stableView {
              CreateKeepsSound(objectExistsCache, before, objects[i], generated[0]);
            }
            assert Completed(generated[0], objects[i]) == objects[i];
          }
          if stableView {
            objectExistsCache := objectExistsCache[objects[i] := true];
          }
        }
      }
      assert objects[..|objects|] == objects;
      thrown := false;
    }

    /** restoreDeletedObject with one item for each level. */
    method RestoreDeletedObject(context: Stack) returns (outcome: Outcome<bool>)
      requires Valid() && context != [] && Chained(db.relations, context)
      modifies this
      ensures Steady() && db.relations == old(db.relations)
      ensures !Nameless(Last(context)) ==> Valid()
      ensures outcome.Done? && !Nameless(Last(context)) ==>
        forall o :: o in db.objects <==> o in old(db.objects) || Denoted(old(db), context, o)
      ensures outcome.Failed? <==> Stuck(old(db), context)
      ensures outcome.Failed? ==> db == old(db)
      ensures !Nameless(Last(context)) ==>
        forall o :: (o in old(db.objects) ==> o in db.objects)
          && (o in db.objects ==> o in old(db.objects) || Denoted(old(db), context, o))
      ensures !Nameless(Last(context)) && !old(willing) ==>
        && db == old(db)
        && (outcome.Refused? ==> exists o :: Denoted(old(db), context, o) && o !in old(db.objects))
    {
      hide WellFormed, Sound, Chained, Stuck, NoDuplicates, Denoted, Elements, AllNamed, Acyclic;
      var expanded := ExpandContextStack(context);
      if expanded.None? {
        return Failed;
      }
      ListedNamed(db, context, expanded.value);
      var thrown := RestoreObjects(expanded.value);
      InElements(expanded.value);
      return if thrown then Refused else Done(true);
    }

    /** restoreDeletedObject as it is called: a single item that holds the whole path, which expands to that object. */
    method RestoreWholePath(kind: Ident, objName: Ident) returns (thrown: bool)
      requires Valid() && PathToVector(objName).Some? && PathToVector(objName).value != []
      modifies this
      ensures Steady() && db.relations == old(db.relations)
      ensures var o := Object(kind, PathToVector(objName).value);
        && (Named(o) ==> Valid())
        && (!thrown && Named(o) ==> db.objects == old(db.objects) + {o})
        && (!thrown && Named(o) ==>
              && Acyclic(db.relations.embeddedInto)
              && (o in old(db.objects) || Acceptable(db.relations, "", old(db.objects), Create(o))))
        && (Named(o) ==>
              && Acyclic(db.relations.embeddedInto)
              && var can := old(willing) && Acceptable(db.relations, "", old(db.objects), Create(o));
                 (thrown <==> o !in old(db.objects) && !can))
      ensures thrown ==> db == old(db)
    {
      hide WellFormed, Sound, Acyclic, PathToVector, Acceptable;
      var o := Object(kind, PathToVector(objName).value);
      thrown := RestoreObjects([o]);
      assert Named(o) ==> AllNamed([o]);
      assert Elements([o]) == {o};
    }

    lemma Lacking(objects: seq<Object>, i: nat, existing: set<Object>)
      requires i < |objects|
      ensures objects[i] !in existing ==> exists o :: o in objects && o !in existing
      ensures Elements(objects[..i]) <= Elements(objects)
    {
    }

    lemma InElements(objects: seq<Object>)
      ensures forall o :: o in Elements(objects) <==> o in objects
    {
    }

    lemma AllNamedListed(objects: seq<Object>)
      ensures AllNamed(objects) <==> forall o | o in objects :: Named(o)
    {
    }

    lemma NamedAt(objects: seq<Object>, i: nat)
      requires i < |objects|
      ensures AllNamed(objects) ==> Named(objects[i])
    {
      assert objects[i] in objects;
    }

    method RenameObjects(objects: seq<Object>, newName: Ident) returns (thrown: bool, generated: seq<Ident>)
      requires Valid() && forall o | o in objects :: o.name != []
      modifies this
      ensures Steady() && db.relations == old(db.relations)
      ensures thrown ==> db == old(db)
      ensures |generated| == |objects| && Acyclic(db.relations.embeddedInto)
      ensures thrown <==> !old(willing) || !AcceptableAll(db.relations, generated, old(db.objects), Renamings(objects, newName))
      ensures !thrown ==> db.objects == AppliedAll(db.relations, generated, old(db.objects), Renamings(objects, newName))
      ensures !thrown && (forall o | o in objects :: NothingBelow(db.relations, o, old(db.objects))) ==> Valid()
    {
      hide WellFormed, Sound, AppliedAll, AcceptableAll, NothingBelow, Acyclic;
      ghost var existing, cache := db.objects, objectExistsCache;
      var modifications: seq<Change> := [];
      assert objects[..0] == [];
      for i := 0 to |objects|
        invariant db == old(db) && stableView == old(stableView) && viewIsFixed == old(viewIsFixed)
        invariant willing == old(willing)
        invariant modifications == Renamings(objects[..i], newName)
        invariant stableView ==> objectExistsCache == Noted(cache, objects[..i], newName)
      {
        var newObj := Renamed(objects[i], newName);
        modifications := modifications + [Rename(objects[i], newName)];
        if stableView {
          objectExistsCache := objectExistsCache[objects[i] := false][newObj := true];
        }
        assert DropLast(objects[..i + 1]) == objects[..i] && Last(objects[..i + 1]) == objects[i];
      }
      assert objects[..|objects|] == objects;
      thrown, generated := ApplyBatchedChanges(modifications);
      FollowsRelations(db);
      if !thrown && stableView && forall o | o in objects :: NothingBelow(db.relations, o, existing) {
        RenamingsKeepSound(db.relations, generated, existing, objects, newName, cache);
      }
    }

    lemma FollowsRelations(db: Db)
      requires WellFormed(db)
      ensures Acyclic(db.relations.embeddedInto)
    {
    }

    /** What is connected to the objects a context stack stands for; the newest findings go to the front. */
    method ConnectedInContext(context: Stack) returns (connected: Option<seq<Object>>)
      requires Valid() && Chained(db.relations, context)
      modifies this`objectExistsCache
      ensures Valid() && (connected.None? <==> Unreadable(db, context))
      ensures connected.Some? ==> NoDuplicates(connected.value)
      ensures connected.Some? ==> forall x :: x in connected.value <==> ConnectedToDenoted(db, context, x)
    {
      hide WellFormed, Sound, Fits, Reachable, NoDuplicates, Chained, Stuck, Denoted, FullName;
      var expanded := ExpandContextStack(context);
      if expanded.None? {
        return None;
      }
      var objects := expanded.value;
      var connObjects := [];
      NoneVisited();
      for i := 0 to |objects|
        invariant Valid() && NoDuplicates(connObjects)
        invariant forall j | 0 <= j < i :: FullName(objects[j].name)
        invariant forall x :: x in connObjects <==> ConnectedToOneOf(db, objects[..i], x)
      {
        assert objects[i] in objects;
        if FullName(objects[i].name) {
          DenotedFits(db, context, objects[i]);
        }
        var tmpObj := ConnectedObjectsTransitively(objects[i]);
        if tmpObj.None? {
          return None;
        }
        ConnectedBatch(db, context, objects, i, connObjects, tmpObj.value);
        connObjects := tmpObj.value + connObjects;
      }
      assert objects[..|objects|] == objects;
      ConnectedListed(db, context, objects);
      return Some(connObjects);
    }
  }

  ghost predicate InsideOneOf(db: Db, objects: seq<Object>, x: Object) {
    exists i :: 0 <= i < |objects| && Reachable(db, Nested, objects[i], x)
  }

  ghost predicate InsideDenoted(db: Db, stack: Stack, x: Object) {
    exists o :: Denoted(db, stack, o) && Reachable(db, Nested, o, x)
  }

  lemma InsideListed(db: Db, stack: Stack, objects: seq<Object>)
    requires Lists(db, stack, objects)
    ensures forall x :: InsideOneOf(db, objects, x) <==> InsideDenoted(db, stack, x)
  {
    hide Denoted, Reachable, NoDuplicates;
    forall x | InsideDenoted(db, stack, x) ensures InsideOneOf(db, objects, x) {
      var o :| Denoted(db, stack, o) && Reachable(db, Nested, o, x);
      var i :| 0 <= i < |objects| && objects[i] == o;
    }
    forall x | InsideOneOf(db, objects, x) ensures InsideDenoted(db, stack, x) {
      var i :| 0 <= i < |objects| && Reachable(db, Nested, objects[i], x);
      assert objects[i] in objects;
    }
  }

  lemma NestedBatch(db: Db, stack: Stack, objects: seq<Object>, i: nat, nested: seq<Object>, more: seq<Object>)
    requires WellFormed(db) && Chained(db.relations, stack) && Lists(db, stack, objects) && i < |objects|
    requires NoDuplicates(nested) && NoDuplicates(more)
    requires forall j | 0 <= j <= i :: FullName(objects[j].name)
    requires forall x :: x in nested <==> InsideOneOf(db, objects[..i], x)
    requires forall x :: x in more <==> Reachable(db, Nested, objects[i], x)
    ensures NoDuplicates(more + nested)
    ensures forall x :: x in more + nested <==> InsideOneOf(db, objects[..i + 1], x)
  {
    hide WellFormed, Chained, Lists, Reachable, FullName, NoDuplicates;
    forall x | x in more ensures x !in nested {
      if InsideOneOf(db, objects[..i], x) {
        var j :| 0 <= j < i && Reachable(db, Nested, objects[..i][j], x);
        DenotedApart(db, stack, objects, j, i, x);
      }
    }
    Joined(more, nested);
    forall x ensures x in more + nested <==> InsideOneOf(db, objects[..i + 1], x) {
      InsideOneMore(db, objects, i, x);
    }
  }

  lemma InsideOneMore(db: Db, objects: seq<Object>, i: nat, x: Object)
    requires i < |objects|
    ensures InsideOneOf(db, objects[..i + 1], x) <==>
      InsideOneOf(db, objects[..i], x) || Reachable(db, Nested, objects[i], x)
  {
    hide Reachable;
    var less, more := objects[..i], objects[..i + 1];
    if InsideOneOf(db, less, x) {
      var j :| 0 <= j < |less| && Reachable(db, Nested, less[j], x);
      assert more[j] == less[j];
    }
    if Reachable(db, Nested, objects[i], x) {
      assert more[i] == objects[i];
    }
    if InsideOneOf(db, more, x) {
      var j :| 0 <= j < |more| && Reachable(db, Nested, more[j], x);
      assert j < i ==> less[j] == more[j];
    }
  }

  lemma Joined(a: seq<Object>, b: seq<Object>)
    requires NoDuplicates(a) && NoDuplicates(b) && forall x | x in a :: x !in b
    ensures NoDuplicates(a + b)
  {
    forall i, j | 0 <= i < j < |a + b| ensures (a + b)[i] != (a + b)[j] {
      if i < |a| <= j {
        assert a[i] in a && b[j - |a|] in b;
      }
    }
  }

  /** Nothing is inside two denoted objects, and no denoted object is inside another. */
  lemma DenotedApart(db: Db, stack: Stack, objects: seq<Object>, i: nat, j: nat, x: Object)
    requires WellFormed(db) && Chained(db.relations, stack) && Lists(db, stack, objects) && i < j < |objects|
    requires FullName(objects[i].name) && FullName(objects[j].name)
    ensures !(Reachable(db, Nested, objects[i], x) && Reachable(db, Nested, objects[j], x))
  {
    hide Chained, Reachable, FullName;
    var a, b := objects[i], objects[j];
    assert a in objects && b in objects;
    DenotedFits(db, stack, a);
    DenotedFits(db, stack, b);
    SameKindNames(db.relations, a, b);
    NestedApart(db, a, b, x);
  }

  lemma SameKindNames(r: Relations, a: Object, b: Object)
    requires Consistent(r) && Fits(r, a) && Fits(r, b) && a.kind == b.kind
    ensures |a.name| == |b.name| && (a != b ==> a.name != b.name)
  {
  }

  // ---- Batches of deletions and creations ----

  lemma NothingListed(existing: set<Object>, objects: seq<Object>)
    ensures existing - Elements(objects[..0]) == existing && existing + Elements(objects[..0]) == existing
    ensures DeletesSome(existing, objects[..0], [])
  {
  }

  lemma ListedNext(existing: set<Object>, objects: seq<Object>, i: nat)
    requires NoDuplicates(objects) && i < |objects|
    ensures objects[i] in existing - Elements(objects[..i]) <==> objects[i] in existing
    ensures objects[i] in existing + Elements(objects[..i]) <==> objects[i] in existing
    ensures existing - Elements(objects[..i + 1]) == existing - Elements(objects[..i]) - {objects[i]}
    ensures existing + Elements(objects[..i + 1]) == existing + Elements(objects[..i]) + {objects[i]}
  {
    assert objects[..i + 1] == objects[..i] + [objects[i]];
  }

  /** The batch deletes only listed objects, and every listed one that exists. */
  predicate DeletesSome(existing: set<Object>, objects: seq<Object>, changes: seq<Change>) {
    && NoDuplicates(changes)
    && (forall c | c in changes :: c.Delete? && c.o in objects)
    && (forall o | o in objects && o in existing :: Delete(o) in changes)
  }

  lemma DeletesMore(existing: set<Object>, objects: seq<Object>, i: nat, changes: seq<Change>, deletes: bool)
    requires NoDuplicates(objects)
    requires i < |objects| && DeletesSome(existing, objects[..i], changes) && (objects[i] in existing ==> deletes)
    ensures DeletesSome(existing, objects[..i + 1], if deletes then changes + [Delete(objects[i])] else changes)
  {
    var more := if deletes then changes + [Delete(objects[i])] else changes;
    assert objects[..i + 1] == objects[..i] + [objects[i]];
    assert forall c | c in changes :: c in more;
    assert deletes ==> more[|more| - 1] == Delete(objects[i]);
    assert forall j | 0 <= j < |changes| :: changes[j] in changes;
  }

  /** Existing objects, each deleted once, can all be deleted. */
  lemma {:induction false} DeletionsAcceptable(r: Relations, generated: seq<Ident>, existing: set<Object>, changes: seq<Change>)
    requires Acyclic(r.embeddedInto) && |generated| == |changes| && NoDuplicates(changes)
    requires forall c | c in changes :: c.Delete? && c.o in existing
    ensures AcceptableAll(r, generated, existing, changes)
    decreases |changes|
  {
    hide Acyclic, Fits;
    if changes != [] {
      LastOrEarlier(changes);
      var rest := DropLast(changes);
      assert NoDuplicates(rest) && Last(changes) !in rest;
      DeletionsAcceptable(r, DropLast(generated), existing, rest);
      AllDeleted(r, DropLast(generated), existing, rest);
      assert Last(changes) in changes && Last(changes) == Delete(Last(changes).o);
    }
  }

  /** Creating named objects of one kind: each is judged by the objects in front of the batch. */
  lemma {:induction false} CreationsAcceptable(r: Relations, generated: seq<Ident>, existing: set<Object>, kind: Ident,
      changes: seq<Change>)
    requires Acyclic(r.embeddedInto) && |generated| == |changes| && NoDuplicates(changes)
    requires forall c | c in changes :: c.Create? && Named(c.o) && c.o.kind == kind
    ensures AcceptableAll(r, generated, existing, changes) <==> forall c | c in changes :: Acceptable(r, "", existing, c)
    decreases |changes|
  {
    hide Acyclic, Fits, Acceptable;
    if changes != [] {
      LastOrEarlier(changes);
      var rest := DropLast(changes);
      assert NoDuplicates(rest) && Last(changes) !in rest;
      CreationsAcceptable(r, DropLast(generated), existing, kind, rest);
      AllCreated(r, DropLast(generated), existing, rest);
      assert Last(changes) in changes && Last(changes) == Create(Last(changes).o);
      var middle := AppliedAll(r, DropLast(generated), existing, rest);
      SameForOne(r, Last(generated), existing, middle, kind, Last(changes).o);
    }
  }

  /** Other objects of the same kind make no difference. */
  lemma SameForOne(r: Relations, generated: Ident, existing: set<Object>, middle: set<Object>, kind: Ident, o: Object)
    requires Acyclic(r.embeddedInto) && Named(o) && o.kind == kind && existing <= middle
    requires forall x | x in middle && x !in existing :: x.kind == kind && x != o
    ensures Acceptable(r, generated, middle, Create(o)) <==> Acceptable(r, "", existing, Create(o))
  {
    hide Fits;
    assert Completed(generated, o) == Completed("", o) == o;
    if o.kind in r.embeddedInto {
      assert RankOf(r.embeddedInto)(r.embeddedInto[o.kind]) < RankOf(r.embeddedInto)(o.kind);
      assert Parent(r, o).kind != kind;
    }
  }

  lemma DeletedBatch(r: Relations, generated: seq<Ident>, existing: set<Object>, objects: seq<Object>,
      changes: seq<Change>)
    requires |generated| == |changes| && DeletesSome(existing, objects, changes)
    ensures AppliedAll(r, generated, existing, changes) == existing - Elements(objects)
  {
    hide AppliedAll;
    AllDeleted(r, generated, existing, changes);
  }

  // ---- The targets of createObject ----

  function TargetStack(context: Stack, oldKind: Ident): (stack: Stack)
    requires context != []
  {
    if Last(context).Flt? && oldKind != "" then DropLast(context) + [Flt(oldKind, Last(context).filter)] else context
  }

  predicate Wanted(db: Db, context: Stack, oldKind: Ident, o: Object)
    requires context != []
  {
    var stack := TargetStack(context, oldKind);
    o.kind == Last(context).kind && stack != [] && Denoted(db, stack, Object(Last(stack).kind, o.name))
  }

  /** Where everything has a name nothing is in the way of expanding. */
  lemma NamedNotStuck(db: Db, context: Stack, oldKind: Ident)
    requires context != [] && forall i | 0 <= i < |context| :: !Nameless(context[i])
    ensures !Stuck(db, TargetStack(context, oldKind))
  {
    var stack := TargetStack(context, oldKind);
    assert forall i | 0 <= i < |stack| :: !Nameless(stack[i]);
  }

  lemma KindsChanged(db: Db, context: Stack, oldKind: Ident, found: seq<Object>, changed: seq<Object>)
    requires context != [] && Lists(db, TargetStack(context, oldKind), found) && |changed| == |found|
    requires forall j | 0 <= j < |found| :: changed[j] == Object(Last(context).kind, found[j].name)
    ensures NoDuplicates(changed)
    ensures forall o :: o in changed <==> Wanted(db, context, oldKind, o)
  {
    var stack := TargetStack(context, oldKind);
    var kind := Last(stack).kind;
    assert forall j | 0 <= j < |found| :: found[j] in found;
    assert forall j | 0 <= j < |found| :: found[j].kind == kind;
    forall i, j | 0 <= i < j < |changed| ensures changed[i] != changed[j] {
      assert found[i] == Object(kind, found[i].name) && found[j] == Object(kind, found[j].name);
    }
    forall o ensures o in changed <==> Wanted(db, context, oldKind, o) {
      if Wanted(db, context, oldKind, o) {
        var p := Object(kind, o.name);
        assert p in found;
        var i :| 0 <= i < |found| && found[i] == p;
        assert changed[i] == o;
      }
    }
  }

  ghost predicate AllWantedExist(before: Db, after: Db, context: Stack, oldKind: Ident)
    requires context != []
  {
    forall o :: o in after.objects <==> o in before.objects || Wanted(before, context, oldKind, o)
  }

  /** Exactly one object was added; its name is the requested one, completed as the returned item says. */
  predicate CompletesOne(before: set<Object>, after: set<Object>, o: Object, item: Item) {
    item.Obj? && item.kind == o.kind && after == before + {Completed(item.name, o)}
  }

  lemma WantedNamed(db: Db, context: Stack, oldKind: Ident, objects: seq<Object>)
    requires WellFormed(db) && context != []
    requires forall o :: o in objects <==> Wanted(db, context, oldKind, o)
    ensures forall o | o in objects :: o.name != [] && o.kind == Last(context).kind
    ensures !Nameless(Last(context)) ==> AllNamed(objects)
    ensures Last(context).Obj? ==> forall o | o in objects :: Last(o.name) == Last(context).name
  {
    hide WellFormed;
    var stack := TargetStack(context, oldKind);
    forall o | o in objects
      ensures o.name != [] && (Last(context).Obj? ==> Last(o.name) == Last(context).name)
      ensures Last(context).Flt? ==> Last(o.name) != ""
    {
      var p := Object(Last(stack).kind, o.name);
      assert Wanted(db, context, oldKind, o);
      if Last(context).Flt? {
        assert Last(stack).Flt?;
        Existing(db, p);
      }
    }
  }

  lemma ListedNamed(db: Db, context: Stack, objects: seq<Object>)
    requires WellFormed(db) && context != [] && Lists(db, context, objects)
    ensures forall o | o in objects :: o.name != []
    ensures !Nameless(Last(context)) ==> AllNamed(objects)
  {
    hide WellFormed, NoDuplicates;
    forall o | o in objects && Last(context).Flt? ensures o.name != [] && Last(o.name) != "" {
      Existing(db, o);
    }
  }

  lemma CompletedAsWanted(before: Db, after: Db, context: Stack, oldKind: Ident, objects: seq<Object>, item: Item)
    requires context != [] && |objects| == 1 && (forall o :: o in objects <==> Wanted(before, context, oldKind, o))
    requires CompletesOne(before.objects, after.objects, objects[0], item)
    ensures Named(objects[0]) ==> AllWantedExist(before, after, context, oldKind)
    ensures Wanted(before, context, oldKind, objects[0])
  {
    hide Wanted;
    assert objects[0] in objects;
  }

  /** Without filters one object is wanted. */
  lemma OneWanted(db: Db, context: Stack, oldKind: Ident, objects: seq<Object>)
    requires context != [] && FilterFree(context) && NoDuplicates(objects)
    requires forall o :: o in objects <==> Wanted(db, context, oldKind, o)
    ensures objects == [Object(Last(context).kind, StackPath(context))]
  {
    hide Denoted;
    var only := Object(Last(context).kind, StackPath(context));
    forall o ensures o in objects <==> o == only {
      FilterFreeDenotes(db, context, o);
    }
    assert only in objects;
    assert |objects| > 1 ==> objects[0] != objects[1] && objects[0] in objects && objects[1] in objects;
    forall i | 0 <= i < |objects| ensures objects[i] == only {
      assert objects[i] in objects;
    }
  }

  lemma CreatedAsWanted(before: Db, after: Db, context: Stack, oldKind: Ident, objects: seq<Object>)
    requires context != [] && (forall o :: o in objects <==> Wanted(before, context, oldKind, o))
    requires after.objects == before.objects + Elements(objects)
    ensures AllWantedExist(before, after, context, oldKind)
  {
    hide Wanted;
  }

  lemma SingleChange(r: Relations, generated: seq<Ident>, before: set<Object>, change: Change)
    requires |generated| == 1
    ensures AppliedAll(r, generated, before, [change]) == Applied(r, generated[0], before, change)
  {
    assert AppliedAll(r, DropLast(generated), before, DropLast([change])) == before;
  }

  lemma SingleAcceptable(r: Relations, generated: seq<Ident>, before: set<Object>, change: Change)
    requires Acyclic(r.embeddedInto) && |generated| == 1
    ensures AcceptableAll(r, generated, before, [change]) <==> Acceptable(r, generated[0], before, change)
  {
    hide Acceptable;
    assert AppliedAll(r, DropLast(generated), before, DropLast([change])) == before;
    assert AcceptableAll(r, DropLast(generated), before, DropLast([change]));
  }

  /** The server has no name to generate. */
  lemma NamedAcceptable(r: Relations, generated: Ident, before: set<Object>, o: Object)
    requires Acyclic(r.embeddedInto) && Named(o)
    ensures Acceptable(r, generated, before, Create(o)) <==> Acceptable(r, "", before, Create(o))
  {
    hide Fits;
    assert Completed(generated, o) == Completed("", o) == o;
  }

  lemma CompletedLast(o: Object, generated: Ident)
    requires o.name != []
    ensures var c := Completed(generated, o);
      c.name != [] && c == Completed(Last(c.name), o) && (Named(o) ==> c == o)
  {
  }

  /** The batch creates exactly the listed objects that do not exist. */
  predicate CreatesMissing(existing: set<Object>, objects: seq<Object>, changes: seq<Change>) {
    && NoDuplicates(changes)
    && (forall c | c in changes :: c.Create? && Named(c.o) && c.o in objects && c.o !in existing)
    && (forall o | o in objects && o !in existing :: Create(o) in changes)
  }

  lemma CreatesMore(existing: set<Object>, objects: seq<Object>, i: nat, changes: seq<Change>, missing: bool)
    requires NoDuplicates(objects)
    requires i < |objects| && AllNamed(objects) && CreatesMissing(existing, objects[..i], changes)
    requires Named(objects[i]) ==> missing == (objects[i] !in existing)
    ensures CreatesMissing(existing, objects[..i + 1], if missing then changes + [Create(objects[i])] else changes)
  {
    var more := if missing then changes + [Create(objects[i])] else changes;
    assert objects[i] in objects;
    assert objects[..i + 1] == objects[..i] + [objects[i]];
    assert forall c | c in changes :: c in more;
    assert missing ==> more[|more| - 1] == Create(objects[i]);
    assert forall j | 0 <= j < |changes| :: changes[j] in changes;
  }

  /** The object is not there and the server's objects do not allow for it. */
  predicate CannotAdd(r: Relations, existing: set<Object>, o: Object)
    requires Acyclic(r.embeddedInto)
  {
    o !in existing && !Acceptable(r, "", existing, Create(o))
  }

  lemma CreatesAll(r: Relations, generated: seq<Ident>, existing: set<Object>, objects: seq<Object>, kind: Ident,
      changes: seq<Change>)
    requires Acyclic(r.embeddedInto) && |generated| == |changes| && CreatesMissing(existing, objects, changes)
    requires forall o | o in objects :: o.kind == kind
    ensures AcceptableAll(r, generated, existing, changes) <==> !exists o :: o in objects && CannotAdd(r, existing, o)
  {
    hide Acceptable, NoDuplicates, Acyclic;
    CreationsAcceptable(r, generated, existing, kind, changes);
    forall c | c in changes ensures c == Create(c.o) && c.o in objects && c.o !in existing {
    }
    forall o | o in objects && o !in existing ensures Create(o) in changes {
    }
  }

  lemma CreatedBatch(r: Relations, generated: seq<Ident>, existing: set<Object>, objects: seq<Object>,
      changes: seq<Change>)
    requires |generated| == |changes| && CreatesMissing(existing, objects, changes)
    ensures AppliedAll(r, generated, existing, changes) == existing + Elements(objects)
  {
    hide AppliedAll;
    AllCreated(r, generated, existing, changes);
  }

  // ---- What is connected to denoted objects ----

  ghost predicate ConnectedTo(db: Db, o: Object, x: Object) {
    x != o && Reachable(db, Connected, o, x)
  }

  ghost predicate ConnectedToOneOf(db: Db, objects: seq<Object>, x: Object) {
    exists i :: 0 <= i < |objects| && ConnectedTo(db, objects[i], x)
  }

  ghost predicate ConnectedToDenoted(db: Db, stack: Stack, x: Object) {
    exists o :: Denoted(db, stack, o) && ConnectedTo(db, o, x)
  }

  lemma ConnectedListed(db: Db, stack: Stack, objects: seq<Object>)
    requires Lists(db, stack, objects)
    ensures forall x :: ConnectedToOneOf(db, objects, x) <==> ConnectedToDenoted(db, stack, x)
  {
    hide Denoted, ConnectedTo, NoDuplicates;
    forall x | ConnectedToDenoted(db, stack, x) ensures ConnectedToOneOf(db, objects, x) {
      var o :| Denoted(db, stack, o) && ConnectedTo(db, o, x);
      var i :| 0 <= i < |objects| && objects[i] == o;
    }
    forall x | ConnectedToOneOf(db, objects, x) ensures ConnectedToDenoted(db, stack, x) {
      var i :| 0 <= i < |objects| && ConnectedTo(db, objects[i], x);
      assert objects[i] in objects;
    }
  }

  lemma ConnectedBatch(db: Db, stack: Stack, objects: seq<Object>, i: nat, connected: seq<Object>, more: seq<Object>)
    requires Lists(db, stack, objects) && i < |objects| && NoDuplicates(connected) && NoDuplicates(more)
    requires forall x :: x in connected <==> ConnectedToOneOf(db, objects[..i], x)
    requires forall x :: x in more <==> ConnectedTo(db, objects[i], x)
    ensures NoDuplicates(more + connected)
    ensures forall x :: x in more + connected <==> ConnectedToOneOf(db, objects[..i + 1], x)
  {
    hide Lists, ConnectedTo, NoDuplicates;
    forall x | x in more ensures x !in connected {
      if ConnectedToOneOf(db, objects[..i], x) {
        var j :| 0 <= j < i && ConnectedTo(db, objects[..i][j], x);
        ConnectedApart(db, stack, objects, j, i, x);
      }
    }
    Joined(more, connected);
    forall x ensures x in more + connected <==> ConnectedToOneOf(db, objects[..i + 1], x) {
      ConnectedOneMore(db, objects, i, x);
    }
  }

  lemma ConnectedOneMore(db: Db, objects: seq<Object>, i: nat, x: Object)
    requires i < |objects|
    ensures ConnectedToOneOf(db, objects[..i + 1], x) <==>
      ConnectedToOneOf(db, objects[..i], x) || ConnectedTo(db, objects[i], x)
  {
    hide ConnectedTo;
    var less, more := objects[..i], objects[..i + 1];
    if ConnectedToOneOf(db, less, x) {
      var j :| 0 <= j < |less| && ConnectedTo(db, less[j], x);
      assert more[j] == less[j];
    }
    if ConnectedTo(db, objects[i], x) {
      assert more[i] == objects[i];
    }
    if ConnectedToOneOf(db, more, x) {
      var j :| 0 <= j < |more| && ConnectedTo(db, more[j], x);
      assert j < i ==> less[j] == more[j];
    }
  }

  /** Different denoted objects have different names, and connected objects share theirs. */
  lemma ConnectedApart(db: Db, stack: Stack, objects: seq<Object>, i: nat, j: nat, x: Object)
    requires Lists(db, stack, objects) && i < j < |objects|
    ensures !(ConnectedTo(db, objects[i], x) && ConnectedTo(db, objects[j], x))
  {
    hide Reachable;
    var a, b := objects[i], objects[j];
    assert a in objects && b in objects;
    assert Denoted(db, stack, a) && Denoted(db, stack, b);
    SameNameConnected(db, a, x);
    SameNameConnected(db, b, x);
    assert a == Object(a.kind, a.name) && b == Object(b.kind, b.name);
  }

  lemma SameNameConnected(db: Db, o: Object, x: Object)
    ensures Reachable(db, Connected, o, x) ==> x.name == o.name
  {
    if Reachable(db, Connected, o, x) {
      var path :| Walk(db, Connected, o, path) && Last(path) == x;
      ConnectedNames(db, o, path);
    }
  }
}
