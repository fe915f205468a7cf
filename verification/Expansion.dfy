/**
 Which objects a context stack stands for. Read from left to right, an object item steps into every object reached so
 far, and a filter item keeps those existing objects embedded in them that satisfy the filter.
 */
module Expansion {
  import opened Core
  import opened PathText
  import opened Schema
  import opened Database

  /**
   The parser only pushes items whose kind is embedded one level deeper than the item below; filters are offered for
   the kinds embedded in that item's kind itself.
   */
  predicate Chained(r: Relations, stack: Stack)
    requires Acyclic(r.embeddedInto)
  {
    && (forall i | 0 <= i < |stack| :: stack[i].Obj? ==> stack[i].name == "" || IsIdent(stack[i].name))
    && (forall i | 0 <= i < |stack| :: LinkedItem(r, stack, i))
  }

  predicate LinkedItem(r: Relations, stack: Stack, i: nat)
    requires Acyclic(r.embeddedInto) && i < |stack|
  {
    if i == 0 then stack[0].Obj? ==> stack[0].kind !in r.embeddedInto
    else
      && Depth(r.embeddedInto, stack[i].kind) == Depth(r.embeddedInto, stack[i - 1].kind) + 1
      && (stack[i].Flt? ==> EmbeddedIn(r, stack[i].kind, stack[i - 1].kind))
  }

  predicate Denoted(db: Db, stack: Stack, o: Object)
    decreases |stack|
  {
    && stack != []
    && o.kind == Last(stack).kind
    && o.name != []
    && (match Last(stack)
        case Obj(_, name) => Last(o.name) == name && (|stack| == 1 ==> |o.name| == 1)
        case Flt(_, filter) => o in db.objects && Selected(db, filter, o))
    && (|stack| > 1 ==> |o.name| > 1 && Denoted(db, DropLast(stack), Outer(stack, o)))
  }

  /** The object one level up, whose kind is that of the item below the last one. */
  function Outer(stack: Stack, o: Object): Object
    requires |stack| > 1 && o.name != []
  {
    Object(stack[|stack| - 2].kind, DropLast(o.name))
  }

  predicate Nameless(item: Item) {
    item.Obj? && item.name == ""
  }

  /** A stack with filters cannot be expanded beyond an object whose name is still missing. */
  ghost predicate Stuck(db: Db, stack: Stack) {
    && !FilterFree(stack)
    && exists i :: 0 <= i < |stack| - 1 && StuckAt(db, stack, i)
  }

  ghost predicate StuckAt(db: Db, stack: Stack, i: nat)
    requires i < |stack|
  {
    Nameless(stack[i]) && !DenotesNothing(db, stack[..i + 1])
  }

  ghost predicate DenotesNothing(db: Db, stack: Stack) {
    forall o :: !Denoted(db, stack, o)
  }

  /** stepInContext */
  function StepInContext(o: Object, kind: Ident, name: Ident): Object {
    Object(kind, o.name + [name])
  }

  // ---- What holds of every denoted object ----

  predicate NamedBelow(stack: Stack) {
    forall i | 0 <= i < |stack| - 1 :: !Nameless(stack[i])
  }

  /** All parts of the name but the last are given. */
  predicate NamedUpToLast(name: Name) {
    name != [] && (forall i | 0 <= i < |name| - 1 :: IsIdent(name[i])) && (Last(name) == "" || IsIdent(Last(name)))
  }

  lemma {:induction false} DenotedShape(db: Db, stack: Stack, o: Object)
    requires WellFormed(db) && Chained(db.relations, stack) && NamedBelow(stack) && Denoted(db, stack, o)
    ensures NamedUpToLast(o.name) && |o.name| == Depth(db.relations.embeddedInto, o.kind) + 1
    ensures Last(o.name) == "" ==> Nameless(Last(stack))
    decreases |stack|
  {
    if Last(stack).Flt? {
      Existing(db, o);
    } else if |stack| > 1 {
      ChainedBelow(db.relations, stack);
      DenotedShape(db, DropLast(stack), Outer(stack, o));
      NotNameless(stack);
      OuterShape(db.relations, stack, o);
    } else {
      assert LinkedItem(db.relations, stack, 0);
    }
  }

  lemma Existing(db: Db, o: Object)
    requires WellFormed(db) && o in db.objects
    ensures NamedUpToLast(o.name) && |o.name| == Depth(db.relations.embeddedInto, o.kind) + 1 && Last(o.name) != ""
    ensures FullName(o.name) && Fits(db.relations, o)
  {
  }

  lemma ChainedBelow(r: Relations, stack: Stack)
    requires Acyclic(r.embeddedInto) && Chained(r, stack) && |stack| > 1
    ensures Chained(r, DropLast(stack))
    ensures Depth(r.embeddedInto, Last(stack).kind) == Depth(r.embeddedInto, stack[|stack| - 2].kind) + 1
    ensures Last(stack).Flt? ==> EmbeddedIn(r, Last(stack).kind, stack[|stack| - 2].kind)
    ensures NamedBelow(stack) ==> NamedBelow(DropLast(stack))
  {
    assert LinkedItem(r, stack, |stack| - 1);
    var below := DropLast(stack);
    forall i | 0 <= i < |below| ensures LinkedItem(r, below, i) {
      assert LinkedItem(r, stack, i);
    }
  }

  lemma NotNameless(stack: Stack)
    requires |stack| > 1 && NamedBelow(stack)
    ensures !Nameless(Last(DropLast(stack)))
  {
    assert Last(DropLast(stack)) == stack[|stack| - 2];
  }

  lemma OuterShape(r: Relations, stack: Stack, o: Object)
    requires |stack| > 1 && |o.name| > 1 && Acyclic(r.embeddedInto) && o.kind == Last(stack).kind
    requires Depth(r.embeddedInto, o.kind) == Depth(r.embeddedInto, stack[|stack| - 2].kind) + 1
    requires var p := Outer(stack, o);
      NamedUpToLast(p.name) && |p.name| == Depth(r.embeddedInto, p.kind) + 1 && Last(p.name) != ""
    requires Last(o.name) == "" || IsIdent(Last(o.name))
    ensures NamedUpToLast(o.name) && |o.name| == Depth(r.embeddedInto, o.kind) + 1
  {
    hide IsIdent;
    var p := Outer(stack, o);
    forall i | 0 <= i < |o.name| - 1 ensures IsIdent(o.name[i]) {
      assert o.name[i] == p.name[i];
    }
  }

  /** Nothing is found beyond a prefix that denotes nothing. */
  lemma {:induction false} NothingBeyond(db: Db, stack: Stack, n: nat, o: Object)
    requires 0 < n <= |stack| && DenotesNothing(db, stack[..n])
    ensures !Denoted(db, stack, o)
    decreases |stack|
  {
    if n == |stack| {
      assert stack[..n] == stack;
    } else if Denoted(db, stack, o) {
      assert DropLast(stack)[..n] == stack[..n];
      NothingBeyond(db, DropLast(stack), n, Outer(stack, o));
    }
  }

  // ---- One step of the expansion ----

  /** The list holds every denoted object once. */
  ghost predicate Lists(db: Db, stack: Stack, objects: seq<Object>) {
    NoDuplicates(objects) && forall o :: o in objects <==> Denoted(db, stack, o)
  }

  /** Without filters the stack is a path and stands for that one object, whether it exists or not. */
  lemma {:induction false} FilterFreeDenotes(db: Db, stack: Stack, o: Object)
    requires stack != [] && FilterFree(stack)
    ensures Denoted(db, stack, o) <==> o == Object(Last(stack).kind, StackPath(stack))
    decreases |stack|
  {
    var path := StackPath(stack);
    assert path == (if |stack| == 1 then [] else StackPath(DropLast(stack))) + [Last(stack).name];
    if |stack| == 1 {
      assert |o.name| == 1 ==> o.name == [Last(o.name)];
    } else {
      assert FilterFree(DropLast(stack));
      assert Last(DropLast(stack)) == stack[|stack| - 2];
      if |o.name| > 1 {
        FilterFreeDenotes(db, DropLast(stack), Outer(stack, o));
        assert o.name == DropLast(o.name) + [Last(o.name)];
      }
      assert DropLast(path) == StackPath(DropLast(stack)) && Last(path) == Last(stack).name;
    }
  }

  lemma FilterFreeLists(db: Db, stack: Stack)
    requires stack != [] && FilterFree(stack)
    ensures Lists(db, stack, [Object(Last(stack).kind, StackPath(stack))])
  {
    forall o ensures o in [Object(Last(stack).kind, StackPath(stack))] <==> Denoted(db, stack, o) {
      FilterFreeDenotes(db, stack, o);
    }
  }

  function Objects(kind: Ident, names: seq<Name>): (objects: seq<Object>)
    ensures |objects| == |names| && forall i | 0 <= i < |names| :: objects[i] == Object(kind, names[i])
  {
    seq(|names|, i requires 0 <= i < |names| => Object(kind, names[i]))
  }

  lemma ObjectsOfNames(kind: Ident, names: seq<Name>)
    ensures NoDuplicates(names) ==> NoDuplicates(Objects(kind, names))
    ensures forall o: Object :: o in Objects(kind, names) <==> o.kind == kind && o.name in names
  {
    var objects := Objects(kind, names);
    forall o: Object | o.kind == kind && o.name in names ensures o in objects {
      var i :| 0 <= i < |names| && names[i] == o.name;
      assert objects[i] == o;
    }
  }

  lemma FirstItemLists(db: Db, stack: Stack, names: seq<Name>)
    requires WellFormed(db) && |stack| == 1 && stack[0].Flt? && NoDuplicates(names)
    requires forall n :: n in names <==>
      Object(stack[0].kind, n) in db.objects && Selected(db, stack[0].filter, Object(stack[0].kind, n))
    ensures Lists(db, stack, Objects(stack[0].kind, names))
  {
    hide Selected, NoDuplicates, Fits;
    ObjectsOfNames(stack[0].kind, names);
    forall o ensures o in Objects(stack[0].kind, names) <==> Denoted(db, stack, o) {
      assert o == Object(o.kind, o.name);
      if o in db.objects {
        Existing(db, o);
      }
    }
  }

  /** The filter that the expansion builds for a filter item. */
  predicate IsStepFilter(r: Relations, step: Filter, objects: seq<Object>, own: Option<Filter>)
    requires r.column.Keys == r.embeddedInto.Keys
    requires forall o | o in objects :: o.name != []
  {
    && step.And? && |step.filters| == (if own.Some? then 2 else 1)
    && step.filters[0].Or? && |step.filters[0].filters| == |objects|
    && (forall i | 0 <= i < |objects| :: step.filters[0].filters[i] == FilterOnName(r, objects[i]))
    && (own.Some? ==> step.filters[1] == own.value)
  }

  /** The current objects all have the kind of the item below, fit the relations and carry a full name. */
  ghost predicate Ready(r: Relations, kind: Ident, objects: seq<Object>)
    requires Acyclic(r.embeddedInto)
  {
    forall o | o in objects :: o.kind == kind && Fits(r, o) && o.name != []
  }

  lemma StepFilterSelects(db: Db, step: Filter, objects: seq<Object>, own: Option<Filter>, below: Ident, o: Object)
    requires WellFormed(db) && Ready(db.relations, below, objects) && IsStepFilter(db.relations, step, objects, own)
    requires o in db.objects && EmbeddedIn(db.relations, o.kind, below)
    ensures o.name != []
    ensures Matches(db, step, o) <==> Parent(db.relations, o) in objects && Selected(db, own, o)
  {
    hide FilterOnName, Fits, Acyclic;
    Existing(db, o);
    var either := step.filters[0];
    assert Matches(db, step, o) <==> Matches(db, either, o) && Selected(db, own, o) by {
      assert Matches(db, step, o) <==> forall i | 0 <= i < |step.filters| :: Matches(db, step.filters[i], o);
    }
    EitherSelects(db, either, objects, below, o);
  }

  lemma EitherSelects(db: Db, either: Filter, objects: seq<Object>, below: Ident, o: Object)
    requires WellFormed(db) && Ready(db.relations, below, objects)
    requires o in db.objects && EmbeddedIn(db.relations, o.kind, below) && o.name != []
    requires either.Or? && |either.filters| == |objects|
    requires forall i | 0 <= i < |objects| :: either.filters[i] == FilterOnName(db.relations, objects[i])
    ensures Matches(db, either, o) <==> Parent(db.relations, o) in objects
  {
    hide FilterOnName, Fits, Acyclic;
    var p := Parent(db.relations, o);
    BelowDiffers(db.relations, o.kind, below);
    Existing(db, o);
    ParentFits(db.relations, o);
    forall i | 0 <= i < |objects| ensures Matches(db, either.filters[i], o) <==> objects[i] == p {
      assert objects[i] in objects;
      FilterOnNameSelects(db, objects[i], o);
    }
  }

  lemma BelowDiffers(r: Relations, kind: Ident, below: Ident)
    requires Acyclic(r.embeddedInto) && EmbeddedIn(r, kind, below)
    ensures kind != below
  {
    assert Depth(r.embeddedInto, kind) == Depth(r.embeddedInto, below) + 1;
  }

  lemma FilterItemLists(db: Db, stack: Stack, objects: seq<Object>, step: Filter, names: seq<Name>)
    requires WellFormed(db) && Chained(db.relations, stack) && |stack| > 1 && Last(stack).Flt?
    requires Lists(db, DropLast(stack), objects) && Ready(db.relations, stack[|stack| - 2].kind, objects)
    requires IsStepFilter(db.relations, step, objects, Last(stack).filter)
    requires NoDuplicates(names)
    requires forall n :: n in names <==>
      Object(Last(stack).kind, n) in db.objects && Selected(db, Some(step), Object(Last(stack).kind, n))
    ensures Lists(db, stack, Objects(Last(stack).kind, names))
  {
    hide NoDuplicates, Fits, Chained, IsStepFilter, Ready, AllFit;
    var kind := Last(stack).kind;
    ObjectsOfNames(kind, names);
    ChainedBelow(db.relations, stack);
    forall o ensures o in Objects(kind, names) <==> Denoted(db, stack, o) {
      assert o == Object(o.kind, o.name);
      if o in db.objects && o.kind == kind {
        FilterItemDenotes(db, stack, objects, step, o);
      }
    }
  }

  lemma FilterItemDenotes(db: Db, stack: Stack, objects: seq<Object>, step: Filter, o: Object)
    requires WellFormed(db) && |stack| > 1 && Last(stack).Flt?
    requires EmbeddedIn(db.relations, Last(stack).kind, stack[|stack| - 2].kind)
    requires Lists(db, DropLast(stack), objects) && Ready(db.relations, stack[|stack| - 2].kind, objects)
    requires IsStepFilter(db.relations, step, objects, Last(stack).filter)
    requires o in db.objects && o.kind == Last(stack).kind
    ensures Denoted(db, stack, o) <==> Matches(db, step, o)
  {
    hide NoDuplicates, IsStepFilter, Ready, Matches, Selected, Acyclic, FilterOnName;
    Existing(db, o);
    ParentFits(db.relations, o);
    StepFilterSelects(db, step, objects, Last(stack).filter, stack[|stack| - 2].kind, o);
    assert Parent(db.relations, o) == Outer(stack, o);
  }

  /** Every object replaced by the named one inside it. */
  predicate IsSteppedInto(objects: seq<Object>, kind: Ident, name: Ident, inside: seq<Object>) {
    |inside| == |objects| && forall i | 0 <= i < |objects| :: inside[i] == StepInContext(objects[i], kind, name)
  }

  lemma ObjectItemLists(db: Db, stack: Stack, objects: seq<Object>, inside: seq<Object>)
    requires |stack| > 1 && Last(stack).Obj? && Lists(db, DropLast(stack), objects)
    requires IsSteppedInto(objects, Last(stack).kind, Last(stack).name, inside)
    ensures Lists(db, stack, inside)
  {
    var kind, name := Last(stack).kind, Last(stack).name;
    assert Last(DropLast(stack)) == stack[|stack| - 2];
    forall i, j | 0 <= i < j < |inside| ensures inside[i] != inside[j] {
      SteppedApart(objects[i], objects[j], kind, name);
      assert objects[i] in objects && objects[j] in objects;
    }
    forall o ensures o in inside <==> Denoted(db, stack, o) {
      ObjectItemDenotes(db, stack, objects, inside, o);
    }
  }

  lemma SteppedApart(a: Object, b: Object, kind: Ident, name: Ident)
    ensures StepInContext(a, kind, name) == StepInContext(b, kind, name) ==> a.name == b.name
  {
    assert DropLast(a.name + [name]) == a.name && DropLast(b.name + [name]) == b.name;
  }

  lemma ObjectItemDenotes(db: Db, stack: Stack, objects: seq<Object>, inside: seq<Object>, o: Object)
    requires |stack| > 1 && Last(stack).Obj? && Lists(db, DropLast(stack), objects)
    requires IsSteppedInto(objects, Last(stack).kind, Last(stack).name, inside)
    ensures o in inside <==> Denoted(db, stack, o)
  {
    hide NoDuplicates;
    var kind, name := Last(stack).kind, Last(stack).name;
    assert Last(DropLast(stack)) == stack[|stack| - 2];
    if o in inside {
      var i :| 0 <= i < |inside| && inside[i] == o;
      assert objects[i] in objects;
      assert DropLast(objects[i].name + [name]) == objects[i].name;
      assert Outer(stack, o) == objects[i];
    }
    if Denoted(db, stack, o) {
      var p := Outer(stack, o);
      assert p in objects;
      var i :| 0 <= i < |objects| && objects[i] == p;
      assert o.name == DropLast(o.name) + [Last(o.name)];
      assert inside[i] == o;
    }
  }

  // ---- The whole stack, item by item ----

  lemma ChainedPrefix(r: Relations, stack: Stack, i: nat)
    requires Acyclic(r.embeddedInto) && Chained(r, stack) && i <= |stack|
    ensures Chained(r, stack[..i])
  {
    var prefix := stack[..i];
    forall j | 0 <= j < |prefix| ensures LinkedItem(r, prefix, j) {
      assert LinkedItem(r, stack, j);
    }
  }

  lemma PrefixEnd(stack: Stack, i: nat)
    requires i < |stack|
    ensures DropLast(stack[..i + 1]) == stack[..i] && Last(stack[..i + 1]) == stack[i]
    ensures i > 0 ==> Last(stack[..i]) == stack[i - 1]
  {
  }

  lemma NoItems(db: Db, stack: Stack)
    requires stack == []
    ensures Lists(db, stack, []) && !Stuck(db, stack)
  {
  }

  predicate AllNamed(objects: seq<Object>) {
    forall o | o in objects :: o.name != [] && Last(o.name) != ""
  }

  /** A current object without a last name comes from an object item without a name. */
  lemma FoundNameless(db: Db, stack: Stack, i: nat, current: seq<Object>, o: Object)
    requires WellFormed(db) && Chained(db.relations, stack) && 0 < i < |stack| && !FilterFree(stack)
    requires Lists(db, stack[..i], current) && NamedBelow(stack[..i])
    requires o in current && o.name != [] && Last(o.name) == ""
    ensures Stuck(db, stack)
  {
    hide Chained, FilterFree, NoDuplicates, Denoted, NamedBelow, AllFit;
    ChainedPrefix(db.relations, stack, i);
    DenotedShape(db, stack[..i], o);
    assert stack[i - 1] == Last(stack[..i]);
    assert StuckAt(db, stack, i - 1);
  }

  lemma AllReady(db: Db, stack: Stack, i: nat, current: seq<Object>)
    requires WellFormed(db) && Chained(db.relations, stack) && 0 < i < |stack|
    requires Lists(db, stack[..i], current) && NamedBelow(stack[..i]) && AllNamed(current) && current != []
    ensures Ready(db.relations, stack[i - 1].kind, current) && NamedBelow(stack[..i + 1])
  {
    hide Chained, NoDuplicates;
    ChainedPrefix(db.relations, stack, i);
    PrefixEnd(stack, i);
    forall o | o in current ensures o.kind == stack[i - 1].kind && Fits(db.relations, o) && o.name != [] {
      DenotedShape(db, stack[..i], o);
    }
    assert current[0] in current;
    assert Denoted(db, stack[..i], current[0]);
    OneMoreNamed(stack, i);
  }

  lemma OneMoreNamed(stack: Stack, i: nat)
    requires 0 < i < |stack| && NamedBelow(stack[..i]) && !Nameless(stack[i - 1])
    ensures NamedBelow(stack[..i + 1])
  {
    var shorter, longer := stack[..i], stack[..i + 1];
    forall j | 0 <= j < |longer| - 1 ensures !Nameless(longer[j]) {
      assert j < i - 1 ==> longer[j] == shorter[j];
    }
  }

  lemma StoppedEarly(db: Db, stack: Stack, i: nat)
    requires i < |stack| && NamedBelow(stack[..i + 1]) && stack[i].Flt? && Lists(db, stack[..i + 1], [])
    ensures Lists(db, stack, []) && !Stuck(db, stack)
  {
    assert stack[..|stack|] == stack;
    NothingLater(db, stack, i, |stack| - 1);
    var shorter := stack[..i + 1];
    forall j | 0 <= j < |stack| - 1 ensures !StuckAt(db, stack, j) {
      if j < i {
        assert stack[j] == shorter[j];
      } else {
        NothingLater(db, stack, i, j);
      }
    }
  }

  lemma NothingLater(db: Db, stack: Stack, i: nat, j: nat)
    requires i <= j < |stack| && DenotesNothing(db, stack[..i + 1])
    ensures DenotesNothing(db, stack[..j + 1])
  {
    var longer := stack[..j + 1];
    assert longer[..i + 1] == stack[..i + 1];
    forall o ensures !Denoted(db, longer, o) {
      NothingBeyond(db, longer, i + 1, o);
    }
  }

  lemma ReachedEnd(db: Db, stack: Stack)
    requires NamedBelow(stack)
    ensures !Stuck(db, stack)
  {
  }

  /** A denoted object with a full name fits the relations, whether it exists or not. */
  lemma {:induction false} DenotedFits(db: Db, stack: Stack, o: Object)
    requires WellFormed(db) && Chained(db.relations, stack) && Denoted(db, stack, o) && FullName(o.name)
    ensures Fits(db.relations, o)
    decreases |stack|
  {
    hide IsIdent;
    if Last(stack).Flt? {
      Existing(db, o);
    } else if |stack| > 1 {
      ChainedBelow(db.relations, stack);
      FullOuter(stack, o);
      DenotedFits(db, DropLast(stack), Outer(stack, o));
    } else {
      assert LinkedItem(db.relations, stack, 0);
    }
  }

  lemma FullOuter(stack: Stack, o: Object)
    requires |stack| > 1 && |o.name| > 1 && FullName(o.name)
    ensures FullName(Outer(stack, o).name)
  {
  }

  /** The names of the stack do not allow looking for what is inside the denoted objects. */
  ghost predicate Unreadable(db: Db, stack: Stack) {
    Stuck(db, stack) || exists o :: Denoted(db, stack, o) && !FullName(o.name)
  }
}
