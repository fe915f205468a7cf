/**
 What the two recursive searches of DbInteraction look for: the objects nested in an object at any depth, and the
 objects connected to it through the contains and containable relations, which may form cycles.
 */
module Reachability {
  import opened Core
  import opened Schema
  import opened Database

  datatype Link = Nested | Connected

  predicate Linked(r: Relations, link: Link, from: Object, to: Object) {
    match link
    case Nested => to.kind in r.embeddedInto && to.name != [] && Parent(r, to) == from
    case Connected => to.name == from.name && Related(r, from.kind, to.kind)
  }

  /** The existing objects one step away. */
  function Next(db: Db, link: Link, from: Object): set<Object> {
    set o | o in db.objects && Linked(db.relations, link, from, o)
  }

  ghost predicate Walk(db: Db, link: Link, from: Object, path: seq<Object>)
    decreases |path|
  {
    path != [] && path[0] in Next(db, link, from) && (|path| > 1 ==> Walk(db, link, path[0], path[1..]))
  }

  ghost predicate Reachable(db: Db, link: Link, from: Object, to: Object) {
    exists path :: Walk(db, link, from, path) && Last(path) == to
  }

  lemma OneStep(db: Db, link: Link, from: Object, to: Object)
    requires to in Next(db, link, from)
    ensures Reachable(db, link, from, to)
  {
    assert Walk(db, link, from, [to]) && Last([to]) == to;
  }

  lemma StepFirst(db: Db, link: Link, from: Object, via: Object, to: Object)
    requires via in Next(db, link, from) && Reachable(db, link, via, to)
    ensures Reachable(db, link, from, to)
  {
    var path :| Walk(db, link, via, path) && Last(path) == to;
    assert ([via] + path)[1..] == path;
    assert Walk(db, link, from, [via] + path) && Last([via] + path) == to;
  }

  lemma {:induction false} WalkOn(db: Db, link: Link, from: Object, path: seq<Object>, to: Object)
    requires Walk(db, link, from, path) && to in Next(db, link, Last(path))
    ensures Walk(db, link, from, path + [to])
    decreases |path|
  {
    if |path| == 1 {
      assert (path + [to])[1..] == [to];
    } else {
      assert (path + [to])[1..] == path[1..] + [to];
      WalkOn(db, link, path[0], path[1..], to);
    }
  }

  lemma StepLast(db: Db, link: Link, from: Object, via: Object, to: Object)
    requires Reachable(db, link, from, via) && to in Next(db, link, via)
    ensures Reachable(db, link, from, to)
  {
    var path :| Walk(db, link, from, path) && Last(path) == via;
    WalkOn(db, link, from, path, to);
    assert Last(path + [to]) == to;
  }

  // ---- Depth-first search with a list of visited objects ----

  /** Everything one step away from the object is in the list. */
  ghost predicate Covered(db: Db, link: Link, o: Object, visited: seq<Object>) {
    forall n | n in Next(db, link, o) :: n in visited
  }

  /** The list grew only by objects reachable from the start whose own neighbours are listed as well. */
  ghost predicate Progress(db: Db, link: Link, start: Object, before: seq<Object>, after: seq<Object>) {
    && before <= after
    && NoDuplicates(after)
    && (forall o | o in after :: o in db.objects)
    && (forall o | o in after && o !in before :: Reachable(db, link, start, o) && Covered(db, link, o, after))
  }

  ghost predicate Explored(db: Db, link: Link, start: Object, before: seq<Object>, after: seq<Object>) {
    Progress(db, link, start, before, after) && Covered(db, link, start, after)
  }

  lemma ProgressStarts(db: Db, link: Link, start: Object, before: seq<Object>)
    requires NoDuplicates(before) && forall o | o in before :: o in db.objects
    ensures Progress(db, link, start, before, before)
  {
  }

  lemma Appended(visited: seq<Object>, o: Object)
    requires NoDuplicates(visited) && o !in visited
    ensures NoDuplicates(visited + [o]) && visited <= visited + [o]
    ensures forall x :: x in visited + [o] <==> x in visited || x == o
  {
  }

  /** Visiting one unvisited neighbour. */
  lemma VisitNeighbour(db: Db, link: Link, start: Object, before: seq<Object>, middle: seq<Object>, n: Object,
      after: seq<Object>)
    requires Progress(db, link, start, before, middle) && n in Next(db, link, start)
    requires n !in middle && Explored(db, link, n, middle + [n], after)
    ensures Progress(db, link, start, before, after) && n in after
  {
    hide Next, Reachable, NoDuplicates;
    assert (middle + [n])[|middle|] == n;
    assert n in middle + [n];
    Prefixes(before, middle, middle + [n]);
    Prefixes(before, middle + [n], after);
    forall o | o in after && o !in before
      ensures Reachable(db, link, start, o) && Covered(db, link, o, after)
    {
      if o in middle {
        CoveredFurther(db, link, o, middle, after);
      } else if o == n {
        OneStep(db, link, start, n);
      } else {
        assert o !in middle + [n];
        StepFirst(db, link, start, n, o);
      }
    }
  }

  lemma Prefixes(a: seq<Object>, b: seq<Object>, c: seq<Object>)
    requires a <= b <= c
    ensures a <= c
    ensures forall x | x in a :: x in b
    ensures forall x | x in b :: x in c
  {
  }

  lemma CoveredFurther(db: Db, link: Link, o: Object, middle: seq<Object>, after: seq<Object>)
    requires Covered(db, link, o, middle) && middle <= after
    ensures Covered(db, link, o, after)
  {
    hide Next;
    Prefixes([], middle, after);
  }

  lemma {:induction false} WalkVisited(db: Db, link: Link, start: Object, path: seq<Object>, after: seq<Object>)
    requires Covered(db, link, start, after) && (forall o | o in after :: Covered(db, link, o, after))
    requires Walk(db, link, start, path)
    ensures Last(path) in after
    decreases |path|
  {
    if |path| > 1 {
      WalkVisited(db, link, path[0], path[1..], after);
    }
  }

  /** A search that began with an empty list has found exactly what is reachable. */
  lemma SearchIsExact(db: Db, link: Link, start: Object, after: seq<Object>)
    requires Explored(db, link, start, [], after)
    ensures forall o :: o in after <==> Reachable(db, link, start, o)
  {
    forall o | Reachable(db, link, start, o) ensures o in after {
      var path :| Walk(db, link, start, path) && Last(path) == o;
      WalkVisited(db, link, start, path, after);
    }
  }

  // ---- What nesting means for names ----

  /** A nested object carries the name of the outer one as a proper prefix, and its kind is nested deeper. */
  lemma {:induction false} NestedNames(db: Db, from: Object, path: seq<Object>)
    requires WellFormed(db) && Walk(db, Nested, from, path)
    ensures from.name < Last(path).name
    ensures Depth(db.relations.embeddedInto, from.kind) < Depth(db.relations.embeddedInto, Last(path).kind)
    ensures Last(path) in db.objects
    decreases |path|
  {
    hide Fits;
    var o := path[0];
    assert o.name == from.name + [Last(o.name)];
    if |path| > 1 {
      NestedNames(db, o, path[1..]);
      assert Last(path[1..]) == Last(path);
      ShorterPrefix(from.name, o.name, Last(path).name);
    }
  }

  lemma ShorterPrefix(a: Name, b: Name, c: Name)
    requires a < b && b < c
    ensures a < c
  {
  }

  lemma SameLengthPrefixes(a: Name, b: Name, c: Name)
    requires a < c && b < c && |a| == |b|
    ensures a == b
  {
    assert a == c[..|a|] && b == c[..|b|];
  }

  /** Objects of one kind never share nested objects, and are not nested in one another. */
  lemma NestedApart(db: Db, a: Object, b: Object, x: Object)
    requires WellFormed(db) && a.kind == b.kind && |a.name| == |b.name| && a.name != b.name
    ensures !(Reachable(db, Nested, a, x) && Reachable(db, Nested, b, x))
    ensures !Reachable(db, Nested, a, b)
  {
    hide WellFormed;
    if Reachable(db, Nested, a, x) && Reachable(db, Nested, b, x) {
      var p :| Walk(db, Nested, a, p) && Last(p) == x;
      var q :| Walk(db, Nested, b, q) && Last(q) == x;
      NestedNames(db, a, p);
      NestedNames(db, b, q);
      SameLengthPrefixes(a.name, b.name, x.name);
    }
    if Reachable(db, Nested, a, b) {
      var p :| Walk(db, Nested, a, p) && Last(p) == b;
      NestedNames(db, a, p);
    }
  }

  /** Connected objects share one name. */
  lemma {:induction false} ConnectedNames(db: Db, from: Object, path: seq<Object>)
    requires Walk(db, Connected, from, path)
    ensures Last(path).name == from.name
    decreases |path|
  {
    if |path| > 1 {
      ConnectedNames(db, path[0], path[1..]);
    }
  }
}
