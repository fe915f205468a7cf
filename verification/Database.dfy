/**
 The objects on the server, as far as the client can observe them: which kinds are related, which objects exist, and
 which of them a filter selects. An object is named by one identifier per level of embedding.
 */
module Database {
  import opened Core
  import opened PathText
  import opened StringOrder
  import opened Schema

  /** embeddedInto names the kind a kind is embedded in, column the attribute that refers to it. */
  datatype Relations = Relations(
    embeddedInto: map<Ident, Ident>,
    column: map<Ident, Ident>,
    embeds: map<Ident, seq<Ident>>,
    contains: map<Ident, seq<Ident>>,
    containable: map<Ident, seq<Ident>>)

  function ListedFor(relation: map<Ident, seq<Ident>>, kind: Ident): seq<Ident> {
    if kind in relation then relation[kind] else []
  }

  predicate EmbeddedIn(r: Relations, kind: Ident, parent: Ident) {
    kind in r.embeddedInto && r.embeddedInto[kind] == parent
  }

  predicate Related(r: Relations, kind: Ident, other: Ident) {
    other in ListedFor(r.contains, kind) || other in ListedFor(r.containable, kind)
  }

  /** Related kinds are embedded equally deep: they share names, and filterOnName asserts their length. */
  ghost predicate Consistent(r: Relations) {
    && Acyclic(r.embeddedInto)
    && r.column.Keys == r.embeddedInto.Keys
    && (forall k | k in r.column :: r.column[k] != "name")
    && (forall parent, k :: k in ListedFor(r.embeds, parent) <==> EmbeddedIn(r, k, parent))
    && (forall k, other | Related(r, k, other) :: Depth(r.embeddedInto, k) == Depth(r.embeddedInto, other))
  }

  /** Every level is named; a name with a missing part is one the server still has to complete. */
  predicate FullName(name: Name) {
    name != [] && forall i | 0 <= i < |name| :: IsIdent(name[i])
  }

  predicate Fits(r: Relations, o: Object)
    requires Acyclic(r.embeddedInto)
  {
    FullName(o.name) && |o.name| == Depth(r.embeddedInto, o.kind) + 1
  }

  function Parent(r: Relations, o: Object): Object
    requires o.kind in r.embeddedInto && o.name != []
  {
    Object(r.embeddedInto[o.kind], DropLast(o.name))
  }

  /** Attributes other than the name and the reference to the parent only matter for the filters they satisfy. */
  datatype Db = Db(relations: Relations, objects: set<Object>, facts: set<(Filter, Object)>)

  ghost predicate ParentsExist(r: Relations, objects: set<Object>) {
    forall o | o in objects && o.kind in r.embeddedInto && o.name != [] :: Parent(r, o) in objects
  }

  ghost predicate AllFit(r: Relations, objects: set<Object>)
    requires Acyclic(r.embeddedInto)
  {
    forall o | o in objects :: Fits(r, o)
  }

  ghost predicate WellFormed(db: Db) {
    Consistent(db.relations) && AllFit(db.relations, db.objects)
  }

  lemma ParentFits(r: Relations, o: Object)
    requires Acyclic(r.embeddedInto) && Fits(r, o) && o.kind in r.embeddedInto
    ensures Fits(r, Parent(r, o)) && |o.name| > 1
  {
  }

  // ---- Filters ----

  /** The object whose attribute an expression on the given kind reads: the object itself, or its parent. */
  function Subject(r: Relations, kind: Ident, o: Object): Option<Object> {
    if kind == o.kind then Some(o)
    else if EmbeddedIn(r, o.kind, kind) && o.name != [] then Some(Parent(r, o))
    else None
  }

  predicate Satisfies(db: Db, op: Comparison, kind: Ident, attribute: Ident, constant: string, o: Object) {
    var r := db.relations;
    var subject := Subject(r, kind, o);
    if subject.Some? && subject.value.name != [] && attribute == "name" then
      Holds(op, Last(subject.value.name), constant)
    else if subject.Some? && subject.value.name != [] && kind in r.column && attribute == r.column[kind] then
      Holds(op, VectorToPath(DropLast(subject.value.name)), constant)
    else (Compare(op, kind, attribute, constant), o) in db.facts
  }

  predicate Matches(db: Db, filter: Filter, o: Object) {
    match filter
    case Compare(op, kind, attribute, constant) => Satisfies(db, op, kind, attribute, constant, o)
    case And(filters) => forall i | 0 <= i < |filters| :: Matches(db, filters[i], o)
    case Or(filters) => exists i | 0 <= i < |filters| :: Matches(db, filters[i], o)
  }

  predicate Selected(db: Db, filter: Option<Filter>, o: Object) {
    filter.Some? ==> Matches(db, filter.value, o)
  }

  /** filterOnName */
  function FilterOnName(r: Relations, o: Object): Filter
    requires o.name != [] && r.column.Keys == r.embeddedInto.Keys
  {
    if o.kind !in r.embeddedInto then Compare(Eq, o.kind, "name", VectorToPath(o.name))
    else And([
      Compare(Eq, o.kind, "name", Last(o.name)),
      Compare(Eq, o.kind, r.column[o.kind], VectorToPath(DropLast(o.name)))])
  }

  lemma FullNames(a: Name, b: Name)
    requires FullName(a) && FullName(b)
    ensures VectorToPath(a) == VectorToPath(b) <==> a == b
  {
    hide IsIdent, VectorToPath;
    if VectorToPath(a) == VectorToPath(b) {
      NamesFromText(a, b);
    }
  }

  lemma LastAndRest(a: Name, b: Name)
    requires a != [] && b != []
    ensures a == b <==> Last(a) == Last(b) && DropLast(a) == DropLast(b)
  {
    assert a == DropLast(a) + [Last(a)] && b == DropLast(b) + [Last(b)];
  }

  /** The filter on a name selects by identity, on the objects themselves and on the parents of embedded ones. */
  lemma FilterOnNameSelects(db: Db, wanted: Object, o: Object)
    requires Consistent(db.relations) && Fits(db.relations, wanted)
    requires Subject(db.relations, wanted.kind, o).Some?
    requires Fits(db.relations, Subject(db.relations, wanted.kind, o).value)
    ensures Matches(db, FilterOnName(db.relations, wanted), o)
      <==> Subject(db.relations, wanted.kind, o).value == wanted
  {
    hide IsIdent, VectorToPath, FullName;
    var r := db.relations;
    var t := Subject(r, wanted.kind, o).value;
    var filter := FilterOnName(r, wanted);
    NameIsSatisfied(db, wanted, o, t);
    if wanted.kind in r.embeddedInto {
      ParentColumnIsSatisfied(db, wanted, o, t);
      assert filter.filters[0] == Compare(Eq, wanted.kind, "name", Last(wanted.name));
      assert filter.filters[1] == Compare(Eq, wanted.kind, r.column[wanted.kind], VectorToPath(DropLast(wanted.name)));
      assert Matches(db, filter, o) <==> Matches(db, filter.filters[0], o) && Matches(db, filter.filters[1], o);
      FitsNames(r, wanted);
      LastAndRest(t.name, wanted.name);
    } else {
      TopLevelName(r, wanted);
      TopLevelName(r, t);
      LastAndRest(t.name, wanted.name);
    }
  }

  lemma FitsNames(r: Relations, o: Object)
    requires Acyclic(r.embeddedInto) && Fits(r, o)
    ensures o.name != []
  {
  }

  lemma TopLevelName(r: Relations, o: Object)
    requires Acyclic(r.embeddedInto) && Fits(r, o) && o.kind !in r.embeddedInto
    ensures |o.name| == 1 && VectorToPath(o.name) == Last(o.name) && DropLast(o.name) == []
  {
  }

  lemma NameIsSatisfied(db: Db, wanted: Object, o: Object, t: Object)
    requires Consistent(db.relations) && Fits(db.relations, wanted) && Fits(db.relations, t)
    requires Subject(db.relations, wanted.kind, o) == Some(t)
    ensures forall constant :: Matches(db, Compare(Eq, wanted.kind, "name", constant), o) <==> Last(t.name) == constant
    ensures t.kind == wanted.kind && t.name != []
  {
  }

  lemma ParentColumnIsSatisfied(db: Db, wanted: Object, o: Object, t: Object)
    requires Consistent(db.relations) && Fits(db.relations, wanted) && Fits(db.relations, t)
    requires Subject(db.relations, wanted.kind, o) == Some(t) && wanted.kind in db.relations.embeddedInto
    ensures wanted.name != [] && t.name != []
    ensures Matches(db, Compare(Eq, wanted.kind, db.relations.column[wanted.kind], VectorToPath(DropLast(wanted.name))), o)
      <==> DropLast(t.name) == DropLast(wanted.name)
  {
    hide IsIdent, VectorToPath;
    FullNames(DropLast(t.name), DropLast(wanted.name));
  }

  /** kindInstances of the server: every matching object once, in some order. */
  method Instances(db: Db, kind: Ident, filter: Option<Filter>) returns (names: seq<Name>)
    ensures NoDuplicates(names)
    ensures forall n :: n in names <==> Object(kind, n) in db.objects && Selected(db, filter, Object(kind, n))
  {
    names := [];
    var left := db.objects;
    while left != {}
      invariant left <= db.objects
      invariant NoDuplicates(names)
      invariant forall n :: n in names <==>
        Object(kind, n) in db.objects - left && Selected(db, filter, Object(kind, n))
      decreases left
    {
      var o :| o in left;
      left := left - {o};
      if o.kind == kind && Selected(db, filter, o) {
        names := names + [o.name];
      }
    }
  }
}
