/**
 The log command compares a kind with a full object name. The server only compares single attributes, so the comparison
 is spelled out as a filter over the local name and the reference to the parent.
 */
module KindFilter {
  import opened Core
  import opened PathText
  import opened StringOrder
  import opened Schema
  import opened Database

  /** Misnamed: the name does not fit the kind, reported as a parse error. OutOfRange: std::domain_error. */
  datatype Result = Built(filter: Filter) | Misnamed | OutOfRange | Unreadable

  predicate Ordered(op: Comparison) {
    !op.Contains? && !op.NotContains?
  }

  /** What the operator asks of the parents where they decide alone; equality never lets them. */
  function Strict(op: Comparison): Comparison {
    match op
    case Ge => Gt
    case Le => Lt
    case _ => op
  }

  function PathFilter(op: Comparison, kind: Ident, parentKind: Ident, parentName: string, localName: Ident): Filter {
    var local := Compare(op, kind, "name", localName);
    var sameParent := Compare(Eq, kind, parentKind, parentName);
    if op == Eq then And([local, sameParent])
    else Or([Compare(Strict(op), kind, parentKind, parentName), And([local, sameParent])])
  }

  function KindFilter(r: Relations, op: Comparison, kind: Ident, objectName: string): Result
    requires Acyclic(r.embeddedInto)
  {
    var objectNames := PathToVector(objectName);
    if objectNames.None? then Unreadable
    else
      var ids := objectNames.value;
      if Last(ids) == "" then Misnamed
      else if |ids| == 1 then Built(Compare(op, kind, "name", objectName))
      else if Depth(r.embeddedInto, kind) != |ids| - 1 || kind !in r.embeddedInto then Misnamed
      else if !Ordered(op) then OutOfRange
      else Built(PathFilter(op, kind, r.embeddedInto[kind], VectorToPath(DropLast(ids)), Last(ids)))
  }

  class LogFilterParser {
    const relations: Relations
    var parseError: bool

    constructor (relations: Relations)
      ensures this.relations == relations && !parseError
    {
      this.relations := relations;
      parseError := false;
    }

    /** constructKindFilter */
    method ConstructKindFilter(op: Comparison, kindName: Ident, objectName: string) returns (result: Result)
      requires Acyclic(relations.embeddedInto)
      modifies this
      ensures result == KindFilter(relations, op, kindName, objectName)
      ensures parseError == (old(parseError) || result.Misnamed?)
    {
      hide PathToVector, VectorToPath, Acyclic;
      var objectNames := PathToVector(objectName);
      if objectNames.None? {
        return Unreadable;
      }
      var ids := objectNames.value;
      if Last(ids) == "" {
        parseError := true;
        return Misnamed;
      }
      if |ids| == 1 {
        return Built(Compare(op, kindName, "name", objectName));
      }
      var localName, parentName := Last(ids), VectorToPath(DropLast(ids));
      var eDepth := MeasureDepth(relations.embeddedInto, kindName);
      if eDepth != |ids| - 1 {
        parseError := true;
        return Misnamed;
      }
      var parentKind := relations.embeddedInto[kindName];
      var andFilter, orFilter := [], [];
      match op {
        case Eq =>
          andFilter := andFilter + [Compare(Eq, kindName, "name", localName)];
          andFilter := andFilter + [Compare(Eq, kindName, parentKind, parentName)];
          assert andFilter == [Compare(op, kindName, "name", localName), Compare(Eq, kindName, parentKind, parentName)];
          return Built(And(andFilter));
        case Contains => return OutOfRange;
        case NotContains => return OutOfRange;
        case _ =>
          andFilter := andFilter + [Compare(op, kindName, "name", localName)];
          orFilter := orFilter + [Compare(Strict(op), kindName, parentKind, parentName)];
          andFilter := andFilter + [Compare(Eq, kindName, parentKind, parentName)];
          orFilter := orFilter + [And(andFilter)];
          assert andFilter == [Compare(op, kindName, "name", localName), Compare(Eq, kindName, parentKind, parentName)];
          assert orFilter == [Compare(Strict(op), kindName, parentKind, parentName), And(andFilter)];
          return Built(Or(orFilter));
      }
    }
  }

  // ---- The order on full names ----

  /** First the text of the parent's name, then the local name. */
  predicate NameLess(a: Name, b: Name)
    requires a != [] && b != []
  {
    var p, q := VectorToPath(DropLast(a)), VectorToPath(DropLast(b));
    Less(p, q) || (p == q && Less(Last(a), Last(b)))
  }

  predicate NameHolds(op: Comparison, a: Name, b: Name)
    requires a != [] && b != []
  {
    match op
    case Eq => a == b
    case Ne => a != b
    case Gt => NameLess(b, a)
    case Ge => !NameLess(a, b)
    case Lt => NameLess(a, b)
    case Le => !NameLess(b, a)
    case Contains => false
    case NotContains => false
  }

  lemma SameParentText(a: Name, b: Name)
    requires FullName(a) && FullName(b) && |a| == |b|
    ensures VectorToPath(DropLast(a)) == VectorToPath(DropLast(b)) <==> DropLast(a) == DropLast(b)
    ensures a == b <==> DropLast(a) == DropLast(b) && Last(a) == Last(b)
  {
    hide IsIdent, VectorToPath;
    LastAndRest(a, b);
    if |a| > 1 {
      FullNames(DropLast(a), DropLast(b));
    } else {
      assert DropLast(a) == [] && DropLast(b) == [];
    }
  }

  /** The names of one kind are totally ordered. */
  lemma NamesTotallyOrdered(a: Name, b: Name, c: Name)
    requires FullName(a) && FullName(b) && FullName(c) && |a| == |b| == |c|
    ensures !NameLess(a, a)
    ensures NameLess(a, b) || a == b || NameLess(b, a)
    ensures NameLess(a, b) ==> !NameLess(b, a) && a != b
    ensures NameLess(a, b) && NameLess(b, c) ==> NameLess(a, c)
  {
    hide IsIdent, VectorToPath, Less;
    var p, q, r := VectorToPath(DropLast(a)), VectorToPath(DropLast(b)), VectorToPath(DropLast(c));
    SameParentText(a, b);
    Trichotomy(p, p);
    Trichotomy(p, q);
    Trichotomy(Last(a), Last(a));
    Trichotomy(Last(a), Last(b));
    if NameLess(a, b) && NameLess(b, c) {
      Chain(p, q, r);
      Chain(Last(a), Last(b), Last(c));
    }
  }

  lemma Chain(a: string, b: string, c: string)
    ensures Less(a, b) && Less(b, c) ==> Less(a, c)
  {
    if Less(a, b) && Less(b, c) {
      Transitive(a, b, c);
    }
  }

  // ---- What the filter selects ----

  lemma Leaves(db: Db, kind: Ident, o: Object)
    requires Consistent(db.relations) && o.kind == kind && Fits(db.relations, o) && kind in db.relations.embeddedInto
    requires db.relations.column[kind] == db.relations.embeddedInto[kind]
    ensures forall op, text :: Matches(db, Compare(op, kind, "name", text), o) <==> Holds(op, Last(o.name), text)
    ensures forall op, text ::
      Matches(db, Compare(op, kind, db.relations.embeddedInto[kind], text), o) <==>
        Holds(op, VectorToPath(DropLast(o.name)), text)
  {
  }

  /** A filter on the name looks at the last part only. */
  lemma LastPart(db: Db, op: Comparison, kind: Ident, text: string, o: Object)
    requires o.kind == kind && o.name != []
    ensures Matches(db, Compare(op, kind, "name", text), o) <==> Holds(op, Last(o.name), text)
  {
  }

  lemma AndOfTwo(db: Db, a: Filter, b: Filter, o: Object)
    ensures Matches(db, And([a, b]), o) <==> Matches(db, a, o) && Matches(db, b, o)
    ensures Matches(db, Or([a, b]), o) <==> Matches(db, a, o) || Matches(db, b, o)
  {
    assert [a, b][0] == a && [a, b][1] == b;
  }

  predicate DecidedByParts(op: Comparison, parent: string, local: string, otherParent: string, otherLocal: string) {
    || (op != Eq && Holds(Strict(op), parent, otherParent))
    || (Holds(op, local, otherLocal) && parent == otherParent)
  }

  lemma PathFilterMatches(db: Db, op: Comparison, kind: Ident, parentName: string, localName: Ident, o: Object)
    requires Consistent(db.relations) && o.kind == kind && Fits(db.relations, o) && kind in db.relations.embeddedInto
    requires db.relations.column[kind] == db.relations.embeddedInto[kind] && o.name != []
    ensures Matches(db, PathFilter(op, kind, db.relations.embeddedInto[kind], parentName, localName), o) <==>
      DecidedByParts(op, VectorToPath(DropLast(o.name)), Last(o.name), parentName, localName)
  {
    hide Matches, Fits;
    var parentKind := db.relations.embeddedInto[kind];
    var local := Compare(op, kind, "name", localName);
    var sameParent := Compare(Eq, kind, parentKind, parentName);
    Leaves(db, kind, o);
    AndOfTwo(db, local, sameParent, o);
    AndOfTwo(db, Compare(Strict(op), kind, parentKind, parentName), And([local, sameParent]), o);
  }

  lemma OrderOnParts(op: Comparison, a: Name, b: Name)
    requires Ordered(op) && FullName(a) && FullName(b) && |a| == |b|
    ensures var p, q := VectorToPath(DropLast(a)), VectorToPath(DropLast(b));
      NameHolds(op, a, b) <==> DecidedByParts(op, p, Last(a), q, Last(b))
  {
    hide IsIdent, VectorToPath, Less;
    SameParentText(a, b);
    Trichotomy(VectorToPath(DropLast(a)), VectorToPath(DropLast(b)));
    Trichotomy(VectorToPath(DropLast(b)), VectorToPath(DropLast(b)));
  }

  lemma ReadsBack(name: Name)
    requires FullName(name)
    ensures PathToVector(VectorToPath(name)) == Some(name) && Last(name) != ""
  {
    PrintThenRead(name);
  }

  /** The reference to the parent goes by the name of the parent's kind. */
  predicate ColumnFits(r: Relations, kind: Ident)
    requires r.column.Keys == r.embeddedInto.Keys
  {
    kind in r.embeddedInto ==> r.column[kind] == r.embeddedInto[kind]
  }

  /** At the top level the order on names is the order on texts. */
  lemma TopLevelOrder(db: Db, op: Comparison, kind: Ident, name: Name, o: Object)
    requires Consistent(db.relations) && Ordered(op) && kind !in db.relations.embeddedInto
    requires Fits(db.relations, Object(kind, name)) && o.kind == kind && Fits(db.relations, o)
    ensures name != [] && o.name != []
    ensures Matches(db, Compare(op, kind, "name", VectorToPath(name)), o) <==> NameHolds(op, o.name, name)
  {
    hide IsIdent, Less;
    TopLevelName(db.relations, Object(kind, name));
    TopLevelName(db.relations, o);
    LastPart(db, op, kind, VectorToPath(name), o);
    LastAndRest(o.name, name);
    Trichotomy(VectorToPath([]), VectorToPath([]));
    Trichotomy(Last(o.name), Last(name));
  }

  /**
   For every operator that orders names, the filter selects exactly the objects whose name stands in that relation to
   the given one.
   */
  lemma FilterComparesNames(db: Db, op: Comparison, kind: Ident, name: Name, o: Object)
    requires Consistent(db.relations) && Ordered(op) && ColumnFits(db.relations, kind)
    requires Fits(db.relations, Object(kind, name)) && o.kind == kind && Fits(db.relations, o)
    ensures name != [] && o.name != []
    ensures KindFilter(db.relations, op, kind, VectorToPath(name)).Built?
    ensures Matches(db, KindFilter(db.relations, op, kind, VectorToPath(name)).filter, o)
      <==> NameHolds(op, o.name, name)
  {
    hide IsIdent, VectorToPath, Matches, PathFilter, NameHolds, PathToVector;
    ReadsBack(name);
    if kind in db.relations.embeddedInto {
      PathFilterMatches(db, op, kind, VectorToPath(DropLast(name)), Last(name), o);
      OrderOnParts(op, o.name, name);
    } else {
      TopLevelOrder(db, op, kind, name, o);
    }
  }

  /** The one part of a name without its parent, of a kind at any depth, is compared with the last parts; no other check. */
  lemma LocalNames(db: Db, op: Comparison, kind: Ident, name: Ident, o: Object)
    requires Acyclic(db.relations.embeddedInto) && IsIdent(name) && o.kind == kind && o.name != []
    ensures KindFilter(db.relations, op, kind, name).Built?
    ensures Matches(db, KindFilter(db.relations, op, kind, name).filter, o) <==> Holds(op, Last(o.name), name)
  {
    hide IsIdent, PathToVector, Matches;
    ReadsBack([name]);
    LastPart(db, op, kind, name, o);
  }

  /** Which texts are refused, and how. */
  lemma Refusals(r: Relations, op: Comparison, kind: Ident, text: string)
    requires Acyclic(r.embeddedInto)
    ensures KindFilter(r, op, kind, text).Unreadable? <==> PathToVector(text).None?
    ensures PathToVector(text).Some? ==>
      var name, result := PathToVector(text).value, KindFilter(r, op, kind, text);
      && name != []
      && (result.Misnamed? <==> Last(name) == "" || (|name| > 1 && |name| != Depth(r.embeddedInto, kind) + 1))
      && (result.OutOfRange? <==> !result.Misnamed? && |name| > 1 && !Ordered(op))
  {
    hide PathToVector, PathFilter;
  }

  /** The six operators agree with one order. */
  lemma OperatorsAgree(db: Db, kind: Ident, name: Name, o: Object)
    requires Consistent(db.relations) && ColumnFits(db.relations, kind)
    requires Fits(db.relations, Object(kind, name)) && o.kind == kind && Fits(db.relations, o)
    ensures forall op | Ordered(op) :: KindFilter(db.relations, op, kind, VectorToPath(name)).Built?
    ensures Selects(db, Ne, kind, name, o) <==> !Selects(db, Eq, kind, name, o)
    ensures Selects(db, Ge, kind, name, o) <==> !Selects(db, Lt, kind, name, o)
    ensures Selects(db, Le, kind, name, o) <==> !Selects(db, Gt, kind, name, o)
    ensures Selects(db, Le, kind, name, o) <==> Selects(db, Lt, kind, name, o) || Selects(db, Eq, kind, name, o)
  {
    hide IsIdent, VectorToPath, Matches, KindFilter, NameLess;
    forall op | Ordered(op)
      ensures name != [] && o.name != [] && KindFilter(db.relations, op, kind, VectorToPath(name)).Built?
      ensures Selects(db, op, kind, name, o) <==> NameHolds(op, o.name, name)
    {
      FilterComparesNames(db, op, kind, name, o);
    }
    assert Ordered(Eq);
    NamesTotallyOrdered(o.name, name, name);
  }

  predicate Selects(db: Db, op: Comparison, kind: Ident, name: Name, o: Object)
    requires Acyclic(db.relations.embeddedInto)
  {
    && KindFilter(db.relations, op, kind, VectorToPath(name)).Built?
    && Matches(db, KindFilter(db.relations, op, kind, VectorToPath(name)).filter, o)
  }

  // ---- The name of the reference to the parent ----

  ghost predicate ComparesNames(r: Relations, op: Comparison, kind: Ident, name: Name)
    requires Acyclic(r.embeddedInto) && name != []
  {
    forall db: Db, o: Object | db.relations == r && o.kind == kind && Fits(r, o) && o.name != [] ::
      Selects(db, op, kind, name, o) <==> NameHolds(op, o.name, name)
  }

  /** The filter calls the reference to the parent by the name of the parent's kind, which must be its name. */
  lemma ComparesNamesIffColumnFits(r: Relations, op: Comparison, kind: Ident, name: Name)
    requires Consistent(r) && Ordered(op) && (kind in r.embeddedInto ==> r.embeddedInto[kind] != "name")
    requires Fits(r, Object(kind, name)) && name != []
    ensures ComparesNames(r, op, kind, name) <==> ColumnFits(r, kind)
  {
    hide IsIdent, VectorToPath, Matches, KindFilter;
    if ColumnFits(r, kind) {
      forall db: Db, o: Object | db.relations == r && o.kind == kind && Fits(r, o) && o.name != []
        ensures Selects(db, op, kind, name, o) <==> NameHolds(op, o.name, name)
      {
        FilterComparesNames(db, op, kind, name, o);
      }
    } else {
      var db := OtherColumn(r, op, kind, name);
      assert !(Selects(db, op, kind, name, Object(kind, name)) <==> NameHolds(op, name, name));
    }
  }

  /** With any other name the parent plays no part in the answer, and the object itself is misjudged. */
  lemma OtherColumn(r: Relations, op: Comparison, kind: Ident, name: Name) returns (db: Db)
    requires Consistent(r) && Ordered(op) && kind in r.embeddedInto && r.embeddedInto[kind] != "name"
    requires r.column[kind] != r.embeddedInto[kind]
    requires Fits(r, Object(kind, name)) && name != []
    ensures db.relations == r
    ensures Selects(db, op, kind, name, Object(kind, name)) <==> !NameHolds(op, name, name)
  {
    hide IsIdent, VectorToPath, Less, PathToVector;
    var o := Object(kind, name);
    var parentKind, parentName := r.embeddedInto[kind], VectorToPath(DropLast(name));
    var strict := Compare(Strict(op), kind, parentKind, parentName);
    var same := Compare(Eq, kind, parentKind, parentName);
    db := Db(r, {}, if op.Ne? || op.Gt? || op.Lt? then {(strict, o)} else {});
    ReadsBack(name);
    NamesTotallyOrdered(name, name, name);
    var local := Compare(op, kind, "name", Last(name));
    AndOfTwo(db, local, same, o);
    AndOfTwo(db, strict, And([local, same]), o);
    assert Matches(db, strict, o) <==> (strict, o) in db.facts;
    assert Matches(db, same, o) <==> (same, o) in db.facts;
  }
}
