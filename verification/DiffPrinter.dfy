/**
 printDiff: the modifications are sorted by object and printed as blocks. The printer only sees the neighbours of the
 current modification, and keeps its depth and the colour of the open block in two variables of the caller.
 */
module DiffPrinter {
  import opened Core
  import opened Rebase
  import StringOrder
  import Sorting
  import Values

  /** The marks in front of a line. */
  datatype Mark = Plain | Plus | Minus

  datatype Line =
    | Header(mark: Mark, indent: nat, kind: Ident, name: Ident)
    | Attribute(mark: Mark, indent: nat, attribute: Ident, value: Values.Value)
    | End(mark: Mark, indent: nat)

  /** ModificationObjectExtractor: a renaming belongs to the new name. */
  function Target(m: Modification): (Ident, Ident) {
    (m.kind, if m.RenameObject? then m.newName else m.name)
  }

  /** modificationDiffComparatorLess */
  predicate DiffLess(a: Modification, b: Modification) {
    var (ka, na) := Target(a);
    var (kb, nb) := Target(b);
    if StringOrder.Less(ka, kb) then true
    else if StringOrder.Less(kb, ka) then false
    else if StringOrder.Less(na, nb) then true
    else if StringOrder.Less(nb, na) then false
    else Type(a) < Type(b)
  }

  lemma DiffTrichotomy(a: Modification, b: Modification)
    ensures DiffLess(a, b) ==> !DiffLess(b, a)
    ensures DiffLess(a, b) || DiffLess(b, a) <==> !(Target(a) == Target(b) && Type(a) == Type(b))
    ensures Target(a) == Target(b) ==> (DiffLess(a, b) <==> Type(a) < Type(b))
  {
    var (ka, na) := Target(a);
    var (kb, nb) := Target(b);
    StringOrder.Trichotomy(ka, kb);
    StringOrder.Trichotomy(na, nb);
    StringOrder.Trichotomy(ka, ka);
    StringOrder.Trichotomy(na, na);
  }

  lemma DiffTransitive(a: Modification, b: Modification, c: Modification)
    requires DiffLess(a, b) && DiffLess(b, c)
    ensures DiffLess(a, c)
  {
    var (ka, na) := Target(a);
    var (kb, nb) := Target(b);
    var (kc, nc) := Target(c);
    StringOrder.Trichotomy(ka, kb);
    StringOrder.Trichotomy(kb, kc);
    StringOrder.Trichotomy(ka, kc);
    StringOrder.Trichotomy(na, nb);
    StringOrder.Trichotomy(nb, nc);
    StringOrder.Trichotomy(na, nc);
    if StringOrder.Less(ka, kb) && StringOrder.Less(kb, kc) { StringOrder.Transitive(ka, kb, kc); }
    if StringOrder.Less(na, nb) && StringOrder.Less(nb, nc) { StringOrder.Transitive(na, nb, nc); }
  }

  lemma DiffEqual(a: Modification, b: Modification, c: Modification)
    requires Target(a) == Target(b) && Type(a) == Type(b)
    ensures DiffLess(a, c) == DiffLess(b, c) && DiffLess(c, a) == DiffLess(c, b)
  {
    hide StringOrder.Less, Type;
  }

  lemma DiffLessIsStrictOrder()
    ensures Sorting.StrictOrder(DiffLess)
  {
    hide DiffLess, Target, Type;
    forall a, b ensures DiffLess(a, b) ==> !DiffLess(b, a) {
      DiffTrichotomy(a, b);
    }
    forall a, b, c | !DiffLess(b, a) && !DiffLess(c, b) ensures !DiffLess(c, a) {
      DiffTrichotomy(a, b);
      DiffTrichotomy(b, c);
      DiffTrichotomy(a, c);
      if Target(a) == Target(b) && Type(a) == Type(b) {
        DiffEqual(a, b, c);
      } else if Target(b) == Target(c) && Type(b) == Type(c) {
        DiffEqual(b, c, a);
      } else {
        DiffTransitive(a, b, c);
      }
    }
  }

  // ---- The printer ----

  /** createdObj and printDepth, and what has been printed. */
  datatype Progress = Progress(created: bool, depth: nat, lines: seq<Line>)

  predicate About(neighbour: Option<Modification>, m: Modification) {
    neighbour.Some? && Target(neighbour.value) == Target(m)
  }

  /** ModificationPrinter; None is the failed assertion about the depth. */
  function Print(previous: Option<Modification>, next: Option<Modification>, m: Modification, p: Progress): Option<Progress>
  {
    match m
    case CreateObject(kind, name) =>
      var header := p.lines + [Header(Plus, p.depth, kind, name)];
      if About(next, m) then Some(Progress(true, p.depth + 1, header))
      else Some(Progress(false, p.depth, header + [End(Plus, p.depth)]))
    case DeleteObject(kind, name) =>
      Some(Progress(false, p.depth, p.lines + [Header(Minus, p.depth, kind, name), End(Minus, p.depth)]))
    case RenameObject(kind, name, newName) =>
      var headers := p.lines + [Header(Minus, p.depth, kind, name), Header(Plus, p.depth, kind, newName)];
      if About(next, m) then Some(Progress(false, p.depth + 1, headers))
      else Some(Progress(false, p.depth, headers + [End(Plain, p.depth)]))
    case SetAttribute(kind, name, attribute, value, oldValue) =>
      var inside := if About(previous, m) then p else Progress(p.created, p.depth + 1, p.lines + [Header(Plain, p.depth, kind, name)]);
      var written := inside.lines
        + (if oldValue.Some? then [Attribute(Minus, inside.depth, attribute, oldValue.value)] else [])
        + (if value.Some? then [Attribute(Plus, inside.depth, attribute, value.value)] else []);
      if About(next, m) then Some(Progress(inside.created, inside.depth, written))
      else if inside.depth == 0 then None
      else
        var depth := inside.depth - 1;
        Some(Progress(false, depth, written + [End(if inside.created then Plus else Plain, depth)]))
  }

  function At(ms: seq<Modification>, i: int): Option<Modification> {
    if 0 <= i < |ms| then Some(ms[i]) else None
  }

  /** After the first n modifications. */
  function Printed(ms: seq<Modification>, n: nat): Option<Progress>
    requires n <= |ms|
    decreases n
  {
    if n == 0 then Some(Progress(false, 0, []))
    else
      var p := Printed(ms, n - 1);
      if p.None? then None else Print(At(ms, n - 2), At(ms, n), ms[n - 1], p.value)
  }

  /** std::sort, then one pass; the assertion would stop the program. */
  method PrintDiff(modifications: seq<Modification>) returns (lines: Option<seq<Line>>)
    ensures var sorted := Sorting.Sort(modifications, DiffLess);
      lines == if Printed(sorted, |sorted|).Some? then Some(Printed(sorted, |sorted|).value.lines) else None
  {
    hide Print, DiffLess;
    if modifications == [] {
      return Some([]);
    }
    var sortedModifications := Sorting.Sort(modifications, DiffLess);
    var p := Progress(false, 0, []);
    var previous: Option<Modification>, next: Option<Modification> := None, None;
    var it := 0;
    while it < |sortedModifications|
      invariant 0 <= it <= |sortedModifications|
      invariant it <= 1 ==> previous == None
      invariant it > 1 ==> previous == Some(sortedModifications[it - 2])
      invariant Printed(sortedModifications, it) == Some(p)
    {
      if it != 0 {
        previous := Some(sortedModifications[it - 1]);
      }
      next := if it + 1 != |sortedModifications| then Some(sortedModifications[it + 1]) else None;
      var printed := Print(previous, next, sortedModifications[it], p);
      assert Printed(sortedModifications, it + 1) == printed;
      if printed.None? {
        FailureStays(sortedModifications, it + 1, |sortedModifications|);
        return None;
      }
      p := printed.value;
      it := it + 1;
    }
    return Some(p.lines);
  }

  lemma {:induction false} FailureStays(ms: seq<Modification>, n: nat, m: nat)
    requires n <= m <= |ms| && Printed(ms, n).None?
    ensures Printed(ms, m).None?
    decreases m
  {
    if n < m {
      FailureStays(ms, n, m - 1);
    }
  }
}
