/** What a reader of a printed difference learns: exactly what the modifications changed. */
module DiffReading {
  import opened Core
  import opened Rebase
  import opened DiffPrinter
  import DiffLaws
  import Sorting
  import StringOrder
  import Values

  /** A single change of the database; an attribute loses its old value and gets its new one. */
  datatype Fact =
    | Came(kind: Ident, name: Ident)
    | Went(kind: Ident, name: Ident)
    | Moved(kind: Ident, name: Ident, newName: Ident)
    | Lost(kind: Ident, name: Ident, attribute: Ident, value: Values.Value)
    | Got(kind: Ident, name: Ident, attribute: Ident, value: Values.Value)

  function FactsOf(m: Modification): seq<Fact> {
    match m
    case CreateObject(kind, name) => [Came(kind, name)]
    case DeleteObject(kind, name) => [Went(kind, name)]
    case RenameObject(kind, name, newName) => [Moved(kind, name, newName)]
    case SetAttribute(kind, name, attribute, value, oldValue) =>
      (if oldValue.Some? then [Lost(kind, name, attribute, oldValue.value)] else [])
      + (if value.Some? then [Got(kind, name, attribute, value.value)] else [])
  }

  function AllFacts(ms: seq<Modification>, n: nat): seq<Fact>
    requires n <= |ms|
  {
    if n == 0 then [] else AllFacts(ms, n - 1) + FactsOf(ms[n - 1])
  }

  // ---- Reading line by line ----

  /** The block the reader is in, a header with a minus whose meaning is still open, and what has been learned. */
  datatype Reader = Reader(block: Option<(Ident, Ident)>, minus: Option<(Ident, Ident)>, facts: seq<Fact>)

  function Hear(t: Reader, line: Line): Reader {
    match line
    case Header(mark, _, kind, name) =>
      if mark == Minus then Reader(None, Some((kind, name)), t.facts)
      else if mark == Plain then Reader(Some((kind, name)), None, t.facts)
      else if t.minus.Some? then Reader(Some((kind, name)), None, t.facts + [Moved(t.minus.value.0, t.minus.value.1, name)])
      else Reader(Some((kind, name)), None, t.facts + [Came(kind, name)])
    case Attribute(mark, _, attribute, value) =>
      if t.block.None? then t
      else
        var (kind, name) := t.block.value;
        t.(facts := t.facts + [if mark == Minus then Lost(kind, name, attribute, value) else Got(kind, name, attribute, value)])
    case End(_, _) =>
      if t.minus.Some? then Reader(None, None, t.facts + [Went(t.minus.value.0, t.minus.value.1)])
      else Reader(None, None, t.facts)
  }

  function HearAll(lines: seq<Line>): Reader {
    if lines == [] then Reader(None, None, []) else Hear(HearAll(DropLast(lines)), Last(lines))
  }

  lemma HearOne(lines: seq<Line>, line: Line)
    ensures HearAll(lines + [line]) == Hear(HearAll(lines), line)
  {
    assert DropLast(lines + [line]) == lines;
  }

  lemma HearTwo(lines: seq<Line>, a: Line, b: Line)
    ensures HearAll(lines + [a, b]) == Hear(Hear(HearAll(lines), a), b)
  {
    assert lines + [a, b] == (lines + [a]) + [b];
    HearOne(lines, a);
    HearOne(lines + [a], b);
  }

  /** The reader knows the first n modifications, and which block is open. */
  predicate Knows(ms: seq<Modification>, n: nat, lines: seq<Line>)
    requires n <= |ms|
  {
    HearAll(lines) == Reader(
      if !DiffLaws.Continues(ms, n) || ms[n - 1].DeleteObject? then None else Some(Target(ms[n - 1])),
      None,
      AllFacts(ms, n))
  }

  lemma KnowsOpening(ms: seq<Modification>, n: nat, p: Progress)
    requires n < |ms| && Knows(ms, n, p.lines) && DiffLaws.Opens(ms[n])
    ensures var q := Print(At(ms, n - 1), At(ms, n + 1), ms[n], p); q.Some? && Knows(ms, n + 1, q.value.lines)
  {
    hide HearAll;
    var m := ms[n];
    DiffLaws.AboutNext(ms, n);
    if m.CreateObject? {
      var header := Header(Plus, p.depth, m.kind, m.name);
      HearOne(p.lines, header);
      HearOne(p.lines + [header], DiffPrinter.End(Plus, p.depth));
    } else {
      var headers := p.lines + [Header(Minus, p.depth, m.kind, m.name), Header(Plus, p.depth, m.kind, m.newName)];
      HearTwo(p.lines, Header(Minus, p.depth, m.kind, m.name), Header(Plus, p.depth, m.kind, m.newName));
      HearOne(headers, DiffPrinter.End(Plain, p.depth));
    }
  }

  lemma KnowsDeleting(ms: seq<Modification>, n: nat, p: Progress)
    requires n < |ms| && Knows(ms, n, p.lines) && ms[n].DeleteObject?
    ensures var q := Print(At(ms, n - 1), At(ms, n + 1), ms[n], p); q.Some? && Knows(ms, n + 1, q.value.lines)
  {
    hide HearAll;
    HearTwo(p.lines, Header(Minus, p.depth, ms[n].kind, ms[n].name), DiffPrinter.End(Minus, p.depth));
  }

  lemma HearValues(lines: seq<Line>, m: Modification, depth: nat)
    requires m.SetAttribute? && HearAll(lines).block == Some((m.kind, m.name)) && HearAll(lines).minus == None
    ensures HearAll(lines + DiffLaws.Values(m, depth)) == HearAll(lines).(facts := HearAll(lines).facts + FactsOf(m))
  {
    hide HearAll;
    var t := HearAll(lines);
    if m.oldValue.Some? && m.value.Some? {
      var a, b := Attribute(Minus, depth, m.attribute, m.oldValue.value), Attribute(Plus, depth, m.attribute, m.value.value);
      HearTwo(lines, a, b);
      assert DiffLaws.Values(m, depth) == [a, b];
    } else if m.oldValue.Some? {
      HearOne(lines, Attribute(Minus, depth, m.attribute, m.oldValue.value));
      assert DiffLaws.Values(m, depth) == [Attribute(Minus, depth, m.attribute, m.oldValue.value)];
    } else if m.value.Some? {
      HearOne(lines, Attribute(Plus, depth, m.attribute, m.value.value));
      assert DiffLaws.Values(m, depth) == [Attribute(Plus, depth, m.attribute, m.value.value)];
    } else {
      assert lines + DiffLaws.Values(m, depth) == lines && t.facts + FactsOf(m) == t.facts;
    }
  }

  lemma KnowsSetting(ms: seq<Modification>, n: nat, p: Progress)
    requires n < |ms| && Knows(ms, n, p.lines) && ms[n].SetAttribute? && DiffLaws.FollowsAt(ms, n)
    ensures var q := Print(At(ms, n - 1), At(ms, n + 1), ms[n], p); q.Some? ==> Knows(ms, n + 1, q.value.lines)
  {
    hide HearAll, Print, DiffLaws.Values, About, At, FactsOf;
    var m := ms[n];
    DiffLaws.AboutNext(ms, n);
    DiffLaws.PrintAttribute(At(ms, n - 1), At(ms, n + 1), m, p);
    var header := Header(Plain, p.depth, m.kind, m.name);
    HearOne(p.lines, header);
    var lines := if DiffLaws.Continues(ms, n) then p.lines else p.lines + [header];
    var depth := if DiffLaws.Continues(ms, n) then p.depth else p.depth + 1;
    HearValues(lines, m, depth);
    if depth > 0 {
      HearOne(lines + DiffLaws.Values(m, depth), DiffPrinter.End(if p.created then Plus else Plain, depth - 1));
    }
  }

  lemma {:induction false} AlwaysKnows(ms: seq<Modification>, n: nat)
    requires DiffLaws.LocallyValid(ms) && n <= |ms|
    ensures Printed(ms, n).Some? && Knows(ms, n, Printed(ms, n).value.lines)
    decreases n
  {
    hide Knows, Print, At, DiffLaws.LocallyValid, DiffLaws.Good;
    DiffLaws.AlwaysGood(ms, n);
    if n == 0 {
      KnowsAtFirst(ms);
    } else {
      AlwaysKnows(ms, n - 1);
      DiffLaws.LocallyAt(ms, n - 1);
      var p := Printed(ms, n - 1).value;
      if DiffLaws.Opens(ms[n - 1]) {
        KnowsOpening(ms, n - 1, p);
      } else if ms[n - 1].DeleteObject? {
        KnowsDeleting(ms, n - 1, p);
      } else {
        KnowsSetting(ms, n - 1, p);
      }
    }
  }

  lemma KnowsAtFirst(ms: seq<Modification>)
    ensures Knows(ms, 0, [])
  {
  }

  // ---- Main results ----

  lemma {:induction false} FactsFrom(ms: seq<Modification>, n: nat, fact: Fact)
    requires n <= |ms|
    ensures fact in AllFacts(ms, n) <==> exists i :: 0 <= i < n && fact in FactsOf(ms[i])
    decreases n
  {
    hide FactsOf;
    if n > 0 {
      FactsFrom(ms, n - 1, fact);
    }
  }

  /** From the lines of a valid difference a reader learns what every modification changed, and nothing else. */
  lemma ReadersLearn(modifications: seq<Modification>)
    requires DiffLaws.ValidDiff(multiset(modifications))
    ensures var sorted := Sorting.Sort(modifications, DiffLess);
      && Printed(sorted, |sorted|).Some?
      && var facts := HearAll(Printed(sorted, |sorted|).value.lines).facts;
         && facts == AllFacts(sorted, |sorted|)
         && forall fact :: fact in facts <==> exists m :: m in modifications && fact in FactsOf(m)
  {
    hide Printed, DiffLess, Sorting.Sorted, DiffLaws.ValidDiff, DiffLaws.LocallyValid, FactsOf, HearAll, AllFacts;
    var sorted := Sorting.Sort(modifications, DiffLess);
    DiffLessIsStrictOrder();
    Sorting.SortSorts(modifications, DiffLess);
    DiffLaws.ValidIsLocallyValid(sorted);
    AlwaysKnows(sorted, |sorted|);
    forall fact ensures fact in AllFacts(sorted, |sorted|) <==> exists m :: m in modifications && fact in FactsOf(m) {
      FactsFrom(sorted, |sorted|, fact);
      if m :| m in modifications && fact in FactsOf(m) {
        assert m in multiset(modifications);
        assert m in sorted;
      }
      if i :| 0 <= i < |sorted| && fact in FactsOf(sorted[i]) {
        assert sorted[i] in multiset(sorted);
        assert sorted[i] in modifications;
      }
    }
  }

  /** Objects come by kind and name, a renamed one under its new name; on one object first its former namesake goes. */
  lemma ObjectsInTurn(a: Modification, b: Modification)
    ensures DiffLess(a, b) <==>
      var (ka, na) := (a.kind, if a.RenameObject? then a.newName else a.name);
      var (kb, nb) := (b.kind, if b.RenameObject? then b.newName else b.name);
      || StringOrder.Less(ka, kb) || (ka == kb && StringOrder.Less(na, nb))
      || (ka == kb && na == nb && Earlier(a, b))
  {
    StringOrder.Trichotomy(a.kind, b.kind);
    StringOrder.Trichotomy(Target(a).1, Target(b).1);
    StringOrder.Trichotomy(a.kind, a.kind);
  }

  predicate Earlier(a: Modification, b: Modification) {
    match a
    case DeleteObject(_, _) => !b.DeleteObject?
    case RenameObject(_, _, _) => b.CreateObject? || b.SetAttribute?
    case CreateObject(_, _) => b.SetAttribute?
    case SetAttribute(_, _, _, _, _) => false
  }
}
