/** When the printed diff is well formed: exactly if the list of modifications makes sense for every object. */
module DiffLaws {
  import opened Core
  import opened Rebase
  import opened DiffPrinter
  import Sorting
  import StringOrder

  /** Modifications that may have open the block of an object: it came into being, or got its name. */
  predicate Opens(m: Modification) {
    m.CreateObject? || m.RenameObject?
  }

  /**
   A diff the server could report: an object comes to its name at most once, and an object whose former namesake was
   deleted has attributes only if it came to the name afterwards.
   */
  ghost predicate ValidDiff(ms: multiset<Modification>) {
    && (forall m | m in ms && Opens(m) :: ms[m] == 1)
    && (forall a, b | a in ms && b in ms && Opens(a) && Opens(b) && a != b :: Target(a) != Target(b))
    && (forall d, s | d in ms && s in ms && d.DeleteObject? && s.SetAttribute? && Target(d) == Target(s) ::
          HasOpener(ms, Target(d)))
  }

  ghost predicate HasOpener(ms: multiset<Modification>, target: (Ident, Ident)) {
    exists o :: o in ms && Opens(o) && Target(o) == target
  }

  // ---- What is asked of the output ----

  /** The n-th modification is about the object of the one before. */
  predicate Continues(ms: seq<Modification>, n: int) {
    0 < n < |ms| && Target(ms[n - 1]) == Target(ms[n])
  }

  predicate CleanAt(ms: seq<Modification>, n: nat)
    requires n <= |ms|
  {
    Printed(ms, n).Some? && (!Continues(ms, n) ==> Printed(ms, n).value.depth == 0)
  }

  /** The assertion never fails, and the depth is 0 between any two objects and at the end. */
  ghost predicate Clean(ms: seq<Modification>) {
    forall n | 0 <= n <= |ms| :: CleanAt(ms, n)
  }

  datatype Block = Outside | Inside(mark: Mark) | Broken

  /** One line of a reader who expects flat blocks; a renamed object has two header lines. */
  function Read(b: Block, line: Line): Block {
    match line
    case Header(mark, indent, _, _) =>
      if indent != 0 then Broken
      else if b == Outside then Inside(mark)
      else if b == Inside(Minus) && mark == Plus then Inside(Plain)
      else Broken
    case Attribute(_, indent, _, _) => if b.Inside? && b.mark != Minus && indent == 1 then b else Broken
    case End(mark, indent) => if b == Inside(mark) && indent == 0 then Outside else Broken
  }

  function ReadAll(lines: seq<Line>): Block {
    if lines == [] then Outside else Read(ReadAll(DropLast(lines)), Last(lines))
  }

  lemma ReadOne(lines: seq<Line>, line: Line)
    ensures ReadAll(lines + [line]) == Read(ReadAll(lines), line)
  {
    assert DropLast(lines + [line]) == lines;
  }

  lemma ReadTwo(lines: seq<Line>, a: Line, b: Line)
    ensures ReadAll(lines + [a, b]) == Read(Read(ReadAll(lines), a), b)
  {
    assert lines + [a, b] == (lines + [a]) + [b];
    ReadOne(lines, a);
    ReadOne(lines + [a], b);
  }

  // ---- Neighbours ----

  /** What may follow on the same object. */
  predicate Follows(a: Modification, b: Modification) {
    && (Opens(b) ==> a.DeleteObject?)
    && (b.SetAttribute? ==> !a.DeleteObject?)
    && (b.DeleteObject? ==> a.DeleteObject?)
  }

  predicate FollowsAt(ms: seq<Modification>, n: int) {
    Continues(ms, n) ==> Follows(ms[n - 1], ms[n])
  }

  ghost predicate LocallyValid(ms: seq<Modification>) {
    forall n :: FollowsAt(ms, n)
  }

  lemma SameTarget(a: Modification, b: Modification, c: Modification)
    requires Target(a) == Target(b) && Target(c) != Target(a)
    ensures DiffLess(a, c) == DiffLess(b, c) && DiffLess(c, a) == DiffLess(c, b)
  {
    hide StringOrder.Less, Type;
    StringOrder.Trichotomy(a.kind, c.kind);
    StringOrder.Trichotomy(Target(a).1, Target(c).1);
  }

  /** The modifications of one object stand together, in the order of their types. */
  lemma StandTogether(ms: seq<Modification>, x: nat, y: nat)
    requires Sorting.Sorted(ms, DiffLess) && x < y < |ms| && Target(ms[x]) == Target(ms[y])
    ensures Continues(ms, y) && Type(ms[x]) <= Type(ms[y - 1]) <= Type(ms[y])
  {
    hide DiffLess, Target, Type;
    var a, b, c := ms[x], ms[y], ms[y - 1];
    DiffTrichotomy(c, b);
    if x < y - 1 {
      DiffTrichotomy(a, c);
      if Target(c) != Target(a) {
        SameTarget(a, b, c);
      }
    }
  }

  lemma NextType(ms: seq<Modification>, n: nat)
    requires Sorting.Sorted(ms, DiffLess) && Continues(ms, n)
    ensures Type(ms[n - 1]) <= Type(ms[n])
  {
    hide DiffLess, Target, Type;
    DiffTrichotomy(ms[n - 1], ms[n]);
  }

  // ---- Valid diffs are locally valid, and the other way round ----

  lemma InMultiset(ms: seq<Modification>, i: nat)
    requires i < |ms|
    ensures ms[i] in multiset(ms)
  {
  }

  lemma Twice(ms: seq<Modification>, i: nat, j: nat)
    requires i < j < |ms| && ms[i] == ms[j]
    ensures multiset(ms)[ms[i]] >= 2
  {
    assert ms == ms[..j] + ms[j..];
    assert ms[i] in multiset(ms[..j]) && ms[j] in multiset(ms[j..]);
  }

  lemma ValidLocally(ms: seq<Modification>, n: nat)
    requires Sorting.Sorted(ms, DiffLess) && ValidDiff(multiset(ms)) && Continues(ms, n)
    ensures Follows(ms[n - 1], ms[n])
  {
    hide DiffLess, Target, Sorting.Sorted;
    var a, b := ms[n - 1], ms[n];
    NextType(ms, n);
    InMultiset(ms, n - 1);
    InMultiset(ms, n);
    if Opens(b) && Opens(a) {
      if a == b {
        Twice(ms, n - 1, n);
      }
    }
    if a.DeleteObject? && b.SetAttribute? {
      var o :| o in multiset(ms) && Opens(o) && Target(o) == Target(a);
      var k :| 0 <= k < |ms| && ms[k] == o;
      NothingBetween(ms, n, k);
    }
  }

  lemma NothingBetween(ms: seq<Modification>, n: nat, k: nat)
    requires Sorting.Sorted(ms, DiffLess) && Continues(ms, n) && k < |ms| && Target(ms[k]) == Target(ms[n])
    ensures Type(ms[k]) <= Type(ms[n - 1]) || Type(ms[n]) <= Type(ms[k])
  {
    hide DiffLess, Target, Type;
    if k < n {
      StandTogether(ms, k, n);
    } else if n < k {
      StandTogether(ms, n, k);
    }
  }

  lemma {:induction false} OpenerBetween(ms: seq<Modification>, x: nat, y: nat) returns (k: nat)
    requires Sorting.Sorted(ms, DiffLess) && LocallyValid(ms) && x < y < |ms| && Target(ms[x]) == Target(ms[y])
    requires ms[x].DeleteObject? && ms[y].SetAttribute?
    ensures k < |ms| && Opens(ms[k]) && Target(ms[k]) == Target(ms[y])
    decreases y
  {
    hide DiffLess, Target, Sorting.Sorted;
    StandTogether(ms, x, y);
    assert FollowsAt(ms, y);
    if Opens(ms[y - 1]) {
      k := y - 1;
    } else {
      k := OpenerBetween(ms, x, y - 1);
    }
  }

  lemma OneOpener(ms: seq<Modification>, x: nat, y: nat)
    requires Sorting.Sorted(ms, DiffLess) && LocallyValid(ms) && x < y < |ms|
    requires Opens(ms[x]) && Opens(ms[y])
    ensures Target(ms[x]) != Target(ms[y])
  {
    hide DiffLess, Target, Sorting.Sorted;
    if Target(ms[x]) == Target(ms[y]) {
      StandTogether(ms, x, y);
      LocallyAt(ms, y);
    }
  }

  lemma LocallyAt(ms: seq<Modification>, n: int)
    requires LocallyValid(ms)
    ensures FollowsAt(ms, n)
  {
  }

  lemma {:induction false} CountedTwice(ms: seq<Modification>, m: Modification) returns (x: nat, y: nat)
    requires multiset(ms)[m] >= 2
    ensures x < y < |ms| && ms[x] == m && ms[y] == m
    decreases |ms|
  {
    assert ms == DropLast(ms) + [Last(ms)];
    if Last(ms) == m {
      y := |ms| - 1;
      assert m in multiset(DropLast(ms));
      assert m in DropLast(ms);
      x :| 0 <= x < |ms| - 1 && DropLast(ms)[x] == m;
    } else {
      x, y := CountedTwice(DropLast(ms), m);
    }
  }

  lemma LocallyValidIsValid(ms: seq<Modification>)
    requires Sorting.Sorted(ms, DiffLess) && LocallyValid(ms)
    ensures ValidDiff(multiset(ms))
  {
    hide DiffLess, Target, Sorting.Sorted, LocallyValid, Opens;
    var all := multiset(ms);
    forall m | m in all && Opens(m) ensures all[m] == 1 {
      if all[m] >= 2 {
        var x, y := CountedTwice(ms, m);
        OneOpener(ms, x, y);
      }
    }
    forall a, b | a in all && b in all && Opens(a) && Opens(b) && a != b ensures Target(a) != Target(b) {
      var x :| 0 <= x < |ms| && ms[x] == a;
      var y :| 0 <= y < |ms| && ms[y] == b;
      if x < y {
        OneOpener(ms, x, y);
      } else {
        OneOpener(ms, y, x);
      }
    }
    forall d, s | d in all && s in all && d.DeleteObject? && s.SetAttribute? && Target(d) == Target(s)
      ensures HasOpener(all, Target(d))
    {
      var x :| 0 <= x < |ms| && ms[x] == d;
      var y :| 0 <= y < |ms| && ms[y] == s;
      DeletionFirst(ms, x, y);
      var k := OpenerBetween(ms, x, y);
      InMultiset(ms, k);
    }
  }

  lemma DeletionFirst(ms: seq<Modification>, x: nat, y: nat)
    requires Sorting.Sorted(ms, DiffLess) && x < |ms| && y < |ms| && Target(ms[x]) == Target(ms[y])
    requires ms[x].DeleteObject? && ms[y].SetAttribute?
    ensures x < y
  {
    hide DiffLess, Target;
    if y < x {
      StandTogether(ms, y, x);
    }
  }

  // ---- Locally valid diffs are printed well ----

  /** Between objects and behind deletions no block is open; elsewhere one is, and its end will have the right mark. */
  predicate Good(ms: seq<Modification>, n: nat, p: Progress)
    requires n <= |ms|
  {
    if !Continues(ms, n) || ms[n - 1].DeleteObject? then p.depth == 0 && !p.created && ReadAll(p.lines) == Outside
    else p.depth == 1 && ReadAll(p.lines) == Inside(if p.created then Plus else Plain)
  }

  lemma GoodOpening(ms: seq<Modification>, n: nat, p: Progress)
    requires n < |ms| && Good(ms, n, p) && Opens(ms[n]) && FollowsAt(ms, n)
    ensures var q := Print(At(ms, n - 1), At(ms, n + 1), ms[n], p); q.Some? && Good(ms, n + 1, q.value)
  {
    hide ReadAll, Target;
    var m := ms[n];
    if m.CreateObject? {
      ReadOne(p.lines, Header(Plus, p.depth, m.kind, m.name));
      ReadOne(p.lines + [Header(Plus, p.depth, m.kind, m.name)], DiffPrinter.End(Plus, p.depth));
    } else {
      var headers := p.lines + [Header(Minus, p.depth, m.kind, m.name), Header(Plus, p.depth, m.kind, m.newName)];
      ReadTwo(p.lines, Header(Minus, p.depth, m.kind, m.name), Header(Plus, p.depth, m.kind, m.newName));
      ReadOne(headers, DiffPrinter.End(Plain, p.depth));
    }
    AboutNext(ms, n);
  }

  /** What the printer sees of its neighbours. */
  lemma AboutNext(ms: seq<Modification>, n: nat)
    requires n < |ms|
    ensures About(At(ms, n + 1), ms[n]) <==> Continues(ms, n + 1)
    ensures About(At(ms, n - 1), ms[n]) <==> Continues(ms, n)
  {
  }

  lemma GoodDeleting(ms: seq<Modification>, n: nat, p: Progress)
    requires n < |ms| && Good(ms, n, p) && ms[n].DeleteObject? && FollowsAt(ms, n)
    ensures var q := Print(At(ms, n - 1), At(ms, n + 1), ms[n], p); q.Some? && Good(ms, n + 1, q.value)
  {
    hide ReadAll, Target;
    ReadTwo(p.lines, Header(Minus, p.depth, ms[n].kind, ms[n].name), DiffPrinter.End(Minus, p.depth));
  }

  /** The lines for the two values of an attribute. */
  function Values(m: Modification, depth: nat): seq<Line>
    requires m.SetAttribute?
  {
    (if m.oldValue.Some? then [Attribute(Minus, depth, m.attribute, m.oldValue.value)] else [])
    + (if m.value.Some? then [Attribute(Plus, depth, m.attribute, m.value.value)] else [])
  }

  lemma ReadValues(lines: seq<Line>, m: Modification)
    requires m.SetAttribute? && ReadAll(lines).Inside? && ReadAll(lines).mark != Minus
    ensures ReadAll(lines + Values(m, 1)) == ReadAll(lines)
  {
    hide ReadAll;
    if m.oldValue.Some? && m.value.Some? {
      ReadTwo(lines, Attribute(Minus, 1, m.attribute, m.oldValue.value), Attribute(Plus, 1, m.attribute, m.value.value));
      assert Values(m, 1) == [Attribute(Minus, 1, m.attribute, m.oldValue.value), Attribute(Plus, 1, m.attribute, m.value.value)];
    } else if m.oldValue.Some? {
      ReadOne(lines, Attribute(Minus, 1, m.attribute, m.oldValue.value));
      assert Values(m, 1) == [Attribute(Minus, 1, m.attribute, m.oldValue.value)];
    } else if m.value.Some? {
      ReadOne(lines, Attribute(Plus, 1, m.attribute, m.value.value));
      assert Values(m, 1) == [Attribute(Plus, 1, m.attribute, m.value.value)];
    } else {
      assert lines + Values(m, 1) == lines;
    }
  }

  /** Print for an attribute, with the lines of the values taken together. */
  lemma PrintAttribute(previous: Option<Modification>, next: Option<Modification>, m: Modification, p: Progress)
    requires m.SetAttribute?
    ensures
      var inside := if About(previous, m) then p
        else DiffPrinter.Progress(p.created, p.depth + 1, p.lines + [Header(Plain, p.depth, m.kind, m.name)]);
      var written := inside.lines + Values(m, inside.depth);
      Print(previous, next, m, p) ==
        if About(next, m) then Some(DiffPrinter.Progress(inside.created, inside.depth, written))
        else if inside.depth == 0 then None
        else Some(DiffPrinter.Progress(false, inside.depth - 1,
          written + [DiffPrinter.End(if inside.created then Plus else Plain, inside.depth - 1)]))
  {
    hide About;
    var lines := if About(previous, m) then p.lines else p.lines + [Header(Plain, p.depth, m.kind, m.name)];
    var depth := if About(previous, m) then p.depth else p.depth + 1;
    var old_ := if m.oldValue.Some? then [Attribute(Minus, depth, m.attribute, m.oldValue.value)] else [];
    var new_ := if m.value.Some? then [Attribute(Plus, depth, m.attribute, m.value.value)] else [];
    assert lines + old_ + new_ == lines + (old_ + new_);
  }

  lemma GoodSetting(ms: seq<Modification>, n: nat, p: Progress)
    requires n < |ms| && Good(ms, n, p) && ms[n].SetAttribute? && FollowsAt(ms, n)
    ensures var q := Print(At(ms, n - 1), At(ms, n + 1), ms[n], p); q.Some? && Good(ms, n + 1, q.value)
  {
    hide ReadAll, Target, Print, Values, About, At;
    var m := ms[n];
    AboutNext(ms, n);
    PrintAttribute(At(ms, n - 1), At(ms, n + 1), m, p);
    var header := Header(Plain, p.depth, m.kind, m.name);
    ReadOne(p.lines, header);
    var lines := if Continues(ms, n) then p.lines else p.lines + [header];
    ReadValues(lines, m);
    ReadOne(lines + Values(m, 1), DiffPrinter.End(if p.created then Plus else Plain, 0));
  }

  lemma {:induction false} AlwaysGood(ms: seq<Modification>, n: nat)
    requires LocallyValid(ms) && n <= |ms|
    ensures Printed(ms, n).Some? && Good(ms, n, Printed(ms, n).value)
    decreases n
  {
    hide Good, Print, At, LocallyValid;
    if n == 0 {
      GoodAtFirst(ms);
    } else {
      AlwaysGood(ms, n - 1);
      LocallyAt(ms, n - 1);
      var p := Printed(ms, n - 1).value;
      if Opens(ms[n - 1]) {
        GoodOpening(ms, n - 1, p);
      } else if ms[n - 1].DeleteObject? {
        GoodDeleting(ms, n - 1, p);
      } else {
        GoodSetting(ms, n - 1, p);
      }
    }
  }

  lemma GoodAtFirst(ms: seq<Modification>)
    ensures Good(ms, 0, DiffPrinter.Progress(false, 0, []))
  {
  }

  // ---- Cleanly printed diffs are locally valid ----

  /** A depth of two is never undone within one object. */
  lemma {:induction false} TooDeep(ms: seq<Modification>, n: nat)
    requires n <= |ms| && Continues(ms, n) && Printed(ms, n).Some? && Printed(ms, n).value.depth >= 2
    ensures !Clean(ms)
    decreases |ms| - n
  {
    hide Target;
    if Clean(ms) {
      assert CleanAt(ms, n + 1);
      DepthStep(ms, n);
      TooDeep(ms, n + 1);
    }
  }

  lemma DepthStep(ms: seq<Modification>, n: nat)
    requires n < |ms| && Printed(ms, n).Some? && Printed(ms, n + 1).Some?
    ensures var d, e := Printed(ms, n).value.depth, Printed(ms, n + 1).value.depth;
      && (Continues(ms, n + 1) ==> e >= d)
      && (!Continues(ms, n + 1) ==> e >= d - 1)
      && (Opens(ms[n]) ==> e == if Continues(ms, n + 1) then d + 1 else d)
      && (ms[n].DeleteObject? ==> e == d)
  {
    hide Target;
    AboutNext(ms, n);
  }

  /** The second of two neighbouring openers opens a block inside a block. */
  lemma TwoOpeners(ms: seq<Modification>, n: nat)
    requires Continues(ms, n) && Opens(ms[n - 1]) && Opens(ms[n])
    ensures !Clean(ms)
  {
    hide Target, Print, Continues;
    NotAtEnd(ms, n);
    if Clean(ms) {
      assert CleanAt(ms, n - 1) && CleanAt(ms, n) && CleanAt(ms, n + 1);
      DepthStep(ms, n - 1);
      DepthStep(ms, n);
      if Continues(ms, n + 1) {
        NotAtEnd(ms, n + 1);
        TooDeep(ms, n + 1);
      }
    }
  }

  lemma NotAtEnd(ms: seq<Modification>, n: int)
    requires Continues(ms, n)
    ensures 0 < n < |ms|
  {
  }

  lemma {:induction false} DeletionsFlat(ms: seq<Modification>, n: nat)
    requires Sorting.Sorted(ms, DiffLess) && Clean(ms) && 0 < n <= |ms| && ms[n - 1].DeleteObject?
    ensures Printed(ms, n).Some? && Printed(ms, n).value.depth == 0
    decreases n
  {
    hide Target, Print, DiffLess, Sorting.Sorted;
    assert CleanAt(ms, n - 1) && CleanAt(ms, n);
    DepthStep(ms, n - 1);
    if Continues(ms, n - 1) {
      NextType(ms, n - 1);
      DeletionsFlat(ms, n - 1);
    }
  }

  /** An attribute behind a deletion finds no block to close. */
  lemma {:induction false} NoBlock(ms: seq<Modification>, n: nat)
    requires Sorting.Sorted(ms, DiffLess) && Continues(ms, n) && ms[n].SetAttribute?
    requires Printed(ms, n).Some? && Printed(ms, n).value.depth == 0
    ensures !Clean(ms)
    decreases |ms| - n
  {
    hide Target, DiffLess, Sorting.Sorted, Values;
    if Clean(ms) {
      assert CleanAt(ms, n + 1);
      AboutNext(ms, n);
      PrintAttribute(At(ms, n - 1), At(ms, n + 1), ms[n], Printed(ms, n).value);
      NextType(ms, n + 1);
      NoBlock(ms, n + 1);
    }
  }

  lemma CleanLocally(ms: seq<Modification>, n: int)
    requires Sorting.Sorted(ms, DiffLess) && Clean(ms)
    ensures FollowsAt(ms, n)
  {
    hide Target, DiffLess, Sorting.Sorted, Clean;
    if Continues(ms, n) {
      NextType(ms, n);
      if Opens(ms[n - 1]) && Opens(ms[n]) {
        TwoOpeners(ms, n);
      }
      if ms[n - 1].DeleteObject? && ms[n].SetAttribute? {
        DeletionsFlat(ms, n);
        NoBlock(ms, n);
      }
    }
  }

  // ---- Main results ----

  /** Whatever order sorting leaves equal elements in: printing is clean exactly if the diff is valid. */
  lemma CleanIffValid(ms: seq<Modification>)
    requires Sorting.Sorted(ms, DiffLess)
    ensures Clean(ms) <==> ValidDiff(multiset(ms))
  {
    hide Printed, DiffLess, Target, Sorting.Sorted, ValidDiff, Follows, Clean;
    if ValidDiff(multiset(ms)) {
      ValidIsLocallyValid(ms);
      CleanIfLocallyValid(ms);
    }
    if Clean(ms) {
      forall n ensures FollowsAt(ms, n) {
        CleanLocally(ms, n);
      }
      LocallyValidIsValid(ms);
    }
  }

  lemma ValidIsLocallyValid(ms: seq<Modification>)
    requires Sorting.Sorted(ms, DiffLess) && ValidDiff(multiset(ms))
    ensures LocallyValid(ms)
  {
    hide DiffLess, Target, Sorting.Sorted, ValidDiff, Follows;
    forall n ensures FollowsAt(ms, n) {
      if Continues(ms, n) {
        ValidLocally(ms, n);
      }
    }
  }

  lemma CleanIfLocallyValid(ms: seq<Modification>)
    requires LocallyValid(ms)
    ensures Clean(ms)
  {
    hide Printed, LocallyValid, Target;
    forall n | 0 <= n <= |ms| ensures CleanAt(ms, n) {
      AlwaysGood(ms, n);
    }
  }

  /** A valid diff is printed as flat blocks, each closed by one end of its own kind. */
  lemma ValidDiffPrinted(modifications: seq<Modification>)
    requires ValidDiff(multiset(modifications))
    ensures var sorted := Sorting.Sort(modifications, DiffLess);
      && Clean(sorted)
      && Printed(sorted, |sorted|).Some?
      && ReadAll(Printed(sorted, |sorted|).value.lines) == Outside
  {
    hide Printed, DiffLess, Target, Sorting.Sorted, ValidDiff, LocallyValid, Clean;
    var sorted := Sorting.Sort(modifications, DiffLess);
    DiffLessIsStrictOrder();
    Sorting.SortSorts(modifications, DiffLess);
    ValidIsLocallyValid(sorted);
    CleanIfLocallyValid(sorted);
    AlwaysGood(sorted, |sorted|);
  }
}
