/**
 Relations between kinds. Embedding is a partial function from a kind to the kind it is embedded in;
 the server guarantees that following it never returns to the same kind.
 */
module Schema {
  import opened Core

  ghost predicate Ranks(embeddedInto: map<Ident, Ident>, rank: Ident -> nat) {
    forall k | k in embeddedInto :: rank(embeddedInto[k]) < rank(k)
  }

  ghost predicate Acyclic(embeddedInto: map<Ident, Ident>) {
    exists rank: Ident -> nat :: Ranks(embeddedInto, rank)
  }

  ghost function RankOf(embeddedInto: map<Ident, Ident>): (rank: Ident -> nat)
    requires Acyclic(embeddedInto)
    ensures Ranks(embeddedInto, rank)
  {
    var rank: Ident -> nat :| Ranks(embeddedInto, rank);
    rank
  }

  /** How many kinds the kind is nested in. */
  function Depth(embeddedInto: map<Ident, Ident>, kind: Ident): nat
    requires Acyclic(embeddedInto)
    decreases RankOf(embeddedInto)(kind)
  {
    if kind in embeddedInto then 1 + Depth(embeddedInto, embeddedInto[kind]) else 0
  }

  /** The loop that measures the depth (categoryEntered and constructKindFilter both contain it). */
  method MeasureDepth(embeddedInto: map<Ident, Ident>, kind: Ident) returns (eDepth: nat)
    requires Acyclic(embeddedInto)
    ensures eDepth == Depth(embeddedInto, kind)
  {
    var embMeasure := kind;
    eDepth := 0;
    while embMeasure in embeddedInto
      invariant eDepth + Depth(embeddedInto, embMeasure) == Depth(embeddedInto, kind)
      decreases RankOf(embeddedInto)(embMeasure)
    {
      eDepth := eDepth + 1;
      embMeasure := embeddedInto[embMeasure];
    }
  }

  // ---- parserKindsEmbedsRecursively and parserKindsContainedRecursively ----

  /** A relation listing, for a kind, entries that lead to other kinds. */
  datatype Graph<!T(==,!new)> = Graph(entries: map<Ident, seq<T>>, target: T -> Ident) {

    function Direct(kind: Ident): seq<T> {
      if kind in entries then entries[kind] else []
    }

    ghost predicate RankedBy(rank: Ident -> nat) {
      forall k, x | k in entries && x in entries[k] :: rank(target(x)) < rank(k)
    }

    ghost predicate Acyclic() {
      exists rank: Ident -> nat :: RankedBy(rank)
    }

    ghost function Rank(kind: Ident): nat
      requires Acyclic()
    {
      var rank: Ident -> nat :| RankedBy(rank);
      rank(kind)
    }

    lemma RankDecreases(kind: Ident, x: T)
      requires Acyclic() && x in Direct(kind)
      ensures Rank(target(x)) < Rank(kind)
    {
    }

    /** Every entry the recursion ends up with for a kind, in some order and as often as it is found. */
    ghost function Found(kind: Ident): (r: seq<T>)
      requires Acyclic()
      ensures forall x | x in r :: Rank(target(x)) < Rank(kind)
      decreases Rank(kind), 1
    {
      ghost var direct := Direct(kind);
      assert forall x | x in direct :: Rank(target(x)) < Rank(kind) by {
        forall x | x in direct ensures Rank(target(x)) < Rank(kind) { RankDecreases(kind, x); }
      }
      Processed(direct, Rank(kind))
    }

    /** What one entry of the worklist finally contributes: itself and all that is appended because of it. */
    ghost function Contribution(x: T): (r: seq<T>)
      requires Acyclic()
      ensures forall y | y in r :: Rank(target(y)) <= Rank(target(x))
      decreases Rank(target(x)), 2
    {
      [x] + Processed(Found(target(x)), Rank(target(x)))
    }

    ghost function Processed(xs: seq<T>, bound: nat): (r: seq<T>)
      requires Acyclic()
      requires forall x | x in xs :: Rank(target(x)) < bound
      ensures forall y | y in r :: Rank(target(y)) < bound
      decreases bound, 0, |xs|
    {
      if xs == [] then [] else Contribution(xs[0]) + Processed(xs[1..], bound)
    }

    lemma {:induction false} BoundIrrelevant(xs: seq<T>, a: nat, b: nat)
      requires Acyclic() && forall x | x in xs :: Rank(target(x)) < a && Rank(target(x)) < b
      ensures Processed(xs, a) == Processed(xs, b)
      decreases |xs|
    {
      if xs != [] {
        BoundIrrelevant(xs[1..], a, b);
      }
    }

    lemma {:induction false} ProcessedConcat(xs: seq<T>, ys: seq<T>, bound: nat)
      requires Acyclic() && forall x | x in xs + ys :: Rank(target(x)) < bound
      ensures forall x | x in xs || x in ys :: Rank(target(x)) < bound
      ensures Processed(xs + ys, bound) == Processed(xs, bound) + Processed(ys, bound)
      decreases |xs|
    {
      assert forall x | x in xs || x in ys :: x in xs + ys;
      if xs == [] {
        assert xs + ys == ys;
      } else {
        assert (xs + ys)[1..] == xs[1..] + ys;
        ProcessedConcat(xs[1..], ys, bound);
      }
    }

    /** The order of the worklist does not matter for what is finally collected. */
    lemma {:induction false} ProcessedPermuted(xs: seq<T>, ys: seq<T>, bound: nat)
      requires Acyclic() && (forall x | x in xs :: Rank(target(x)) < bound) && multiset(xs) == multiset(ys)
      ensures forall y | y in ys :: Rank(target(y)) < bound
      ensures multiset(Processed(xs, bound)) == multiset(Processed(ys, bound))
      decreases |xs|
    {
      forall y | y in ys ensures Rank(target(y)) < bound {
        assert y in multiset(ys);
      }
      if xs == [] {
        assert |multiset(ys)| == 0;
        assert ys == [];
      } else {
        var x := xs[0];
        assert x in multiset(ys);
        var i :| 0 <= i < |ys| && ys[i] == x;
        var before, after := ys[..i], ys[i + 1..];
        assert ys == before + ([x] + after);
        assert xs == [x] + xs[1..];
        assert multiset(ys) == multiset(before + after) + multiset{x};
        assert multiset(xs) == multiset(xs[1..]) + multiset{x};
        assert multiset(xs[1..]) == multiset(xs) - multiset{x};
        assert multiset(before + after) == multiset(ys) - multiset{x};
        ProcessedPermuted(xs[1..], before + after, bound);
        ProcessedInserted(before, x, after, bound);
      }
    }

    lemma ProcessedInserted(before: seq<T>, x: T, after: seq<T>, bound: nat)
      requires Acyclic() && (forall y | y in before + ([x] + after) :: Rank(target(y)) < bound)
      ensures forall y | y in before + after :: Rank(target(y)) < bound
      ensures Rank(target(x)) < bound
      ensures multiset(Processed(before + ([x] + after), bound))
           == multiset(Contribution(x)) + multiset(Processed(before + after, bound))
    {
      assert forall y | y in before + after :: y in before + ([x] + after);
      assert x in before + ([x] + after);
      ProcessedConcat(before, after, bound);
      ProcessedConcat(before, [x] + after, bound);
      assert ([x] + after)[1..] == after;
    }

    // ---- The entries found are exactly the strict descendants ----

    /** path leads from the kind through direct entries. */
    ghost predicate Leads(kind: Ident, path: seq<T>)
      decreases |path|
    {
      path != [] && path[0] in Direct(kind) && (|path| > 1 ==> Leads(target(path[0]), path[1..]))
    }

    ghost predicate Descends(kind: Ident, x: T) {
      exists path :: Leads(kind, path) && Last(path) == x
    }

    lemma {:induction false} LeadsOn(kind: Ident, path: seq<T>, more: seq<T>)
      requires Leads(kind, path) && Leads(target(Last(path)), more)
      ensures Leads(kind, path + more) && Last(path + more) == Last(more)
      decreases |path|
    {
      if |path| == 1 {
        assert (path + more)[1..] == more;
      } else {
        assert (path + more)[1..] == path[1..] + more;
        LeadsOn(target(path[0]), path[1..], more);
      }
    }

    lemma {:induction false} InProcessed(xs: seq<T>, bound: nat, y: T)
      requires Acyclic() && forall x | x in xs :: Rank(target(x)) < bound
      ensures y in Processed(xs, bound) <==> exists x :: x in xs && y in Contribution(x)
      decreases |xs|
    {
      if xs != [] {
        InProcessed(xs[1..], bound, y);
        assert xs == [xs[0]] + xs[1..];
        assert y in Processed(xs, bound) <==> y in Contribution(xs[0]) || y in Processed(xs[1..], bound);
        assert xs[0] in xs && forall x | x in xs[1..] :: x in xs;
      }
    }

    lemma {:induction false} FoundDescends(kind: Ident, y: T)
      requires Acyclic() && y in Found(kind)
      ensures Descends(kind, y)
      decreases Rank(kind), 0
    {
      hide Descends;
      var direct := Direct(kind);
      forall x | x in direct ensures Rank(target(x)) < Rank(kind) { RankDecreases(kind, x); }
      InProcessed(direct, Rank(kind), y);
      var x :| x in direct && y in Contribution(x);
      assert Leads(kind, [x]);
      if y == x {
        Reached(kind, [x]);
      } else {
        ContributionDescends(x, y);
        StepThenDescend(kind, x, y);
      }
    }

    lemma {:induction false} ContributionDescends(z: T, y: T)
      requires Acyclic() && y in Contribution(z) && y != z
      ensures Descends(target(z), y)
      decreases Rank(target(z)), 1
    {
      InProcessed(Found(target(z)), Rank(target(z)), y);
      var w :| w in Found(target(z)) && y in Contribution(w);
      FoundDescends(target(z), w);
      if y != w {
        ContributionDescends(w, y);
        DescendFurther(target(z), w, y);
      }
    }

    lemma Reached(kind: Ident, path: seq<T>)
      requires Leads(kind, path)
      ensures Descends(kind, Last(path))
    {
    }

    lemma StepThenDescend(kind: Ident, x: T, y: T)
      requires x in Direct(kind) && Descends(target(x), y)
      ensures Descends(kind, y)
    {
      var path :| Leads(target(x), path) && Last(path) == y;
      assert ([x] + path)[1..] == path;
      assert Leads(kind, [x] + path);
    }

    lemma DescendFurther(kind: Ident, x: T, y: T)
      requires Descends(kind, x) && Descends(target(x), y)
      ensures Descends(kind, y)
    {
      var path :| Leads(kind, path) && Last(path) == x;
      var more :| Leads(target(x), more) && Last(more) == y;
      LeadsOn(kind, path, more);
    }

    lemma {:induction false} DescendantFound(kind: Ident, path: seq<T>)
      requires Acyclic() && Leads(kind, path)
      ensures Last(path) in Found(kind)
      decreases |path|
    {
      var x, y := path[0], Last(path);
      var direct := Direct(kind);
      forall x | x in direct ensures Rank(target(x)) < Rank(kind) { RankDecreases(kind, x); }
      if |path| > 1 {
        DescendantFound(target(x), path[1..]);
        assert y in Contribution(y);
        InProcessed(Found(target(x)), Rank(target(x)), y);
      }
      assert y in Contribution(x);
      InProcessed(direct, Rank(kind), y);
    }

    /** As a set, the result is exactly everything below the kind. */
    lemma FoundIsDescendants(kind: Ident)
      requires Acyclic()
      ensures forall x :: x in Found(kind) <==> Descends(kind, x)
    {
      forall x ensures x in Found(kind) <==> Descends(kind, x) {
        if x in Found(kind) {
          FoundDescends(kind, x);
        } else if path :| Leads(kind, path) && Last(path) == x {
          DescendantFound(kind, path);
        }
      }
    }
  }

  /**
   The recursion that appends to the very vector it is looping over. It terminates because the entries still to
   be visited are measured by everything they will contribute.
   */
  method CollectRecursively<T(==,!new)>(graph: Graph<T>, kindName: Ident) returns (res: seq<T>)
    requires graph.Acyclic()
    ensures multiset(res) == multiset(graph.Found(kindName))
    ensures forall x :: x in res <==> graph.Descends(kindName, x)
    decreases graph.Rank(kindName)
  {
    res := graph.Direct(kindName);
    ghost var bound := graph.Rank(kindName);
    forall x | x in res ensures graph.Rank(graph.target(x)) < bound { graph.RankDecreases(kindName, x); }
    var i := 0;
    assert res[..i] == [] && res[i..] == res;
    while i < |res|
      invariant 0 <= i <= |res|
      invariant forall x | x in res :: graph.Rank(graph.target(x)) < bound
      invariant multiset(res[..i]) + multiset(graph.Processed(res[i..], bound)) == multiset(graph.Found(kindName))
      decreases |graph.Processed(res[i..], bound)|
    {
      assert res[i] in res;
      var another := CollectRecursively(graph, graph.target(res[i]));
      WorklistStep(graph, res, i, another, bound);
      res := res + another;
      i := i + 1;
    }
    assert res[..i] == res && res[i..] == [];
    graph.FoundIsDescendants(kindName);
    forall x ensures x in res <==> graph.Descends(kindName, x) {
      assert x in res <==> x in multiset(res);
      assert x in graph.Found(kindName) <==> x in multiset(graph.Found(kindName));
    }
  }

  lemma WorklistStep<T(!new)>(graph: Graph<T>, res: seq<T>, i: nat, another: seq<T>, bound: nat)
    requires graph.Acyclic() && i < |res|
    requires forall x | x in res :: graph.Rank(graph.target(x)) < bound
    requires multiset(another) == multiset(graph.Found(graph.target(res[i])))
    ensures forall x | x in res + another :: graph.Rank(graph.target(x)) < bound
    ensures var res' := res + another;
      && |graph.Processed(res'[i + 1..], bound)| < |graph.Processed(res[i..], bound)|
      && multiset(res'[..i + 1]) + multiset(graph.Processed(res'[i + 1..], bound))
         == multiset(res[..i]) + multiset(graph.Processed(res[i..], bound))
  {
    var x, todo := res[i], res[i + 1..];
    forall y | y in another ensures graph.Rank(graph.target(y)) < graph.Rank(graph.target(x)) {
      assert y in multiset(another);
    }
    assert res[i..] == [x] + todo;
    assert (res + another)[i + 1..] == todo + another;
    assert (res + another)[..i + 1] == res[..i] + [x];
    WorklistMeasure(graph, x, todo, another, bound);
  }

  lemma WorklistMeasure<T(!new)>(graph: Graph<T>, x: T, todo: seq<T>, another: seq<T>, bound: nat)
    requires graph.Acyclic() && forall y | y in [x] + todo :: graph.Rank(graph.target(y)) < bound
    requires forall y | y in another :: graph.Rank(graph.target(y)) < graph.Rank(graph.target(x))
    requires multiset(another) == multiset(graph.Found(graph.target(x)))
    ensures forall y | y in todo + another :: graph.Rank(graph.target(y)) < bound
    ensures |graph.Processed([x] + todo, bound)| == 1 + |graph.Processed(todo + another, bound)|
    ensures multiset(graph.Processed([x] + todo, bound))
         == multiset{x} + multiset(graph.Processed(todo + another, bound))
  {
    assert x in [x] + todo && forall y | y in todo :: y in [x] + todo;
    var rank := graph.Rank(graph.target(x));
    var found := graph.Found(graph.target(x));
    graph.ProcessedConcat(todo, another, bound);
    graph.ProcessedPermuted(found, another, rank);
    graph.BoundIrrelevant(another, rank, bound);
    assert ([x] + todo)[1..] == todo;
    assert ([x] + todo)[0] == x;
    assert graph.Contribution(x) == [x] + graph.Processed(found, rank);
    MeasureStep(x, graph.Processed(found, rank), graph.Processed(todo, bound), graph.Processed(another, bound),
      graph.Processed([x] + todo, bound), graph.Processed(todo + another, bound));
  }

  lemma MeasureStep<T>(x: T, found: seq<T>, rest: seq<T>, added: seq<T>, before: seq<T>, after: seq<T>)
    requires before == ([x] + found) + rest && after == rest + added && multiset(found) == multiset(added)
    ensures |before| == 1 + |after| && multiset(before) == multiset{x} + multiset(after)
  {
    assert |found| == |multiset(found)| == |multiset(added)| == |added|;
  }
}
