/** How the parser's constructor fills its tables of nested kinds from the relations the server reports. */
module ParserTables {
  import opened Core
  import opened Schema
  import opened Database
  import opened Grammar
  import opened RelationTables
  import opened StackLaws
  import Values

  // ---- Embedding as a graph ----

  /** From a kind to the kinds embedded in it. */
  function EmbedsGraph(r: Relations): Graph<Ident> {
    Graph(r.embeds, (kind: Ident) => kind)
  }

  /** Some number no kind is deeper than. */
  lemma DeepestKind(embeddedInto: map<Ident, Ident>) returns (deepest: nat)
    requires Schema.Acyclic(embeddedInto)
    ensures forall kind :: Depth(embeddedInto, kind) <= deepest
  {
    deepest := 0;
    var left := embeddedInto.Keys;
    while left != {}
      invariant left <= embeddedInto.Keys
      invariant forall kind | kind !in left :: Depth(embeddedInto, kind) <= deepest
      decreases |left|
    {
      var kind :| kind in left;
      if deepest < Depth(embeddedInto, kind) {
        deepest := Depth(embeddedInto, kind);
      }
      left := left - {kind};
    }
  }

  /** The depth grows with each step, and it is bounded, so the recursion through embedded kinds ends. */
  lemma EmbedsAcyclic(r: Relations)
    requires Schema.Acyclic(r.embeddedInto) && Inverse(r)
    ensures EmbedsGraph(r).Acyclic()
  {
    var deepest := DeepestKind(r.embeddedInto);
    var rank: Ident -> nat := (kind: Ident) =>
      if deepest >= DepthOr0(r.embeddedInto, kind) then deepest - DepthOr0(r.embeddedInto, kind) else 0;
    assert EmbedsGraph(r).RankedBy(rank) by {
      forall k, x | k in r.embeds && x in r.embeds[k] ensures rank(x) < rank(k) {
        assert x in ListedFor(r.embeds, k);
        assert EmbeddedIn(r, x, k);
      }
    }
  }

  ghost function DepthOr0(embeddedInto: map<Ident, Ident>, kind: Ident): nat {
    if Schema.Acyclic(embeddedInto) then Depth(embeddedInto, kind) else 0
  }

  // ---- Nested kinds ----

  function KindsOf(kinds: seq<Ident>): set<Ident> {
    set kind | kind in kinds
  }

  /** x is embedded, at any depth, in the kind or in one it contains. */
  ghost predicate NestedAnywhere(r: Relations, kind: Ident, x: Ident) {
    || EmbedsGraph(r).Descends(kind, x)
    || exists c | c in ListedFor(r.contains, kind) :: EmbedsGraph(r).Descends(c, x)
  }

  /** addNestedKinds: the kinds offered by name, to filters and to "new". */
  method AddNestedKinds(r: Relations, kindName: Ident)
    returns (kindsOnly: set<Ident>, kindsFilters: set<Ident>, kindsConstruct: set<Ident>)
    requires EmbedsGraph(r).Acyclic()
    ensures forall x :: x in kindsOnly <==> NestedAnywhere(r, kindName, x)
    ensures forall x :: x in kindsFilters <==> x in ListedFor(r.embeds, kindName)
    ensures forall x :: x in kindsConstruct <==> EmbedsOrContains(r, kindName, x)
  {
    kindsFilters := KindsOf(ListedFor(r.embeds, kindName));
    kindsConstruct := KindsOf(ListedFor(r.embeds, kindName));
    var nestedKinds := CollectRecursively(EmbedsGraph(r), kindName);
    kindsOnly := KindsOf(nestedKinds);
    var contained := ListedFor(r.contains, kindName);
    for i := 0 to |contained|
      invariant forall x :: x in kindsConstruct <==>
        x in ListedFor(r.embeds, kindName) || exists c | c in contained[..i] :: x in ListedFor(r.embeds, c)
    {
      assert contained[..i + 1] == contained[..i] + [contained[i]];
      kindsConstruct := kindsConstruct + KindsOf(ListedFor(r.embeds, contained[i]));
    }
    assert contained[..|contained|] == contained;
    for i := 0 to |contained|
      invariant forall x :: x in kindsOnly <==>
        EmbedsGraph(r).Descends(kindName, x) || exists c | c in contained[..i] :: EmbedsGraph(r).Descends(c, x)
    {
      assert contained[..i + 1] == contained[..i] + [contained[i]];
      nestedKinds := CollectRecursively(EmbedsGraph(r), contained[i]);
      kindsOnly := kindsOnly + KindsOf(nestedKinds);
    }
  }

  ghost predicate NestedFor(r: Relations, tables: Tables, kind: Ident) {
    && (forall x :: x in tables.NestedKinds(kind) <==> NestedAnywhere(r, kind, x))
    && (forall x :: x in tables.NestedFilters(kind) <==> x in ListedFor(r.embeds, kind))
    && (forall x :: x in tables.NestedNew(kind) <==> EmbedsOrContains(r, kind, x))
  }

  /** Every kind gets what addNestedKinds finds for it. */
  ghost predicate NestedTables(r: Relations, tables: Tables, kinds: set<Ident>) {
    && tables.nestedKinds.Keys == tables.nestedFilters.Keys == tables.nestedNew.Keys == kinds
    && forall k | k in kinds :: NestedFor(r, tables, k)
  }

  function WithNested(tables: Tables, kind: Ident, kindsOnly: set<Ident>, kindsFilters: set<Ident>, kindsConstruct: set<Ident>): Tables {
    tables.(nestedKinds := tables.nestedKinds[kind := kindsOnly], nestedFilters := tables.nestedFilters[kind := kindsFilters],
      nestedNew := tables.nestedNew[kind := kindsConstruct])
  }

  lemma OneKindMore(r: Relations, tables: Tables, kinds: set<Ident>, kind: Ident, kindsOnly: set<Ident>,
      kindsFilters: set<Ident>, kindsConstruct: set<Ident>)
    requires NestedTables(r, tables, kinds)
    requires NestedFor(r, WithNested(tables, kind, kindsOnly, kindsFilters, kindsConstruct), kind)
    ensures NestedTables(r, WithNested(tables, kind, kindsOnly, kindsFilters, kindsConstruct), kinds + {kind})
  {
    var after := WithNested(tables, kind, kindsOnly, kindsFilters, kindsConstruct);
    forall k | k in kinds && k != kind ensures NestedFor(r, after, k) {
      assert NestedFor(r, tables, k);
      assert after.NestedKinds(k) == tables.NestedKinds(k) && after.NestedFilters(k) == tables.NestedFilters(k)
        && after.NestedNew(k) == tables.NestedNew(k);
    }
  }

  lemma TablesFit(r: Relations, tables: Tables, kinds: set<Ident>)
    requires NestedTables(r, tables, kinds) && Consistent(r)
    requires tables.embeddedInto == r.embeddedInto && tables.contains == r.contains
    ensures BuiltFrom(r, tables)
  {
    hide Consistent, NestedAnywhere, EmbedsOrContains;
    forall k, x | x in tables.NestedFilters(k) ensures x in ListedFor(r.embeds, k) {
      assert NestedFor(r, tables, k);
    }
    forall k, x | x in tables.NestedNew(k) ensures EmbedsOrContains(r, k, x) {
      assert NestedFor(r, tables, k);
    }
  }

  /** The tables of the parser; those of the attributes are given. */
  method BuildTables(r: Relations, allKinds: seq<Ident>, attributes: map<Ident, map<Ident, Ident>>,
      identifierSets: map<Ident, map<Ident, Ident>>, types: map<Ident, map<Ident, Values.Type>>)
    returns (tables: Tables)
    requires Schema.Acyclic(r.embeddedInto) && Inverse(r)
    ensures tables.Valid() && tables.kinds == KindsOf(allKinds)
    ensures tables.embeddedInto == r.embeddedInto && tables.contains == r.contains
    ensures tables.attributes == attributes && tables.identifierSets == identifierSets && tables.types == types
    ensures NestedTables(r, tables, KindsOf(allKinds))
    ensures Consistent(r) ==> BuiltFrom(r, tables)
  {
    hide Inverse, Consistent, NestedAnywhere, EmbedsOrContains, NestedTables, NestedFor;
    EmbedsAcyclic(r);
    tables := Tables(KindsOf(allKinds), r.embeddedInto, r.contains, map[], map[], map[], attributes, identifierSets, types);
    NothingNested(r, tables);
    for i := 0 to |allKinds|
      invariant tables.kinds == KindsOf(allKinds) && tables.embeddedInto == r.embeddedInto && tables.contains == r.contains
      invariant tables.attributes == attributes && tables.identifierSets == identifierSets && tables.types == types
      invariant NestedTables(r, tables, KindsOf(allKinds[..i]))
    {
      var kind := allKinds[i];
      assert allKinds[..i + 1] == allKinds[..i] + [kind];
      var kindsOnly, kindsFilters, kindsConstruct := AddNestedKinds(r, kind);
      KindNested(r, tables, kind, kindsOnly, kindsFilters, kindsConstruct);
      OneKindMore(r, tables, KindsOf(allKinds[..i]), kind, kindsOnly, kindsFilters, kindsConstruct);
      assert KindsOf(allKinds[..i + 1]) == KindsOf(allKinds[..i]) + {kind};
      tables := WithNested(tables, kind, kindsOnly, kindsFilters, kindsConstruct);
    }
    assert allKinds[..|allKinds|] == allKinds;
    if Consistent(r) {
      TablesFit(r, tables, KindsOf(allKinds));
    }
  }

  lemma NothingNested(r: Relations, tables: Tables)
    requires tables.nestedKinds == tables.nestedFilters == tables.nestedNew == map[]
    ensures NestedTables(r, tables, {}) && KindsOf([]) == {}
  {
  }

  lemma KindNested(r: Relations, tables: Tables, kind: Ident, kindsOnly: set<Ident>, kindsFilters: set<Ident>,
      kindsConstruct: set<Ident>)
    requires forall x :: x in kindsOnly <==> NestedAnywhere(r, kind, x)
    requires forall x :: x in kindsFilters <==> x in ListedFor(r.embeds, kind)
    requires forall x :: x in kindsConstruct <==> EmbedsOrContains(r, kind, x)
    ensures NestedFor(r, WithNested(tables, kind, kindsOnly, kindsFilters, kindsConstruct), kind)
  {
    hide NestedAnywhere, EmbedsOrContains;
  }

  // ---- From the server's report ----

  /** What the server guarantees about the relations it reports. */
  ghost predicate Sane(r: Relations, allKinds: seq<Ident>, kindRelations: map<Ident, seq<Relation>>)
    requires forall k | k in allKinds :: k in kindRelations
  {
    && (exists rank: Ident -> nat :: RanksReport(rank, allKinds, kindRelations))
    && (forall k, relation | k in allKinds && relation in kindRelations[k] && relation.kind.EmbedInto? :: relation.column != "name")
    && (forall k, relation | k in allKinds && relation in kindRelations[k] && (relation.kind.Contains? || relation.kind.Containable?) ::
          DepthOr0(r.embeddedInto, k) == DepthOr0(r.embeddedInto, relation.target))
  }

  ghost predicate RanksReport(rank: Ident -> nat, allKinds: seq<Ident>, kindRelations: map<Ident, seq<Relation>>)
    requires forall k | k in allKinds :: k in kindRelations
  {
    forall k, relation | k in allKinds && relation in kindRelations[k] && relation.kind.EmbedInto? :: rank(relation.target) < rank(k)
  }

  ghost predicate Loaded(r: Relations, allKinds: seq<Ident>, kindRelations: map<Ident, seq<Relation>>)
    requires forall k | k in allKinds :: k in kindRelations
  {
    && Inverse(r)
    && (forall k | k in allKinds :: Tells(r, k, kindRelations[k], |kindRelations[k]|))
    && (forall k | k !in allKinds :: Tells(r, k, [], 0))
  }

  lemma LoadedAcyclic(r: Relations, allKinds: seq<Ident>, kindRelations: map<Ident, seq<Relation>>)
    requires forall k | k in allKinds :: k in kindRelations
    requires Loaded(r, allKinds, kindRelations) && exists rank: Ident -> nat :: RanksReport(rank, allKinds, kindRelations)
    ensures Schema.Acyclic(r.embeddedInto)
  {
    var rank: Ident -> nat :| RanksReport(rank, allKinds, kindRelations);
    forall k | k in r.embeddedInto ensures rank(r.embeddedInto[k]) < rank(k) {
      assert EmbeddedIn(r, k, r.embeddedInto[k]);
      assert k in allKinds;
      assert Reported(kindRelations[k], |kindRelations[k]|, EmbedInto, r.embeddedInto[k]);
    }
    assert Ranks(r.embeddedInto, rank);
  }

  /** The tables loaded from a sane report are what DbInteraction relies on. */
  lemma LoadedConsistent(r: Relations, allKinds: seq<Ident>, kindRelations: map<Ident, seq<Relation>>)
    requires forall k | k in allKinds :: k in kindRelations
    requires Loaded(r, allKinds, kindRelations) && Sane(r, allKinds, kindRelations)
    ensures Consistent(r)
  {
    hide Tells, Depth;
    LoadedAcyclic(r, allKinds, kindRelations);
    forall k | k in r.column ensures r.column[k] != "name" {
      ColumnReported(r, allKinds, kindRelations, k);
    }
    forall k, other | Related(r, k, other) ensures Depth(r.embeddedInto, k) == Depth(r.embeddedInto, other) {
      RelationReported(r, allKinds, kindRelations, k, other);
    }
  }

  lemma ColumnReported(r: Relations, allKinds: seq<Ident>, kindRelations: map<Ident, seq<Relation>>, k: Ident)
    requires forall k | k in allKinds :: k in kindRelations
    requires Loaded(r, allKinds, kindRelations) && k in r.column
    ensures k in allKinds
    ensures exists relation | relation in kindRelations[k] :: relation.kind.EmbedInto? && relation.column == r.column[k]
  {
    var all := kindRelations[k];
    var i :| 0 <= i < |all| && all[i].kind.EmbedInto? && all[i].column == r.column[k];
    assert all[i] in all;
  }

  lemma RelationReported(r: Relations, allKinds: seq<Ident>, kindRelations: map<Ident, seq<Relation>>, k: Ident, other: Ident)
    requires forall k | k in allKinds :: k in kindRelations
    requires Loaded(r, allKinds, kindRelations) && Related(r, k, other)
    ensures k in allKinds
    ensures exists relation | relation in kindRelations[k] ::
      (relation.kind.Contains? || relation.kind.Containable?) && relation.target == other
  {
    var kind := if other in ListedFor(r.contains, k) then RelationKind.Contains else Containable;
    assert k !in allKinds ==> !Reported([], 0, kind, other);
    var all := kindRelations[k];
    assert Reported(all, |all|, kind, other);
    var i :| 0 <= i < |all| && all[i].kind == kind && all[i].target == other;
    assert all[i] in all;
  }

  /** Both constructors: from a sane report they get relations and tables that fit each other. */
  method LoadBoth(allKinds: seq<Ident>, kindRelations: map<Ident, seq<Relation>>, attributes: map<Ident, map<Ident, Ident>>,
      identifierSets: map<Ident, map<Ident, Ident>>, types: map<Ident, map<Ident, Values.Type>>)
    returns (r: Relations, tables: Tables)
    requires NoDuplicates(allKinds) && forall k | k in allKinds :: k in kindRelations && OneParent(kindRelations[k])
    requires exists rank: Ident -> nat :: RanksReport(rank, allKinds, kindRelations)
    ensures Loaded(r, allKinds, kindRelations) && tables.Valid()
    ensures NestedTables(r, tables, KindsOf(allKinds))
    ensures Sane(r, allKinds, kindRelations) ==> BuiltFrom(r, tables)
  {
    hide Inverse, Tells, Consistent, NestedTables;
    var topLevelKinds;
    r, topLevelKinds := LoadRelations(allKinds, kindRelations);
    LoadedAcyclic(r, allKinds, kindRelations);
    tables := BuildTables(r, allKinds, attributes, identifierSets, types);
    if Sane(r, allKinds, kindRelations) {
      LoadedConsistent(r, allKinds, kindRelations);
    }
  }
}
