/** How DbInteraction's constructor turns the relations the server reports into its tables. */
module RelationTables {
  import opened Core
  import opened Database

  datatype RelationKind = RefersTo | EmbedInto | Contains | Containable

  datatype Relation = Relation(kind: RelationKind, column: Ident, target: Ident)

  function Pushed(table: map<Ident, seq<Ident>>, key: Ident, value: Ident): map<Ident, seq<Ident>> {
    table[key := ListedFor(table, key) + [value]]
  }

  function WithRelation(r: Relations, kind: Ident, relation: Relation): Relations {
    match relation.kind
    case RefersTo => r
    case EmbedInto => r.(
      embeds := Pushed(r.embeds, relation.target, kind),
      embeddedInto := r.embeddedInto[kind := relation.target],
      column := r.column[kind := relation.column])
    case Contains => r.(contains := Pushed(r.contains, kind, relation.target))
    case Containable => r.(containable := Pushed(r.containable, kind, relation.target))
  }

  /** The list of embedded kinds and the reference to the parent kind are inverse to each other. */
  ghost predicate Inverse(r: Relations) {
    && r.column.Keys == r.embeddedInto.Keys
    && (forall parent, k :: k in ListedFor(r.embeds, parent) <==> EmbeddedIn(r, k, parent))
    && (forall parent :: NoDuplicates(ListedFor(r.embeds, parent)))
  }

  /** A kind is embedded in at most one other. */
  predicate OneParent(relations: seq<Relation>) {
    forall i, j | 0 <= i < j < |relations| :: !(relations[i].kind.EmbedInto? && relations[j].kind.EmbedInto?)
  }

  predicate Embedded(relations: seq<Relation>, upTo: nat)
    requires upTo <= |relations|
  {
    exists i | 0 <= i < upTo :: relations[i].kind.EmbedInto?
  }

  lemma PushedInto(table: map<Ident, seq<Ident>>, key: Ident, value: Ident)
    ensures forall k | k != key :: ListedFor(Pushed(table, key, value), k) == ListedFor(table, k)
    ensures ListedFor(Pushed(table, key, value), key) == ListedFor(table, key) + [value]
  {
  }

  lemma StaysInverse(r: Relations, kind: Ident, relation: Relation)
    requires Inverse(r) && (relation.kind.EmbedInto? ==> kind !in r.embeddedInto)
    ensures Inverse(WithRelation(r, kind, relation))
  {
    if relation.kind.EmbedInto? {
      var r' := WithRelation(r, kind, relation);
      PushedInto(r.embeds, relation.target, kind);
      assert !EmbeddedIn(r, kind, relation.target);
      forall parent, k ensures k in ListedFor(r'.embeds, parent) <==> EmbeddedIn(r', k, parent) {
        assert EmbeddedIn(r', k, parent) <==> if k == kind then parent == relation.target else EmbeddedIn(r, k, parent);
        assert !EmbeddedIn(r, kind, parent);
      }
      forall parent ensures NoDuplicates(ListedFor(r'.embeds, parent)) {
        if parent == relation.target {
          var list := ListedFor(r.embeds, parent);
          assert NoDuplicates(list) && kind !in list;
        }
      }
    }
  }

  // ---- What the tables say about one kind ----

  predicate Reported(relations: seq<Relation>, upTo: nat, kind: RelationKind, target: Ident)
    requires upTo <= |relations|
  {
    exists i | 0 <= i < upTo :: relations[i].kind == kind && relations[i].target == target
  }

  predicate ReportedColumn(relations: seq<Relation>, upTo: nat, column: Ident)
    requires upTo <= |relations|
  {
    exists i | 0 <= i < upTo :: relations[i].kind.EmbedInto? && relations[i].column == column
  }

  /** Exactly what the first of the relations report. */
  ghost predicate Tells(r: Relations, kind: Ident, relations: seq<Relation>, upTo: nat)
    requires upTo <= |relations| && r.column.Keys == r.embeddedInto.Keys
  {
    && (forall x :: EmbeddedIn(r, kind, x) <==> Reported(relations, upTo, EmbedInto, x))
    && (forall x :: x in ListedFor(r.contains, kind) <==> Reported(relations, upTo, RelationKind.Contains, x))
    && (forall x :: x in ListedFor(r.containable, kind) <==> Reported(relations, upTo, Containable, x))
    && (kind in r.column ==> ReportedColumn(relations, upTo, r.column[kind]))
  }

  /** Nothing changes for the other kinds. */
  ghost predicate OnlyAbout(kind: Ident, before: Relations, after: Relations) {
    forall k | k != kind :: SameEntries(before, after, k)
  }

  predicate SameEntries(a: Relations, b: Relations, k: Ident) {
    && (k in a.embeddedInto <==> k in b.embeddedInto) && (k in a.column <==> k in b.column)
    && (k in a.embeddedInto ==> a.embeddedInto[k] == b.embeddedInto[k])
    && (k in a.column ==> a.column[k] == b.column[k])
    && ListedFor(a.contains, k) == ListedFor(b.contains, k)
    && ListedFor(a.containable, k) == ListedFor(b.containable, k)
  }

  lemma OneMoreTold(r: Relations, kind: Ident, relations: seq<Relation>, j: nat)
    requires j < |relations| && r.column.Keys == r.embeddedInto.Keys && Tells(r, kind, relations, j)
    requires relations[j].kind.EmbedInto? ==> kind !in r.embeddedInto
    ensures var after := WithRelation(r, kind, relations[j]);
      after.column.Keys == after.embeddedInto.Keys && Tells(after, kind, relations, j + 1) && OnlyAbout(kind, r, after)
  {
    hide Tells, Reported, ReportedColumn;
    var relation := relations[j];
    PushedInto(r.contains, kind, relation.target);
    PushedInto(r.containable, kind, relation.target);
    if relation.kind.EmbedInto? {
      EmbeddingTold(r, kind, relations, j);
    } else {
      OtherTold(r, kind, relations, j);
    }
  }

  lemma OtherTold(r: Relations, kind: Ident, relations: seq<Relation>, j: nat)
    requires j < |relations| && r.column.Keys == r.embeddedInto.Keys && Tells(r, kind, relations, j)
    requires !relations[j].kind.EmbedInto?
    ensures var after := WithRelation(r, kind, relations[j]);
      after.column.Keys == after.embeddedInto.Keys && Tells(after, kind, relations, j + 1)
  {
    hide Reported;
    var relation := relations[j];
    var after := WithRelation(r, kind, relation);
    PushedInto(r.contains, kind, relation.target);
    PushedInto(r.containable, kind, relation.target);
    var next: nat := j + 1;
    forall k: RelationKind, x ensures Reported(relations, next, k, x) <==>
      Reported(relations, j, k, x) || (relation.kind == k && relation.target == x)
    {
      ReportedNext(relations, j, k, x);
    }
    assert relation.kind != EmbedInto;
    assert relation.kind.Contains? <==> relation.kind == RelationKind.Contains;
    assert relation.kind.Containable? <==> relation.kind == Containable;
    assert forall x :: EmbeddedIn(after, kind, x) <==> EmbeddedIn(r, kind, x);
    assert forall c | ReportedColumn(relations, j, c) :: ReportedColumn(relations, next, c);
  }

  lemma EmbeddingTold(r: Relations, kind: Ident, relations: seq<Relation>, j: nat)
    requires j < |relations| && r.column.Keys == r.embeddedInto.Keys && Tells(r, kind, relations, j)
    requires relations[j].kind.EmbedInto? && kind !in r.embeddedInto
    ensures var after := WithRelation(r, kind, relations[j]);
      after.column.Keys == after.embeddedInto.Keys && Tells(after, kind, relations, j + 1)
  {
    hide Reported;
    var relation := relations[j];
    var after := WithRelation(r, kind, relation);
    var next: nat := j + 1;
    forall k: RelationKind, x ensures Reported(relations, next, k, x) <==>
      Reported(relations, j, k, x) || (relation.kind == k && relation.target == x)
    {
      ReportedNext(relations, j, k, x);
    }
    forall x ensures EmbeddedIn(after, kind, x) <==> x == relation.target {
    }
    forall x ensures !Reported(relations, j, EmbedInto, x) {
      assert !EmbeddedIn(r, kind, x);
    }
    assert relation.kind == EmbedInto && after.column[kind] == relation.column;
    assert ReportedColumn(relations, j + 1, after.column[kind]);
  }

  lemma ReportedNext(relations: seq<Relation>, j: nat, kind: RelationKind, x: Ident)
    requires j < |relations|
    ensures Reported(relations, j + 1, kind, x) <==>
      Reported(relations, j, kind, x) || (relations[j].kind == kind && relations[j].target == x)
  {
  }

  /** The tables of the constructor, and the kinds that are embedded nowhere, in the server's order. */
  method LoadRelations(allKinds: seq<Ident>, kindRelations: map<Ident, seq<Relation>>)
    returns (r: Relations, pureTopLevelKinds: seq<Ident>)
    requires NoDuplicates(allKinds) && forall k | k in allKinds :: k in kindRelations && OneParent(kindRelations[k])
    ensures Inverse(r)
    ensures forall k | k in allKinds :: Tells(r, k, kindRelations[k], |kindRelations[k]|)
    ensures forall k | k !in allKinds :: Tells(r, k, [], 0)
    ensures forall k :: k in pureTopLevelKinds <==> k in allKinds && k !in r.embeddedInto
  {
    hide Inverse, Tells, OnlyAbout;
    r := Relations(map[], map[], map[], map[], map[]);
    pureTopLevelKinds := [];
    EmptyTables(r);
    var i := 0;
    while i < |allKinds|
      invariant 0 <= i <= |allKinds| && Inverse(r) && r.column.Keys == r.embeddedInto.Keys
      invariant forall k | k in allKinds[..i] :: k in kindRelations && Tells(r, k, kindRelations[k], |kindRelations[k]|)
      invariant forall k | k !in allKinds[..i] :: Tells(r, k, [], 0)
      invariant forall k :: k in pureTopLevelKinds <==> k in allKinds[..i] && k !in r.embeddedInto
    {
      var kind := allKinds[i];
      assert kind in allKinds && kind !in allKinds[..i];
      ghost var before := r;
      var isEmbedded;
      r, isEmbedded := LoadKind(r, kind, kindRelations[kind]);
      if !isEmbedded {
        pureTopLevelKinds := pureTopLevelKinds + [kind];
      }
      assert allKinds[..i + 1] == allKinds[..i] + [kind];
      forall k | k in allKinds[..i] ensures Tells(r, k, kindRelations[k], |kindRelations[k]|) {
        OthersStillTold(before, r, kind, k, kindRelations[k]);
      }
      forall k | k !in allKinds[..i + 1] ensures Tells(r, k, [], 0) {
        OthersStillTold(before, r, kind, k, []);
      }
      OthersEmbeddedAlike(before, r, kind);
      i := i + 1;
    }
    assert allKinds[..i] == allKinds;
  }

  lemma EmptyTables(r: Relations)
    requires r == Relations(map[], map[], map[], map[], map[])
    ensures Inverse(r) && r.column.Keys == r.embeddedInto.Keys && forall k :: Tells(r, k, [], 0)
  {
  }

  lemma OthersStillTold(before: Relations, after: Relations, kind: Ident, k: Ident, relations: seq<Relation>)
    requires OnlyAbout(kind, before, after) && k != kind
    requires before.column.Keys == before.embeddedInto.Keys && after.column.Keys == after.embeddedInto.Keys
    requires Tells(before, k, relations, |relations|)
    ensures Tells(after, k, relations, |relations|)
  {
    assert SameEntries(before, after, k);
    assert forall x :: EmbeddedIn(before, k, x) <==> EmbeddedIn(after, k, x);
  }

  lemma OthersEmbeddedAlike(before: Relations, after: Relations, kind: Ident)
    requires OnlyAbout(kind, before, after)
    ensures forall k | k != kind :: k in before.embeddedInto <==> k in after.embeddedInto
  {
    forall k | k != kind ensures k in before.embeddedInto <==> k in after.embeddedInto {
      assert SameEntries(before, after, k);
    }
  }

  lemma OnlyAboutBoth(kind: Ident, a: Relations, b: Relations, c: Relations)
    requires OnlyAbout(kind, a, b) && OnlyAbout(kind, b, c)
    ensures OnlyAbout(kind, a, c)
  {
    forall k | k != kind ensures SameEntries(a, c, k) {
      assert SameEntries(a, b, k) && SameEntries(b, c, k);
    }
  }

  lemma NotEmbeddedYet(r: Relations, kind: Ident, relations: seq<Relation>, j: nat)
    requires j <= |relations| && r.column.Keys == r.embeddedInto.Keys && Tells(r, kind, relations, j)
    ensures kind in r.embeddedInto <==> Embedded(relations, j)
  {
    if kind in r.embeddedInto {
      assert EmbeddedIn(r, kind, r.embeddedInto[kind]);
    }
    if Embedded(relations, j) {
      var i :| 0 <= i < j && relations[i].kind.EmbedInto?;
      assert Reported(relations, j, EmbedInto, relations[i].target);
    }
  }

  method LoadKind(before: Relations, kind: Ident, relations: seq<Relation>) returns (r: Relations, isEmbedded: bool)
    requires Inverse(before) && OneParent(relations)
    requires before.column.Keys == before.embeddedInto.Keys && Tells(before, kind, [], 0)
    ensures Inverse(r) && r.column.Keys == r.embeddedInto.Keys
    ensures Tells(r, kind, relations, |relations|) && OnlyAbout(kind, before, r)
    ensures isEmbedded <==> kind in r.embeddedInto
  {
    hide Inverse, Tells, OnlyAbout;
    r, isEmbedded := before, false;
    ToldNothing(before, kind, relations);
    for j := 0 to |relations|
      invariant Inverse(r) && r.column.Keys == r.embeddedInto.Keys
      invariant Tells(r, kind, relations, j) && OnlyAbout(kind, before, r)
      invariant isEmbedded == Embedded(relations, j)
    {
      NotEmbeddedYet(r, kind, relations, j);
      StaysInverse(r, kind, relations[j]);
      OneMoreTold(r, kind, relations, j);
      OnlyAboutBoth(kind, before, r, WithRelation(r, kind, relations[j]));
      r := WithRelation(r, kind, relations[j]);
      isEmbedded := isEmbedded || relations[j].kind.EmbedInto?;
    }
    NotEmbeddedYet(r, kind, relations, |relations|);
  }

  lemma ToldNothing(r: Relations, kind: Ident, relations: seq<Relation>)
    requires r.column.Keys == r.embeddedInto.Keys && Tells(r, kind, [], 0)
    ensures Tells(r, kind, relations, 0) && OnlyAbout(kind, r, r)
  {
    assert forall x, k :: !Reported([], 0, k, x) && !Reported(relations, 0, k, x);
  }
}
