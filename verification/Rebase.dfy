/**
 The three-way merge of "rebase": two lists of modifications are filtered, sorted and merged into a script in which
 everything that must not be executed is commented out.
 */
module Rebase {
  import opened Core
  import opened Grammar
  import PathText
  import Schema
  import Sorting
  import StringOrder
  import Values

  /** Db::ObjectModificationResult. */
  datatype Modification =
    | DeleteObject(kind: Ident, name: Ident)
    | RenameObject(kind: Ident, name: Ident, newName: Ident)
    | CreateObject(kind: Ident, name: Ident)
    | SetAttribute(kind: Ident, name: Ident, attribute: Ident, value: Option<Values.Value>, oldValue: Option<Values.Value>)

  // ---- objectModificationResultLess ----

  /** ModificationType. */
  function Type(m: Modification): nat {
    match m
    case DeleteObject(_, _) => 0
    case RenameObject(_, _, _) => 1
    case CreateObject(_, _) => 2
    case SetAttribute(_, _, _, _, _) => 3
  }

  predicate LessObject(ka: Ident, na: Ident, kb: Ident, nb: Ident) {
    if StringOrder.Less(ka, kb) then true
    else if StringOrder.Less(kb, ka) then false
    else StringOrder.Less(na, nb)
  }

  predicate LessThree(ka: Ident, na: Ident, xa: Ident, kb: Ident, nb: Ident, xb: Ident) {
    if StringOrder.Less(ka, kb) then true
    else if StringOrder.Less(kb, ka) then false
    else if StringOrder.Less(na, nb) then true
    else if StringOrder.Less(nb, na) then false
    else StringOrder.Less(xa, xb)
  }

  /** ModificationComparatorLesss on two modifications of the same type. */
  predicate LessSameType(a: Modification, b: Modification)
    requires Type(a) == Type(b)
  {
    match a
    case DeleteObject(kind, name) => LessObject(kind, name, b.kind, b.name)
    case CreateObject(kind, name) => LessObject(kind, name, b.kind, b.name)
    case RenameObject(kind, name, newName) => LessThree(kind, name, newName, b.kind, b.name, b.newName)
    case SetAttribute(kind, name, attribute, _, _) => LessThree(kind, name, attribute, b.kind, b.name, b.attribute)
  }

  predicate Less(a: Modification, b: Modification) {
    if Type(a) < Type(b) then true
    else if Type(a) > Type(b) then false
    else LessSameType(a, b)
  }

  /** What the order looks at: the texts behind the type. */
  function Key(m: Modification): seq<string> {
    match m
    case DeleteObject(kind, name) => [kind, name]
    case CreateObject(kind, name) => [kind, name]
    case RenameObject(kind, name, newName) => [kind, name, newName]
    case SetAttribute(kind, name, attribute, _, _) => [kind, name, attribute]
  }

  predicate SameKey(a: Modification, b: Modification) {
    Type(a) == Type(b) && Key(a) == Key(b)
  }

  lemma ObjectTrichotomy(ka: Ident, na: Ident, kb: Ident, nb: Ident)
    ensures LessObject(ka, na, kb, nb) ==> !LessObject(kb, nb, ka, na)
    ensures LessObject(ka, na, kb, nb) || LessObject(kb, nb, ka, na) <==> !(ka == kb && na == nb)
  {
    StringOrder.Trichotomy(ka, kb);
    StringOrder.Trichotomy(na, nb);
    StringOrder.Trichotomy(ka, ka);
  }

  lemma ThreeTrichotomy(ka: Ident, na: Ident, xa: Ident, kb: Ident, nb: Ident, xb: Ident)
    ensures LessThree(ka, na, xa, kb, nb, xb) ==> !LessThree(kb, nb, xb, ka, na, xa)
    ensures LessThree(ka, na, xa, kb, nb, xb) || LessThree(kb, nb, xb, ka, na, xa)
        <==> !(ka == kb && na == nb && xa == xb)
  {
    StringOrder.Trichotomy(ka, kb);
    StringOrder.Trichotomy(na, nb);
    StringOrder.Trichotomy(xa, xb);
    StringOrder.Trichotomy(ka, ka);
    StringOrder.Trichotomy(na, na);
  }

  /** Exactly one of: less, greater, same key. */
  lemma Trichotomy(a: Modification, b: Modification)
    ensures Less(a, b) ==> !Less(b, a)
    ensures Less(a, b) || Less(b, a) <==> !SameKey(a, b)
  {
    if Type(a) == Type(b) {
      match a {
        case DeleteObject(kind, name) => ObjectTrichotomy(kind, name, b.kind, b.name);
        case CreateObject(kind, name) => ObjectTrichotomy(kind, name, b.kind, b.name);
        case RenameObject(kind, name, x) => ThreeTrichotomy(kind, name, x, b.kind, b.name, b.newName);
        case SetAttribute(kind, name, x, _, _) => ThreeTrichotomy(kind, name, x, b.kind, b.name, b.attribute);
      }
    }
  }

  lemma ObjectTransitive(ka: Ident, na: Ident, kb: Ident, nb: Ident, kc: Ident, nc: Ident)
    requires LessObject(ka, na, kb, nb) && LessObject(kb, nb, kc, nc)
    ensures LessObject(ka, na, kc, nc)
  {
    StringOrder.Trichotomy(ka, kb);
    StringOrder.Trichotomy(kb, kc);
    StringOrder.Trichotomy(ka, kc);
    if StringOrder.Less(ka, kb) && StringOrder.Less(kb, kc) { StringOrder.Transitive(ka, kb, kc); }
    if StringOrder.Less(na, nb) && StringOrder.Less(nb, nc) { StringOrder.Transitive(na, nb, nc); }
  }

  lemma ThreeTransitive(ka: Ident, na: Ident, xa: Ident, kb: Ident, nb: Ident, xb: Ident, kc: Ident, nc: Ident, xc: Ident)
    requires LessThree(ka, na, xa, kb, nb, xb) && LessThree(kb, nb, xb, kc, nc, xc)
    ensures LessThree(ka, na, xa, kc, nc, xc)
  {
    StringOrder.Trichotomy(ka, kb);
    StringOrder.Trichotomy(kb, kc);
    StringOrder.Trichotomy(ka, kc);
    StringOrder.Trichotomy(na, nb);
    StringOrder.Trichotomy(nb, nc);
    StringOrder.Trichotomy(na, nc);
    if StringOrder.Less(ka, kb) && StringOrder.Less(kb, kc) { StringOrder.Transitive(ka, kb, kc); }
    if StringOrder.Less(na, nb) && StringOrder.Less(nb, nc) { StringOrder.Transitive(na, nb, nc); }
    if StringOrder.Less(xa, xb) && StringOrder.Less(xb, xc) { StringOrder.Transitive(xa, xb, xc); }
  }

  lemma Transitive(a: Modification, b: Modification, c: Modification)
    requires Less(a, b) && Less(b, c)
    ensures Less(a, c)
  {
    if Type(a) == Type(b) == Type(c) {
      match a {
        case DeleteObject(kind, name) => ObjectTransitive(kind, name, b.kind, b.name, c.kind, c.name);
        case CreateObject(kind, name) => ObjectTransitive(kind, name, b.kind, b.name, c.kind, c.name);
        case RenameObject(kind, name, x) =>
          ThreeTransitive(kind, name, x, b.kind, b.name, b.newName, c.kind, c.name, c.newName);
        case SetAttribute(kind, name, x, _, _) =>
          ThreeTransitive(kind, name, x, b.kind, b.name, b.attribute, c.kind, c.name, c.attribute);
      }
    }
  }

  lemma SameKeyLess(a: Modification, b: Modification, c: Modification)
    requires SameKey(a, b)
    ensures Less(a, c) == Less(b, c) && Less(c, a) == Less(c, b)
  {
    hide StringOrder.Less;
    var ka, kb := Key(a), Key(b);
    assert ka[0] == kb[0] && ka[1] == kb[1] && (|ka| == 3 ==> ka[2] == kb[2]);
  }

  lemma LessIsStrictOrder()
    ensures Sorting.StrictOrder(Less)
  {
    hide Less, SameKey;
    forall a, b ensures Less(a, b) ==> !Less(b, a) {
      Trichotomy(a, b);
    }
    forall a, b, c | !Less(b, a) && !Less(c, b) ensures !Less(c, a) {
      Trichotomy(a, b);
      Trichotomy(b, c);
      Trichotomy(a, c);
      if SameKey(a, b) {
        SameKeyLess(a, b, c);
      } else if SameKey(b, c) {
        SameKeyLess(b, c, a);
      } else {
        Transitive(a, b, c);
      }
    }
  }

  /** Whether the first of two modifications of the same sort comes first by its kind, and if that does not tell by its name. */
  predicate KindThenName(a: Modification, b: Modification) {
    StringOrder.Less(a.kind, b.kind) || (a.kind == b.kind && StringOrder.Less(a.name, b.name))
  }

  /** Deletions, renamings, creations, attributes; each sort by kind, name, and then new name or attribute. */
  lemma SortsInTurn(a: Modification, b: Modification)
    ensures a.DeleteObject? && !b.DeleteObject? ==> Less(a, b)
    ensures a.RenameObject? && (b.CreateObject? || b.SetAttribute?) ==> Less(a, b)
    ensures a.CreateObject? && b.SetAttribute? ==> Less(a, b)
    ensures a.DeleteObject? && b.DeleteObject? ==> (Less(a, b) <==> KindThenName(a, b))
    ensures a.CreateObject? && b.CreateObject? ==> (Less(a, b) <==> KindThenName(a, b))
    ensures a.RenameObject? && b.RenameObject? ==>
      (Less(a, b) <==> KindThenName(a, b) || (a.kind == b.kind && a.name == b.name && StringOrder.Less(a.newName, b.newName)))
    ensures a.SetAttribute? && b.SetAttribute? ==>
      (Less(a, b) <==> KindThenName(a, b) || (a.kind == b.kind && a.name == b.name && StringOrder.Less(a.attribute, b.attribute)))
  {
    StringOrder.Trichotomy(a.kind, b.kind);
    StringOrder.Trichotomy(a.name, b.name);
    StringOrder.Trichotomy(a.kind, a.kind);
    StringOrder.Trichotomy(a.name, a.name);
  }

  predicate StrictlySorted(ms: seq<Modification>) {
    forall i, j | 0 <= i < j < |ms| :: Less(ms[i], ms[j])
  }

  predicate UniqueKeys(ms: seq<Modification>) {
    forall i, j | 0 <= i < j < |ms| :: !SameKey(ms[i], ms[j])
  }

  // ---- clearChildDeletions ----

  /** ModificationDeleteNested: a deletes the parent of the object b deletes. */
  predicate DeletesParent(embeddedInto: map<Ident, Ident>, a: Modification, b: Modification) {
    && a.DeleteObject? && b.DeleteObject?
    && b.kind in embeddedInto && embeddedInto[b.kind] == a.kind
    && ParentText(b.name) == Some(a.name)
  }

  /** The text of the parent's name. */
  function ParentText(name: Ident): Option<Ident> {
    var ids := PathText.PathToVector(name);
    if ids.Some? && |ids.value| > 1 then Some(PathText.VectorToPath(DropLast(ids.value))) else None
  }

  function Without(ms: seq<Modification>, drop: Modification -> bool): seq<Modification> {
    if ms == [] then []
    else if drop(ms[0]) then Without(ms[1..], drop)
    else [ms[0]] + Without(ms[1..], drop)
  }

  /** What the loop leaves: only the first element is ever treated as a parent. */
  function ChildrenOfFirstCleared(embeddedInto: map<Ident, Ident>, ms: seq<Modification>): seq<Modification> {
    if ms == [] then [] else Without(ms, m => DeletesParent(embeddedInto, ms[0], m))
  }

  lemma NotOwnParent(embeddedInto: map<Ident, Ident>, a: Modification)
    requires Schema.Acyclic(embeddedInto)
    ensures !DeletesParent(embeddedInto, a, a)
  {
    if a.kind in embeddedInto {
      assert Schema.RankOf(embeddedInto)(embeddedInto[a.kind]) < Schema.RankOf(embeddedInto)(a.kind);
    }
  }

  lemma {:induction false} WithoutRemoved(ms: seq<Modification>, drop: Modification -> bool, i: nat)
    requires i < |ms| && drop(ms[i])
    ensures Without(ms[..i] + ms[i + 1..], drop) == Without(ms, drop)
    decreases i
  {
    if i == 0 {
      assert ms[..0] + ms[1..] == ms[1..];
    } else {
      WithoutRemoved(ms[1..], drop, i - 1);
      assert (ms[..i] + ms[i + 1..])[1..] == ms[1..][..i - 1] + ms[1..][i..];
    }
  }

  lemma {:induction false} WithoutNothing(ms: seq<Modification>, drop: Modification -> bool)
    requires forall i | 0 <= i < |ms| :: !drop(ms[i])
    ensures Without(ms, drop) == ms
    decreases |ms|
  {
    if ms != [] {
      WithoutNothing(ms[1..], drop);
      assert ms == [ms[0]] + ms[1..];
    }
  }

  /** The two nested loops; the inner iterator is not reset, so only the first round of the outer one does anything. */
  method FindNested(embeddedInto: map<Ident, Ident>, modifications: seq<Modification>)
    returns (breakLoop: bool, itn: nat)
    ensures breakLoop ==> itn < |modifications| && DeletesParent(embeddedInto, modifications[0], modifications[itn])
    ensures !breakLoop ==>
      forall k | 0 <= k < |modifications| :: !DeletesParent(embeddedInto, modifications[0], modifications[k])
  {
    hide DeletesParent;
    var it := 0;
    itn := 0;
    breakLoop := false;
    while it < |modifications|
      invariant 0 <= it <= |modifications| && 0 <= itn <= |modifications|
      invariant it > 0 ==> itn == |modifications|
      invariant forall k | 0 <= k < itn :: !DeletesParent(embeddedInto, modifications[0], modifications[k])
    {
      while itn < |modifications|
        invariant 0 <= itn <= |modifications|
        invariant it > 0 ==> itn == |modifications|
        invariant forall k | 0 <= k < itn :: !DeletesParent(embeddedInto, modifications[0], modifications[k])
      {
        if DeletesParent(embeddedInto, modifications[it], modifications[itn]) {
          return true, itn;
        }
        itn := itn + 1;
      }
      it := it + 1;
    }
  }

  method ClearChildDeletions(embeddedInto: map<Ident, Ident>, modifications: seq<Modification>)
    returns (left: seq<Modification>)
    requires Schema.Acyclic(embeddedInto)
    ensures left == ChildrenOfFirstCleared(embeddedInto, modifications)
  {
    hide DeletesParent;
    left := modifications;
    if modifications == [] {
      return;
    }
    ghost var first := modifications[0];
    ghost var drop := (m: Modification) => DeletesParent(embeddedInto, first, m);
    while true
      invariant left != [] && left[0] == first
      invariant Without(left, drop) == Without(modifications, drop)
      decreases |left|
    {
      var breakLoop, itn := FindNested(embeddedInto, left);
      if !breakLoop {
        break;
      }
      NotOwnParent(embeddedInto, first);
      WithoutRemoved(left, drop, itn);
      left := left[..itn] + left[itn + 1..];
    }
    WithoutNothing(left, drop);
    SameDrop(modifications, drop, m => DeletesParent(embeddedInto, modifications[0], m));
  }

  lemma {:induction false} SameDrop(ms: seq<Modification>, a: Modification -> bool, b: Modification -> bool)
    requires forall m :: a(m) == b(m)
    ensures Without(ms, a) == Without(ms, b)
    decreases |ms|
  {
    if ms != [] {
      SameDrop(ms[1..], a, b);
    }
  }
}
