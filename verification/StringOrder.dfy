/** The byte-wise order of std::string, and the operators the filters and the sorters build on it. */
module StringOrder {
  import opened Core

  predicate Less(a: string, b: string) {
    b != [] && (a == [] || a[0] < b[0] || (a[0] == b[0] && Less(a[1..], b[1..])))
  }

  lemma {:induction false} Trichotomy(a: string, b: string)
    ensures !Less(a, a)
    ensures Less(a, b) ==> !Less(b, a) && a != b
    ensures Less(a, b) || a == b || Less(b, a)
    decreases |a|
  {
    if a != [] {
      Trichotomy(a[1..], a[1..]);
      if b != [] {
        Trichotomy(a[1..], b[1..]);
        assert a == [a[0]] + a[1..] && b == [b[0]] + b[1..];
      }
    }
  }

  lemma {:induction false} Transitive(a: string, b: string, c: string)
    requires Less(a, b) && Less(b, c)
    ensures Less(a, c)
    decreases |a|
  {
    if a != [] && a[0] == b[0] == c[0] {
      Transitive(a[1..], b[1..], c[1..]);
    }
  }

  /** The first characters that differ decide, and a text comes before every longer one it begins. */
  lemma {:induction false} FirstDifference(common: string, a: string, b: string)
    requires a == [] || b == [] || a[0] != b[0]
    ensures Less(common + a, common + b) <==> b != [] && (a == [] || a[0] < b[0])
    decreases |common|
  {
    if common == [] {
      assert common + a == a && common + b == b;
    } else {
      assert (common + a)[1..] == common[1..] + a && (common + b)[1..] == common[1..] + b;
      FirstDifference(common[1..], a, b);
    }
  }

  /** How the database compares two texts. */
  predicate Holds(op: Comparison, a: string, b: string) {
    match op
    case Eq => a == b
    case Ne => a != b
    case Gt => Less(b, a)
    case Ge => !Less(a, b)
    case Lt => Less(a, b)
    case Le => !Less(b, a)
    case Contains => false
    case NotContains => false
  }
}
