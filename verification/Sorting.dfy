/** std::sort with a comparator, as a stable insertion sort. */
module Sorting {

  ghost predicate StrictOrder<T(!new)>(less: (T, T) -> bool) {
    && (forall a, b :: less(a, b) ==> !less(b, a))
    && (forall a, b, c :: !less(b, a) && !less(c, b) ==> !less(c, a))
  }

  ghost predicate Sorted<T>(s: seq<T>, less: (T, T) -> bool) {
    forall i, j | 0 <= i < j < |s| :: !less(s[j], s[i])
  }

  function Insert<T>(x: T, s: seq<T>, less: (T, T) -> bool): seq<T> {
    if s == [] || less(x, s[0]) then [x] + s else [s[0]] + Insert(x, s[1..], less)
  }

  function Sort<T>(s: seq<T>, less: (T, T) -> bool): seq<T> {
    if s == [] then [] else Insert(s[|s| - 1], Sort(s[..|s| - 1], less), less)
  }

  lemma {:induction false} InsertKeeps<T(!new)>(x: T, s: seq<T>, less: (T, T) -> bool)
    ensures multiset(Insert(x, s, less)) == multiset(s) + multiset{x}
    decreases |s|
  {
    if s != [] && !less(x, s[0]) {
      InsertKeeps(x, s[1..], less);
      assert s == [s[0]] + s[1..];
    }
  }

  lemma {:induction false} InsertSorts<T(!new)>(x: T, s: seq<T>, less: (T, T) -> bool)
    requires StrictOrder(less) && Sorted(s, less)
    ensures Sorted(Insert(x, s, less), less)
    decreases |s|
  {
    var r := Insert(x, s, less);
    if s != [] {
      if less(x, s[0]) {
        forall i, j | 0 <= i < j < |r| ensures !less(r[j], r[i]) {
          if i == 0 && j > 1 {
            assert !less(s[j - 1], s[0]) && !less(s[0], x);
          }
        }
      } else {
        InsertSorts(x, s[1..], less);
        InsertKeeps(x, s[1..], less);
        var rest := Insert(x, s[1..], less);
        forall j | 0 <= j < |rest| ensures !less(rest[j], s[0]) {
          assert rest[j] in multiset(rest);
          if rest[j] != x {
            assert rest[j] in s[1..];
          }
        }
      }
    }
  }

  /** Sorting permutes and orders. */
  lemma {:induction false} SortSorts<T(!new)>(s: seq<T>, less: (T, T) -> bool)
    requires StrictOrder(less)
    ensures Sorted(Sort(s, less), less) && multiset(Sort(s, less)) == multiset(s)
    decreases |s|
  {
    if s != [] {
      var init := s[..|s| - 1];
      SortSorts(init, less);
      InsertSorts(s[|s| - 1], Sort(init, less), less);
      InsertKeeps(s[|s| - 1], Sort(init, less), less);
      assert s == init + [s[|s| - 1]];
    }
  }
}
