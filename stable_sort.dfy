/**
  `Sequence.stableSorted(by:)`: every element is paired with its offset
  (`enumerated()`), the pairs are sorted with a comparator that breaks ties
  between incomparable elements by offset, and the elements are read back.

  Swift's `sorted(by:)` only promises an ordered permutation; it is modelled
  here by an insertion sort on the offset-tagged entries. Because the
  tie-break comparator orders any two entries with distinct offsets, every
  ordered permutation of the entries is the same sequence
  (`StableSortedUnique`), so the choice of algorithm does not show in the
  result.
*/
module StableSort {

  /** `!less(a, b) && !less(b, a)`: neither element must come first. */
  predicate Incomparable<T>(less: (T, T) -> bool, a: T, b: T) {
    !less(a, b) && !less(b, a)
  }

  /** The requirement Swift places on an `areInIncreasingOrder` comparator. */
  ghost predicate StrictWeakOrder<T(!new)>(less: (T, T) -> bool) {
    && (forall a :: !less(a, a))
    && (forall a, b, c :: less(a, b) && less(b, c) ==> less(a, c))
    && (forall a, b, c :: Incomparable(less, a, b) && Incomparable(less, b, c) ==> Incomparable(less, a, c))
  }

  /** One element of `enumerated()`. */
  datatype Entry<T> = Entry(offset: nat, element: T)

  function Enumerated<T>(s: seq<T>): (es: seq<Entry<T>>)
    ensures |es| == |s|
    ensures forall i :: 0 <= i < |s| ==> es[i] == Entry(i, s[i])
  {
    seq(|s|, i requires 0 <= i < |s| => Entry(i, s[i]))
  }

  /** `.map { $0.element }` */
  function Elements<T>(es: seq<Entry<T>>): (s: seq<T>)
    ensures |s| == |es|
    ensures forall i :: 0 <= i < |es| ==> s[i] == es[i].element
  {
    seq(|es|, i requires 0 <= i < |es| => es[i].element)
  }

  /** The closure handed to `sorted`: the caller's order, ties broken by offset. */
  predicate TieBreak<T>(less: (T, T) -> bool, a: Entry<T>, b: Entry<T>) {
    less(a.element, b.element) || (a.offset < b.offset && !less(b.element, a.element))
  }

  function TieBreakOf<T>(less: (T, T) -> bool): (Entry<T>, Entry<T>) -> bool {
    (a, b) => TieBreak(less, a, b)
  }

  /** No entry is ordered before an entry that precedes it. */
  ghost predicate SortedBy<T>(less: (T, T) -> bool, es: seq<Entry<T>>) {
    forall i, j :: 0 <= i < j < |es| ==> !TieBreak(less, es[j], es[i])
  }

  ghost predicate DistinctOffsets<T>(es: seq<Entry<T>>) {
    forall i, j :: 0 <= i < j < |es| ==> es[i].offset != es[j].offset
  }

  /** Puts `x` in front of the first entry it is ordered before. */
  function Insert<T>(less: (T, T) -> bool, x: Entry<T>, es: seq<Entry<T>>): seq<Entry<T>>
  {
    if es == [] then [x]
    else if TieBreak(less, x, es[0]) then [x] + es
    else [es[0]] + Insert(less, x, es[1..])
  }

  function SortEntries<T>(less: (T, T) -> bool, es: seq<Entry<T>>): seq<Entry<T>>
  {
    if es == [] then [] else Insert(less, es[0], SortEntries(less, es[1..]))
  }

  function SortedEntries<T>(s: seq<T>, less: (T, T) -> bool): seq<Entry<T>> {
    SortEntries(less, Enumerated(s))
  }

  /** `stableSorted(by: less)` */
  function StableSorted<T>(s: seq<T>, less: (T, T) -> bool): seq<T> {
    Elements(SortedEntries(s, less))
  }

  // ---------------------------------------------------------------------------
  // The tie-break comparator

  /** Consequences of a strict weak order used below. */
  lemma StrictWeakOrderFacts<T(!new)>(less: (T, T) -> bool, x: T, y: T, z: T)
    requires StrictWeakOrder(less)
    ensures less(x, y) ==> !less(y, x)
    ensures less(x, y) && Incomparable(less, y, z) ==> less(x, z)
    ensures Incomparable(less, x, y) && less(y, z) ==> less(x, z)
    ensures less(x, z) ==> less(x, y) || less(y, z)
  {
    assert !less(x, x);
    assert less(x, y) && less(y, x) ==> less(x, x);
    assert less(z, x) && less(x, y) ==> less(z, y);
    assert Incomparable(less, x, z) && Incomparable(less, z, y) ==> Incomparable(less, x, y);
    assert less(y, z) && less(z, x) ==> less(y, x);
    assert Incomparable(less, y, x) && Incomparable(less, x, z) ==> Incomparable(less, y, z);
    assert less(y, x) && less(x, z) ==> less(y, z);
    assert less(x, z) && less(z, y) ==> less(x, y);
    assert Incomparable(less, x, y) && Incomparable(less, y, z) ==> Incomparable(less, x, z);
  }

  /** With a strict weak order underneath, the tie-break comparator is one too. */
  lemma TieBreakFacts<T(!new)>(less: (T, T) -> bool, a: Entry<T>, b: Entry<T>, c: Entry<T>)
    requires StrictWeakOrder(less)
    ensures !TieBreak(less, a, a)
    ensures TieBreak(less, a, b) ==> !TieBreak(less, b, a)
    ensures TieBreak(less, a, b) && TieBreak(less, b, c) ==> TieBreak(less, a, c)
    ensures a.offset != b.offset ==> TieBreak(less, a, b) || TieBreak(less, b, a)
    ensures Incomparable(TieBreakOf(less), a, b) <==> a.offset == b.offset && Incomparable(less, a.element, b.element)
  {
    var x, y, z := a.element, b.element, c.element;
    StrictWeakOrderFacts(less, x, y, z);
    StrictWeakOrderFacts(less, z, x, y);
    StrictWeakOrderFacts(less, y, z, x);
    StrictWeakOrderFacts(less, x, z, y);
    StrictWeakOrderFacts(less, y, x, z);
    StrictWeakOrderFacts(less, z, y, x);
  }

  lemma TieBreakIsStrictWeakOrder<T(!new)>(less: (T, T) -> bool)
    requires StrictWeakOrder(less)
    ensures StrictWeakOrder(TieBreakOf(less))
  {
    var lt := TieBreakOf(less);
    forall a: Entry<T> ensures !lt(a, a) {
      TieBreakFacts(less, a, a, a);
    }
    forall a: Entry<T>, b: Entry<T>, c: Entry<T> | lt(a, b) && lt(b, c) ensures lt(a, c) {
      TieBreakFacts(less, a, b, c);
    }
    forall a: Entry<T>, b: Entry<T>, c: Entry<T> | Incomparable(lt, a, b) && Incomparable(lt, b, c)
      ensures Incomparable(lt, a, c)
    {
      TieBreakFacts(less, a, b, c);
      TieBreakFacts(less, b, c, a);
      TieBreakFacts(less, a, c, b);
    }
  }

  // ---------------------------------------------------------------------------
  // Insertion

  lemma {:induction false} InsertContents<T>(less: (T, T) -> bool, x: Entry<T>, es: seq<Entry<T>>)
    ensures |Insert(less, x, es)| == |es| + 1
    ensures multiset(Insert(less, x, es)) == multiset(es) + multiset{x}
    ensures forall y :: y in Insert(less, x, es) <==> y == x || y in es
  {
    if es != [] && !TieBreak(less, x, es[0]) {
      InsertContents(less, x, es[1..]);
      assert es == [es[0]] + es[1..];
    }
  }

  lemma ElementsCons<T>(e: Entry<T>, es: seq<Entry<T>>)
    ensures Elements([e] + es) == [e.element] + Elements(es)
  {
  }

  lemma {:induction false} InsertElements<T>(less: (T, T) -> bool, x: Entry<T>, es: seq<Entry<T>>)
    ensures multiset(Elements(Insert(less, x, es))) == multiset(Elements(es)) + multiset{x.element}
  {
    if es == [] {
      assert Elements([x]) == [x.element];
    } else if TieBreak(less, x, es[0]) {
      ElementsCons(x, es);
    } else {
      InsertElements(less, x, es[1..]);
      ElementsCons(es[0], Insert(less, x, es[1..]));
      ElementsCons(es[0], es[1..]);
      assert es == [es[0]] + es[1..];
    }
  }

  lemma {:induction false} InsertSorted<T(!new)>(less: (T, T) -> bool, x: Entry<T>, es: seq<Entry<T>>)
    requires StrictWeakOrder(less)
    requires SortedBy(less, es)
    ensures SortedBy(less, Insert(less, x, es))
  {
    if es == [] {
    } else if TieBreak(less, x, es[0]) {
      var r := [x] + es;
      forall i, j | 0 <= i < j < |r| ensures !TieBreak(less, r[j], r[i]) {
        if i == 0 {
          TieBreakFacts(less, r[j], x, es[0]);
          TieBreakFacts(less, x, es[0], es[0]);
        }
      }
    } else {
      InsertSorted(less, x, es[1..]);
      InsertContents(less, x, es[1..]);
      var rest := Insert(less, x, es[1..]);
      var r := [es[0]] + rest;
      forall i, j | 0 <= i < j < |r| ensures !TieBreak(less, r[j], r[i]) {
        if i == 0 {
          assert r[j] in rest;
        }
      }
    }
  }

  lemma {:induction false} InsertDistinct<T>(less: (T, T) -> bool, x: Entry<T>, es: seq<Entry<T>>)
    requires DistinctOffsets(es)
    requires forall y :: y in es ==> y.offset != x.offset
    ensures DistinctOffsets(Insert(less, x, es))
  {
    if es != [] && !TieBreak(less, x, es[0]) {
      InsertDistinct(less, x, es[1..]);
      InsertContents(less, x, es[1..]);
      var rest := Insert(less, x, es[1..]);
      var r := [es[0]] + rest;
      forall i, j | 0 <= i < j < |r| ensures r[i].offset != r[j].offset {
        if i == 0 {
          assert r[j] == rest[j - 1] && rest[j - 1] in Insert(less, x, es[1..]);
          if r[j] != x {
            assert rest[j - 1] in multiset(es[1..]) + multiset{x};
            assert r[j] in es[1..];
            var k :| 0 <= k < |es[1..]| && es[1..][k] == r[j];
            assert es[k + 1] == r[j];
          }
        }
      }
    }
  }

  // ---------------------------------------------------------------------------
  // Sorting the entries

  lemma {:induction false} SortEntriesContents<T>(less: (T, T) -> bool, es: seq<Entry<T>>)
    ensures |SortEntries(less, es)| == |es|
    ensures multiset(SortEntries(less, es)) == multiset(es)
  {
    if es != [] {
      SortEntriesContents(less, es[1..]);
      InsertContents(less, es[0], SortEntries(less, es[1..]));
      MultisetTail(es);
    }
  }

  lemma {:induction false} SortEntriesElements<T>(less: (T, T) -> bool, es: seq<Entry<T>>)
    ensures multiset(Elements(SortEntries(less, es))) == multiset(Elements(es))
  {
    if es != [] {
      SortEntriesElements(less, es[1..]);
      InsertElements(less, es[0], SortEntries(less, es[1..]));
      ElementsCons(es[0], es[1..]);
      assert es == [es[0]] + es[1..];
    }
  }

  lemma {:induction false} SortEntriesSorted<T(!new)>(less: (T, T) -> bool, es: seq<Entry<T>>)
    requires StrictWeakOrder(less)
    ensures SortedBy(less, SortEntries(less, es))
  {
    if es != [] {
      SortEntriesSorted(less, es[1..]);
      InsertSorted(less, es[0], SortEntries(less, es[1..]));
    }
  }

  lemma {:induction false} SortEntriesDistinct<T>(less: (T, T) -> bool, es: seq<Entry<T>>)
    requires DistinctOffsets(es)
    ensures DistinctOffsets(SortEntries(less, es))
  {
    if es != [] {
      var rest := SortEntries(less, es[1..]);
      SortEntriesDistinct(less, es[1..]);
      SortEntriesContents(less, es[1..]);
      forall y | y in rest ensures y.offset != es[0].offset {
        assert y in multiset(rest);
        var k :| 0 <= k < |es[1..]| && es[1..][k] == y;
        assert es[k + 1] == y;
      }
      InsertDistinct(less, es[0], rest);
    }
  }

  /** An entry sequence already increasing under the tie-break comes back unchanged. */
  lemma {:induction false} SortEntriesOfIncreasing<T>(less: (T, T) -> bool, es: seq<Entry<T>>)
    requires forall i, j :: 0 <= i < j < |es| ==> TieBreak(less, es[i], es[j])
    ensures SortEntries(less, es) == es
  {
    if es != [] {
      SortEntriesOfIncreasing(less, es[1..]);
      assert es == [es[0]] + es[1..];
    }
  }

  // ---------------------------------------------------------------------------
  // Properties of stableSorted

  /** The result is a permutation of the input: same length and same multiset of elements. */
  lemma StableSortedIsPermutation<T(!new)>(s: seq<T>, less: (T, T) -> bool)
    requires StrictWeakOrder(less)
    ensures |StableSorted(s, less)| == |s|
    ensures multiset(StableSorted(s, less)) == multiset(s)
  {
    SortEntriesContents(less, Enumerated(s));
    SortEntriesElements(less, Enumerated(s));
    assert Elements(Enumerated(s)) == s;
  }

  /** The result is ordered: no element is less than an element before it. */
  lemma StableSortedIsOrdered<T(!new)>(s: seq<T>, less: (T, T) -> bool)
    requires StrictWeakOrder(less)
    ensures forall i, j :: 0 <= i < j < |StableSorted(s, less)| ==>
      !less(StableSorted(s, less)[j], StableSorted(s, less)[i])
  {
    SortEntriesSorted(less, Enumerated(s));
  }

  /**
    Stability: the result is the input read through an injective map of
    offsets, and two incomparable elements keep their input order.
  */
  lemma StableSortedIsStable<T(!new)>(s: seq<T>, less: (T, T) -> bool)
    requires StrictWeakOrder(less)
    ensures var es := SortedEntries(s, less);
      && |es| == |s|
      && (forall i :: 0 <= i < |es| ==> es[i].offset < |s| && StableSorted(s, less)[i] == s[es[i].offset])
      && (forall i, j :: 0 <= i < j < |es| ==> es[i].offset != es[j].offset)
      && (forall i, j :: 0 <= i < j < |es| && Incomparable(less, s[es[i].offset], s[es[j].offset]) ==>
            es[i].offset < es[j].offset)
  {
    var en := Enumerated(s);
    var es := SortedEntries(s, less);
    SortEntriesContents(less, en);
    SortEntriesSorted(less, en);
    SortEntriesDistinct(less, en);
    forall i | 0 <= i < |es| ensures es[i].offset < |s| && es[i].element == s[es[i].offset] {
      assert es[i] in multiset(en);
      var k :| 0 <= k < |en| && en[k] == es[i];
    }
  }

  /**
    Any ordering of the entries that `sorted(by:)` may return is the one
    computed here: under the tie-break comparator two ordered permutations
    of entries with distinct offsets are equal.
  */
  lemma StableSortedUnique<T(!new)>(s: seq<T>, less: (T, T) -> bool, es: seq<Entry<T>>)
    requires StrictWeakOrder(less)
    requires multiset(es) == multiset(Enumerated(s)) && SortedBy(less, es)
    ensures es == SortedEntries(s, less)
    ensures Elements(es) == StableSorted(s, less)
  {
    var en := Enumerated(s);
    SortEntriesContents(less, en);
    SortEntriesSorted(less, en);
    SortEntriesDistinct(less, en);
    SortedPermutationUnique(less, SortedEntries(s, less), es);
  }

  lemma {:induction false} SortedPermutationUnique<T(!new)>(less: (T, T) -> bool, xs: seq<Entry<T>>, ys: seq<Entry<T>>)
    requires StrictWeakOrder(less)
    requires SortedBy(less, xs) && SortedBy(less, ys) && DistinctOffsets(xs)
    requires multiset(xs) == multiset(ys)
    ensures xs == ys
    decreases |xs|
  {
    assert |xs| == |multiset(xs)| == |multiset(ys)| == |ys|;
    if xs != [] {
      SortedHeads(less, xs, ys);
      SortedTail(less, xs);
      SortedTail(less, ys);
      SortedPermutationUnique(less, xs[1..], ys[1..]);
      assert xs == [xs[0]] + xs[1..] && ys == [ys[0]] + ys[1..];
    }
  }

  /** Two ordered permutations start with the same entry, and their tails are again permutations. */
  lemma SortedHeads<T(!new)>(less: (T, T) -> bool, xs: seq<Entry<T>>, ys: seq<Entry<T>>)
    requires StrictWeakOrder(less)
    requires SortedBy(less, xs) && SortedBy(less, ys) && DistinctOffsets(xs)
    requires multiset(xs) == multiset(ys) && xs != [] && ys != []
    ensures xs[0] == ys[0] && multiset(xs[1..]) == multiset(ys[1..])
  {
    var x, y := xs[0], ys[0];
    assert x in multiset(ys) && y in multiset(xs);
    var j :| 0 <= j < |ys| && ys[j] == x;
    var k :| 0 <= k < |xs| && xs[k] == y;
    // y sits at position k of xs, so it is not ordered before x; for k > 0
    // its offset differs, so x is ordered before y, and then j is 0.
    TieBreakFacts(less, x, y, y);
    assert x == y;
    MultisetTail(xs);
    MultisetTail(ys);
  }

  lemma MultisetTail<E>(es: seq<E>)
    requires es != []
    ensures multiset(es[1..]) == multiset(es) - multiset{es[0]}
  {
    assert es == [es[0]] + es[1..];
  }

  lemma SortedTail<T>(less: (T, T) -> bool, es: seq<Entry<T>>)
    requires es != []
    ensures SortedBy(less, es) ==> SortedBy(less, es[1..])
    ensures DistinctOffsets(es) ==> DistinctOffsets(es[1..])
  {
    assert forall i :: 0 <= i < |es| - 1 ==> es[1..][i] == es[i + 1];
  }

  /** Sorting a sorted result again returns it unchanged. */
  lemma StableSortedIdempotent<T(!new)>(s: seq<T>, less: (T, T) -> bool)
    requires StrictWeakOrder(less)
    ensures StableSorted(StableSorted(s, less), less) == StableSorted(s, less)
  {
    var u := StableSorted(s, less);
    StableSortedIsOrdered(s, less);
    var en := Enumerated(u);
    SortEntriesOfIncreasing(less, en);
    assert Elements(en) == u;
  }
}
