/**
  Parent chains. A parent map sends a node to the parent it currently reads
  (nodes without a parent are absent). The ancestry views of both revisions
  (`ancestors`, `parents`) walk such a chain with an iterator whose
  `mutating next()` moves `current` to its parent; `Chain` is the sequence
  such a walk yields.

  A walk ends only if the chain reaches a node without a parent, so the
  views are modelled for maps where every chain is rooted.
*/
module Chains {
  import opened Common

  /** The chain from `n` reaches a node without a parent within `k` steps. */
  ghost predicate RootedWithin(pm: map<Id, Id>, n: Id, k: nat)
    decreases k
  {
    n !in pm || (k > 0 && RootedWithin(pm, pm[n], k - 1))
  }

  /** Number of parents above `n`. */
  ghost function Depth(pm: map<Id, Id>, n: Id, k: nat): (d: nat)
    requires RootedWithin(pm, n, k)
    ensures d <= k
    decreases k
  {
    if n !in pm then 0 else 1 + Depth(pm, pm[n], k - 1)
  }

  /** Every chain is rooted: no parent cycle. */
  ghost predicate Rooted(pm: map<Id, Id>) {
    forall n :: n in pm ==> RootedWithin(pm, n, |pm|)
  }

  ghost function Rank(pm: map<Id, Id>, n: Id): (d: nat)
    requires Rooted(pm)
    ensures d <= |pm|
  {
    Depth(pm, n, |pm|)
  }

  lemma {:induction false} RootedMonotone(pm: map<Id, Id>, n: Id, k: nat, k': nat)
    requires RootedWithin(pm, n, k) && k <= k'
    ensures RootedWithin(pm, n, k') && Depth(pm, n, k') == Depth(pm, n, k)
    decreases k
  {
    if n in pm {
      RootedMonotone(pm, pm[n], k - 1, k' - 1);
    }
  }

  /** A parent sits exactly one step closer to the root than its child. */
  lemma ParentRank(pm: map<Id, Id>, n: Id)
    requires Rooted(pm) && n in pm
    ensures Rank(pm, pm[n]) + 1 == Rank(pm, n)
  {
    var k := |pm|;
    assert RootedWithin(pm, n, k);
    RootedMonotone(pm, pm[n], k - 1, k);
  }

  /** The ancestors of `n`, closest first. */
  ghost function Chain(pm: map<Id, Id>, n: Id): seq<Id>
    requires Rooted(pm)
    decreases Rank(pm, n)
  {
    if n !in pm then [] else ParentRank(pm, n); [pm[n]] + Chain(pm, pm[n])
  }

  /**
    The chain starts at the immediate parent, each later element is the
    parent of the one before, it is empty exactly for a node without a
    parent, it ends at a node without a parent, and its length is the depth.
  */
  lemma {:induction false} ChainShape(pm: map<Id, Id>, n: Id)
    requires Rooted(pm)
    ensures |Chain(pm, n)| == Rank(pm, n)
    ensures Chain(pm, n) == [] <==> n !in pm
    ensures n in pm ==> Chain(pm, n)[0] == pm[n]
    ensures forall i :: 0 <= i < |Chain(pm, n)| - 1 ==>
      Chain(pm, n)[i] in pm && Chain(pm, n)[i + 1] == pm[Chain(pm, n)[i]]
    ensures Chain(pm, n) != [] ==> Chain(pm, n)[|Chain(pm, n)| - 1] !in pm
    decreases Rank(pm, n)
  {
    if n in pm {
      ParentRank(pm, n);
      ChainShape(pm, pm[n]);
      var c := Chain(pm, n);
      var rest := Chain(pm, pm[n]);
      assert c == [pm[n]] + rest;
      forall i | 0 <= i < |c| - 1 ensures c[i] in pm && c[i + 1] == pm[c[i]] {
        if i > 0 {
          assert c[i] == rest[i - 1] && c[i + 1] == rest[i];
        }
      }
    }
  }

  /** `AncestorsIterator` / `PathHandlerParentsIterator`: a cursor on the parent map. */
  class ParentsIterator {
    const parents: map<Id, Id>
    var current: Id

    /** `makeIterator()`: every iterator starts from the node the view was made for. */
    constructor (parents: map<Id, Id>, start: Id)
      ensures this.parents == parents && current == start
    {
      this.parents := parents;
      current := start;
    }

    /** `mutating next()` */
    method Next() returns (p: Option<Id>)
      modifies this
      ensures old(current) in parents ==> p == Some(parents[old(current)]) && current == parents[old(current)]
      ensures old(current) !in parents ==> p == None && current == old(current)
    {
      if current in parents {
        current := parents[current];
        p := Some(current);
      } else {
        p := None;
      }
    }
  }

  /** `Array(sequence)`: drains a fresh iterator started at `start`. */
  method CollectParents(pm: map<Id, Id>, start: Id) returns (s: seq<Id>)
    requires Rooted(pm)
    ensures s == Chain(pm, start)
  {
    var it := new ParentsIterator(pm, start);
    s := [];
    while true
      invariant it.parents == pm
      invariant Chain(pm, start) == s + Chain(pm, it.current)
      decreases Rank(pm, it.current)
    {
      var before := it.current;
      var p := it.Next();
      if p == None {
        return;
      }
      ParentRank(pm, before);
      s := s + [p.value];
    }
  }
}
