/**
  The `Priority` enum of the router revision: four named cases with fixed raw
  values, compared through their raw values. Handlers with a higher priority
  are asked first.
*/
module Priorities {

  datatype Priority = High | Medium | Low | Parent

  /** The raw value behind each case. */
  function RawValue(p: Priority): (v: int)
    ensures p == High ==> v == 1000
    ensures p == Medium ==> v == 500
    ensures p == Low ==> v == 100
    ensures p == Parent ==> v == 0
  {
    match p
    case High => 1000
    case Medium => 500
    case Low => 100
    case Parent => 0
  }

  /** `lhs < rhs` of the `Comparable` conformance. */
  predicate Less(lhs: Priority, rhs: Priority) {
    RawValue(lhs) < RawValue(rhs)
  }

  /** Raw values are distinct, so a case is determined by its raw value. */
  lemma RawValueInjective(p: Priority, q: Priority)
    ensures RawValue(p) == RawValue(q) <==> p == q
  {
  }

  /** The order of the cases: parent < low < medium < high, and nothing else. */
  lemma CaseOrder(p: Priority, q: Priority)
    ensures Less(p, q) <==>
      (p == Parent && q != Parent) || (p == Low && (q == Medium || q == High)) || (p == Medium && q == High)
  {
  }

  /** `Less` is a strict total order: irreflexive, transitive, and total on distinct cases. */
  lemma LessIsStrictTotalOrder(p: Priority, q: Priority, r: Priority)
    ensures !Less(p, p)
    ensures Less(p, q) && Less(q, r) ==> Less(p, r)
    ensures p != q ==> Less(p, q) || Less(q, p)
    ensures !(Less(p, q) && Less(q, p))
  {
    RawValueInjective(p, q);
  }

  /**
    The router asks its candidates in descending priority: `TriedBefore(p, q)`
    is the `$0.priority > $1.priority` comparator it sorts with.
  */
  predicate TriedBefore(p: Priority, q: Priority) {
    Less(q, p)
  }

  /** A higher priority is tried earlier; equal priorities are not ordered by the comparator. */
  lemma TriedBeforeMeansHigher(p: Priority, q: Priority)
    ensures TriedBefore(p, q) <==> RawValue(p) > RawValue(q)
    ensures p == q ==> !TriedBefore(p, q)
    ensures TriedBefore(High, Medium) && TriedBefore(Medium, Low) && TriedBefore(Low, Parent)
  {
  }
}
