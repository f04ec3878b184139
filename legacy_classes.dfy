/**
  The class revision under `Source/Shepherd`: `ActivityHandlerAggregate`
  holds its children strongly, and `StackableActivityHandlerAggregate` holds
  one stacked handler. Their `handle(activity:ignoring:)` asks the stacked
  handler unless it is `ignoring`, then each child other than `ignoring` in
  the order added, then defers to `super`, the same search the later
  revision runs; `remove` and `push` differ from the later revision and are
  stated here.
*/
module LegacyActivityTrees {
  import opened Common
  import opened Storage
  import opened ActivityHandlers

  /** `remove(_:)`: drop every entry that is `child`, then set `child.parent = nil` whether or not it was a child. */
  function RemovedAlways(t: Arena, n: Id, c: Id): Arena
    requires n in t.handlers && c in t.handlers
  {
    var h := t.handlers[n];
    var hs := t.handlers[n := h.(children := Kept(h.children, c, t.live))];
    Arena(SetParent(hs, c, None), t.live)
  }

  /** `push(stackedHandler:)`: replace the stacked handler and set its parent; the one replaced keeps its parent. */
  function Pushed(t: Arena, n: Id, s: Id): Arena
    requires n in t.handlers && s in t.handlers
  {
    var hs := t.handlers[n := t.handlers[n].(stacked := Some(Strong(s)))];
    Arena(SetParent(hs, s, Some(n)), t.live)
  }

  /**
    `remove` drops the child from the children read and always leaves it
    without a parent; for a child it does what the later revision's
    `remove` does, and for a handler that is not a child it still clears
    that handler's parent, where the later revision changes nothing.
  */
  lemma RemovedAlwaysFacts(t: Arena, n: Id, c: Id)
    requires n in t.handlers && c in t.handlers
    ensures var r := RemovedAlways(t, n, c);
      && n in r.handlers && c in r.handlers
      && Children(r, n) == Without(Children(t, n), Some(c))
      && r.handlers[c].parent.None?
      && (c in Children(t, n) ==> r == Removed(t, n, c))
      && (c !in Children(t, n) && c != n ==> r == Arena(SetParent(t.handlers, c, None), t.live))
  {
    var h := t.handlers[n];
    KeptFacts(h.children, c, t.live);
    var r := RemovedAlways(t, n, c);
    assert Children(r, n) == LiveObjects(Kept(h.children, c, t.live), t.live);
    if c in Children(t, n) {
      assert |Kept(h.children, c, t.live)| != |h.children|;
    }
    if c !in Children(t, n) && c != n {
      assert t.handlers[n := h] == t.handlers;
    }
  }

  /**
    `push` makes `s` the stacked handler and sets its parent; a different
    handler stacked before keeps the parent it had, and the children are
    untouched.
  */
  lemma PushedFacts(t: Arena, n: Id, s: Id)
    requires n in t.handlers && s in t.handlers && s != n
    ensures var r := Pushed(t, n, s);
      && n in r.handlers && s in r.handlers
      && r.handlers[n].stacked == Some(Strong(s))
      && (s in t.live ==> StackedHandler(r, n) == Some(s))
      && r.handlers[s].parent == Some(n)
      && r.handlers[n].children == t.handlers[n].children
      && (forall o :: o in t.handlers && o != n && o != s ==> r.handlers[o] == t.handlers[o])
  {
  }

  /** The later revision's `stack` clears the replaced handler's parent; `push` does not. */
  lemma PushKeepsReplacedParent(t: Arena, n: Id, s: Id, o: Id)
    requires n in t.handlers && s in t.handlers && o in t.handlers
    requires t.handlers[n].stacked == Some(Strong(o)) && o != s && o != n && s != n
    requires t.handlers[o].parent.Some?
    ensures Pushed(t, n, s).handlers[o].parent == t.handlers[o].parent
    ensures Stacked(t, n, s, Strongly).handlers[o].parent.None?
  {
  }

  /** Every child entry of `n` is held strongly, as `append(_:)` stores it. */
  ghost predicate AllStrong(t: Arena, n: Id)
    requires n in t.handlers
  {
    forall i :: 0 <= i < |t.handlers[n].children| ==> t.handlers[n].children[i].Strong?
  }

  /**
    Children held strongly are never filtered: `children` lists every
    appended child in order, released or not, and `append` and `remove` keep
    every entry strong.
  */
  lemma StrongChildrenNeverFiltered(t: Arena, n: Id, c: Id)
    requires n in t.handlers && c in t.handlers && AllStrong(t, n)
    ensures var es := t.handlers[n].children;
      Children(t, n) == seq(|es|, i requires 0 <= i < |es| => Stored(es[i]))
    ensures AllStrong(Appended(t, n, c, Strongly), n)
    ensures AllStrong(RemovedAlways(t, n, c), n)
  {
    ChildrenInOrder(t.handlers[n].children, t.live);
    var es := t.handlers[n].children;
    var r := Appended(t, n, c, Strongly);
    if c == n {
      assert r.handlers[n].children == es + [Strong(c)];
    }
    KeptStrong(es, c, t.live);
  }

  lemma {:induction false} KeptStrong(entries: seq<ObjectStorage>, c: Id, live: set<Id>)
    requires forall i :: 0 <= i < |entries| ==> entries[i].Strong?
    ensures forall i :: 0 <= i < |Kept(entries, c, live)| ==> Kept(entries, c, live)[i].Strong?
  {
    if entries != [] {
      KeptStrong(entries[1..], c, live);
    }
  }

  class LegacyTree {
    var handlers: map<Id, Handler>
    var live: set<Id>

    function Snapshot(): Arena
      reads this
    {
      Arena(handlers, live)
    }

    constructor ()
      ensures handlers == map[] && live == {}
    {
      handlers := map[];
      live := {};
    }

    /** `ActivityHandlerAggregate()` or `StackableActivityHandlerAggregate()` (or a subclass accepting `handles`). */
    method Init(id: Id, kind: Kind, handles: set<Activity>)
      requires id !in handlers && kind != Plain
      modifies this
      ensures handlers == old(handlers)[id := Handler(kind, None, [], None, handles)]
      ensures live == old(live) + {id}
    {
      handlers := handlers[id := Handler(kind, None, [], None, handles)];
      live := live + {id};
    }

    /** `append(_:)`: the child is held strongly. */
    method Append(n: Id, child: Id)
      requires n in handlers && handlers[n].kind != Plain && child in handlers
      modifies this
      ensures Snapshot() == Appended(old(Snapshot()), n, child, Strongly)
    {
      var h := handlers[n];
      handlers := handlers[n := h.(children := h.children + [Strong(child)])];
      handlers := handlers[child := handlers[child].(parent := Some(n))];
    }

    /** `remove(_:)` */
    method Remove(n: Id, child: Id)
      requires n in handlers && handlers[n].kind != Plain && child in handlers
      modifies this
      ensures Snapshot() == RemovedAlways(old(Snapshot()), n, child)
    {
      var h := handlers[n];
      handlers := handlers[n := h.(children := Kept(h.children, child, live))];
      handlers := handlers[child := handlers[child].(parent := None)];
    }

    /** `push(stackedHandler:)` */
    method Push(n: Id, s: Id)
      requires n in handlers && handlers[n].kind == Stacking && s in handlers
      modifies this
      ensures Snapshot() == Pushed(old(Snapshot()), n, s)
    {
      handlers := handlers[n := handlers[n].(stacked := Some(Strong(s)))];
      handlers := handlers[s := handlers[s].(parent := Some(n))];
    }

    /**
      `handle(activity:ignoring:)` sent to `n`: an override accepting the
      activity returns `n`; otherwise the class's own `handle` runs.
    */
    method HandleActivity(n: Id, a: Activity, ignoring: Option<Id>) returns (r: Option<Id>)
      requires WellFormed(Snapshot()) && n in handlers && n in live
      ensures r == Handle(Snapshot(), n, a, ignoring).handler
      decreases Level(Snapshot(), n, ignoring), Height(Snapshot(), n, ignoring), 3
    {
      if a in handlers[n].handles {
        return Some(n);
      }
      ghost var t := Snapshot();
      HandleIsFirstAnswer(t, n, a, ignoring);
      match handlers[n].kind
      case Plain =>
        assert Candidates(t, n, ignoring) == ParentCandidate(t, n, ignoring);
        r := BaseHandle(n, a, ignoring);
      case Aggregate =>
        assert Candidates(t, n, ignoring) == AggregateCandidates(t, n, ignoring);
        r := AggregateHandle(n, a, ignoring);
      case Stacking =>
        r := StackableHandle(n, a, ignoring);
    }

    /** `super.handle`: unless the parent is `ignoring`, ask the parent with `ignoring` = `n`. */
    method BaseHandle(n: Id, a: Activity, ignoring: Option<Id>) returns (r: Option<Id>)
      requires WellFormed(Snapshot()) && n in handlers && n in live
      ensures r == FirstSome(Answers(Snapshot(), n, a, ParentCandidate(Snapshot(), n, ignoring)))
      decreases Level(Snapshot(), n, ignoring), Height(Snapshot(), n, ignoring), 0
    {
      var t := Snapshot();
      var parent := Parent(t, n);
      if parent == ignoring {
        return None;
      }
      if parent.Some? {
        CandidatesMembers(t, n, ignoring);
        CandidateDecreases(t, n, ignoring, parent.value);
        r := HandleActivity(parent.value, a, Some(n));
        assert Answers(t, n, a, [parent.value]) == [r];
      } else {
        r := None;
      }
    }

    /**
      `ActivityHandlerAggregate.handle`: ask each child other than
      `ignoring`, in the order added, with `ignoring` = `n`; return the
      first handler returned, and otherwise defer to `super`.
    */
    method AggregateHandle(n: Id, a: Activity, ignoring: Option<Id>) returns (r: Option<Id>)
      requires WellFormed(Snapshot()) && n in handlers && n in live && handlers[n].kind != Plain
      ensures r == FirstSome(Answers(Snapshot(), n, a, AggregateCandidates(Snapshot(), n, ignoring)))
      decreases Level(Snapshot(), n, ignoring), Height(Snapshot(), n, ignoring), 1
    {
      var t := Snapshot();
      var children := Children(t, n);
      ghost var fallback := ParentCandidate(t, n, ignoring);
      CandidatesMembers(t, n, ignoring);
      for i := 0 to |children|
        invariant FirstSome(Answers(t, n, a, AggregateCandidates(t, n, ignoring))) ==
          FirstSome(Answers(t, n, a, Without(children[i..], ignoring) + fallback))
      {
        var child := children[i];
        SkipOrAsk(t, n, a, children, i, ignoring, fallback);
        if Some(child) != ignoring {
          assert child in Candidates(t, n, ignoring);
          CandidateDecreases(t, n, ignoring, child);
          r := HandleActivity(child, a, Some(n));
          if r.Some? {
            return;
          }
        }
      }
      assert children[|children|..] == [];
      r := BaseHandle(n, a, ignoring);
    }

    /**
      `StackableActivityHandlerAggregate.handle`: ask the stacked handler
      first (unless it is `ignoring`) with `ignoring` = `n`; if it returns
      nothing, defer to `super`.
    */
    method StackableHandle(n: Id, a: Activity, ignoring: Option<Id>) returns (r: Option<Id>)
      requires WellFormed(Snapshot()) && n in handlers && n in live && handlers[n].kind == Stacking
      ensures r == FirstSome(Answers(Snapshot(), n, a, Candidates(Snapshot(), n, ignoring)))
      decreases Level(Snapshot(), n, ignoring), Height(Snapshot(), n, ignoring), 2
    {
      var t := Snapshot();
      ghost var rest := AggregateCandidates(t, n, ignoring);
      AnswersAppend(t, n, a, StackedCandidate(t, n, ignoring), rest);
      FirstSomeAppend(Answers(t, n, a, StackedCandidate(t, n, ignoring)), Answers(t, n, a, rest));
      var stacked := StackedHandler(t, n);
      if stacked.Some? && stacked != ignoring {
        assert Candidates(t, n, ignoring) == [stacked.value] + rest;
        CandidateDecreases(t, n, ignoring, stacked.value);
        r := HandleActivity(stacked.value, a, Some(n));
        assert Answers(t, n, a, [stacked.value]) == [r];
        if r.Some? {
          return;
        }
      }
      r := AggregateHandle(n, a, ignoring);
    }
  }
}
