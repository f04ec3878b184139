/**
  The activity handlers as objects whose fields are updated in place:
  `append`, `remove`, `stack` and `removeStackedHandler` write the holder's
  storage and the child's `parent`, and `handle(activity:ignoring:)` is the
  search those classes run, written as their loops and calls.

  `ActivityTree` holds every handler object (keyed by identity) and the set
  of objects still alive; each method is proved against the arena function
  of `ActivityHandlers` that states its effect.
*/
module ActivityTrees {
  import opened Common
  import opened Storage
  import Chains
  import opened ActivityHandlers

  class ActivityTree {
    var handlers: map<Id, Handler>
    var live: set<Id>

    /** The object graph as a value. */
    function Snapshot(): Arena
      reads this
    {
      Arena(handlers, live)
    }

    constructor ()
      ensures handlers == map[] && live == {}
    {
      handlers := map[];
      live := {};
    }

    /**
      `ActivityHandler()`, `ActivityHandlerAggregate()` or
      `StackingActivityHandlerAggregate()` (or a subclass accepting `handles`):
      a new object with no parent, no children and nothing stacked.
    */
    method Init(id: Id, kind: Kind, handles: set<Activity>)
      requires id !in handlers
      modifies this
      ensures handlers == old(handlers)[id := Handler(kind, None, [], None, handles)]
      ensures live == old(live) + {id}
    {
      handlers := handlers[id := Handler(kind, None, [], None, handles)];
      live := live + {id};
    }

    /** The last owner lets go of `id`: weak references to it now read `nil`. */
    method Release(id: Id)
      modifies this
      ensures handlers == old(handlers) && live == old(live) - {id}
    {
      live := live - {id};
    }

    /** `ActivityHandlerAggregate.append(_:heldOnTo:)` */
    method Append(n: Id, child: Id, option: StorageOption)
      requires n in handlers && handlers[n].kind != Plain
      requires child in handlers
      modifies this
      ensures Snapshot() == Appended(old(Snapshot()), n, child, option)
    {
      var h := handlers[n];
      handlers := handlers[n := h.(children := h.children + [Store(option, child)])];
      handlers := handlers[child := handlers[child].(parent := Some(n))];
    }

    /** `ActivityHandlerAggregate.remove(_:)` */
    method Remove(n: Id, child: Id)
      requires n in handlers && handlers[n].kind != Plain
      requires child in handlers
      modifies this
      ensures Snapshot() == Removed(old(Snapshot()), n, child)
    {
      var entries := handlers[n].children;
      var countBefore := |entries|;
      var kept := [];
      for i := 0 to |entries|
        invariant Kept(entries, child, live) == kept + Kept(entries[i..], child, live)
      {
        assert entries[i..][1..] == entries[i + 1..];
        if Object(entries[i], live) != Some(child) {
          kept := kept + [entries[i]];
        }
      }
      assert entries[|entries|..] == [];
      assert kept == Kept(entries, child, live);
      ghost var t := Snapshot();
      handlers := handlers[n := handlers[n].(children := kept)];
      var didRemove := countBefore != |kept|;
      if didRemove {
        handlers := handlers[child := handlers[child].(parent := None)];
      }
      assert Snapshot() == Removed(t, n, child);
    }

    /** `StackingActivityHandlerAggregate.removeStackedHandler()` */
    method RemoveStackedHandler(n: Id)
      requires n in handlers && handlers[n].kind == Stacking
      requires StackedHandler(Snapshot(), n).Some? ==> StackedHandler(Snapshot(), n).value in handlers
      modifies this
      ensures Snapshot() == StackedRemoved(old(Snapshot()), n)
    {
      var stacked := StackedHandler(Snapshot(), n);
      if stacked.Some? {
        handlers := handlers[stacked.value := handlers[stacked.value].(parent := None)];
      }
      handlers := handlers[n := handlers[n].(stacked := None)];
    }

    /** `StackingActivityHandlerAggregate.stack(activityHandler:heldOnTo:)` */
    method Stack(n: Id, s: Id, option: StorageOption)
      requires n in handlers && handlers[n].kind == Stacking
      requires s in handlers
      requires StackedHandler(Snapshot(), n).Some? ==> StackedHandler(Snapshot(), n).value in handlers
      modifies this
      ensures Snapshot() == Stacked(old(Snapshot()), n, s, option)
    {
      RemoveStackedHandler(n);
      handlers := handlers[n := handlers[n].(stacked := Some(Store(option, s)))];
      handlers := handlers[s := handlers[s].(parent := Some(n))];
    }

    /**
      `handle(activity:ignoring:)` sent to `n`: an override accepting the
      activity returns `n`; otherwise the class's own `handle` runs.
    */
    method HandleActivity(n: Id, a: Activity, ignoring: Option<Id>) returns (r: Option<Id>)
      requires WellFormed(Snapshot()) && n in handlers && n in live
      ensures r == Handle(Snapshot(), n, a, ignoring).handler
      decreases Level(Snapshot(), n, ignoring), Height(Snapshot(), n, ignoring), 3
    {
      if a in handlers[n].handles {
        return Some(n);
      }
      ghost var t := Snapshot();
      HandleIsFirstAnswer(t, n, a, ignoring);
      match handlers[n].kind
      case Plain =>
        assert Candidates(t, n, ignoring) == ParentCandidate(t, n, ignoring);
        r := BaseHandle(n, a, ignoring);
      case Aggregate =>
        assert Candidates(t, n, ignoring) == AggregateCandidates(t, n, ignoring);
        r := AggregateHandle(n, a, ignoring);
      case Stacking =>
        r := StackingHandle(n, a, ignoring);
    }

    /**
      `ActivityHandler.handle`: unless the parent is `ignoring`, ask the
      parent with `ignoring` = `n`.
    */
    method BaseHandle(n: Id, a: Activity, ignoring: Option<Id>) returns (r: Option<Id>)
      requires WellFormed(Snapshot()) && n in handlers && n in live
      ensures r == FirstSome(Answers(Snapshot(), n, a, ParentCandidate(Snapshot(), n, ignoring)))
      decreases Level(Snapshot(), n, ignoring), Height(Snapshot(), n, ignoring), 0
    {
      var t := Snapshot();
      var parent := Parent(t, n);
      if parent == ignoring {
        return None;
      }
      if parent.Some? {
        CandidatesMembers(t, n, ignoring);
        CandidateDecreases(t, n, ignoring, parent.value);
        r := HandleActivity(parent.value, a, Some(n));
        assert Answers(t, n, a, [parent.value]) == [r];
      } else {
        r := None;
      }
    }

    /**
      `ActivityHandlerAggregate.handle`: ask each child other than
      `ignoring`, in order, with `ignoring` = `n`, and return the first
      handler returned; if none is, fall back to `super`.
    */
    method AggregateHandle(n: Id, a: Activity, ignoring: Option<Id>) returns (r: Option<Id>)
      requires WellFormed(Snapshot()) && n in handlers && n in live && handlers[n].kind != Plain
      ensures r == FirstSome(Answers(Snapshot(), n, a, AggregateCandidates(Snapshot(), n, ignoring)))
      decreases Level(Snapshot(), n, ignoring), Height(Snapshot(), n, ignoring), 1
    {
      var t := Snapshot();
      var children := Children(t, n);
      ghost var fallback := ParentCandidate(t, n, ignoring);
      CandidatesMembers(t, n, ignoring);
      for i := 0 to |children|
        invariant FirstSome(Answers(t, n, a, AggregateCandidates(t, n, ignoring))) ==
          FirstSome(Answers(t, n, a, Without(children[i..], ignoring) + fallback))
      {
        var child := children[i];
        SkipOrAsk(t, n, a, children, i, ignoring, fallback);
        if Some(child) != ignoring {
          assert child in Candidates(t, n, ignoring);
          CandidateDecreases(t, n, ignoring, child);
          r := HandleActivity(child, a, Some(n));
          if r.Some? {
            return;
          }
        }
      }
      assert children[|children|..] == [];
      r := BaseHandle(n, a, ignoring);
    }

    /**
      `StackingActivityHandlerAggregate.handle`: ask the stacked handler
      first (unless it is `ignoring`) with `ignoring` = `n`; if it returns
      nothing, fall back to `super`.
    */
    method StackingHandle(n: Id, a: Activity, ignoring: Option<Id>) returns (r: Option<Id>)
      requires WellFormed(Snapshot()) && n in handlers && n in live && handlers[n].kind == Stacking
      ensures r == FirstSome(Answers(Snapshot(), n, a, Candidates(Snapshot(), n, ignoring)))
      decreases Level(Snapshot(), n, ignoring), Height(Snapshot(), n, ignoring), 2
    {
      var t := Snapshot();
      ghost var rest := AggregateCandidates(t, n, ignoring);
      AnswersAppend(t, n, a, StackedCandidate(t, n, ignoring), rest);
      FirstSomeAppend(Answers(t, n, a, StackedCandidate(t, n, ignoring)), Answers(t, n, a, rest));
      var stacked := StackedHandler(t, n);
      if stacked.Some? && stacked != ignoring {
        assert Candidates(t, n, ignoring) == [stacked.value] + rest;
        CandidateDecreases(t, n, ignoring, stacked.value);
        r := HandleActivity(stacked.value, a, Some(n));
        assert Answers(t, n, a, [stacked.value]) == [r];
        if r.Some? {
          return;
        }
      }
      r := AggregateHandle(n, a, ignoring);
    }

    /** `ancestors`: the parents of `n`, closest first, collected by the iterator. */
    method Ancestors(n: Id) returns (s: seq<Id>)
      requires Chains.Rooted(ParentMap(Snapshot()))
      ensures s == Chains.Chain(ParentMap(Snapshot()), n)
    {
      s := Chains.CollectParents(ParentMap(Snapshot()), n);
    }
  }
}
