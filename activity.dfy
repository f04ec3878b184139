/**
  The synchronous activity-handler tree: `ActivityHandler` (a handler that
  falls back to its parent), `ActivityHandlerAggregate` (ordered children
  tried before the parent) and `StackingActivityHandlerAggregate` (a single
  stacked slot tried before the children).

  Handlers live in an arena keyed by object identity. A `handle` call is
  modelled by `Handle`, which returns the handler that took the activity (or
  `None` for `nil`) together with the trace of every `handle` call made, in
  order, with the `ignoring` argument each call received.
*/
module ActivityHandlers {
  import opened Common
  import opened Storage
  import Chains

  /** Which class a handler is an instance of. */
  datatype Kind = Plain | Aggregate | Stacking

  /**
    One handler object. `handles` is what a subclass override accepts before
    deferring to `super` (the base classes accept nothing: `handles == {}`).
  */
  datatype Handler = Handler(
    kind: Kind,
    parent: Option<Id>,
    children: seq<ObjectStorage>,
    stacked: Option<ObjectStorage>,
    handles: set<Activity>)

  /** The handler objects, and which of them still exist. */
  datatype Arena = Arena(handlers: map<Id, Handler>, live: set<Id>)

  /** One `handle(activity:ignoring:)` call: who was asked and what it was told to ignore. */
  datatype Request = Request(handler: Id, ignoring: Option<Id>)

  /** The value returned by a `handle` call, with the calls it made. */
  datatype Outcome = Outcome(handler: Option<Id>, asked: seq<Request>)

  // ---------------------------------------------------------------------------
  // Reading the arena

  /** `parent`: a weak reference, `nil` once the parent is freed. */
  function Parent(t: Arena, n: Id): Option<Id>
    requires n in t.handlers
  {
    match t.handlers[n].parent
    case None => None
    case Some(p) => if p in t.live then Some(p) else None
  }

  /** `compactMap { $0.object }` */
  function LiveObjects(entries: seq<ObjectStorage>, live: set<Id>): seq<Id>
  {
    if entries == [] then []
    else match Object(entries[0], live)
      case Some(o) => [o] + LiveObjects(entries[1..], live)
      case None => LiveObjects(entries[1..], live)
  }

  /** `children` */
  function Children(t: Arena, n: Id): seq<Id>
    requires n in t.handlers
  {
    LiveObjects(t.handlers[n].children, t.live)
  }

  /** `stackedHandler` */
  function StackedHandler(t: Arena, n: Id): Option<Id>
    requires n in t.handlers
  {
    match t.handlers[n].stacked
    case None => None
    case Some(s) => Object(s, t.live)
  }

  /** The parent every handler reads right now. */
  function ParentMap(t: Arena): map<Id, Id> {
    map n | n in t.handlers && Parent(t, n).Some? :: Parent(t, n).value
  }

  /** `xs` without the element `ignoring` (`where child !== ignoring`). */
  function Without(xs: seq<Id>, ignoring: Option<Id>): seq<Id>
  {
    if xs == [] then []
    else if Some(xs[0]) == ignoring then Without(xs[1..], ignoring)
    else [xs[0]] + Without(xs[1..], ignoring)
  }

  /** Membership in `Without`: exactly the elements of `xs` other than `ignoring`. */
  lemma {:induction false} WithoutMembers(xs: seq<Id>, ignoring: Option<Id>)
    ensures forall c :: c in Without(xs, ignoring) <==> c in xs && Some(c) != ignoring
    ensures |Without(xs, ignoring)| <= |xs|
  {
    if xs != [] {
      WithoutMembers(xs[1..], ignoring);
      assert xs == [xs[0]] + xs[1..];
    }
  }

  /** One step of a loop over `xs` that skips `ignoring`. */
  lemma WithoutStep(xs: seq<Id>, i: nat, ignoring: Option<Id>)
    requires i < |xs|
    ensures Without(xs[i..], ignoring) ==
      (if Some(xs[i]) == ignoring then [] else [xs[i]]) + Without(xs[i + 1..], ignoring)
  {
    assert xs[i..][1..] == xs[i + 1..];
  }

  /** Membership in `LiveObjects`: exactly the objects some entry reads. */
  lemma {:induction false} LiveObjectsMembers(entries: seq<ObjectStorage>, live: set<Id>)
    ensures forall o :: o in LiveObjects(entries, live) <==> exists e :: e in entries && Object(e, live) == Some(o)
  {
    if entries != [] {
      LiveObjectsMembers(entries[1..], live);
      assert entries == [entries[0]] + entries[1..];
      forall o | (exists e :: e in entries && Object(e, live) == Some(o))
        ensures o in LiveObjects(entries, live)
      {
        var e :| e in entries && Object(e, live) == Some(o);
        if e != entries[0] {
          assert e in entries[1..];
        }
      }
    }
  }

  /** `children` after `_children.append(entry)`. */
  lemma {:induction false} LiveObjectsAppend(entries: seq<ObjectStorage>, e: ObjectStorage, live: set<Id>)
    ensures LiveObjects(entries + [e], live) ==
      LiveObjects(entries, live) + (match Object(e, live) case Some(o) => [o] case None => [])
  {
    if entries == [] {
      assert [e][1..] == [];
    } else {
      LiveObjectsAppend(entries[1..], e, live);
      assert (entries + [e])[1..] == entries[1..] + [e];
    }
  }

  // ---------------------------------------------------------------------------
  // Well-formedness: what termination of `handle` rests on

  /**
    The handlers a live holder reads (its children and its stacked handler)
    exist, are live, and name the holder as their parent.
  */
  ghost predicate HolderWellFormed(t: Arena, n: Id)
    requires n in t.handlers
  {
    && (forall c :: c in Children(t, n) ==> c in t.handlers && c in t.live && t.handlers[c].parent == Some(n))
    && (StackedHandler(t, n).Some? ==>
          var s := StackedHandler(t, n).value;
          s in t.handlers && s in t.live && t.handlers[s].parent == Some(n))
  }

  /** A tree: holders agree with parents, parents exist, and no parent chain loops. */
  ghost predicate WellFormed(t: Arena) {
    && (forall n :: n in t.handlers && n in t.live ==> HolderWellFormed(t, n))
    && (forall n :: n in t.handlers && Parent(t, n).Some? ==> Parent(t, n).value in t.handlers)
    && Chains.Rooted(ParentMap(t))
  }

  lemma ParentMapAt(t: Arena, n: Id)
    requires n in t.handlers
    ensures n in ParentMap(t) <==> Parent(t, n).Some?
    ensures n in ParentMap(t) ==> ParentMap(t)[n] == Parent(t, n).value
  {
  }

  // ---------------------------------------------------------------------------
  // Who a handler asks, in order

  /** `StackingActivityHandlerAggregate.handle`: the stacked handler unless it is `ignoring`. */
  function StackedCandidate(t: Arena, n: Id, ignoring: Option<Id>): seq<Id>
    requires n in t.handlers
  {
    if t.handlers[n].kind == Stacking && StackedHandler(t, n).Some? && StackedHandler(t, n) != ignoring
    then [StackedHandler(t, n).value] else []
  }

  /** `ActivityHandlerAggregate.handle`: `for child in children where child !== ignoring`. */
  function ChildCandidates(t: Arena, n: Id, ignoring: Option<Id>): seq<Id>
    requires n in t.handlers
  {
    if t.handlers[n].kind == Plain then [] else Without(Children(t, n), ignoring)
  }

  /** `ActivityHandler.handle`: `guard parent !== ignoring`, then `parent?.handle(...)`. */
  function ParentCandidate(t: Arena, n: Id, ignoring: Option<Id>): seq<Id>
    requires n in t.handlers
  {
    if Parent(t, n).Some? && Parent(t, n) != ignoring then [Parent(t, n).value] else []
  }

  /** What `ActivityHandlerAggregate.handle` asks: children, then (through `super`) the parent. */
  function AggregateCandidates(t: Arena, n: Id, ignoring: Option<Id>): seq<Id>
    requires n in t.handlers
  {
    ChildCandidates(t, n, ignoring) + ParentCandidate(t, n, ignoring)
  }

  /** Everything `n` asks, in order; each is asked with `ignoring` = `n`. */
  function Candidates(t: Arena, n: Id, ignoring: Option<Id>): seq<Id>
    requires n in t.handlers
  {
    StackedCandidate(t, n, ignoring) + AggregateCandidates(t, n, ignoring)
  }

  ghost predicate IsSuffix(s: seq<Id>, full: seq<Id>) {
    |s| <= |full| && s == full[|full| - |s|..]
  }

  // ---------------------------------------------------------------------------
  // Termination measure

  /** A call that came down from the parent: `ignoring` is the caller's own parent. */
  ghost predicate IsDown(t: Arena, n: Id, ignoring: Option<Id>)
    requires n in t.handlers
  {
    Parent(t, n).Some? && ignoring == Parent(t, n)
  }

  ghost function Level(t: Arena, n: Id, ignoring: Option<Id>): nat
    requires WellFormed(t) && n in t.handlers
  {
    if IsDown(t, n, ignoring) then 0 else 1 + Chains.Rank(ParentMap(t), n)
  }

  ghost function Height(t: Arena, n: Id, ignoring: Option<Id>): nat
    requires WellFormed(t) && n in t.handlers
  {
    if IsDown(t, n, ignoring) then |ParentMap(t)| - Chains.Rank(ParentMap(t), n) else 0
  }

  /**
    Every candidate exists, is live, and is asked with a smaller measure:
    children and the stacked handler are asked "down" (their parent is the
    asker, which they then ignore), and the parent is one step closer to the root.
  */
  lemma CandidateDecreases(t: Arena, n: Id, ignoring: Option<Id>, c: Id)
    requires WellFormed(t) && n in t.handlers && n in t.live
    requires c in Candidates(t, n, ignoring)
    ensures c in t.handlers && c in t.live
    ensures Level(t, c, Some(n)) < Level(t, n, ignoring) ||
      (Level(t, c, Some(n)) == Level(t, n, ignoring) && Height(t, c, Some(n)) < Height(t, n, ignoring))
  {
    var pm := ParentMap(t);
    assert HolderWellFormed(t, n);
    WithoutMembers(Children(t, n), ignoring);
    if c in ParentCandidate(t, n, ignoring) {
      ParentMapAt(t, n);
      Chains.ParentRank(pm, n);
      ParentMapAt(t, c);
    } else {
      assert c in Children(t, n) || StackedHandler(t, n) == Some(c);
      assert t.handlers[c].parent == Some(n) && c in t.live;
      ParentMapAt(t, c);
      Chains.ParentRank(pm, c);
    }
  }

  // ---------------------------------------------------------------------------
  // handle(activity:ignoring:)

  ghost predicate Accepts(t: Arena, a: Activity, h: Id) {
    h in t.handlers && a in t.handlers[h].handles
  }

  /**
    A trace that ends at the winner: no handler asked before the last one
    accepted, a returned handler is the last one asked and accepted, and an
    unhandled outcome means nobody accepted.
  */
  ghost predicate Settled(t: Arena, a: Activity, o: Outcome) {
    && (forall i :: 0 <= i < |o.asked| - 1 ==> !Accepts(t, a, o.asked[i].handler))
    && (o.handler.Some? ==>
          o.asked != [] && o.asked[|o.asked| - 1].handler == o.handler.value && Accepts(t, a, o.handler.value))
    && (o.handler.None? ==> forall i :: 0 <= i < |o.asked| ==> !Accepts(t, a, o.asked[i].handler))
  }

  /** `handle(activity: a, ignoring: ignoring)` sent to handler `n`. */
  function Handle(t: Arena, n: Id, a: Activity, ignoring: Option<Id>): (o: Outcome)
    requires WellFormed(t) && n in t.handlers && n in t.live
    ensures o.asked != [] && o.asked[0] == Request(n, ignoring)
    ensures Settled(t, a, o)
    decreases Level(t, n, ignoring), Height(t, n, ignoring), 1, 0
  {
    if a in t.handlers[n].handles then Outcome(Some(n), [Request(n, ignoring)])
    else
      var rest := Ask(t, n, ignoring, a, Candidates(t, n, ignoring));
      Outcome(rest.handler, [Request(n, ignoring)] + rest.asked)
  }

  /** Asks `cands` (the rest of `n`'s candidates) in order, stopping at the first handler returned. */
  function Ask(t: Arena, n: Id, ignoring: Option<Id>, a: Activity, cands: seq<Id>): (o: Outcome)
    requires WellFormed(t) && n in t.handlers && n in t.live
    requires IsSuffix(cands, Candidates(t, n, ignoring))
    ensures o.asked == [] <==> cands == []
    ensures cands != [] ==> o.asked[0] == Request(cands[0], Some(n))
    ensures Settled(t, a, o)
    decreases Level(t, n, ignoring), Height(t, n, ignoring), 0, |cands|
  {
    if cands == [] then Outcome(None, [])
    else
      SuffixStep(cands, Candidates(t, n, ignoring));
      CandidateDecreases(t, n, ignoring, cands[0]);
      var first := Handle(t, cands[0], a, Some(n));
      if first.handler.Some? then first
      else
        var rest := Ask(t, n, ignoring, a, cands[1..]);
        SettledAfterFailure(t, a, first, rest);
        Outcome(rest.handler, first.asked + rest.asked)
  }

  /** The head of a suffix is a member, and its tail is again a suffix. */
  lemma SuffixStep(cands: seq<Id>, full: seq<Id>)
    requires IsSuffix(cands, full) && cands != []
    ensures cands[0] in full && IsSuffix(cands[1..], full)
  {
    assert cands[0] == full[|full| - |cands|];
    assert cands[1..] == full[|full| - |cands| + 1..];
  }

  /** A failed sub-call followed by the rest of the search is still a settled trace. */
  lemma SettledAfterFailure(t: Arena, a: Activity, first: Outcome, rest: Outcome)
    requires Settled(t, a, first) && first.handler.None?
    requires Settled(t, a, rest)
    ensures Settled(t, a, Outcome(rest.handler, first.asked + rest.asked))
    ensures first.asked != [] ==> (first.asked + rest.asked)[0] == first.asked[0]
  {
    var s := first.asked + rest.asked;
    assert forall i :: 0 <= i < |first.asked| ==> s[i] == first.asked[i];
    assert forall i :: |first.asked| <= i < |s| ==> s[i] == rest.asked[i - |first.asked|];
  }

  // ---------------------------------------------------------------------------
  // What handle promises

  /** What `c` returns when `asker` asks it (`nil` for a handler that does not exist). */
  ghost function Answer(t: Arena, asker: Id, a: Activity, c: Id): Option<Id> {
    if WellFormed(t) && c in t.handlers && c in t.live then Handle(t, c, a, Some(asker)).handler else None
  }

  /** Whether `c`, asked by `asker`, returns `nil`. */
  ghost predicate Declines(t: Arena, asker: Id, a: Activity, c: Id) {
    Answer(t, asker, a, c).None?
  }

  /** Who a handler asks: the stacked handler, the children, the parent, never `ignoring`. */
  lemma CandidatesMembers(t: Arena, n: Id, ignoring: Option<Id>)
    requires n in t.handlers
    ensures forall c :: c in Candidates(t, n, ignoring) <==>
      && Some(c) != ignoring
      && ((t.handlers[n].kind == Stacking && StackedHandler(t, n) == Some(c))
          || (t.handlers[n].kind != Plain && c in Children(t, n))
          || Parent(t, n) == Some(c))
    ensures ignoring.Some? ==> ignoring.value !in Candidates(t, n, ignoring)
  {
    WithoutMembers(Children(t, n), ignoring);
  }

  /** What each of `cands` returns when `n` asks it. */
  ghost function Answers(t: Arena, n: Id, a: Activity, cands: seq<Id>): seq<Option<Id>> {
    seq(|cands|, i requires 0 <= i < |cands| => Answer(t, n, a, cands[i]))
  }

  /**
    The search over `cands` returns the first non-`nil` answer among them:
    a returned handler is what some candidate returned with every candidate
    before it returning `nil`, and the search returns `nil` exactly when
    every candidate does.
  */
  lemma {:induction false} AskIsFirstSuccess(t: Arena, n: Id, ignoring: Option<Id>, a: Activity, cands: seq<Id>)
    requires WellFormed(t) && n in t.handlers && n in t.live
    requires IsSuffix(cands, Candidates(t, n, ignoring))
    ensures Ask(t, n, ignoring, a, cands).handler == FirstSome(Answers(t, n, a, cands))
    decreases |cands|
  {
    if cands != [] {
      var tail := cands[1..];
      SuffixStep(cands, Candidates(t, n, ignoring));
      CandidateDecreases(t, n, ignoring, cands[0]);
      AskIsFirstSuccess(t, n, ignoring, a, tail);
      AskUnfold(t, n, ignoring, a, cands);
      AnswersCons(t, n, a, cands);
      FirstSomeCons(Answers(t, n, a, cands));
    }
  }

  lemma AnswersCons(t: Arena, n: Id, a: Activity, cands: seq<Id>)
    requires cands != []
    ensures Answers(t, n, a, cands)[0] == Answer(t, n, a, cands[0])
    ensures Answers(t, n, a, cands)[1..] == Answers(t, n, a, cands[1..])
  {
  }

  /** One step of the search: the first candidate's answer, or the rest of the search after it. */
  lemma AskUnfold(t: Arena, n: Id, ignoring: Option<Id>, a: Activity, cands: seq<Id>)
    requires WellFormed(t) && n in t.handlers && n in t.live
    requires IsSuffix(cands, Candidates(t, n, ignoring)) && cands != []
    requires cands[0] in t.handlers && cands[0] in t.live && IsSuffix(cands[1..], Candidates(t, n, ignoring))
    ensures var first := Handle(t, cands[0], a, Some(n));
      Ask(t, n, ignoring, a, cands).handler ==
        if first.handler.Some? then first.handler else Ask(t, n, ignoring, a, cands[1..]).handler
  {
  }

  /**
    `ActivityHandler.handle` (a handler with no override): `nil` without a
    parent, `nil` without asking when the parent is `ignoring`, and otherwise
    exactly what the parent returns when asked with `ignoring` = self.
  */
  lemma PlainHandle(t: Arena, n: Id, a: Activity, ignoring: Option<Id>)
    requires WellFormed(t) && n in t.handlers && n in t.live
    requires t.handlers[n].kind == Plain && a !in t.handlers[n].handles
    ensures Parent(t, n).None? ==> Handle(t, n, a, ignoring) == Outcome(None, [Request(n, ignoring)])
    ensures Parent(t, n).Some? && Parent(t, n) == ignoring ==>
      Handle(t, n, a, ignoring) == Outcome(None, [Request(n, ignoring)])
    ensures Parent(t, n).Some? && Parent(t, n) != ignoring ==>
      var p := Parent(t, n).value;
      && p in t.handlers && p in t.live
      && var up := Handle(t, p, a, Some(n));
         Handle(t, n, a, ignoring) == Outcome(up.handler, [Request(n, ignoring)] + up.asked)
  {
    if Parent(t, n).Some? && Parent(t, n) != ignoring {
      var p := Parent(t, n).value;
      assert Candidates(t, n, ignoring) == [p];
      CandidateDecreases(t, n, ignoring, p);
      var up := Handle(t, p, a, Some(n));
      assert [p][1..] == [];
      assert up.asked + [] == up.asked;
    }
  }

  /**
    A returned handler is one that accepted the activity, so a handler that
    accepts nothing itself (the base classes) never returns itself.
  */
  lemma ReturnedHandlerAccepted(t: Arena, n: Id, a: Activity, ignoring: Option<Id>)
    requires WellFormed(t) && n in t.handlers && n in t.live
    ensures Handle(t, n, a, ignoring).handler.Some? ==> Accepts(t, a, Handle(t, n, a, ignoring).handler.value)
    ensures t.handlers[n].handles == {} ==> Handle(t, n, a, ignoring).handler != Some(n)
  {
  }

  /**
    `StackingActivityHandlerAggregate.handle`: a stacked handler other than
    `ignoring` is asked first, with `ignoring` = self; when it returns a
    handler nothing else is asked, and otherwise (or with no stacked handler,
    or the stacked handler being `ignoring`) the result is that of the
    aggregate search with the original `ignoring`.
  */
  lemma StackedHandlerFirst(t: Arena, n: Id, a: Activity, ignoring: Option<Id>)
    requires WellFormed(t) && n in t.handlers && n in t.live
    requires t.handlers[n].kind == Stacking && a !in t.handlers[n].handles
    ensures IsSuffix(AggregateCandidates(t, n, ignoring), Candidates(t, n, ignoring))
    ensures StackedHandler(t, n).Some? && StackedHandler(t, n) != ignoring ==>
      var s := StackedHandler(t, n).value;
      && s in t.handlers && s in t.live
      && var first := Handle(t, s, a, Some(n));
         && (first.handler.Some? ==> Handle(t, n, a, ignoring) == Outcome(first.handler, [Request(n, ignoring)] + first.asked))
         && (first.handler.None? ==>
               Handle(t, n, a, ignoring).handler == Ask(t, n, ignoring, a, AggregateCandidates(t, n, ignoring)).handler)
    ensures StackedHandler(t, n).None? || StackedHandler(t, n) == ignoring ==>
      Handle(t, n, a, ignoring) ==
        var rest := Ask(t, n, ignoring, a, AggregateCandidates(t, n, ignoring));
        Outcome(rest.handler, [Request(n, ignoring)] + rest.asked)
  {
    var full := Candidates(t, n, ignoring);
    var agg := AggregateCandidates(t, n, ignoring);
    assert agg == full[|full| - |agg|..];
    if StackedHandler(t, n).Some? && StackedHandler(t, n) != ignoring {
      var s := StackedHandler(t, n).value;
      assert full[0] == s && full[1..] == agg;
      CandidateDecreases(t, n, ignoring, s);
    }
  }

  /**
    `ActivityHandlerAggregate.handle`: when no earlier candidate returns a
    handler, the parent fallback decides with the original `ignoring` —
    `nil` when there is no parent or the parent is `ignoring`.
  */
  lemma ChildrenThenParent(t: Arena, n: Id, a: Activity, ignoring: Option<Id>)
    requires WellFormed(t) && n in t.handlers && n in t.live
    requires a !in t.handlers[n].handles
    requires forall c :: c in StackedCandidate(t, n, ignoring) + ChildCandidates(t, n, ignoring) ==> Declines(t, n, a, c)
    ensures Parent(t, n).Some? && Parent(t, n) != ignoring ==>
      var p := Parent(t, n).value;
      p in t.handlers && p in t.live && Handle(t, n, a, ignoring).handler == Handle(t, p, a, Some(n)).handler
    ensures Parent(t, n).None? || Parent(t, n) == ignoring ==> Handle(t, n, a, ignoring).handler.None?
  {
    var before := StackedCandidate(t, n, ignoring) + ChildCandidates(t, n, ignoring);
    var after := ParentCandidate(t, n, ignoring);
    HandleIsFirstAnswer(t, n, a, ignoring);
    assert Candidates(t, n, ignoring) == before + after;
    AnswersAppend(t, n, a, before, after);
    FirstSomeAppend(Answers(t, n, a, before), Answers(t, n, a, after));
    AllDecline(t, n, a, before);
    assert Handle(t, n, a, ignoring).handler == FirstSome(Answers(t, n, a, after));
    if after != [] {
      var p := Parent(t, n).value;
      CandidateDecreases(t, n, ignoring, p);
      assert Answers(t, n, a, after) == [Answer(t, n, a, p)];
      assert FirstSome([Answer(t, n, a, p)])== Answer(t, n, a, p);
    }
  }

  /** A handler that does not accept the activity itself returns the first answer among its candidates. */
  lemma HandleIsFirstAnswer(t: Arena, n: Id, a: Activity, ignoring: Option<Id>)
    requires WellFormed(t) && n in t.handlers && n in t.live
    requires a !in t.handlers[n].handles
    ensures Handle(t, n, a, ignoring).handler == FirstSome(Answers(t, n, a, Candidates(t, n, ignoring)))
  {
    var full := Candidates(t, n, ignoring);
    assert IsSuffix(full, full);
    AskIsFirstSuccess(t, n, ignoring, a, full);
  }

  /** Answering a concatenation of candidate lists. */
  lemma AnswersAppend(t: Arena, n: Id, a: Activity, xs: seq<Id>, ys: seq<Id>)
    ensures Answers(t, n, a, xs + ys) == Answers(t, n, a, xs) + Answers(t, n, a, ys)
  {
  }

  /**
    One turn of the loop over the children: a child that is `ignoring` or
    answers `nil` passes the search on to the rest; any other child's answer
    is the result.
  */
  lemma SkipOrAsk(t: Arena, n: Id, a: Activity, xs: seq<Id>, i: nat, ignoring: Option<Id>, rest: seq<Id>)
    requires i < |xs|
    ensures FirstSome(Answers(t, n, a, Without(xs[i..], ignoring) + rest)) ==
      if Some(xs[i]) == ignoring || Answer(t, n, a, xs[i]).None?
      then FirstSome(Answers(t, n, a, Without(xs[i + 1..], ignoring) + rest))
      else Answer(t, n, a, xs[i])
  {
    WithoutStep(xs, i, ignoring);
    var later := Without(xs[i + 1..], ignoring) + rest;
    if Some(xs[i]) != ignoring {
      assert Without(xs[i..], ignoring) + rest == [xs[i]] + later;
      AnswersAppend(t, n, a, [xs[i]], later);
      FirstSomeAppend([Answer(t, n, a, xs[i])], Answers(t, n, a, later));
    } else {
      assert Without(xs[i..], ignoring) + rest == later;
    }
  }

  /** When every candidate declines, so does the search. */
  lemma AllDecline(t: Arena, n: Id, a: Activity, cands: seq<Id>)
    requires forall c :: c in cands ==> Declines(t, n, a, c)
    ensures FirstSome(Answers(t, n, a, cands)).None?
  {
    var answers := Answers(t, n, a, cands);
    forall i | 0 <= i < |answers| ensures answers[i].None? {
      assert cands[i] in cands;
    }
  }

  /** A handler with nothing stacked, no children and no parent returns `nil` after asking no one. */
  lemma EmptyHandlerUnhandled(t: Arena, n: Id, a: Activity, ignoring: Option<Id>)
    requires WellFormed(t) && n in t.handlers && n in t.live
    requires a !in t.handlers[n].handles
    requires StackedHandler(t, n).None? && Children(t, n) == [] && Parent(t, n).None?
    ensures Handle(t, n, a, ignoring) == Outcome(None, [Request(n, ignoring)])
  {
    assert Candidates(t, n, ignoring) == [];
  }

  // ---------------------------------------------------------------------------
  // children and weak storage

  /** `children` holds exactly the objects still read from the stored entries. */
  lemma ChildrenMembers(t: Arena, n: Id)
    requires n in t.handlers
    ensures forall c :: c in Children(t, n) <==> Strong(c) in t.handlers[n].children || (Weak(c) in t.handlers[n].children && c in t.live)
  {
    LiveObjectsMembers(t.handlers[n].children, t.live);
    forall c | c in Children(t, n)
      ensures Strong(c) in t.handlers[n].children || (Weak(c) in t.handlers[n].children && c in t.live)
    {
      var e :| e in t.handlers[n].children && Object(e, t.live) == Some(c);
    }
    forall c | Strong(c) in t.handlers[n].children || (Weak(c) in t.handlers[n].children && c in t.live)
      ensures c in Children(t, n)
    {
      if Strong(c) in t.handlers[n].children {
        assert Object(Strong(c), t.live) == Some(c);
      } else {
        assert Object(Weak(c), t.live) == Some(c);
      }
    }
  }

  /** While every stored object is held strongly or still live, `children` is the stored objects in append order. */
  lemma {:induction false} ChildrenInOrder(entries: seq<ObjectStorage>, live: set<Id>)
    requires forall i :: 0 <= i < |entries| ==> entries[i].Strong? || Stored(entries[i]) in live
    ensures LiveObjects(entries, live) == seq(|entries|, i requires 0 <= i < |entries| => Stored(entries[i]))
  {
    if entries != [] {
      ChildrenInOrder(entries[1..], live);
    }
  }

  /**
    Once `o` is freed, `o` stays among the children only if some entry holds
    it strongly: a weakly held child disappears from `children`.
  */
  lemma ReleasedChild(t: Arena, n: Id, o: Id)
    requires n in t.handlers
    ensures o in Children(Arena(t.handlers, t.live - {o}), n) <==> Strong(o) in t.handlers[n].children
  {
    ChildrenMembers(Arena(t.handlers, t.live - {o}), n);
  }

  /** A strongly stacked handler survives its release; a weakly stacked one reads `nil`. */
  lemma ReleasedStackedHandler(t: Arena, n: Id, o: Id)
    requires n in t.handlers && t.handlers[n].stacked.Some? && Stored(t.handlers[n].stacked.value) == o
    ensures t.handlers[n].stacked.value.Strong? ==> StackedHandler(Arena(t.handlers, t.live - {o}), n) == Some(o)
    ensures t.handlers[n].stacked.value.Weak? ==> StackedHandler(Arena(t.handlers, t.live - {o}), n).None?
  {
  }

  /** `parent` is weak: once the parent is freed it reads `nil`. */
  lemma ReleasedParent(t: Arena, n: Id, p: Id)
    requires n in t.handlers && t.handlers[n].parent == Some(p)
    ensures p in t.live ==> Parent(t, n) == Some(p)
    ensures Parent(Arena(t.handlers, t.live - {p}), n).None?
  {
  }

  // ---------------------------------------------------------------------------
  // The mutators, as functions from the arena before to the arena after

  /** Entries kept by `removeAll(where: { $0.object === child })`. */
  function Kept(entries: seq<ObjectStorage>, child: Id, live: set<Id>): seq<ObjectStorage>
  {
    if entries == [] then []
    else if Object(entries[0], live) == Some(child) then Kept(entries[1..], child, live)
    else [entries[0]] + Kept(entries[1..], child, live)
  }

  /** `removeAll` keeps the other entries in order and removes something exactly when the child is read. */
  lemma {:induction false} KeptFacts(entries: seq<ObjectStorage>, child: Id, live: set<Id>)
    ensures LiveObjects(Kept(entries, child, live), live) == Without(LiveObjects(entries, live), Some(child))
    ensures |Kept(entries, child, live)| == |entries| <==> child !in LiveObjects(entries, live)
    ensures child !in LiveObjects(entries, live) ==> Kept(entries, child, live) == entries
    ensures |Kept(entries, child, live)| <= |entries|
  {
    if entries != [] {
      KeptFacts(entries[1..], child, live);
      assert entries == [entries[0]] + entries[1..];
      var rest := Kept(entries[1..], child, live);
      if Object(entries[0], live) != Some(child) {
        assert ([entries[0]] + rest)[1..] == rest;
      }
    }
  }

  function SetParent(handlers: map<Id, Handler>, c: Id, p: Option<Id>): map<Id, Handler>
    requires c in handlers
  {
    handlers[c := handlers[c].(parent := p)]
  }

  /** `n.append(c, heldOnTo: option)`: one entry at the end, then `c.parent = n`. */
  function Appended(t: Arena, n: Id, c: Id, option: StorageOption): Arena
    requires n in t.handlers && c in t.handlers
  {
    var h := t.handlers[n];
    var hs := t.handlers[n := h.(children := h.children + [Store(option, c)])];
    Arena(SetParent(hs, c, Some(n)), t.live)
  }

  /** `n.remove(c)`: drop every entry reading `c`; clear `c.parent` only if one was dropped. */
  function Removed(t: Arena, n: Id, c: Id): Arena
    requires n in t.handlers && c in t.handlers
  {
    var h := t.handlers[n];
    var kept := Kept(h.children, c, t.live);
    var hs := t.handlers[n := h.(children := kept)];
    if |kept| != |h.children| then Arena(SetParent(hs, c, None), t.live) else Arena(hs, t.live)
  }

  /** `n.removeStackedHandler()`: clear the stacked handler's parent, then empty the slot. */
  function StackedRemoved(t: Arena, n: Id): Arena
    requires n in t.handlers
    requires StackedHandler(t, n).Some? ==> StackedHandler(t, n).value in t.handlers
  {
    var hs := match StackedHandler(t, n)
      case Some(s) => SetParent(t.handlers, s, None)
      case None => t.handlers;
    Arena(hs[n := hs[n].(stacked := None)], t.live)
  }

  /** `n.stack(activityHandler: s, heldOnTo: option)`: remove the old one, fill the slot, set `s.parent = n`. */
  function Stacked(t: Arena, n: Id, s: Id, option: StorageOption): Arena
    requires n in t.handlers && s in t.handlers
    requires StackedHandler(t, n).Some? ==> StackedHandler(t, n).value in t.handlers
  {
    var r := StackedRemoved(t, n);
    var hs := r.handlers[n := r.handlers[n].(stacked := Some(Store(option, s)))];
    Arena(SetParent(hs, s, Some(n)), t.live)
  }

  /**
    `append` adds exactly one entry, at the end; the live child is now the
    last of `children`, and it reads its new parent.
  */
  lemma AppendedFacts(t: Arena, n: Id, c: Id, option: StorageOption)
    requires n in t.handlers && c in t.handlers && c in t.live
    ensures var r := Appended(t, n, c, option);
      && n in r.handlers && c in r.handlers
      && r.handlers[n].children == t.handlers[n].children + [Store(option, c)]
      && Children(r, n) == Children(t, n) + [c]
      && r.handlers[c].parent == Some(n)
      && (n in t.live ==> Parent(r, c) == Some(n))
      && r.live == t.live
      && (n != c ==> r.handlers[n] == t.handlers[n].(children := t.handlers[n].children + [Store(option, c)]))
      && (n != c ==> r.handlers[c] == t.handlers[c].(parent := Some(n)))
      && (n == c ==> r.handlers[n] == t.handlers[n].(children := t.handlers[n].children + [Store(option, c)], parent := Some(n)))
      && forall m :: m in t.handlers && m != n && m != c ==> m in r.handlers && r.handlers[m] == t.handlers[m]
  {
    var h := t.handlers[n];
    var r := Appended(t, n, c, option);
    LiveObjectsAppend(h.children, Store(option, c), t.live);
    assert Object(Store(option, c), t.live) == Some(c);
  }

  /**
    `remove` drops every entry whose live object is `c` and keeps the others
    in order; it clears `c.parent` exactly when something was dropped, so for
    a handler that is not a child it changes nothing.
  */
  lemma RemovedFacts(t: Arena, n: Id, c: Id)
    requires n in t.handlers && c in t.handlers
    ensures var r := Removed(t, n, c);
      && n in r.handlers && c in r.handlers
      && Children(r, n) == Without(Children(t, n), Some(c))
      && c !in Children(r, n)
      && (c in Children(t, n) ==> r.handlers[c].parent.None?)
      && (c !in Children(t, n) ==> r == t)
      && r.live == t.live
      && (n != c ==> r.handlers[n] == t.handlers[n].(children := r.handlers[n].children))
      && (n != c ==> r.handlers[c] == t.handlers[c].(parent := r.handlers[c].parent))
      && (n == c ==> r.handlers[n] == t.handlers[n].(children := r.handlers[n].children, parent := r.handlers[n].parent))
      && forall m :: m in t.handlers && m != n && m != c ==> m in r.handlers && r.handlers[m] == t.handlers[m]
  {
    KeptFacts(t.handlers[n].children, c, t.live);
    WithoutMembers(Children(t, n), Some(c));
    var h := t.handlers[n];
    if c !in Children(t, n) {
      assert t.handlers[n := h] == t.handlers;
    }
  }

  /**
    `removeStackedHandler` empties the slot and leaves the removed handler
    without a parent; nothing else changes.
  */
  lemma StackedRemovedFacts(t: Arena, n: Id)
    requires n in t.handlers
    requires StackedHandler(t, n).Some? ==> StackedHandler(t, n).value in t.handlers
    ensures var r := StackedRemoved(t, n);
      && n in r.handlers && StackedHandler(r, n).None?
      && (StackedHandler(t, n).Some? ==> r.handlers[StackedHandler(t, n).value].parent.None?)
      && r.handlers[n].children == t.handlers[n].children
      && r.live == t.live && r.handlers.Keys == t.handlers.Keys
      && forall m :: m in t.handlers && m != n && Some(m) != StackedHandler(t, n) ==> r.handlers[m] == t.handlers[m]
  {
  }

  /**
    After `stack(s, …)` the slot reads `s`, `s` reads its new parent, and a
    different handler that was stacked before has lost its parent; nothing
    else changes.
  */
  lemma StackedFacts(t: Arena, n: Id, s: Id, option: StorageOption)
    requires n in t.handlers && s in t.handlers && s in t.live
    requires StackedHandler(t, n).Some? ==> StackedHandler(t, n).value in t.handlers
    ensures var r := Stacked(t, n, s, option);
      && n in r.handlers && s in r.handlers
      && StackedHandler(r, n) == Some(s)
      && r.handlers[s].parent == Some(n)
      && (StackedHandler(t, n).Some? && StackedHandler(t, n).value != s ==>
            r.handlers[StackedHandler(t, n).value].parent.None?)
      && r.handlers[n].children == t.handlers[n].children
      && r.live == t.live && r.handlers.Keys == t.handlers.Keys
      && forall m :: m in t.handlers && m != n && m != s && Some(m) != StackedHandler(t, n) ==> r.handlers[m] == t.handlers[m]
  {
  }
}
