/**
  The protocol revision: `traverseTreeToHandle(activity:ignoring:)`, the
  default `handle` of every `ActivityHandlerAggregate`. A stackable aggregate
  first asks one handler picked from its `stackedHandlers`, then every
  aggregate asks its children, last added first, and an aggregate that is
  also an `ActivityHandlerNode` finally asks its parent. Aggregates are asked
  with `ignoring` set to the caller; a handler that is not an aggregate
  answers with its `handle(activity:) -> Bool` and is returned itself.

  The pick from the stack as written traps or picks the ignored handler; the
  traversal here uses the corrected pick, `StackSelection`, and the written
  one is `StackSelectionAsWritten`.
*/
module LegacyTraversal {
  import opened Common
  import Chains

  /** What an object conforms to: plain `ActivityHandler`, `ActivityHandlerAggregate`, or `StackableActivityHandlerAggregate`. */
  datatype Kind = Leaf | Aggregate | Stackable

  /**
    One handler object. `parent` is `Some` for an `ActivityHandlerNode`;
    `handles` is what a handler that is not an aggregate accepts.
  */
  datatype Node = Node(
    kind: Kind,
    stackedHandlers: seq<Id>,
    children: seq<Id>,
    parent: Option<Id>,
    handles: set<Activity>)

  type Nodes = map<Id, Node>

  datatype Request = Request(handler: Id, ignoring: Option<Id>)

  datatype Outcome = Outcome(handler: Option<Id>, asked: seq<Request>)

  // ---------------------------------------------------------------------------
  // Picking the stacked handler

  /** The first index from `i` on holding `x`, or `|s|`. */
  function NextMatch(s: seq<Id>, x: Id, i: nat): (k: nat)
    requires i <= |s|
    ensures i <= k <= |s| && (k < |s| ==> s[k] == x)
    ensures forall j :: i <= j < k ==> s[j] != x
    decreases |s| - i
  {
    if i == |s| || s[i] == x then i else NextMatch(s, x, i + 1)
  }

  /** The first index from `i` on not holding `x`, or `|s|`. */
  function NextMismatch(s: seq<Id>, x: Id, i: nat): (k: nat)
    requires i <= |s|
    ensures i <= k <= |s| && (k < |s| ==> s[k] != x)
    ensures forall j :: i <= j < k ==> s[j] == x
    decreases |s| - i
  {
    if i == |s| || s[i] != x then i else NextMismatch(s, x, i + 1)
  }

  /**
    `s.split(maxSplits: 1, whereSeparator: { $0 !== x })` with the default
    `omittingEmptySubsequences: true`: every element other than `x` is a
    separator, empty pieces are dropped, and after the first piece the rest
    follows unsplit.
  */
  function SplitOnce(s: seq<Id>, x: Id): seq<seq<Id>> {
    var i := NextMatch(s, x, 0);
    if i == |s| then []
    else
      var j := NextMismatch(s, x, i);
      if j >= |s| - 1 then [s[i..j]] else [s[i..j], s[j + 1..]]
  }

  /**
    The pick at lines 82-89 as written: `None` when `first!` unwraps `nil`
    and traps, otherwise `Some` of the picked handler.
  */
  function StackSelectionAsWritten(stack: seq<Id>, ignoring: Option<Id>): Option<Option<Id>> {
    match ignoring
    case None => Some(if stack == [] then None else Some(stack[|stack| - 1]))
    case Some(x) =>
      var pieces := SplitOnce(stack, x);
      if pieces == [] then None
      else Some(if pieces[0] == [] then None else Some(pieces[0][|pieces[0]| - 1]))
  }

  /**
    As written, a non-`nil` `ignoring` traps unless it is on the stack, and
    when it is on the stack the pick is `ignoring` itself.
  */
  lemma AsWrittenSelection(stack: seq<Id>, x: Id)
    ensures x !in stack ==> StackSelectionAsWritten(stack, Some(x)).None?
    ensures x in stack ==> StackSelectionAsWritten(stack, Some(x)) == Some(Some(x))
  {
    var i := NextMatch(stack, x, 0);
    if x in stack {
      var k :| 0 <= k < |stack| && stack[k] == x;
      assert i < |stack|;
      var j := NextMismatch(stack, x, i);
      assert stack[i..j][j - i - 1] == stack[j - 1];
    } else {
      assert i == |stack|;
    }
  }

  /**
    The trap on concrete inputs: an empty stack asked on behalf of a parent
    `1` traps, and a stack `[1, 2]` asked with `ignoring` `2` picks `2`.
  */
  lemma AsWrittenCounterexamples()
    ensures StackSelectionAsWritten([], Some(1)).None?
    ensures StackSelectionAsWritten([1, 2], Some(2)) == Some(Some(2))
  {
    AsWrittenSelection([], 1);
    AsWrittenSelection([1, 2], 2);
  }

  /** The highest index below `k` whose handler is not `ignoring`, or `-1`. */
  function TopOther(stack: seq<Id>, ignoring: Option<Id>, k: nat): (i: int)
    requires k <= |stack|
    ensures -1 <= i < k && (0 <= i ==> Some(stack[i]) != ignoring)
    ensures forall j :: i < j < k ==> Some(stack[j]) == ignoring
  {
    if k == 0 then -1
    else if Some(stack[k - 1]) != ignoring then k - 1
    else TopOther(stack, ignoring, k - 1)
  }

  /** The corrected pick: the top-most stacked handler other than `ignoring`. */
  function StackSelection(stack: seq<Id>, ignoring: Option<Id>): (r: Option<Id>)
    ensures r.None? <==> forall i :: 0 <= i < |stack| ==> Some(stack[i]) == ignoring
    ensures r.Some? ==> Some(r.value) != ignoring && exists i :: (0 <= i < |stack| && stack[i] == r.value &&
      forall j :: i < j < |stack| ==> Some(stack[j]) == ignoring)
  {
    var i := TopOther(stack, ignoring, |stack|);
    if i < 0 then None else Some(stack[i])
  }

  /** Without an `ignoring` handler both picks take the top of the stack. */
  lemma SelectionsAgreeWithoutIgnoring(stack: seq<Id>)
    ensures StackSelectionAsWritten(stack, None) == Some(StackSelection(stack, None))
    ensures stack != [] ==> StackSelection(stack, None) == Some(stack[|stack| - 1])
  {
  }

  // ---------------------------------------------------------------------------
  // Who an aggregate asks

  function Reversed(xs: seq<Id>): (r: seq<Id>)
    ensures |r| == |xs| && forall i :: 0 <= i < |xs| ==> r[i] == xs[|xs| - 1 - i]
  {
    if xs == [] then [] else Reversed(xs[1..]) + [xs[0]]
  }

  /** `where child !== ignoring` */
  function Without(xs: seq<Id>, ignoring: Option<Id>): seq<Id> {
    if xs == [] then []
    else if Some(xs[0]) == ignoring then Without(xs[1..], ignoring)
    else [xs[0]] + Without(xs[1..], ignoring)
  }

  lemma {:induction false} WithoutMembers(xs: seq<Id>, ignoring: Option<Id>)
    ensures forall c :: c in Without(xs, ignoring) <==> c in xs && Some(c) != ignoring
  {
    if xs != [] {
      WithoutMembers(xs[1..], ignoring);
      assert xs == [xs[0]] + xs[1..];
    }
  }

  function StackedCandidate(t: Nodes, n: Id, ignoring: Option<Id>): seq<Id>
    requires n in t
  {
    if t[n].kind != Stackable then []
    else match StackSelection(t[n].stackedHandlers, ignoring)
      case Some(s) => [s]
      case None => []
  }

  /** `for child in children.reversed() where child !== ignoring` */
  function ChildCandidates(t: Nodes, n: Id, ignoring: Option<Id>): seq<Id>
    requires n in t
  {
    if t[n].kind == Leaf then [] else Without(Reversed(t[n].children), ignoring)
  }

  /** `if let self = self as? ActivityHandlerNode, self.parent !== ignoring` */
  function ParentCandidate(t: Nodes, n: Id, ignoring: Option<Id>): seq<Id>
    requires n in t
  {
    if t[n].parent.Some? && t[n].parent != ignoring then [t[n].parent.value] else []
  }

  function Candidates(t: Nodes, n: Id, ignoring: Option<Id>): seq<Id>
    requires n in t
  {
    StackedCandidate(t, n, ignoring) + ChildCandidates(t, n, ignoring) + ParentCandidate(t, n, ignoring)
  }

  ghost predicate IsSuffix(s: seq<Id>, full: seq<Id>) {
    |s| <= |full| && s == full[|full| - |s|..]
  }

  /**
    Everything an aggregate asks is ignored by no candidate rule: the
    stacked pick, each child and the parent are never `ignoring`, and the
    children come last added first.
  */
  lemma CandidatesMembers(t: Nodes, n: Id, ignoring: Option<Id>)
    requires n in t && t[n].kind != Leaf
    ensures forall c :: c in Candidates(t, n, ignoring) ==> Some(c) != ignoring
    ensures forall c :: c in ChildCandidates(t, n, ignoring) <==> c in t[n].children && Some(c) != ignoring
    ensures ChildCandidates(t, n, ignoring) == Reversed(Without(t[n].children, ignoring))
  {
    var xs := t[n].children;
    WithoutMembers(Reversed(xs), ignoring);
    WithoutReversed(xs, ignoring);
    forall c ensures c in Reversed(xs) <==> c in xs {
      if c in xs {
        var i :| 0 <= i < |xs| && xs[i] == c;
        assert Reversed(xs)[|xs| - 1 - i] == c;
      }
    }
  }

  lemma {:induction false} WithoutReversed(xs: seq<Id>, ignoring: Option<Id>)
    ensures Without(Reversed(xs), ignoring) == Reversed(Without(xs, ignoring))
  {
    if xs != [] {
      WithoutReversed(xs[1..], ignoring);
      WithoutAppend(Reversed(xs[1..]), [xs[0]], ignoring);
      assert Reversed(xs) == Reversed(xs[1..]) + [xs[0]];
    }
  }

  lemma {:induction false} WithoutAppend(xs: seq<Id>, ys: seq<Id>, ignoring: Option<Id>)
    ensures Without(xs + ys, ignoring) == Without(xs, ignoring) + Without(ys, ignoring)
  {
    var zs := xs + ys;
    if xs == [] {
      assert zs == ys;
    } else {
      assert zs[0] == xs[0] && zs[1..] == xs[1..] + ys;
      WithoutAppend(xs[1..], ys, ignoring);
    }
  }

  // ---------------------------------------------------------------------------
  // Well-formedness and the termination measure

  /** The parents aggregates read. */
  function ParentMap(t: Nodes): map<Id, Id> {
    map n | n in t && t[n].kind != Leaf && t[n].parent.Some? :: t[n].parent.value
  }

  /**
    The handlers an aggregate reads exist, an aggregate among its children
    or stack names it as parent, a parent is an existing aggregate, and no
    parent chain loops.
  */
  ghost predicate WellFormed(t: Nodes) {
    && (forall n :: n in t && t[n].kind != Leaf ==>
          && (forall c :: c in t[n].children ==> c in t && (t[c].kind != Leaf ==> t[c].parent == Some(n)))
          && (forall c :: c in t[n].stackedHandlers ==> c in t && (t[c].kind != Leaf ==> t[c].parent == Some(n)))
          && (t[n].parent.Some? ==> t[n].parent.value in t && t[t[n].parent.value].kind != Leaf))
    && Chains.Rooted(ParentMap(t))
  }

  ghost predicate IsDown(t: Nodes, n: Id, ignoring: Option<Id>)
    requires n in t
  {
    t[n].parent.Some? && ignoring == t[n].parent
  }

  ghost function Level(t: Nodes, n: Id, ignoring: Option<Id>): nat
    requires WellFormed(t) && n in t
  {
    if IsDown(t, n, ignoring) then 0 else 1 + Chains.Rank(ParentMap(t), n)
  }

  ghost function Height(t: Nodes, n: Id, ignoring: Option<Id>): nat
    requires WellFormed(t) && n in t
  {
    if IsDown(t, n, ignoring) then |ParentMap(t)| - Chains.Rank(ParentMap(t), n) else 0
  }

  lemma CandidateDecreases(t: Nodes, n: Id, ignoring: Option<Id>, c: Id)
    requires WellFormed(t) && n in t && t[n].kind != Leaf
    requires c in Candidates(t, n, ignoring)
    ensures c in t
    ensures t[c].kind != Leaf ==>
      Level(t, c, Some(n)) < Level(t, n, ignoring) ||
      (Level(t, c, Some(n)) == Level(t, n, ignoring) && Height(t, c, Some(n)) < Height(t, n, ignoring))
  {
    var stacked, children := StackedCandidate(t, n, ignoring), ChildCandidates(t, n, ignoring);
    assert c in stacked || c in children || c in ParentCandidate(t, n, ignoring);
    if c in stacked {
      assert c in t[n].stackedHandlers by {
        var stack := t[n].stackedHandlers;
        var i := TopOther(stack, ignoring, |stack|);
        assert c == stack[i];
      }
      if t[c].kind != Leaf {
        DownDecreases(t, n, ignoring, c);
      }
    } else if c in children {
      CandidatesMembers(t, n, ignoring);
      if t[c].kind != Leaf {
        DownDecreases(t, n, ignoring, c);
      }
    } else {
      UpDecreases(t, n, ignoring);
    }
  }

  /** Asking an aggregate that names `n` as its parent goes down the tree. */
  lemma DownDecreases(t: Nodes, n: Id, ignoring: Option<Id>, c: Id)
    requires WellFormed(t) && n in t && c in t && t[c].kind != Leaf && t[c].parent == Some(n)
    ensures Level(t, c, Some(n)) < Level(t, n, ignoring) ||
      (Level(t, c, Some(n)) == Level(t, n, ignoring) && Height(t, c, Some(n)) < Height(t, n, ignoring))
  {
    var pm := ParentMap(t);
    assert c in pm && pm[c] == n;
    Chains.ParentRank(pm, c);
  }

  /** Asking the parent on behalf of `n` goes up the tree. */
  lemma UpDecreases(t: Nodes, n: Id, ignoring: Option<Id>)
    requires WellFormed(t) && n in t && t[n].kind != Leaf
    requires t[n].parent.Some? && t[n].parent != ignoring
    ensures t[n].parent.value in t
    ensures var p := t[n].parent.value;
      t[p].kind != Leaf ==>
        Level(t, p, Some(n)) < Level(t, n, ignoring) ||
        (Level(t, p, Some(n)) == Level(t, n, ignoring) && Height(t, p, Some(n)) < Height(t, n, ignoring))
  {
    var pm := ParentMap(t);
    assert n in pm;
    Chains.ParentRank(pm, n);
  }

  // ---------------------------------------------------------------------------
  // traverseTreeToHandle(activity:ignoring:)

  ghost predicate Accepts(t: Nodes, a: Activity, h: Id) {
    h in t && t[h].kind == Leaf && a in t[h].handles
  }

  /** Nobody asked before the last call accepted; a returned handler is the last one asked and accepted. */
  ghost predicate Settled(t: Nodes, a: Activity, o: Outcome) {
    && (forall i :: 0 <= i < |o.asked| - 1 ==> !Accepts(t, a, o.asked[i].handler))
    && (o.handler.Some? ==>
          o.asked != [] && o.asked[|o.asked| - 1].handler == o.handler.value && Accepts(t, a, o.handler.value))
    && (o.handler.None? ==> forall i :: 0 <= i < |o.asked| ==> !Accepts(t, a, o.asked[i].handler))
  }

  /** `handle(activity:) -> Bool` of a handler that is not an aggregate, returned as itself when it accepts. */
  function LeafHandle(t: Nodes, l: Id, a: Activity): (o: Outcome)
    requires l in t && t[l].kind == Leaf
    ensures Settled(t, a, o)
  {
    Outcome(if a in t[l].handles then Some(l) else None, [Request(l, None)])
  }

  /** `traverseTreeToHandle(activity:ignoring:)` on aggregate `n`. */
  function Traverse(t: Nodes, n: Id, a: Activity, ignoring: Option<Id>): (o: Outcome)
    requires WellFormed(t) && n in t && t[n].kind != Leaf
    ensures o.asked != [] && o.asked[0] == Request(n, ignoring)
    ensures Settled(t, a, o)
    decreases Level(t, n, ignoring), Height(t, n, ignoring), 1, 0
  {
    var rest := Ask(t, n, a, ignoring, Candidates(t, n, ignoring));
    var o := Outcome(rest.handler, [Request(n, ignoring)] + rest.asked);
    SettledAfterAggregate(t, a, n, ignoring, rest);
    o
  }

  /** Asks the remaining candidates `cands` of `n` in order, stopping at the first handler returned. */
  function Ask(t: Nodes, n: Id, a: Activity, ignoring: Option<Id>, cands: seq<Id>): (o: Outcome)
    requires WellFormed(t) && n in t && t[n].kind != Leaf
    requires IsSuffix(cands, Candidates(t, n, ignoring))
    ensures Settled(t, a, o)
    decreases Level(t, n, ignoring), Height(t, n, ignoring), 0, |cands|
  {
    if cands == [] then Outcome(None, [])
    else
      var full := Candidates(t, n, ignoring);
      assert cands[0] == full[|full| - |cands|] && cands[1..] == full[|full| - |cands| + 1..];
      CandidateDecreases(t, n, ignoring, cands[0]);
      var first := if t[cands[0]].kind == Leaf then LeafHandle(t, cands[0], a) else Traverse(t, cands[0], a, Some(n));
      if first.handler.Some? then first
      else
        var rest := Ask(t, n, a, ignoring, cands[1..]);
        SettledAfterFailure(t, a, first, rest);
        Outcome(rest.handler, first.asked + rest.asked)
  }

  /** An aggregate never accepts by itself, so recording its call in front keeps a trace settled. */
  lemma SettledAfterAggregate(t: Nodes, a: Activity, n: Id, ignoring: Option<Id>, rest: Outcome)
    requires n in t && t[n].kind != Leaf && Settled(t, a, rest)
    ensures Settled(t, a, Outcome(rest.handler, [Request(n, ignoring)] + rest.asked))
  {
    var o := Outcome(rest.handler, [Request(n, ignoring)] + rest.asked);
    assert forall i :: 1 <= i < |o.asked| ==> o.asked[i] == rest.asked[i - 1];
  }

  lemma SettledAfterFailure(t: Nodes, a: Activity, first: Outcome, rest: Outcome)
    requires Settled(t, a, first) && first.handler.None?
    requires Settled(t, a, rest)
    ensures Settled(t, a, Outcome(rest.handler, first.asked + rest.asked))
  {
    var s := first.asked + rest.asked;
    assert forall i :: 0 <= i < |first.asked| ==> s[i] == first.asked[i];
    assert forall i :: |first.asked| <= i < |s| ==> s[i] == rest.asked[i - |first.asked|];
  }

  /** What candidate `c` of `n` answers. */
  ghost function Answer(t: Nodes, n: Id, a: Activity, c: Id): Option<Id> {
    if !WellFormed(t) || c !in t then None
    else if t[c].kind == Leaf then LeafHandle(t, c, a).handler
    else Traverse(t, c, a, Some(n)).handler
  }

  ghost function Answers(t: Nodes, n: Id, a: Activity, cands: seq<Id>): seq<Option<Id>> {
    seq(|cands|, i requires 0 <= i < |cands| => Answer(t, n, a, cands[i]))
  }

  /** The traversal returns the first handler any candidate returns, in candidate order. */
  lemma {:induction false} AskIsFirstSuccess(t: Nodes, n: Id, a: Activity, ignoring: Option<Id>, cands: seq<Id>)
    requires WellFormed(t) && n in t && t[n].kind != Leaf
    requires IsSuffix(cands, Candidates(t, n, ignoring))
    ensures Ask(t, n, a, ignoring, cands).handler == FirstSome(Answers(t, n, a, cands))
    decreases |cands|
  {
    if cands != [] {
      var full := Candidates(t, n, ignoring);
      assert cands[1..] == full[|full| - |cands| + 1..];
      assert cands[0] == full[|full| - |cands|];
      CandidateDecreases(t, n, ignoring, cands[0]);
      AskIsFirstSuccess(t, n, a, ignoring, cands[1..]);
      AnswersCons(t, n, a, cands);
      FirstSomeAppend([Answer(t, n, a, cands[0])], Answers(t, n, a, cands[1..]));
    }
  }

  lemma AnswersCons(t: Nodes, n: Id, a: Activity, cands: seq<Id>)
    requires cands != []
    ensures Answers(t, n, a, cands) == [Answer(t, n, a, cands[0])] + Answers(t, n, a, cands[1..])
  {
  }

  lemma TraverseIsFirstSuccess(t: Nodes, n: Id, a: Activity, ignoring: Option<Id>)
    requires WellFormed(t) && n in t && t[n].kind != Leaf
    ensures Traverse(t, n, a, ignoring).handler == FirstSome(Answers(t, n, a, Candidates(t, n, ignoring)))
  {
    var full := Candidates(t, n, ignoring);
    assert IsSuffix(full, full);
    AskIsFirstSuccess(t, n, a, ignoring, full);
  }

  /** `handle(activity:) -> Bool`: whether the traversal from `n`, ignoring nothing, finds a handler. */
  function HandleBool(t: Nodes, n: Id, a: Activity): bool
    requires WellFormed(t) && n in t && t[n].kind != Leaf
  {
    Traverse(t, n, a, None).handler != None
  }

  /** `handle(activity:)` is `true` exactly when some plain handler met on the way accepts. */
  lemma HandleBoolMeansAccepted(t: Nodes, n: Id, a: Activity)
    requires WellFormed(t) && n in t && t[n].kind != Leaf
    ensures HandleBool(t, n, a) <==> exists i :: (0 <= i < |Traverse(t, n, a, None).asked| &&
      Accepts(t, a, Traverse(t, n, a, None).asked[i].handler))
  {
    var o := Traverse(t, n, a, None);
    assert HandleBool(t, n, a) == o.handler.Some?;
    if o.handler.Some? {
      var last := |o.asked| - 1;
      assert 0 <= last < |o.asked| && Accepts(t, a, o.asked[last].handler);
      assert exists i :: (0 <= i < |Traverse(t, n, a, None).asked| && Accepts(t, a, Traverse(t, n, a, None).asked[i].handler));
    } else {
      assert forall i :: 0 <= i < |o.asked| ==> !Accepts(t, a, o.asked[i].handler);
    }
  }

  // ---------------------------------------------------------------------------
  // The tree of the documentation comment

  /**
    A(B(D, E, F), C(G)) with D, A, B and C aggregates and E, F and G plain
    handlers, of which only G accepts.
  */
  function DocTree(): Nodes {
    map[
      1 := Node(Aggregate, [], [2, 3], None, {}),
      2 := Node(Aggregate, [], [4, 5, 6], Some(1), {}),
      3 := Node(Aggregate, [], [7], Some(1), {}),
      4 := Node(Aggregate, [], [], Some(2), {}),
      5 := Node(Leaf, [], [], None, {}),
      6 := Node(Leaf, [], [], None, {}),
      7 := Node(Leaf, [], [], None, {"g"})]
  }

  lemma DocTreeWellFormed()
    ensures WellFormed(DocTree())
  {
    DocTreeParents();
    DocTreeHolders();
  }

  lemma DocTreeParents()
    ensures ParentMap(DocTree()) == map[2 := 1, 3 := 1, 4 := 2]
    ensures Chains.Rooted(ParentMap(DocTree()))
  {
    DocTreeParentMap();
    DocParentsRooted();
  }

  lemma DocTreeParentMap()
    ensures ParentMap(DocTree()) == map[2 := 1, 3 := 1, 4 := 2]
  {
    var t := DocTree();
    assert t.Keys == {1, 2, 3, 4, 5, 6, 7};
    assert ParentMap(t).Keys == {2, 3, 4};
  }

  lemma DocParentsRooted()
    ensures Chains.Rooted(map[2 := 1, 3 := 1, 4 := 2])
  {
    var pm := map[2 := 1, 3 := 1, 4 := 2];
    assert pm.Keys == {2, 3, 4};
    assert |pm| == 3;
    assert Chains.RootedWithin(pm, 1, 0);
    assert Chains.RootedWithin(pm, 2, 1);
    assert Chains.RootedWithin(pm, 3, 1);
    assert Chains.RootedWithin(pm, 4, 2);
    Chains.RootedMonotone(pm, 2, 1, 3);
    Chains.RootedMonotone(pm, 3, 1, 3);
    Chains.RootedMonotone(pm, 4, 2, 3);
  }

  lemma DocTreeHolders()
    ensures var t := DocTree();
      forall n :: n in t && t[n].kind != Leaf ==>
        && (forall c :: c in t[n].children ==> c in t && (t[c].kind != Leaf ==> t[c].parent == Some(n)))
        && (forall c :: c in t[n].stackedHandlers ==> c in t && (t[c].kind != Leaf ==> t[c].parent == Some(n)))
        && (t[n].parent.Some? ==> t[n].parent.value in t && t[t[n].parent.value].kind != Leaf)
  {
    var t := DocTree();
    forall n | n in t && t[n].kind != Leaf
      ensures && (forall c :: c in t[n].children ==> c in t && (t[c].kind != Leaf ==> t[c].parent == Some(n)))
              && (forall c :: c in t[n].stackedHandlers ==> c in t && (t[c].kind != Leaf ==> t[c].parent == Some(n)))
              && (t[n].parent.Some? ==> t[n].parent.value in t && t[t[n].parent.value].kind != Leaf)
    {
      assert n == 1 || n == 2 || n == 3 || n == 4;
    }
  }

  lemma DocTreeCandidates()
    ensures Candidates(DocTree(), 3, Some(1)) == [7]
    ensures Candidates(DocTree(), 1, Some(2)) == [3]
    ensures Candidates(DocTree(), 2, Some(4)) == [6, 5, 1]
    ensures Candidates(DocTree(), 4, None) == [2]
  {
    DocTreeCandidatesC();
    DocTreeCandidatesA();
    DocTreeCandidatesB();
    DocTreeCandidatesD();
  }

  lemma DocTreeCandidatesC()
    ensures Candidates(DocTree(), 3, Some(1)) == [7]
  {
    assert Reversed([7]) == [7];
    assert ChildCandidates(DocTree(), 3, Some(1)) == [7];
  }

  lemma DocTreeCandidatesA()
    ensures Candidates(DocTree(), 1, Some(2)) == [3]
  {
    assert Reversed([2, 3]) == [3, 2] by {
      assert [2, 3][1..] == [3];
    }
    assert Without([3, 2], Some(2)) == [3];
    assert ChildCandidates(DocTree(), 1, Some(2)) == [3];
  }

  lemma DocTreeCandidatesB()
    ensures Candidates(DocTree(), 2, Some(4)) == [6, 5, 1]
  {
    assert Reversed([4, 5, 6]) == [6, 5, 4] by {
      assert [4, 5, 6][1..] == [5, 6];
      assert [5, 6][1..] == [6];
    }
    assert Without([6, 5, 4], Some(4)) == [6, 5];
    assert ChildCandidates(DocTree(), 2, Some(4)) == [6, 5];
    assert ParentCandidate(DocTree(), 2, Some(4)) == [1];
  }

  lemma DocTreeCandidatesD()
    ensures Candidates(DocTree(), 4, None) == [2]
  {
    assert ChildCandidates(DocTree(), 4, None) == [];
    assert ParentCandidate(DocTree(), 4, None) == [2];
  }

  /** The facts about the tree the traversal below reads. */
  ghost predicate DocShape(t: Nodes) {
    && WellFormed(t)
    && DocNodes(t)
    && Candidates(t, 3, Some(1)) == [7]
    && Candidates(t, 1, Some(2)) == [3]
    && Candidates(t, 2, Some(4)) == [6, 5, 1]
    && Candidates(t, 4, None) == [2]
  }

  ghost predicate DocNodes(t: Nodes) {
    && 1 in t && t[1] == Node(Aggregate, [], [2, 3], None, {})
    && 2 in t && t[2] == Node(Aggregate, [], [4, 5, 6], Some(1), {})
    && 3 in t && t[3] == Node(Aggregate, [], [7], Some(1), {})
    && 4 in t && t[4] == Node(Aggregate, [], [], Some(2), {})
    && 5 in t && t[5] == Node(Leaf, [], [], None, {})
    && 6 in t && t[6] == Node(Leaf, [], [], None, {})
    && 7 in t && t[7] == Node(Leaf, [], [], None, {"g"})
  }

  lemma DocTreeShape()
    ensures DocShape(DocTree())
  {
    DocTreeWellFormed();
    DocTreeCandidates();
    DocTreeNodes();
  }

  lemma DocTreeNodes()
    ensures DocNodes(DocTree())
  {
  }

  /** C, asked by A, asks G, which accepts. */
  lemma DocTreeC(t: Nodes)
    requires WellFormed(t) && 3 in t && t[3] == Node(Aggregate, [], [7], Some(1), {}) && 7 in t && t[7] == Node(Leaf, [], [], None, {"g"})
    requires Candidates(t, 3, Some(1)) == [7]
    ensures Traverse(t, 3, "g", Some(1)) == Outcome(Some(7), [Request(3, Some(1)), Request(7, None)])
  {
    assert Ask(t, 3, "g", Some(1), [7]) == Outcome(Some(7), [Request(7, None)]);
    TraverseUnfold(t, 3, "g", Some(1));
  }

  /** A, asked by B, skips B and asks C. */
  lemma DocTreeA(t: Nodes, tr: seq<Request>)
    requires WellFormed(t) && 1 in t && t[1] == Node(Aggregate, [], [2, 3], None, {}) && 3 in t && t[3] == Node(Aggregate, [], [7], Some(1), {})
    requires Candidates(t, 1, Some(2)) == [3]
    requires Traverse(t, 3, "g", Some(1)) == Outcome(Some(7), tr)
    ensures Traverse(t, 1, "g", Some(2)) == Outcome(Some(7), [Request(1, Some(2))] + tr)
  {
    AskAcceptingAggregate(t, 1, "g", Some(2), [3]);
    TraverseUnfold(t, 1, "g", Some(2));
  }

  /** B's last candidate, A, returns G. */
  lemma DocAskA(t: Nodes, tr: seq<Request>)
    requires WellFormed(t) && 2 in t && t[2] == Node(Aggregate, [], [4, 5, 6], Some(1), {}) && 1 in t && t[1] == Node(Aggregate, [], [2, 3], None, {})
    requires Candidates(t, 2, Some(4)) == [6, 5, 1]
    requires Traverse(t, 1, "g", Some(2)) == Outcome(Some(7), tr)
    ensures IsSuffix([1], Candidates(t, 2, Some(4)))
    ensures Ask(t, 2, "g", Some(4), [1]) == Outcome(Some(7), tr)
  {
    assert [6, 5, 1][2..] == [1];
    AskAcceptingAggregate(t, 2, "g", Some(4), [1]);
  }

  /** E declines, then A returns G. */
  lemma DocAskE(t: Nodes, tr: seq<Request>)
    requires WellFormed(t) && 2 in t && t[2] == Node(Aggregate, [], [4, 5, 6], Some(1), {})
    requires 5 in t && t[5] == Node(Leaf, [], [], None, {})
    requires Candidates(t, 2, Some(4)) == [6, 5, 1]
    requires Ask(t, 2, "g", Some(4), [1]) == Outcome(Some(7), tr)
    ensures IsSuffix([5, 1], Candidates(t, 2, Some(4)))
    ensures Ask(t, 2, "g", Some(4), [5, 1]) == Outcome(Some(7), [Request(5, None)] + tr)
  {
    assert [6, 5, 1][1..] == [5, 1] && [5, 1][1..] == [1];
    AskPastDecliningLeaf(t, 2, "g", Some(4), [5, 1]);
  }

  /** F declines, then E, then A returns G. */
  lemma DocAskF(t: Nodes, tr: seq<Request>)
    requires WellFormed(t) && 2 in t && t[2] == Node(Aggregate, [], [4, 5, 6], Some(1), {})
    requires 6 in t && t[6] == Node(Leaf, [], [], None, {})
    requires Candidates(t, 2, Some(4)) == [6, 5, 1]
    requires Ask(t, 2, "g", Some(4), [5, 1]) == Outcome(Some(7), tr)
    ensures IsSuffix([6, 5, 1], Candidates(t, 2, Some(4)))
    ensures Ask(t, 2, "g", Some(4), [6, 5, 1]) == Outcome(Some(7), [Request(6, None)] + tr)
  {
    assert [6, 5, 1][1..] == [5, 1];
    AskPastDecliningLeaf(t, 2, "g", Some(4), [6, 5, 1]);
  }

  /** B, asked by D, asks F, then E, then its parent A. */
  lemma DocTreeB(t: Nodes, tr: seq<Request>)
    requires WellFormed(t) && 2 in t && t[2] == Node(Aggregate, [], [4, 5, 6], Some(1), {})
    requires Candidates(t, 2, Some(4)) == [6, 5, 1]
    requires Ask(t, 2, "g", Some(4), [6, 5, 1]) == Outcome(Some(7), tr)
    ensures Traverse(t, 2, "g", Some(4)) == Outcome(Some(7), [Request(2, Some(4))] + tr)
  {
    TraverseUnfold(t, 2, "g", Some(4));
  }

  /** D's only candidate, B, returns G. */
  lemma DocAskB(t: Nodes, tr: seq<Request>)
    requires WellFormed(t) && 4 in t && t[4] == Node(Aggregate, [], [], Some(2), {}) && 2 in t && t[2] == Node(Aggregate, [], [4, 5, 6], Some(1), {})
    requires Candidates(t, 4, None) == [2]
    requires Traverse(t, 2, "g", Some(4)) == Outcome(Some(7), tr)
    ensures Ask(t, 4, "g", None, [2]) == Outcome(Some(7), tr)
  {
    AskAcceptingAggregate(t, 4, "g", None, [2]);
  }

  /** D asks its parent B. */
  lemma DocTreeD(t: Nodes, tr: seq<Request>)
    requires WellFormed(t) && 4 in t && t[4] == Node(Aggregate, [], [], Some(2), {})
    requires Candidates(t, 4, None) == [2]
    requires Ask(t, 4, "g", None, [2]) == Outcome(Some(7), tr)
    ensures Traverse(t, 4, "g", None) == Outcome(Some(7), [Request(4, None)] + tr)
  {
    TraverseUnfold(t, 4, "g", None);
  }

  /** `traverseTreeToHandle` records its own call, then asks its candidates. */
  lemma TraverseUnfold(t: Nodes, n: Id, a: Activity, ignoring: Option<Id>)
    requires WellFormed(t) && n in t && t[n].kind != Leaf
    ensures IsSuffix(Candidates(t, n, ignoring), Candidates(t, n, ignoring))
    ensures var rest := Ask(t, n, a, ignoring, Candidates(t, n, ignoring));
      Traverse(t, n, a, ignoring) == Outcome(rest.handler, [Request(n, ignoring)] + rest.asked)
  {
  }

  /** An aggregate candidate that returns a handler ends the search with its own outcome. */
  lemma AskAcceptingAggregate(t: Nodes, n: Id, a: Activity, ignoring: Option<Id>, cands: seq<Id>)
    requires WellFormed(t) && n in t && t[n].kind != Leaf
    requires IsSuffix(cands, Candidates(t, n, ignoring))
    requires cands != [] && cands[0] in t && t[cands[0]].kind != Leaf
    requires Traverse(t, cands[0], a, Some(n)).handler.Some?
    ensures Ask(t, n, a, ignoring, cands) == Traverse(t, cands[0], a, Some(n))
  {
  }

  /** A leaf candidate that declines adds its own call to the trace and hands over to the rest. */
  lemma AskPastDecliningLeaf(t: Nodes, n: Id, a: Activity, ignoring: Option<Id>, cands: seq<Id>)
    requires WellFormed(t) && n in t && t[n].kind != Leaf
    requires IsSuffix(cands, Candidates(t, n, ignoring))
    requires cands != [] && cands[0] in t && t[cands[0]].kind == Leaf && a !in t[cands[0]].handles
    ensures IsSuffix(cands[1..], Candidates(t, n, ignoring))
    ensures var rest := Ask(t, n, a, ignoring, cands[1..]);
      Ask(t, n, a, ignoring, cands) == Outcome(rest.handler, [Request(cands[0], None)] + rest.asked)
  {
    var full := Candidates(t, n, ignoring);
    assert cands[1..] == full[|full| - |cands| + 1..];
  }

  /**
    Starting at D, the handlers are asked D, B, F, E, A, C, G, and G is
    returned: the children of B come last added first.
  */
  lemma DocTreeOrder()
    ensures WellFormed(DocTree())
    ensures Traverse(DocTree(), 4, "g", None) ==
      Outcome(Some(7), [Request(4, None), Request(2, Some(4)), Request(6, None), Request(5, None),
                        Request(1, Some(2)), Request(3, Some(1)), Request(7, None)])
  {
    DocTreeShape();
    DocTreeFrom(DocTree());
  }

  lemma DocTreeFrom(t: Nodes)
    requires DocShape(t)
    ensures Traverse(t, 4, "g", None) ==
      Outcome(Some(7), [Request(4, None), Request(2, Some(4)), Request(6, None), Request(5, None),
                        Request(1, Some(2)), Request(3, Some(1)), Request(7, None)])
  {
    var c := [Request(3, Some(1)), Request(7, None)];
    var a := [Request(1, Some(2))] + c;
    var e := [Request(5, None)] + a;
    var f := [Request(6, None)] + e;
    var b := [Request(2, Some(4))] + f;
    DocTreeC(t);
    DocTreeA(t, c);
    DocAskA(t, a);
    DocAskE(t, a);
    DocAskF(t, e);
    DocTreeB(t, f);
    DocAskB(t, b);
    DocTreeD(t, b);
    DocTrace();
  }

  /** The trace built call by call above, written out. */
  lemma DocTrace()
    ensures [Request(4, None)] + ([Request(2, Some(4))] + ([Request(6, None)] + ([Request(5, None)] +
              ([Request(1, Some(2))] + [Request(3, Some(1)), Request(7, None)])))) ==
            [Request(4, None), Request(2, Some(4)), Request(6, None), Request(5, None),
             Request(1, Some(2)), Request(3, Some(1)), Request(7, None)]
  {
  }
}
