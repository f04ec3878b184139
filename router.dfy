/**
  The router revision: `Router` keeps prioritised links to its children and a
  weak link to its parent router, and `handle(path:ignoring:completionHandler:)`
  offers the path to its links in descending priority, one at a time, until
  one reports a handler.

  Path handlers live in a map keyed by object identity. A call's completion
  handler is replaced by the value it would receive, together with the trace
  of every `handle` call made, in order.
*/
module Routers {
  import opened Common
  import opened Priorities
  import StableSort
  import Chains
  import opened ClosureHandlers

  /** `LinkedHandler`: a linked path handler, its `.router` or `.handler` kind, and its priority. */
  datatype Link = Link(handler: Id, isRouter: bool, priority: Priority)

  /**
    A path handler object. `routes` is what a `Router` subclass accepts
    itself before deferring to `super` (a plain `Router` accepts nothing);
    `ClosureRouter` is `SynchronousClosurePathHandler`, `ClosureLeaf` is
    `ClosurePathHandler`, and `SyncLeaf` is a `SynchronousPathHandler` whose
    `handle(path:)` returns `answers[path]` (`nil` for a path not in the map).
  */
  datatype Node =
    | RouterNode(parent: Option<Id>, children: seq<Link>, routes: set<Path>)
    | ClosureRouter(parent: Option<Id>, children: seq<Link>, closure: Closure)
    | ClosureLeaf(parent: Option<Id>, closure: Closure)
    | SyncLeaf(parent: Option<Id>, answers: map<Path, Option<Id>>)

  type Nodes = map<Id, Node>

  /** The same object with its weak `parent` reference set to `p`. */
  function WithParent(n: Node, p: Option<Id>): (m: Node)
    ensures m.parent == p && IsRouter(m) == IsRouter(n)
    ensures IsRouter(n) ==> m.children == n.children
  {
    match n
    case RouterNode(_, children, routes) => RouterNode(p, children, routes)
    case ClosureRouter(_, children, closure) => ClosureRouter(p, children, closure)
    case ClosureLeaf(_, closure) => ClosureLeaf(p, closure)
    case SyncLeaf(_, answers) => SyncLeaf(p, answers)
  }

  /** The same router with its children replaced by `links`. */
  function WithChildren(n: Node, links: seq<Link>): (m: Node)
    requires IsRouter(n)
    ensures IsRouter(m) && m.parent == n.parent && m.children == links
  {
    match n
    case RouterNode(parent, _, routes) => RouterNode(parent, links, routes)
    case ClosureRouter(parent, _, closure) => ClosureRouter(parent, links, closure)
  }

  /** `as? Router` */
  predicate IsRouter(n: Node) {
    n.RouterNode? || n.ClosureRouter?
  }

  /**
    Every link names an existing object and is of the `.router` kind exactly
    when that object is a router; a router's parent is an existing router.
  */
  ghost predicate Closed(t: Nodes) {
    forall n :: n in t ==>
      && (t[n].parent.Some? ==> t[n].parent.value in t)
      && (IsRouter(t[n]) && t[n].parent.Some? ==> IsRouter(t[t[n].parent.value]))
      && (IsRouter(t[n]) ==> forall l :: l in t[n].children ==> l.handler in t && (l.isRouter <==> IsRouter(t[l.handler])))
  }

  // ---------------------------------------------------------------------------
  // routeHandlers

  /** The sort closure `{ $0.priority > $1.priority }`. */
  predicate HigherFirst(a: Link, b: Link) {
    TriedBefore(a.priority, b.priority)
  }

  /** The router's links before sorting: its children, then its parent at priority `.low`. */
  function Tree(t: Nodes, r: Id): seq<Link>
    requires r in t && IsRouter(t[r])
  {
    t[r].children + match t[r].parent
      case Some(p) => [Link(p, true, Low)]
      case None => []
  }

  /** `routeHandlers` */
  function RouteHandlers(t: Nodes, r: Id): seq<Link>
    requires r in t && IsRouter(t[r])
  {
    StableSort.StableSorted(Tree(t, r), HigherFirst)
  }

  /** Sorting by descending priority meets the strict weak order `sorted` requires. */
  lemma HigherFirstIsStrictWeakOrder()
    ensures StableSort.StrictWeakOrder(HigherFirst)
  {
    forall a: Link, b: Link, c: Link
      ensures !HigherFirst(a, a)
      ensures HigherFirst(a, b) && HigherFirst(b, c) ==> HigherFirst(a, c)
      ensures StableSort.Incomparable(HigherFirst, a, b) && StableSort.Incomparable(HigherFirst, b, c) ==>
        StableSort.Incomparable(HigherFirst, a, c)
    {
      TriedBeforeMeansHigher(a.priority, b.priority);
      TriedBeforeMeansHigher(b.priority, c.priority);
      TriedBeforeMeansHigher(a.priority, c.priority);
      TriedBeforeMeansHigher(b.priority, a.priority);
      TriedBeforeMeansHigher(c.priority, b.priority);
      TriedBeforeMeansHigher(c.priority, a.priority);
      TriedBeforeMeansHigher(a.priority, a.priority);
    }
  }

  /**
    The candidates are the children plus the parent at `.low`, each once,
    in non-increasing priority, with links of equal priority in the order
    they were added (the parent last among them).
  */
  lemma RouteHandlersOrder(t: Nodes, r: Id)
    requires r in t && IsRouter(t[r])
    ensures multiset(RouteHandlers(t, r)) == multiset(Tree(t, r))
    ensures forall i, j :: 0 <= i < j < |RouteHandlers(t, r)| ==>
      RawValue(RouteHandlers(t, r)[i].priority) >= RawValue(RouteHandlers(t, r)[j].priority)
    ensures var es := StableSort.SortedEntries(Tree(t, r), HigherFirst);
      && |es| == |Tree(t, r)|
      && (forall i :: 0 <= i < |es| ==> es[i].offset < |Tree(t, r)| && RouteHandlers(t, r)[i] == Tree(t, r)[es[i].offset])
      && (forall i, j :: 0 <= i < j < |es| && RouteHandlers(t, r)[i].priority == RouteHandlers(t, r)[j].priority ==>
            es[i].offset < es[j].offset)
  {
    var tree := Tree(t, r);
    HigherFirstIsStrictWeakOrder();
    StableSort.StableSortedIsPermutation(tree, HigherFirst);
    StableSort.StableSortedIsOrdered(tree, HigherFirst);
    StableSort.StableSortedIsStable(tree, HigherFirst);
    var rh := RouteHandlers(t, r);
    var es := StableSort.SortedEntries(tree, HigherFirst);
    forall i, j | 0 <= i < j < |rh| ensures RawValue(rh[i].priority) >= RawValue(rh[j].priority) {
      TriedBeforeMeansHigher(rh[j].priority, rh[i].priority);
    }
    forall i, j | 0 <= i < j < |es| && rh[i].priority == rh[j].priority ensures es[i].offset < es[j].offset {
      TriedBeforeMeansHigher(rh[j].priority, rh[i].priority);
      assert StableSort.Incomparable(HigherFirst, tree[es[i].offset], tree[es[j].offset]);
    }
  }

  /** Every candidate names an existing object, and is a router link exactly when that object is a router. */
  lemma RouteHandlersClosed(t: Nodes, r: Id)
    requires Closed(t) && r in t && IsRouter(t[r])
    ensures forall l :: l in RouteHandlers(t, r) ==> l.handler in t && (l.isRouter <==> IsRouter(t[l.handler]))
  {
    HigherFirstIsStrictWeakOrder();
    StableSort.StableSortedIsPermutation(Tree(t, r), HigherFirst);
    forall l | l in RouteHandlers(t, r) ensures l.handler in t && (l.isRouter <==> IsRouter(t[l.handler])) {
      assert l in multiset(RouteHandlers(t, r));
      assert l in Tree(t, r);
    }
  }

  // ---------------------------------------------------------------------------
  // handle(path:ignoring:completionHandler:)

  /** One `handle` call: who was asked and the `ignoring` list it received (`[]` for a leaf). */
  datatype Request = Request(handler: Id, ignoring: seq<Id>)

  /** The value the completion handler receives, with the calls made. */
  datatype Outcome = Outcome(handler: Option<Id>, asked: seq<Request>)

  ghost predicate IsPrefix(p: seq<Id>, s: seq<Id>) {
    |p| <= |s| && forall i :: 0 <= i < |p| ==> s[i] == p[i]
  }

  ghost predicate IsSuffix(s: seq<Link>, full: seq<Link>) {
    |s| <= |full| && s == full[|full| - |s|..]
  }

  /** What a leaf's `handle(path:completionHandler:)` does. */
  function LeafEvents(t: Nodes, l: Id, path: Path): seq<Event>
    requires l in t && !IsRouter(t[l])
  {
    match t[l]
    case ClosureLeaf(_, closure) => ClosureHandle(l, closure, path, true)
    case SyncLeaf(_, answers) => SyncBridge(if path in answers then answers[path] else None, path, true)
  }

  /**
    What `q` decides by itself, before deferring to anything else: a router
    subclass accepting the path, a closure's decision, or what a synchronous
    handler returns.
  */
  ghost function OwnAnswer(t: Nodes, path: Path, q: Id): Option<Id> {
    if q !in t then None
    else match t[q]
      case RouterNode(_, _, routes) => if path in routes then Some(q) else None
      case ClosureRouter(_, _, closure) => Delivered(SyncClosureHandle(q, closure, path, [], None, true))
      case _ => Delivered(LeafEvents(t, q, path))
  }

  /**
    A trace that ends at the decision: nobody asked before the last call
    decided anything by itself, a returned handler is what the last call
    decided, and an unhandled outcome means nobody decided anything.
  */
  ghost predicate Settled(t: Nodes, path: Path, o: Outcome) {
    && (forall i :: 0 <= i < |o.asked| - 1 ==> OwnAnswer(t, path, o.asked[i].handler).None?)
    && (o.handler.Some? ==> o.asked != [] && OwnAnswer(t, path, o.asked[|o.asked| - 1].handler) == o.handler)
    && (o.handler.None? ==> forall i :: 0 <= i < |o.asked| ==> OwnAnswer(t, path, o.asked[i].handler).None?)
  }

  /** Calls made below a router asked with `ignoring`: none asks a router in `ignoring`, and every list extends `ignoring + [r]`. */
  ghost predicate Confined(asked: seq<Request>, ignoring: seq<Id>, r: Id) {
    forall i :: 0 <= i < |asked| ==>
      asked[i].handler !in ignoring && (asked[i].ignoring == [] || IsPrefix(ignoring + [r], asked[i].ignoring))
  }

  function LeafHandle(t: Nodes, l: Id, path: Path): (o: Outcome)
    requires l in t && !IsRouter(t[l])
    ensures Settled(t, path, o)
  {
    Outcome(Delivered(LeafEvents(t, l, path)), [Request(l, [])])
  }

  /** Routers not yet in `ignoring` count twice; a router not yet ignoring itself counts once more. */
  ghost function Measure(t: Nodes, r: Id, ignoring: seq<Id>): nat {
    2 * |t.Keys - (set x | x in ignoring)| + (if r in ignoring then 1 else 0)
  }

  /** A router `x` outside `ignoring`, asked with `ignoring + [r]`, has a smaller measure. */
  lemma MeasureDecreases(t: Nodes, r: Id, ignoring: seq<Id>, x: Id)
    requires r in t && x !in ignoring
    ensures Measure(t, x, ignoring + [r]) < Measure(t, r, ignoring)
  {
    var s := set y | y in ignoring;
    var s' := set y | y in ignoring + [r];
    assert s' == s + {r};
    if r !in ignoring {
      assert t.Keys - s' == (t.Keys - s) - {r};
      assert r in t.Keys - s;
    } else {
      assert s' == s;
    }
  }

  /** `handle(path:ignoring:completionHandler:)` sent to router `r`. */
  function Handle(t: Nodes, r: Id, path: Path, ignoring: seq<Id>): (o: Outcome)
    requires Closed(t) && r in t && IsRouter(t[r])
    ensures o.asked != [] && o.asked[0] == Request(r, ignoring)
    ensures Confined(o.asked[1..], ignoring, r)
    ensures Settled(t, path, o)
    decreases Measure(t, r, ignoring), 1, 0
  {
    if t[r].ClosureRouter? then
      Outcome(Delivered(SyncClosureHandle(r, t[r].closure, path, ignoring, None, true)), [Request(r, ignoring)])
    else if path in t[r].routes then
      Outcome(Some(r), [Request(r, ignoring)])
    else
      var full := RouteHandlers(t, r);
      assert IsSuffix(full, full);
      var rest := Search(t, r, path, ignoring, full);
      var o := Outcome(rest.handler, [Request(r, ignoring)] + rest.asked);
      assert o.asked[1..] == rest.asked;
      o
  }

  /** `tryNext()`: offers the path to the remaining candidates `cands` of router `r`. */
  function Search(t: Nodes, r: Id, path: Path, ignoring: seq<Id>, cands: seq<Link>): (o: Outcome)
    requires Closed(t) && r in t && IsRouter(t[r])
    requires IsSuffix(cands, RouteHandlers(t, r))
    ensures Confined(o.asked, ignoring, r)
    ensures Settled(t, path, o)
    decreases Measure(t, r, ignoring), 0, |cands|
  {
    if cands == [] then Outcome(None, [])
    else
      SuffixStep(cands, RouteHandlers(t, r));
      if cands[0].handler in ignoring then Search(t, r, path, ignoring, cands[1..])
      else
        var next := cands[0];
        LinkClosed(t, r, next);
        var first :=
          if next.isRouter then
            MeasureDecreases(t, r, ignoring, next.handler);
            var sub := Handle(t, next.handler, path, ignoring + [r]);
            ConfinedAfterRouter(sub, ignoring, r, next.handler);
            sub
          else LeafHandle(t, next.handler, path);
        if first.handler.Some? then first
        else
          var rest := Search(t, r, path, ignoring, cands[1..]);
          SettledAfterFailure(t, path, first, rest);
          ConfinedAppend(first.asked, rest.asked, ignoring, r);
          Outcome(rest.handler, first.asked + rest.asked)
  }

  lemma ConfinedAppend(xs: seq<Request>, ys: seq<Request>, ignoring: seq<Id>, r: Id)
    requires Confined(xs, ignoring, r) && Confined(ys, ignoring, r)
    ensures Confined(xs + ys, ignoring, r)
  {
    var s := xs + ys;
    assert forall i :: 0 <= i < |xs| ==> s[i] == xs[i];
    assert forall i :: |xs| <= i < |s| ==> s[i] == ys[i - |xs|];
  }

  /** A candidate names an existing object, and is a router link exactly when that object is a router. */
  lemma LinkClosed(t: Nodes, r: Id, l: Link)
    requires Closed(t) && r in t && IsRouter(t[r]) && l in RouteHandlers(t, r)
    ensures l.handler in t && (l.isRouter <==> IsRouter(t[l.handler]))
  {
    RouteHandlersClosed(t, r);
  }

  lemma ConfinedAfterRouter(sub: Outcome, ignoring: seq<Id>, r: Id, x: Id)
    requires x !in ignoring
    requires sub.asked != [] && sub.asked[0] == Request(x, ignoring + [r])
    requires Confined(sub.asked[1..], ignoring + [r], x)
    ensures Confined(sub.asked, ignoring, r)
  {
    forall i | 1 <= i < |sub.asked|
      ensures sub.asked[i].handler !in ignoring
      ensures sub.asked[i].ignoring == [] || IsPrefix(ignoring + [r], sub.asked[i].ignoring)
    {
      assert sub.asked[i] == sub.asked[1..][i - 1];
    }
  }

  lemma SettledAfterFailure(t: Nodes, path: Path, first: Outcome, rest: Outcome)
    requires Settled(t, path, first) && first.handler.None?
    requires Settled(t, path, rest)
    ensures Settled(t, path, Outcome(rest.handler, first.asked + rest.asked))
  {
    var s := first.asked + rest.asked;
    assert forall i :: 0 <= i < |first.asked| ==> s[i] == first.asked[i];
    assert forall i :: |first.asked| <= i < |s| ==> s[i] == rest.asked[i - |first.asked|];
  }

  // ---------------------------------------------------------------------------
  // The search is a first-success search

  /** What candidate `l` of router `r` answers: `nil` when it is in `ignoring`. */
  ghost function Answer(t: Nodes, r: Id, path: Path, ignoring: seq<Id>, l: Link): Option<Id> {
    if l.handler in ignoring || !Closed(t) || l.handler !in t then None
    else if l.isRouter && IsRouter(t[l.handler]) then Handle(t, l.handler, path, ignoring + [r]).handler
    else if !l.isRouter && !IsRouter(t[l.handler]) then LeafHandle(t, l.handler, path).handler
    else None
  }

  ghost function Answers(t: Nodes, r: Id, path: Path, ignoring: seq<Id>, cands: seq<Link>): seq<Option<Id>> {
    seq(|cands|, i requires 0 <= i < |cands| => Answer(t, r, path, ignoring, cands[i]))
  }

  /**
    The completion receives the first handler reported by a candidate not
    in `ignoring`, in candidate order, and `nil` exactly when every such
    candidate reports `nil`.
  */
  lemma {:induction false} SearchIsFirstSuccess(t: Nodes, r: Id, path: Path, ignoring: seq<Id>, cands: seq<Link>)
    requires Closed(t) && r in t && IsRouter(t[r])
    requires IsSuffix(cands, RouteHandlers(t, r))
    ensures Search(t, r, path, ignoring, cands).handler == FirstSome(Answers(t, r, path, ignoring, cands))
    decreases |cands|
  {
    if cands != [] {
      SuffixStep(cands, RouteHandlers(t, r));
      SearchIsFirstSuccess(t, r, path, ignoring, cands[1..]);
      SearchUnfold(t, r, path, ignoring, cands);
      AnswersCons(t, r, path, ignoring, cands);
      FirstSomeCons(Answers(t, r, path, ignoring, cands));
    }
  }

  /** The head of a suffix is a member, and its tail is again a suffix. */
  lemma SuffixStep(cands: seq<Link>, full: seq<Link>)
    requires IsSuffix(cands, full) && cands != []
    ensures cands[0] in full && IsSuffix(cands[1..], full)
  {
    assert cands[0] == full[|full| - |cands|];
    assert cands[1..] == full[|full| - |cands| + 1..];
  }

  lemma AnswersCons(t: Nodes, r: Id, path: Path, ignoring: seq<Id>, cands: seq<Link>)
    requires cands != []
    ensures Answers(t, r, path, ignoring, cands)[0] == Answer(t, r, path, ignoring, cands[0])
    ensures Answers(t, r, path, ignoring, cands)[1..] == Answers(t, r, path, ignoring, cands[1..])
  {
  }

  /** One step of the search: the first candidate's answer, or the rest of the search after it. */
  lemma SearchUnfold(t: Nodes, r: Id, path: Path, ignoring: seq<Id>, cands: seq<Link>)
    requires Closed(t) && r in t && IsRouter(t[r])
    requires IsSuffix(cands, RouteHandlers(t, r)) && cands != []
    requires cands[0] in RouteHandlers(t, r) && IsSuffix(cands[1..], RouteHandlers(t, r))
    ensures var a := Answer(t, r, path, ignoring, cands[0]);
      Search(t, r, path, ignoring, cands).handler ==
        if a.Some? then a else Search(t, r, path, ignoring, cands[1..]).handler
  {
    LinkClosed(t, r, cands[0]);
  }

  /** A router that accepts nothing itself reports the first answer among its candidates. */
  lemma HandleIsFirstSuccess(t: Nodes, r: Id, path: Path, ignoring: seq<Id>)
    requires Closed(t) && r in t && t[r].RouterNode? && path !in t[r].routes
    ensures Handle(t, r, path, ignoring).handler == FirstSome(Answers(t, r, path, ignoring, RouteHandlers(t, r)))
  {
    var full := RouteHandlers(t, r);
    assert IsSuffix(full, full);
    SearchIsFirstSuccess(t, r, path, ignoring, full);
  }

  /** A candidate in `ignoring` is skipped: it answers `nil` and is never asked, at any depth. */
  lemma IgnoredNeverAsked(t: Nodes, r: Id, path: Path, ignoring: seq<Id>, l: Link)
    requires Closed(t) && r in t && IsRouter(t[r])
    requires l.handler in ignoring
    ensures Answer(t, r, path, ignoring, l).None?
    ensures forall i :: 1 <= i < |Handle(t, r, path, ignoring).asked| ==>
      Handle(t, r, path, ignoring).asked[i].handler != l.handler
  {
  }

  /** A router with no candidates reports `nil` after asking nothing. */
  lemma NoCandidatesUnhandled(t: Nodes, r: Id, path: Path, ignoring: seq<Id>)
    requires Closed(t) && r in t && t[r].RouterNode? && path !in t[r].routes
    requires t[r].children == [] && t[r].parent.None?
    ensures Handle(t, r, path, ignoring) == Outcome(None, [Request(r, ignoring)])
  {
    assert Tree(t, r) == [];
    assert RouteHandlers(t, r) == [];
  }

  // ---------------------------------------------------------------------------
  // add(child:priority:) and remove(child:)

  /** `add(child:priority:)`: one link at the end; a router child gets `r` as its parent. */
  function Added(t: Nodes, r: Id, child: Id, priority: Priority): Nodes
    requires r in t && IsRouter(t[r]) && child in t
  {
    var link := Link(child, IsRouter(t[child]), priority);
    var t1 := t[r := WithChildren(t[r], t[r].children + [link])];
    if IsRouter(t[child]) then t1[child := WithParent(t1[child], Some(r))] else t1
  }

  /** The links `removeAll` keeps. */
  function KeptLinks(links: seq<Link>, child: Id): seq<Link> {
    if links == [] then []
    else if links[0].handler == child then KeptLinks(links[1..], child)
    else [links[0]] + KeptLinks(links[1..], child)
  }

  /** Whether `removeAll` meets a `.router` link to `child` (and so clears its parent). */
  predicate HasRouterLink(links: seq<Link>, child: Id) {
    exists i | 0 <= i < |links| :: links[i].handler == child && links[i].isRouter
  }

  /** `remove(child:)` */
  function RemovedChild(t: Nodes, r: Id, child: Id): Nodes
    requires r in t && IsRouter(t[r]) && child in t
  {
    var links := t[r].children;
    var t1 := t[r := WithChildren(t[r], KeptLinks(links, child))];
    if HasRouterLink(links, child) then t1[child := WithParent(t1[child], None)] else t1
  }

  lemma {:induction false} KeptLinksFacts(links: seq<Link>, child: Id)
    ensures forall l :: l in KeptLinks(links, child) <==> l in links && l.handler != child
    ensures (forall l :: l in links ==> l.handler != child) ==> KeptLinks(links, child) == links
    ensures |KeptLinks(links, child)| <= |links|
  {
    if links != [] {
      KeptLinksFacts(links[1..], child);
      assert links == [links[0]] + links[1..];
    }
  }

  /**
    `add` appends exactly one link, with the given priority, and sets the
    parent only of a router child; nothing else changes, and the map stays
    closed.
  */
  lemma AddedFacts(t: Nodes, r: Id, child: Id, priority: Priority)
    requires Closed(t) && r in t && IsRouter(t[r]) && child in t
    ensures var u := Added(t, r, child, priority);
      && u.Keys == t.Keys && IsRouter(u[r])
      && u[r].children == t[r].children + [Link(child, IsRouter(t[child]), priority)]
      && (IsRouter(t[child]) ==> u[child].parent == Some(r))
      && (!IsRouter(t[child]) && child != r ==> u[child] == t[child])
      && (forall n :: n in t && n != r && n != child ==> u[n] == t[n])
      && Closed(u)
  {
  }

  /**
    `remove` drops every link to the child and keeps the others in order; it
    clears the parent of a removed router, does nothing for a handler that is
    not a child, and changes no other object.
  */
  lemma RemovedFacts(t: Nodes, r: Id, child: Id)
    requires r in t && IsRouter(t[r]) && child in t
    ensures var u := RemovedChild(t, r, child);
      && u.Keys == t.Keys && IsRouter(u[r])
      && u[r].children == KeptLinks(t[r].children, child)
      && (forall l :: l in u[r].children <==> l in t[r].children && l.handler != child)
      && (HasRouterLink(t[r].children, child) ==> u[child].parent.None?)
      && ((forall l :: l in t[r].children ==> l.handler != child) ==> u == t)
      && (forall n :: n in t && n != r && n != child ==> u[n] == t[n])
  {
    KeptLinksFacts(t[r].children, child);
    if forall l :: l in t[r].children ==> l.handler != child {
      RemovedNothing(t, r, child);
    }
  }

  lemma RemovedNothing(t: Nodes, r: Id, child: Id)
    requires r in t && IsRouter(t[r]) && child in t
    requires forall l :: l in t[r].children ==> l.handler != child
    ensures RemovedChild(t, r, child) == t
  {
    KeptLinksFacts(t[r].children, child);
    NoLinkNoRouterLink(t[r].children, child);
    assert WithChildren(t[r], t[r].children) == t[r];
    assert t[r := t[r]] == t;
  }

  lemma NoLinkNoRouterLink(links: seq<Link>, child: Id)
    requires forall l :: l in links ==> l.handler != child
    ensures !HasRouterLink(links, child)
  {
    forall i | 0 <= i < |links| ensures links[i].handler != child {
      assert links[i] in links;
    }
  }

  /** `remove` keeps the map closed. */
  lemma RemovedClosed(t: Nodes, r: Id, child: Id)
    requires Closed(t) && r in t && IsRouter(t[r]) && child in t
    ensures Closed(RemovedChild(t, r, child))
  {
    var u := RemovedChild(t, r, child);
    RemovedShape(t, r, child);
    KeptLinksFacts(t[r].children, child);
    forall n | n in u
      ensures u[n].parent.Some? ==> u[n].parent.value in u
      ensures IsRouter(u[n]) && u[n].parent.Some? ==> IsRouter(u[u[n].parent.value])
      ensures IsRouter(u[n]) ==> forall l :: l in u[n].children ==> l.handler in u && (l.isRouter <==> IsRouter(u[l.handler]))
    {
      if IsRouter(u[n]) && n == r {
        forall l | l in u[n].children ensures l.handler in u && (l.isRouter <==> IsRouter(u[l.handler])) {
          assert l in t[r].children;
        }
      }
    }
  }

  /** What `remove` changes: only `r`'s links and, possibly, the child's parent, which it clears. */
  lemma RemovedShape(t: Nodes, r: Id, child: Id)
    requires r in t && IsRouter(t[r]) && child in t
    ensures var u := RemovedChild(t, r, child);
      && u.Keys == t.Keys
      && (forall m :: m in t ==> IsRouter(u[m]) == IsRouter(t[m]))
      && (forall m :: m in t ==> u[m].parent == t[m].parent || u[m].parent.None?)
      && (forall m :: m in t && m != r && IsRouter(t[m]) ==> u[m].children == t[m].children)
      && u[r].children == KeptLinks(t[r].children, child)
  {
  }

  // ---------------------------------------------------------------------------
  // parents and decendents

  /** The parent every object reads. */
  function ParentMap(t: Nodes): map<Id, Id> {
    map n | n in t && t[n].parent.Some? :: t[n].parent.value
  }

  /** The objects a router links to as children (`[]` for a leaf). */
  function ChildIds(t: Nodes, n: Id): (cs: seq<Id>)
    requires n in t
    ensures IsRouter(t[n]) ==> |cs| == |t[n].children| && forall i :: 0 <= i < |cs| ==> cs[i] == t[n].children[i].handler
    ensures !IsRouter(t[n]) ==> cs == []
  {
    if IsRouter(t[n]) then seq(|t[n].children|, i requires 0 <= i < |t[n].children| => t[n].children[i].handler) else []
  }

  /** The child links never loop: every child has a smaller rank than its router. */
  ghost predicate Ranked(t: Nodes, rank: map<Id, nat>) {
    forall n :: n in t ==> n in rank && forall c :: c in ChildIds(t, n) ==> c in t && c in rank && rank[c] < rank[n]
  }

  /** `decendents` */
  function Descendants(t: Nodes, rank: map<Id, nat>, r: Id): seq<Id>
    requires r in t && Ranked(t, rank)
    decreases rank[r], 1
  {
    ChildIds(t, r) + FlatDescendants(t, rank, rank[r], ChildIds(t, r))
  }

  /** `children.flatMap { $0.decendents }` */
  function FlatDescendants(t: Nodes, rank: map<Id, nat>, bound: nat, cs: seq<Id>): seq<Id>
    requires Ranked(t, rank)
    requires forall c :: c in cs ==> c in t && rank[c] < bound
    decreases bound, 0, |cs|
  {
    if cs == [] then [] else Descendants(t, rank, cs[0]) + FlatDescendants(t, rank, bound, cs[1..])
  }

  /** A chain of child links from `p[0]` to its last element. */
  ghost predicate ChildPath(t: Nodes, p: seq<Id>) {
    && |p| >= 2
    && forall i :: 0 <= i < |p| - 1 ==> p[i] in t && p[i + 1] in ChildIds(t, p[i])
  }

  /** The children come first, in their stored order, and a router without children has no descendants. */
  lemma DescendantsStartWithChildren(t: Nodes, rank: map<Id, nat>, r: Id)
    requires r in t && Ranked(t, rank)
    ensures |ChildIds(t, r)| <= |Descendants(t, rank, r)|
    ensures Descendants(t, rank, r)[..|ChildIds(t, r)|] == ChildIds(t, r)
    ensures ChildIds(t, r) == [] ==> Descendants(t, rank, r) == []
  {
  }

  /** Every descendant is reached from the router by child links. */
  lemma {:induction false} DescendantsReachable(t: Nodes, rank: map<Id, nat>, r: Id, d: Id)
    requires r in t && Ranked(t, rank)
    requires d in Descendants(t, rank, r)
    ensures exists p :: ChildPath(t, p) && p[0] == r && p[|p| - 1] == d
    decreases rank[r], 1
  {
    var cs := ChildIds(t, r);
    if d in cs {
      assert ChildPath(t, [r, d]);
    } else {
      FlatReachable(t, rank, rank[r], cs, d);
      var c :| c in cs && d in Descendants(t, rank, c);
      DescendantsReachable(t, rank, c, d);
      var p :| ChildPath(t, p) && p[0] == c && p[|p| - 1] == d;
      var q := ExtendPath(t, r, p);
    }
  }

  lemma ExtendPath(t: Nodes, r: Id, p: seq<Id>) returns (q: seq<Id>)
    requires r in t && ChildPath(t, p) && p[0] in ChildIds(t, r)
    ensures ChildPath(t, q) && q[0] == r && q[|q| - 1] == p[|p| - 1]
  {
    q := [r] + p;
    assert forall i :: 1 <= i < |q| ==> q[i] == p[i - 1];
  }

  lemma {:induction false} FlatReachable(t: Nodes, rank: map<Id, nat>, bound: nat, cs: seq<Id>, d: Id)
    requires Ranked(t, rank)
    requires forall c :: c in cs ==> c in t && rank[c] < bound
    requires d in FlatDescendants(t, rank, bound, cs)
    ensures exists c :: c in cs && d in Descendants(t, rank, c)
    decreases |cs|
  {
    if d !in Descendants(t, rank, cs[0]) {
      FlatReachable(t, rank, bound, cs[1..], d);
      var c :| c in cs[1..] && d in Descendants(t, rank, c);
      assert c in cs;
    }
  }

  function Sum(xs: seq<nat>): nat {
    if xs == [] then 0 else xs[0] + Sum(xs[1..])
  }

  /** The number of descendants is the number of children plus the children's descendant counts. */
  lemma DescendantsCount(t: Nodes, rank: map<Id, nat>, r: Id)
    requires r in t && Ranked(t, rank)
    ensures var cs := ChildIds(t, r);
      |Descendants(t, rank, r)| == |cs| + Sum(seq(|cs|, i requires 0 <= i < |cs| => |Descendants(t, rank, cs[i])|))
  {
    FlatCount(t, rank, rank[r], ChildIds(t, r));
  }

  lemma {:induction false} FlatCount(t: Nodes, rank: map<Id, nat>, bound: nat, cs: seq<Id>)
    requires Ranked(t, rank)
    requires forall c :: c in cs ==> c in t && rank[c] < bound
    ensures |FlatDescendants(t, rank, bound, cs)| ==
      Sum(seq(|cs|, i requires 0 <= i < |cs| => |Descendants(t, rank, cs[i])|))
    decreases |cs|
  {
    if cs != [] {
      FlatCount(t, rank, bound, cs[1..]);
      var counts := seq(|cs|, i requires 0 <= i < |cs| => |Descendants(t, rank, cs[i])|);
      assert counts[1..] == seq(|cs[1..]|, i requires 0 <= i < |cs[1..]| => |Descendants(t, rank, cs[1..][i])|);
    }
  }

  // ---------------------------------------------------------------------------
  // The objects, updated in place

  class RouterTree {
    var nodes: Nodes

    constructor ()
      ensures nodes == map[]
    {
      nodes := map[];
    }

    /** `Router()` (or a subclass accepting `routes` itself): no parent, no children. */
    method InitRouter(id: Id, routes: set<Path>)
      requires id !in nodes
      modifies this
      ensures nodes == old(nodes)[id := RouterNode(None, [], routes)]
    {
      nodes := nodes[id := RouterNode(None, [], routes)];
    }

    /** `add(child:priority:)` */
    method Add(r: Id, child: Id, priority: Priority := Medium)
      requires r in nodes && IsRouter(nodes[r]) && child in nodes
      modifies this
      ensures nodes == Added(old(nodes), r, child, priority)
    {
      if IsRouter(nodes[child]) {
        var link := Link(child, true, priority);
        nodes := nodes[r := WithChildren(nodes[r], nodes[r].children + [link])];
        nodes := nodes[child := WithParent(nodes[child], Some(r))];
      } else {
        var link := Link(child, false, priority);
        nodes := nodes[r := WithChildren(nodes[r], nodes[r].children + [link])];
      }
    }

    /** `remove(child:)`: the `removeAll` pass clears the parent of each `.router` link it drops. */
    method Remove(r: Id, child: Id)
      requires r in nodes && IsRouter(nodes[r]) && child in nodes
      modifies this
      ensures nodes == RemovedChild(old(nodes), r, child)
    {
      var links := nodes[r].children;
      var kept := [];
      var clearParent := false;
      for i := 0 to |links|
        invariant KeptLinks(links, child) == kept + KeptLinks(links[i..], child)
        invariant clearParent <==> exists j | 0 <= j < i :: links[j].handler == child && links[j].isRouter
      {
        assert links[i..][1..] == links[i + 1..];
        if links[i].handler == child {
          if links[i].isRouter {
            clearParent := true;
          }
        } else {
          kept := kept + [links[i]];
        }
      }
      assert links[|links|..] == [];
      assert kept == KeptLinks(links, child);
      assert clearParent == HasRouterLink(links, child);
      ghost var t := nodes;
      nodes := nodes[r := WithChildren(nodes[r], kept)];
      if clearParent {
        nodes := nodes[child := WithParent(nodes[child], None)];
      }
      assert nodes == RemovedChild(t, r, child);
    }

    /** `addPathHandler(priority:pathHandler:)` of the closure revision: a new `ClosurePathHandler` child. */
    method AddPathHandler(r: Id, id: Id, closure: Closure, priority: Priority := Medium) returns (handler: Id)
      requires r in nodes && IsRouter(nodes[r]) && id !in nodes
      modifies this
      ensures handler == id
      ensures nodes == Added(old(nodes)[id := ClosureLeaf(None, closure)], r, id, priority)
    {
      nodes := nodes[id := ClosureLeaf(None, closure)];
      Add(r, id, priority);
      handler := id;
    }

    /** `addPathHandler(priority:pathHandler:)` of the synchronous revision: a new `SynchronousClosurePathHandler` child. */
    method AddSyncPathHandler(r: Id, id: Id, closure: Closure, priority: Priority := Medium) returns (handler: Id)
      requires r in nodes && IsRouter(nodes[r]) && id !in nodes
      modifies this
      ensures handler == id
      ensures nodes == Added(old(nodes)[id := ClosureRouter(None, [], closure)], r, id, priority)
    {
      nodes := nodes[id := ClosureRouter(None, [], closure)];
      Add(r, id, priority);
      handler := id;
    }

    /** `addHandlerForPaths(ofType:priority:pathHandler:)` of the closure revision forwards to `AddPathHandler`. */
    method AddHandlerForPaths(r: Id, id: Id, closure: Closure, priority: Priority := Medium) returns (handler: Id)
      requires r in nodes && IsRouter(nodes[r]) && id !in nodes
      modifies this
      ensures handler == id
      ensures nodes == Added(old(nodes)[id := ClosureLeaf(None, closure)], r, id, priority)
    {
      handler := AddPathHandler(r, id, closure, priority);
    }

    /** `addHandlerForPaths(ofType:priority:pathHandler:)` of the synchronous revision forwards to `AddSyncPathHandler`. */
    method AddSyncHandlerForPaths(r: Id, id: Id, closure: Closure, priority: Priority := Medium) returns (handler: Id)
      requires r in nodes && IsRouter(nodes[r]) && id !in nodes
      modifies this
      ensures handler == id
      ensures nodes == Added(old(nodes)[id := ClosureRouter(None, [], closure)], r, id, priority)
    {
      handler := AddSyncPathHandler(r, id, closure, priority);
    }

    /**
      `handle(path:ignoring:completionHandler:)`: walks an iterator over
      `routeHandlers`, skipping links in `ignoring`, asking routers with
      `ignoring + [self]` and leaves with their own `handle`, and stops at the
      first handler reported.
    */
    method HandlePath(r: Id, path: Path, ignoring: seq<Id>) returns (handler: Option<Id>)
      requires Closed(nodes) && r in nodes && IsRouter(nodes[r])
      ensures handler == Handle(nodes, r, path, ignoring).handler
      decreases Measure(nodes, r, ignoring)
    {
      var t := nodes;
      if t[r].ClosureRouter? {
        return Delivered(SyncClosureHandle(r, t[r].closure, path, ignoring, None, true));
      }
      if path in t[r].routes {
        return Some(r);
      }
      HandleIsFirstSuccess(t, r, path, ignoring);
      RouteHandlersClosed(t, r);
      var candidates := RouteHandlers(t, r);
      var ignoringIncludingSelf := ignoring + [r];
      var i := 0;
      while i < |candidates|
        invariant 0 <= i <= |candidates|
        invariant Handle(t, r, path, ignoring).handler == FirstSome(Answers(t, r, path, ignoring, candidates[i..]))
      {
        var next := candidates[i];
        AnswersCons(t, r, path, ignoring, candidates[i..]);
        FirstSomeCons(Answers(t, r, path, ignoring, candidates[i..]));
        assert candidates[i..][1..] == candidates[i + 1..];
        assert next in candidates;
        i := i + 1;
        if next.handler in ignoring {
          continue;
        }
        if next.isRouter {
          MeasureDecreases(t, r, ignoring, next.handler);
          handler := HandlePath(next.handler, path, ignoringIncludingSelf);
        } else {
          handler := Delivered(LeafEvents(t, next.handler, path));
        }
        if handler.Some? {
          return;
        }
      }
      handler := None;
    }

    /** `parents`: the routers above `r`, closest first, collected by the iterator. */
    method Parents(r: Id) returns (s: seq<Id>)
      requires Chains.Rooted(ParentMap(nodes))
      ensures s == Chains.Chain(ParentMap(nodes), r)
    {
      s := Chains.CollectParents(ParentMap(nodes), r);
    }
  }
}
