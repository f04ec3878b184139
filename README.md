# Shepherd dispatch trees in Dafny

Shepherd routes two kinds of requests through trees of handler objects.
An `NSUserActivity` is offered to a tree of activity handlers. A path value is
offered to a tree of routers and path handlers. Every handler first tries to
take the request itself. Otherwise it asks its neighbours in a fixed order:

- a stacked handler, then the children, then the parent, for activities;
- the children and the parent sorted by `Priority`, for paths.

Each call tells the neighbour whom to ignore, so that the search does not walk
back the way it came. The first neighbour that reports a handler ends the
search.

The model covers three revisions of that core:

- **The synchronous activity tree** (`ActivityHandlers`, `ActivityTrees`):
  `ActivityHandler`, `ActivityHandlerAggregate` and
  `StackingActivityHandlerAggregate`. Children and the stacked handler are held
  strongly or weakly (`Storage`).
- **The router revision** (`Routers`, `ClosureHandlers`, `PathExecutors`):
  `Router`, with children linked at a `Priority` (`Priorities`) and sorted
  stably (`StableSort`), closure path handlers, and `PathExecutor`.
- **The protocol revision** (`LegacyTraversal`, `LegacyActivityTrees`):
  `traverseTreeToHandle(activity:ignoring:)`, which asks the children last-added
  first and picks one handler from a stack, and the classes
  `ActivityHandlerAggregate` and `StackableActivityHandlerAggregate` built on it.

Objects live in an arena: a map from an object identity (`Id`) to the object's
stored fields. Weak references are resolved against the set of objects still
alive. The parent chains (`ancestors`, `parents`) are in `Chains`.

Each search is a recursive function. It returns the handler found together
with the trace of every `handle` call made, in order, and with the `ignoring`
argument each call received. The main theorem of each tree says the same
thing: the result is the first non-`nil` answer among the candidates, in the
source's order (`Common.FirstSome`). No candidate is asked after the winner.
The mutating classes (`ActivityTrees.ActivityTree`, `Routers.RouterTree`,
`LegacyActivityTrees.LegacyTree`) keep the arena in fields. Each of their
methods is specified against an update function, and the lemmas about those
functions state what `append`, `remove`, `stack`, `push` and `add` do to the
children, the stacked slot and the parent links.

Where the documentation and the code disagree, the model follows the code,
with two exceptions: the stacked-handler pick of the protocol revision, which
traps as written (see "## Findings" and "## Left out"), and the sort in
`routeHandlers` (the last item below, and "## Left out"):

- The comment at `Source/ActivityHandlerAggregate.swift:55-74` lists the order
  D, B, E, F, A, C, G for its example tree. The code asks the children of B
  last-added first, so the order it produces is D, B, F, E, A, C, G
  (`LegacyTraversal.DocTreeOrder`).
- `Sources/Shepherd/Router.swift:15` says the parent is linked at
  `Priority.parent`. `routeHandlers` (line 22) links it at `.low`, and the model
  uses `.low`.
- `routeHandlers` sorts with `sorted(by:)`. The comment above it (lines 17-18)
  and the type's documentation (lines 4-6) promise insertion order among equal
  priorities, while the comment at lines 33-35 admits that `sorted` is not
  guaranteed to be stable. The model follows the documentation rather than
  the code: it uses the stable sort of `Sequence+stableSorted.swift`, so the
  promise holds.

## Model

| member | source | states |
|---|---|---|
| Common.FirstSome | Sources/Shepherd/ActivityHandlerAggregate.swift:59-63 | the first-answer-wins loop: `nil` exactly when every answer is `nil`; otherwise the earliest non-`nil` answer, with only `nil` answers before it |
| Common.FirstSomeAppend | Sources/Shepherd/ActivityHandlerAggregate.swift:59-65 | over a concatenation, the first answer is the first of the prefix, or the first of the suffix when the prefix has none |
| Priorities.RawValue | Sources/Shepherd/Priority.swift:10-19 | the raw values are high 1000, medium 500, low 100, parent 0 |
| Priorities.RawValueInjective | Sources/Shepherd/Priority.swift:10-19 | distinct priorities have distinct raw values |
| Priorities.CaseOrder | Sources/Shepherd/Priority.swift:5-7 | `<` on raw values orders parent < low < medium < high, case by case |
| Priorities.LessIsStrictTotalOrder | Sources/Shepherd/Priority.swift:5-7 | `<` is irreflexive, asymmetric, transitive and total on distinct priorities |
| Priorities.TriedBeforeMeansHigher | Sources/Shepherd/Router.swift:23 | the comparator `$0.priority > $1.priority` puts a handler first exactly when its raw value is larger: high, medium, low, parent |
| StableSort.TieBreakIsStrictWeakOrder | Sources/Shepherd/Sequence+stableSorted.swift:4-7 | comparing by the given order and breaking ties by the original offset is a strict weak order whenever the given order is one |
| StableSort.StableSortedIsPermutation | Sources/Shepherd/Sequence+stableSorted.swift:2-9 | the result has the same length and the same multiset of elements as the input |
| StableSort.StableSortedIsOrdered | Sources/Shepherd/Sequence+stableSorted.swift:2-9 | no later element of the result is strictly less than an earlier one |
| StableSort.StableSortedIsStable | Sources/Shepherd/Sequence+stableSorted.swift:4-7 | the result at position i is the input at a distinct recorded offset, and equivalent elements keep their input order |
| StableSort.StableSortedUnique | Sources/Shepherd/Sequence+stableSorted.swift:2-9 | any permutation of the offset-tagged input that is ordered by the tie-broken order equals the computed one, so the result does not depend on which sorting algorithm `sorted` uses |
| StableSort.StableSortedIdempotent | Sources/Shepherd/Sequence+stableSorted.swift:2-9 | sorting a stably sorted sequence again leaves it unchanged |
| Storage.StrongAlwaysYields | Sources/Shepherd/ObjectStorage.swift:7-8 | a strongly held object is always returned |
| Storage.WeakYieldsWhileLive | Sources/Shepherd/ObjectStorage.swift:15-23 | a weakly held object is returned exactly while it is alive, and `nil` exactly once it is gone |
| Storage.ObjectIsStoredOrNil | Sources/Shepherd/ObjectStorage.swift:5-12 | reading storage gives either the stored object or `nil`, never another object |
| Storage.ObjectUnderRelease | Sources/Shepherd/ObjectStorage.swift:9-10 | releasing objects can only turn a read into `nil`; releasing other objects changes nothing |
| Storage.Store | Sources/Shepherd/StorageOption.swift:12-19 | `store` wraps the given object, strongly exactly for `.strongly` |
| Storage.StoreThenRead | Sources/Shepherd/StorageOption.swift:12-19 | an object stored while alive reads back as itself |
| Storage.OnlyWeakReadsNil | Sources/Shepherd/StorageOption.swift:14-17 | a stored object reads as `nil` exactly when it was stored weakly and has been released |
| Chains.ChainShape | Sources/Shepherd/ActivityHandler+Ancestors.swift:33-37 | the ancestor sequence starts at the parent, each element is the parent of the one before, it ends at a root, and it is empty exactly for a root |
| Chains.ParentsIterator.Next | Sources/Shepherd/ActivityHandler+Ancestors.swift:33-37 | `next()` returns the current object's parent and moves to it, or returns `nil` and stays put at a root |
| Chains.CollectParents | Sources/Shepherd/PathHandler+parents.swift:4-6 | draining the parents iterator yields exactly the ancestor chain |
| ActivityHandlers.WithoutMembers | Sources/Shepherd/ActivityHandlerAggregate.swift:59 | `where child !== ignoring` keeps exactly the elements other than the ignored one, and never lengthens the list |
| ActivityHandlers.ChildrenMembers | Sources/Shepherd/ActivityHandlerAggregate.swift:12-14 | `children` holds every strongly held child and every weakly held child that is still alive, and nothing else |
| ActivityHandlers.ChildrenInOrder | Sources/Shepherd/ActivityHandlerAggregate.swift:12-14 | when no weakly held child has been released, `children` is every stored child in insertion order |
| ActivityHandlers.ReleasedChild | Sources/Shepherd/ActivityHandlerAggregate.swift:12-14 | once an object is released it remains a child exactly when it was held strongly |
| ActivityHandlers.ReleasedStackedHandler | Sources/Shepherd/StackingActivityHandlerAggregate.swift:13-15 | a released stacked handler is still returned if held strongly and becomes `nil` if held weakly |
| ActivityHandlers.ReleasedParent | Sources/Shepherd/ActivityHandler.swift:11 | the weak parent reads as the stored parent while it lives, and as `nil` once it is released |
| ActivityHandlers.CandidatesMembers | Sources/Shepherd/StackingActivityHandlerAggregate.swift:53-61 | the handlers asked are exactly the stacked handler of a stacking aggregate, the children of an aggregate and the parent, minus the ignored one |
| ActivityHandlers.CandidateDecreases | Sources/Shepherd/ActivityHandlerAggregate.swift:59-65 | every handler asked is alive, and the recursion measure drops: a handler is never asked about the request that reached it |
| ActivityHandlers.Handle | Sources/Shepherd/StackingActivityHandlerAggregate.swift:53-61 | the first call is the handler itself with the given `ignoring`, the result is a handler that accepts the activity, and no call follows the one that returned it |
| ActivityHandlers.Ask | Sources/Shepherd/ActivityHandlerAggregate.swift:59-63 | candidates are asked in order with `ignoring: self`; no call is made exactly when there is no candidate |
| ActivityHandlers.AskIsFirstSuccess | Sources/Shepherd/ActivityHandlerAggregate.swift:59-63 | asking the remaining candidates returns the first non-`nil` answer among them |
| ActivityHandlers.HandleIsFirstAnswer | Sources/Shepherd/StackingActivityHandlerAggregate.swift:53-61 | a handler that does not take the activity itself returns the first non-`nil` answer of the stacked handler, the children, then the parent |
| ActivityHandlers.PlainHandle | Sources/Shepherd/ActivityHandler.swift:29-32 | a plain handler returns `nil` without further calls when it has no parent or the parent is ignored; otherwise it returns what its parent returns when asked with `ignoring: self` |
| ActivityHandlers.ReturnedHandlerAccepted | Sources/Shepherd/ActivityHandler.swift:17-32 | a returned handler accepts the activity, and a handler that accepts nothing itself never returns itself |
| ActivityHandlers.StackedHandlerFirst | Sources/Shepherd/StackingActivityHandlerAggregate.swift:54-60 | a live, non-ignored stacked handler is asked first and its answer wins; if it declines, or is absent or ignored, the result is that of the aggregate search |
| ActivityHandlers.ChildrenThenParent | Sources/Shepherd/ActivityHandlerAggregate.swift:58-66 | when the stacked handler and every child decline, the result is the parent's answer, or `nil` if there is no parent or the parent is ignored |
| ActivityHandlers.EmptyHandlerUnhandled | Sources/Shepherd/StackingActivityHandlerAggregate.swift:53-61 | a handler with no stacked handler, no children and no parent returns `nil` after asking no-one |
| ActivityHandlers.KeptFacts | Sources/Shepherd/ActivityHandlerAggregate.swift:39-43 | `removeAll` drops exactly the live entries equal to the child; the count changes exactly when the child was present |
| ActivityHandlers.AppendedFacts | Sources/Shepherd/ActivityHandlerAggregate.swift:26-29 | `append` adds the stored child at the end of `children` and sets the child's parent to the aggregate; every other field of both, the live set and every other handler are unchanged |
| ActivityHandlers.RemovedFacts | Sources/Shepherd/ActivityHandlerAggregate.swift:38-46 | `remove` takes the child out of `children`; it clears the child's parent only if the child was removed, and otherwise changes nothing; only the aggregate's children and the child's parent can change |
| ActivityHandlers.StackedRemovedFacts | Sources/Shepherd/StackingActivityHandlerAggregate.swift:37-40 | `removeStackedHandler` empties the slot, clears the old stacked handler's parent and keeps the children; the live set, the objects and every other handler are unchanged |
| ActivityHandlers.StackedFacts | Sources/Shepherd/StackingActivityHandlerAggregate.swift:27-32 | `stack` installs the new handler with this aggregate as its parent, clears the parent of a replaced handler and keeps the children; the live set, the objects and every handler other than the aggregate, the new handler and the replaced one are unchanged |
| ActivityTrees.ActivityTree.Init | Sources/Shepherd/ActivityHandlerAggregate.swift:16-17 | a new handler is alive and has no parent, no children and no stacked handler |
| ActivityTrees.ActivityTree.Release | Sources/Shepherd/ObjectStorage.swift:15-23 | deallocating an object removes it from the live set and changes no stored field |
| ActivityTrees.ActivityTree.Append | Sources/Shepherd/ActivityHandlerAggregate.swift:26-29 | the new state is the `append` update (see `AppendedFacts`) |
| ActivityTrees.ActivityTree.Remove | Sources/Shepherd/ActivityHandlerAggregate.swift:38-46 | the loop computes the `remove` update (see `RemovedFacts`) |
| ActivityTrees.ActivityTree.RemoveStackedHandler | Sources/Shepherd/StackingActivityHandlerAggregate.swift:37-40 | the new state is the `removeStackedHandler` update |
| ActivityTrees.ActivityTree.Stack | Sources/Shepherd/StackingActivityHandlerAggregate.swift:27-32 | the new state is the `stack` update: the old handler is removed first, then the new one is stored |
| ActivityTrees.ActivityTree.BaseHandle | Sources/Shepherd/ActivityHandler.swift:29-32 | the base `handle` returns the first answer from the non-ignored parent |
| ActivityTrees.ActivityTree.AggregateHandle | Sources/Shepherd/ActivityHandlerAggregate.swift:58-66 | the loop over the non-ignored children, then `super`, returns the first answer among the children and the parent |
| ActivityTrees.ActivityTree.StackingHandle | Sources/Shepherd/StackingActivityHandlerAggregate.swift:53-61 | the stacked handler, then `super`, returns the first answer among the stacked handler, the children and the parent |
| ActivityTrees.ActivityTree.HandleActivity | Sources/Shepherd/StackingActivityHandlerAggregate.swift:53-61 | dynamic dispatch on the object's class returns exactly the handler of the search `Handle` |
| ActivityTrees.ActivityTree.Ancestors | Sources/Shepherd/ActivityHandler+Ancestors.swift:7-9 | `ancestors` yields exactly the parent chain, closest first |
| ClosureHandlers.ClosureHandle | Sources/Shepherd/ClosurePathHandler.swift:13-22 | the closure is consulted exactly when the path has its path type; the completion, if given, is called exactly once, last |
| ClosureHandlers.ClosureDecision | Sources/Shepherd/ClosurePathHandler.swift:13-22 | the handler reports itself exactly when the path has the right type and the closure takes it, and otherwise reports `nil`; a path of another type never reaches the closure; the earlier `ClosureRouteHandler`, which has no parent, decides the same way |
| ClosureHandlers.SyncBridge | Sources/Shepherd/SynchronousPathHandler.swift:20-23 | the synchronous `handle(path:)` is called first, and its result is passed to the completion exactly once |
| ClosureHandlers.SyncClosureHandle | Sources/Shepherd/SynchronousClosurePathHandler.swift:11-24 | the completion receives the handler itself exactly when the path has the right type and the closure returns `true`, and `nil` otherwise |
| ClosureHandlers.SyncClosureIgnoresContext | Sources/Shepherd/SynchronousClosurePathHandler.swift:11-16 | the result does not depend on `ignoring` or on the executor |
| Routers.HigherFirstIsStrictWeakOrder | Sources/Shepherd/Router.swift:23 | the `routeHandlers` comparator is a strict weak order, so the stable sort is well defined |
| Routers.RouteHandlersOrder | Sources/Shepherd/Router.swift:20-24 | `routeHandlers` is a permutation of the children plus the parent at `.low`, ordered by non-increasing raw priority, with equal priorities in insertion order |
| Routers.RouteHandlersClosed | Sources/Shepherd/Router.swift:143-181 | every linked handler exists, and its `.router` tag agrees with whether the object is a router |
| Routers.LeafHandle | Sources/Shepherd/Router.swift:90-97 | a path handler that is not a router is called once, with no `ignoring` list, and reports exactly its own decision (the closure's or the synchronous result) |
| Routers.MeasureDecreases | Sources/Shepherd/Router.swift:68-69 | passing `ignoring + [self]` to a router not already ignored strictly lowers the recursion measure |
| Routers.Handle | Sources/Shepherd/Router.swift:61-102 | the first call is the router itself; every later call goes to a handler outside `ignoring`, with a list extending `ignoring + [self]`; the handler reported is the own decision of the last handler called, and none called before it decided anything |
| Routers.Search | Sources/Shepherd/Router.swift:71-99 | the candidates outside `ignoring` are tried in order, and no call is made after the one that produced the handler |
| Routers.ConfinedAfterRouter | Sources/Shepherd/Router.swift:82-89 | a router asked with `ignoringIncludingSelf` never reaches a handler of the original `ignoring` |
| Routers.SearchIsFirstSuccess | Sources/Shepherd/Router.swift:71-99 | the search returns the first non-`nil` answer of the remaining candidates; ignored candidates answer `nil` |
| Routers.HandleIsFirstSuccess | Sources/Shepherd/Router.swift:61-102 | a router that does not accept the path itself reports the first non-`nil` answer over `routeHandlers`, in priority order |
| Routers.IgnoredNeverAsked | Sources/Shepherd/Router.swift:77-80 | a handler in `ignoring` contributes no answer and is never called |
| Routers.NoCandidatesUnhandled | Sources/Shepherd/Router.swift:72-74 | a router with no children and no parent completes with `nil` and asks no-one |
| Routers.KeptLinksFacts | Sources/Shepherd/Router.swift:129-136 | `removeAll` keeps exactly the links to other handlers and leaves the list unchanged when the child is absent |
| Routers.AddedFacts | Sources/Shepherd/Router.swift:111-120 | `add` appends a link with the given priority and the right kind; a router child gets this router as parent; nothing else changes; the arena stays closed |
| Routers.RemovedFacts | Sources/Shepherd/Router.swift:128-137 | `remove` drops every link to the child, clears the parent of a removed router, and does nothing when the child is not linked |
| Routers.RemovedClosed | Sources/Shepherd/Router.swift:128-137 | removing a child keeps every link pointing at an existing object of the right kind |
| Routers.DescendantsStartWithChildren | Sources/Shepherd/Router+decendents.swift:4-6 | `decendents` starts with the children in order and is empty for a router without children |
| Routers.DescendantsReachable | Sources/Shepherd/Router+decendents.swift:4-6 | every descendant is reachable from the router along child links |
| Routers.FlatReachable | Sources/Shepherd/Router+decendents.swift:5 | every element of `children.flatMap { $0.decendents }` is a descendant of one of the children |
| Routers.DescendantsCount | Sources/Shepherd/Router+decendents.swift:5 | the count of descendants is the number of children plus the children's descendant counts |
| Routers.FlatCount | Sources/Shepherd/Router+decendents.swift:5 | the flattened list is as long as the sum of its parts |
| Routers.RouterTree.InitRouter | Sources/Shepherd/Router.swift:29-30 | a new router has no parent and no children |
| Routers.RouterTree.Add | Sources/Shepherd/Router.swift:111-120 | the new state is the `add` update (see `AddedFacts`), with priority `.medium` by default |
| Routers.RouterTree.Remove | Sources/Shepherd/Router.swift:128-137 | the loop over the links computes the `remove` update (see `RemovedFacts`) |
| Routers.RouterTree.AddPathHandler | Sources/Shepherd/ClosurePathHandler.swift:47-54 | a fresh closure path handler is added at the given priority and returned; the earlier `add(pathHandler:priority:)` of `ClosureRouteHandler` does the same |
| Routers.RouterTree.AddSyncPathHandler | Sources/Shepherd/SynchronousClosurePathHandler.swift:49-56 | a fresh synchronous closure router is added at the given priority and returned |
| Routers.RouterTree.AddHandlerForPaths | Sources/Shepherd/ClosurePathHandler.swift:67-73 | forwards to `addPathHandler` with the same closure and priority |
| Routers.RouterTree.AddSyncHandlerForPaths | Sources/Shepherd/SynchronousClosurePathHandler.swift:69-75 | forwards to the synchronous `addPathHandler` |
| Routers.RouterTree.HandlePath | Sources/Shepherd/Router.swift:61-102 | the iterator loop with recursive `handle` calls reports exactly the handler of `Handle` |
| Routers.RouterTree.Parents | Sources/Shepherd/Router+parents.swift:4-6 | `parents` is exactly the parent chain, closest first |
| PathExecutors.PathExecutor.constructor | Sources/Shepherd/PathExecutor.swift:25-28 | the executor records its path, initial router, routers to ignore and previous executor |
| PathExecutors.PathExecutor.TriedCalls | Sources/Shepherd/PathExecutor.swift:43-58 | every router asked is one the iterator yielded and not skipped, and is asked for the executor's path with `ignoring: routersToIgnore`, unextended |
| PathExecutors.PathExecutor.Unskipped | Sources/Shepherd/PathExecutor.swift:48-56 | the routers tried are exactly those not in `routersToIgnore` and not the previous executor's initial router |
| PathExecutors.PathExecutor.TriedIsFirstSuccess | Sources/Shepherd/PathExecutor.swift:40-65 | the executor succeeds with the first non-`nil` answer of the unskipped routers, and otherwise fails with `unhandledPath(path)` |
| PathExecutors.PathExecutor.TriedAsks | Sources/Shepherd/PathExecutor.swift:40-65 | the calls made are a prefix of the unskipped routers' calls; failure means every one was made and answered `nil`; success comes from the last call made |
| PathExecutors.PathExecutor.TryNext | Sources/Shepherd/PathExecutor.swift:40-65 | the loop over the iterator produces the result and the calls of the specification `Tried` |
| PathExecutors.PathExecutor.Execute | Sources/Shepherd/PathExecutor.swift:30-33 | `execute` tries the initial router's route handlers |
| PathExecutors.PathExecutor.TryRouter | Sources/Shepherd/PathExecutor.swift:35-38 | `tryRouter` tries the given router's route handlers |
| LegacyTraversal.AsWrittenSelection | Source/ActivityHandlerAggregate.swift:84-86 | with an ignored handler, the written split traps when that handler is not on the stack, and otherwise picks the ignored handler itself |
| LegacyTraversal.AsWrittenCounterexamples | Source/ActivityHandlerAggregate.swift:84-86 | an empty stack with an ignored handler traps; the stack [1, 2] ignoring 2 picks 2 |
| LegacyTraversal.StackSelection | Source/ActivityHandlerAggregate.swift:82-89 | the corrected pick is the top-most stacked handler other than the ignored one, and `nil` exactly when there is none |
| LegacyTraversal.SelectionsAgreeWithoutIgnoring | Source/ActivityHandlerAggregate.swift:87-88 | without an ignored handler both picks are the top of the stack |
| LegacyTraversal.WithoutMembers | Source/ActivityHandlerAggregate.swift:103 | `where child !== ignoring` keeps exactly the other children |
| LegacyTraversal.CandidatesMembers | Source/ActivityHandlerAggregate.swift:102-112 | the children are asked last-added first, minus the ignored one, and the ignored handler is never a candidate |
| LegacyTraversal.CandidateDecreases | Source/ActivityHandlerAggregate.swift:102-116 | every aggregate asked lowers the recursion measure, so the traversal terminates on a well-formed tree |
| LegacyTraversal.LeafHandle | Source/ActivityHandlerAggregate.swift:108-110 | a handler that is not an aggregate is returned exactly when its Boolean `handle` accepts the activity |
| LegacyTraversal.Traverse | Source/ActivityHandlerAggregate.swift:81-119 | the first call is the handler itself; any handler returned accepts the activity, and nothing is asked after it |
| LegacyTraversal.Ask | Source/ActivityHandlerAggregate.swift:103-111 | asking candidates in turn stops at the first that accepts |
| LegacyTraversal.AskIsFirstSuccess | Source/ActivityHandlerAggregate.swift:103-111 | the remaining candidates give the first non-`nil` answer |
| LegacyTraversal.TraverseIsFirstSuccess | Source/ActivityHandlerAggregate.swift:81-119 | the traversal returns the first non-`nil` answer among the picked stacked handler, the reversed children and the parent |
| LegacyTraversal.HandleBoolMeansAccepted | Source/ActivityHandlerAggregate.swift:25-27 | `handle(activity:)` is `true` exactly when some handler on the traversal accepted the activity |
| LegacyTraversal.DocTreeCandidates | Source/ActivityHandlerAggregate.swift:57-61 | in the documented tree, D asks B; B, ignoring D, asks F, E, then A; A, ignoring B, asks C; C asks G |
| LegacyTraversal.DocTreeOrder | Source/ActivityHandlerAggregate.swift:55-74 | starting at D, the calls are D, B, F, E, A, C, G and G is returned |
| LegacyTraversal.DocTreeFrom | Source/ActivityHandlerAggregate.swift:63-74 | the same order and result for every tree with the documented shape |
| LegacyActivityTrees.RemovedAlwaysFacts | Source/Shepherd/ActivityHandlerAggregate.swift:22-25 | `remove` drops the child and always clears its parent, even when the child was never added |
| LegacyActivityTrees.PushedFacts | Source/Shepherd/StackableActivityHandlerAggregate.swift:14-17 | `push` stores the handler strongly, sets its parent and changes no other handler |
| LegacyActivityTrees.PushKeepsReplacedParent | Source/Shepherd/StackableActivityHandlerAggregate.swift:14-17 | unlike `stack` in the later revision, `push` leaves the replaced handler's parent pointing at the aggregate |
| LegacyActivityTrees.StrongChildrenNeverFiltered | Source/Shepherd/ActivityHandlerAggregate.swift:5 | children held strongly are all reported, in order, and `append` and `remove` keep them strong |
| LegacyActivityTrees.KeptStrong | Source/Shepherd/ActivityHandlerAggregate.swift:23 | `removeAll` keeps only strong entries when given only strong entries |
| LegacyActivityTrees.LegacyTree.Init | Source/Shepherd/ActivityHandlerAggregate.swift:7 | a new aggregate has no parent, no children and an empty stack slot |
| LegacyActivityTrees.LegacyTree.Append | Source/Shepherd/ActivityHandlerAggregate.swift:13-16 | the new state is `append` with the child held strongly |
| LegacyActivityTrees.LegacyTree.Remove | Source/Shepherd/ActivityHandlerAggregate.swift:22-25 | the new state is the unconditional `remove` (see `RemovedAlwaysFacts`) |
| LegacyActivityTrees.LegacyTree.Push | Source/Shepherd/StackableActivityHandlerAggregate.swift:14-17 | the new state is the `push` update |
| LegacyActivityTrees.LegacyTree.HandleActivity | Source/Shepherd/StackableActivityHandlerAggregate.swift:60-68 | dispatch on the class: an accepting override returns the handler itself, otherwise the class's `handle` runs; the result is the handler of the search `Handle` |
| LegacyActivityTrees.LegacyTree.BaseHandle | Source/Shepherd/ActivityHandlerAggregate.swift:43 | `super.handle` gives the first answer of the parent candidate: `nil` when there is no parent or it is `ignoring`, else the parent's answer with `ignoring: self` |
| LegacyActivityTrees.LegacyTree.AggregateHandle | Source/Shepherd/ActivityHandlerAggregate.swift:36-44 | the loop over the children in the order added, with its early return and the `super` fallback, returns the first non-`nil` answer of the children other than `ignoring`, then the parent |
| LegacyActivityTrees.LegacyTree.StackableHandle | Source/Shepherd/StackableActivityHandlerAggregate.swift:60-68 | the stacked handler first, unless it is `ignoring`, then `super`: the first non-`nil` answer of all candidates |

## Left out

- Asynchrony: completion handlers are modelled by the value they receive and by the trace of calls. Each closure is taken to call its completion exactly once and synchronously. A closure that never calls back, calls back twice or calls back later is not modelled.
- Reference counting: which objects are still alive is an input (the `live` set and `ActivityTree.Release`). Deallocation triggered by dropping the last strong reference is not computed.
- Router liveness: `Router.parent` is weak, but the router arena does not track deallocation; every linked router is taken to be alive.
- Type casts (`as? Router`, `as? Path`, `as? ActivityHandlerAggregate`, `as? ActivityHandlerNode`) are modelled as constructor tags and as a `pathType` field on paths.
- `NSUserActivity` is an opaque string; which activities or paths a subclass override accepts is a set (`handles`, `routes`, `Closure.handled`, `SyncLeaf.answers`).
- `Sources/Shepherd/Router.swift` has no `executor` parameter and no public `routeHandlers`, while `PathExecutor.swift` and `SynchronousClosurePathHandler.swift` use both. `PathExecutor` therefore takes each router's route handlers and each router's answer as parameters, and the executor argument of a synchronous closure router is accepted and ignored.
- PathExecutors.PathExecutor.TryNext: the recursion on `tryNext(iterator:)` from inside a completion is modelled as a loop, assuming each router calls back synchronously and once.
- The base `ActivityHandler` class of the protocol revision (`Source/Shepherd`) is not part of this model. Its `handle(activity:ignoring:)` is taken to be the parent fallback of the later revision, so `LegacyTree.BaseHandle` asks the parent as the later revision's `ActivityTree.BaseHandle` does, and the legacy methods are proved against the same search `ActivityHandlers.Handle`.
- `UIApplicationShortcutItem+NSUserActivity.swift` (a conversion helper) and `Package.swift` are outside the dispatch core.
- The protocols `PathHandler` and `RouteHandler`, and the protocol part of `Source/ActivityHandlerAggregate.swift` (lines 3-12), declare requirements only; the model's datatypes stand for them.
- LegacyTraversal.WellFormed: `Source/ActivityHandlerNode.swift:5` declares a node's `parent` as a non-optional aggregate that is itself a node, so in Swift every parent chain goes on for ever and, in a finite tree, closes into a cycle (at best a root that is its own parent). The model instead lets a root aggregate have no parent (`parent == None`, as node 1 of `DocTree`), and `WellFormed` requires every parent chain to end. Trees whose chains loop are not modelled, so the root's own final upward call, which in Swift re-asks its subtree (a root that is its own parent) or never ends (a longer cycle), is not captured by `Traverse` or by any lemma about it.
- LegacyTraversal.Traverse: asks the corrected stacked pick `StackSelection`, not the pick written at `Source/ActivityHandlerAggregate.swift:85`. As written, a stackable aggregate reached with a non-nil `ignoring` that is not on its stack traps; that is every stackable aggregate asked by one of its children or by its parent. The as-written pick is modelled separately (`AsWrittenSelection`) and compared in "## Findings".
- ActivityHandlers.WellFormed: `Handle`, every lemma about the search and `ActivityTree.HandleActivity` require that every child and stacked handler of a live holder names that holder as its parent, that parents exist, and that parent chains end. `append` (`Sources/Shepherd/ActivityHandlerAggregate.swift:26-29`) and `stack` (`Sources/Shepherd/StackingActivityHandlerAggregate.swift:27-32`) never take a child away from its previous holder, so the public API builds arenas that break this rule, and those arenas are not modelled. Some of them still terminate in Swift (a child appended to an unrelated second aggregate). One does not: after `n.append(p); n.append(c); p.append(c)`, with no handler accepting, `n.handle` asks `p` (which declines), then asks `c` with `ignoring: n`. `c` asks its parent `p` with `ignoring: c`, `p` asks its parent `n` with `ignoring: p`, `n` asks `c` with `ignoring: n` again, and the recursion never ends.
- Routers.RouteHandlers: sorts with the stable sort of `Sequence+stableSorted.swift`, whereas `Sources/Shepherd/Router.swift:23` calls the standard `sorted(by:)`, which lines 33-35 say is not guaranteed to be stable (the package targets Swift tools 4.2). The model therefore promises insertion order among equal priorities, as the documentation at lines 4-6 and 17-18 does; with an unstable `sorted`, handlers of equal priority could be asked in another order.
- Routers.Descendants: `Router+decendents.swift` was written when `children` held routers only. Here `children` is every linked handler, and a linked handler that is not a router has no descendants.

## Findings

| source | as written | input that shows it | evidently intended | confidence | as-written member | corrected member |
|---|---|---|---|---|---|---|
| Source/ActivityHandlerAggregate.swift:84-86 | `stackedHandlers.split(maxSplits: 1, whereSeparator: { $0 !== ignoring }).first!` splits on every handler that is not the ignored one, so the piece it keeps is made of the ignored handler alone | with `ignoring` not on the stack (an empty stack, or a child calling back up), `first!` traps; with stack [1, 2] and `ignoring` 2, handler 2 is picked and asked again | ask the top-most stacked handler that is not the ignored one, or none | not executed; high that the trap is unintended, medium on the exact pick | LegacyTraversal.AsWrittenCounterexamples | LegacyTraversal.StackSelection |
