/**
  The leaf path handlers: `ClosurePathHandler` (an asynchronous closure
  reporting whether it handled a path), the older copy of it kept with
  `add(pathHandler:priority:)`, `SynchronousClosurePathHandler` (a router
  subclass whose handling is a synchronous closure) and the default
  `handle(path:completionHandler:)` that every `SynchronousPathHandler`
  inherits.

  A call is modelled by the sequence of things it does, in order: asking the
  user's closure, running the synchronous `handle(path:)`, and calling the
  completion handler. A `nil` completion handler is `hasCompletion == false`.
*/
module ClosureHandlers {
  import opened Common

  /** A path value together with its Swift type; `as? Path` is a type-name test. */
  datatype Path = Path(pathType: string, value: string)

  /** A user closure for paths of type `pathType`: it reports `true` for exactly the paths in `handled`. */
  datatype Closure = Closure(pathType: string, handled: set<Path>)

  datatype Event =
    | ClosureAsked(path: Path)
    | SyncHandleAsked(path: Path)
    | Completed(handler: Option<Id>)

  /** The completion handler was called exactly once, as the last thing the call did. */
  ghost predicate CompletedOnceAtEnd(events: seq<Event>) {
    && events != [] && events[|events| - 1].Completed?
    && forall i :: 0 <= i < |events| - 1 ==> !events[i].Completed?
  }

  /** The value passed to the completion handler (`nil` when it was never called). */
  function Delivered(events: seq<Event>): Option<Id> {
    if events != [] && events[|events| - 1].Completed? then events[|events| - 1].handler else None
  }

  /** `ClosurePathHandler.handle(path:completionHandler:)` on handler `self`. */
  function ClosureHandle(self: Id, closure: Closure, path: Path, hasCompletion: bool): (events: seq<Event>)
    ensures hasCompletion ==> CompletedOnceAtEnd(events)
    ensures !hasCompletion ==> forall i :: 0 <= i < |events| ==> !events[i].Completed?
    ensures (exists i :: 0 <= i < |events| && events[i].ClosureAsked?) <==> path.pathType == closure.pathType
    ensures forall i :: 0 <= i < |events| && events[i].ClosureAsked? ==> events[i].path == path && i == 0
  {
    var completion := if hasCompletion then [Completed(if path in closure.handled then Some(self) else None)] else [];
    if path.pathType != closure.pathType then
      if hasCompletion then [Completed(None)] else []
    else
      assert ([ClosureAsked(path)] + completion)[0].ClosureAsked?;
      [ClosureAsked(path)] + completion
  }

  /**
    The completion receives `self` exactly when the path has the closure's
    type and the closure reports `true`; otherwise it receives `nil`, and a
    path of another type never reaches the closure.
  */
  lemma ClosureDecision(self: Id, closure: Closure, path: Path)
    ensures var events := ClosureHandle(self, closure, path, true);
      && (Delivered(events) == Some(self) <==> path.pathType == closure.pathType && path in closure.handled)
      && (Delivered(events).None? <==> !(path.pathType == closure.pathType && path in closure.handled))
      && (path.pathType != closure.pathType ==> events == [Completed(None)])
      && (path.pathType == closure.pathType ==> events[0] == ClosureAsked(path) && |events| == 2)
  {
  }

  /** `SynchronousPathHandler.handle(path:completionHandler:)` given what the synchronous `handle(path:)` returns. */
  function SyncBridge(returned: Option<Id>, path: Path, hasCompletion: bool): (events: seq<Event>)
    ensures events != [] && events[0] == SyncHandleAsked(path)
    ensures hasCompletion ==> CompletedOnceAtEnd(events) && Delivered(events) == returned
    ensures !hasCompletion ==> events == [SyncHandleAsked(path)]
  {
    [SyncHandleAsked(path)] + if hasCompletion then [Completed(returned)] else []
  }

  /**
    `SynchronousClosurePathHandler.handle(path:ignoring:executor:completionHandler:)`:
    a router subclass whose answer comes from its closure alone.
  */
  function SyncClosureHandle(self: Id, closure: Closure, path: Path, ignoring: seq<Id>, executor: Option<Id>,
                             hasCompletion: bool): (events: seq<Event>)
    ensures hasCompletion ==>
      && CompletedOnceAtEnd(events)
      && (Delivered(events) == Some(self) <==> path.pathType == closure.pathType && path in closure.handled)
      && (Delivered(events) != Some(self) ==> Delivered(events).None?)
    ensures (exists i :: 0 <= i < |events| && events[i].ClosureAsked?) <==> path.pathType == closure.pathType
  {
    ClosureHandle(self, closure, path, hasCompletion)
  }

  /** The synchronous closure handler never looks at `ignoring` or at the executor. */
  lemma SyncClosureIgnoresContext(self: Id, closure: Closure, path: Path, hasCompletion: bool,
                                  ignoring1: seq<Id>, executor1: Option<Id>, ignoring2: seq<Id>, executor2: Option<Id>)
    ensures SyncClosureHandle(self, closure, path, ignoring1, executor1, hasCompletion)
         == SyncClosureHandle(self, closure, path, ignoring2, executor2, hasCompletion)
  {
  }
}
