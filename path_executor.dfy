/**
  `PathExecutor`: one attempt to handle a path, offering it to the routers an
  iterator yields, skipping the routers it was told to ignore and the initial
  router of the executor that started it, and finishing with the first router
  that reports a handler or with `unhandledPath`.

  What a router reports for a call is a parameter, `answer`; the routers each
  router links to are the parameter `routeHandlers`.
*/
module PathExecutors {
  import opened Common
  import opened ClosureHandlers

  datatype ExecutorError = UnhandledPath(path: Path)

  /** `Result<Router, Error>` */
  datatype ExecutionResult = Success(router: Id) | Failure(error: ExecutorError)

  /** One `handle(path:ignoring:executor:)` call: the router, the path and the `ignoring` list it receives. */
  datatype HandleCall = HandleCall(router: Id, path: Path, ignoring: seq<Id>)

  /** The completion's argument and the calls made, in order. */
  datatype Run = Run(result: ExecutionResult, asked: seq<HandleCall>)

  class PathExecutor {
    const path: Path
    const initialRouter: Id
    const routersToIgnore: seq<Id>
    const previous: PathExecutor?

    constructor (path: Path, initialRouter: Id, routersToIgnore: seq<Id>, previous: PathExecutor?)
      ensures this.path == path && this.initialRouter == initialRouter
      ensures this.routersToIgnore == routersToIgnore && this.previous == previous
    {
      this.path := path;
      this.initialRouter := initialRouter;
      this.routersToIgnore := routersToIgnore;
      this.previous := previous;
    }

    /** The two guards of `tryNext`: an ignored router, or the previous executor's initial router. */
    predicate Skipped(router: Id) {
      router in routersToIgnore || (previous != null && previous.initialRouter == router)
    }

    /** The call `tryNext` makes: the executor's path and its unextended `routersToIgnore`. */
    function Call(router: Id): HandleCall {
      HandleCall(router, path, routersToIgnore)
    }

    function Calls(routers: seq<Id>): seq<HandleCall> {
      seq(|routers|, i requires 0 <= i < |routers| => Call(routers[i]))
    }

    /** The run `tryNext` makes over the routers still to come. */
    function Tried(routers: seq<Id>, answer: HandleCall -> Option<Id>): Run {
      if routers == [] then Run(Failure(UnhandledPath(path)), [])
      else if Skipped(routers[0]) then Tried(routers[1..], answer)
      else if answer(Call(routers[0])).Some? then Run(Success(answer(Call(routers[0])).value), [Call(routers[0])])
      else
        var rest := Tried(routers[1..], answer);
        Run(rest.result, [Call(routers[0])] + rest.asked)
    }

    /**
      Every router asked is one of the routers given and not skipped, and
      receives the executor's path and its unextended `routersToIgnore`.
    */
    lemma {:induction false} TriedCalls(routers: seq<Id>, answer: HandleCall -> Option<Id>)
      ensures forall c :: c in Tried(routers, answer).asked ==>
        && c.path == path && c.ignoring == routersToIgnore
        && c.router in routers && !Skipped(c.router)
    {
      if routers != [] {
        TriedCalls(routers[1..], answer);
      }
    }

    /** What each router contributes: `nil` for a skipped one. */
    function Answers(routers: seq<Id>, answer: HandleCall -> Option<Id>): seq<Option<Id>> {
      seq(|routers|, i requires 0 <= i < |routers| => if Skipped(routers[i]) then None else answer(Call(routers[i])))
    }

    /** The routers that are not skipped, in order. */
    function Unskipped(routers: seq<Id>): (s: seq<Id>)
      ensures forall r :: r in s <==> r in routers && !Skipped(r)
    {
      if routers == [] then []
      else if Skipped(routers[0]) then Unskipped(routers[1..])
      else [routers[0]] + Unskipped(routers[1..])
    }

    /**
      The completion receives `.success` with the first handler reported by a
      router that is not skipped, and `.failure(.unhandledPath(path))`
      exactly when none reports one.
    */
    lemma {:induction false} TriedIsFirstSuccess(routers: seq<Id>, answer: HandleCall -> Option<Id>)
      ensures Tried(routers, answer).result ==
        match FirstSome(Answers(routers, answer))
        case Some(h) => Success(h)
        case None => Failure(UnhandledPath(path))
    {
      if routers != [] {
        TriedIsFirstSuccess(routers[1..], answer);
        assert Answers(routers, answer) == [Answers(routers, answer)[0]] + Answers(routers[1..], answer);
        FirstSomeAppend([Answers(routers, answer)[0]], Answers(routers[1..], answer));
      }
    }

    /**
      Only routers that are not skipped are asked, in iterator order, nothing
      after the one that succeeded; after a failure every one of them was asked.
    */
    lemma {:induction false} TriedAsks(routers: seq<Id>, answer: HandleCall -> Option<Id>)
      ensures var run := Tried(routers, answer);
        && |run.asked| <= |Unskipped(routers)|
        && run.asked == Calls(Unskipped(routers))[..|run.asked|]
        && (run.result.Failure? <==> run.asked == Calls(Unskipped(routers)) && forall c :: c in run.asked ==> answer(c).None?)
        && (run.result.Success? ==> run.asked != [] && answer(run.asked[|run.asked| - 1]) == Some(run.result.router))
    {
      TriedPrefix(routers, answer);
      TriedFailure(routers, answer);
      TriedSuccess(routers, answer);
    }

    lemma CallsCons(routers: seq<Id>)
      requires routers != [] && !Skipped(routers[0])
      ensures Calls(Unskipped(routers)) == [Call(routers[0])] + Calls(Unskipped(routers[1..]))
    {
      assert Unskipped(routers) == [routers[0]] + Unskipped(routers[1..]);
    }

    lemma {:induction false} TriedPrefix(routers: seq<Id>, answer: HandleCall -> Option<Id>)
      ensures var run := Tried(routers, answer);
        && |run.asked| <= |Unskipped(routers)|
        && run.asked == Calls(Unskipped(routers))[..|run.asked|]
    {
      if routers != [] {
        TriedPrefix(routers[1..], answer);
        if !Skipped(routers[0]) {
          CallsCons(routers);
        }
      }
    }

    lemma {:induction false} TriedFailure(routers: seq<Id>, answer: HandleCall -> Option<Id>)
      ensures var run := Tried(routers, answer);
        run.result.Failure? <==> run.asked == Calls(Unskipped(routers)) && forall c :: c in run.asked ==> answer(c).None?
    {
      if routers == [] {
      } else if Skipped(routers[0]) {
        TriedFailure(routers[1..], answer);
        assert Unskipped(routers) == Unskipped(routers[1..]);
      } else if answer(Call(routers[0])).Some? {
        assert Call(routers[0]) in Tried(routers, answer).asked;
      } else {
        TriedFailure(routers[1..], answer);
        CallsCons(routers);
        var rest := Tried(routers[1..], answer);
        var asked := [Call(routers[0])] + rest.asked;
        assert asked[1..] == rest.asked;
        assert ([Call(routers[0])] + Calls(Unskipped(routers[1..])))[1..] == Calls(Unskipped(routers[1..]));
        assert forall c :: c in asked ==> c == Call(routers[0]) || c in rest.asked;
      }
    }

    lemma {:induction false} TriedSuccess(routers: seq<Id>, answer: HandleCall -> Option<Id>)
      ensures var run := Tried(routers, answer);
        run.result.Success? ==> run.asked != [] && answer(run.asked[|run.asked| - 1]) == Some(run.result.router)
    {
      if routers != [] {
        TriedSuccess(routers[1..], answer);
      }
    }

    /** `tryNext(iterator:)`, one router at a time. */
    method TryNext(routers: seq<Id>, answer: HandleCall -> Option<Id>) returns (result: ExecutionResult, asked: seq<HandleCall>)
      ensures Run(result, asked) == Tried(routers, answer)
    {
      asked := [];
      var i := 0;
      while i < |routers|
        invariant 0 <= i <= |routers|
        invariant Tried(routers, answer) == Run(Tried(routers[i..], answer).result, asked + Tried(routers[i..], answer).asked)
      {
        assert routers[i..][1..] == routers[i + 1..];
        var router := routers[i];
        i := i + 1;
        if router in routersToIgnore {
          continue;
        }
        if previous != null && previous.initialRouter == router {
          continue;
        }
        var call := HandleCall(router, path, routersToIgnore);
        asked := asked + [call];
        var handler := answer(call);
        if handler.Some? {
          return Success(handler.value), asked;
        }
      }
      assert routers[|routers|..] == [];
      result := Failure(UnhandledPath(path));
    }

    /** `execute()`: walks the initial router's `routeHandlers`. */
    method Execute(routeHandlers: Id -> seq<Id>, answer: HandleCall -> Option<Id>) returns (result: ExecutionResult, asked: seq<HandleCall>)
      ensures Run(result, asked) == Tried(routeHandlers(initialRouter), answer)
    {
      result, asked := TryNext(routeHandlers(initialRouter), answer);
    }

    /** `tryRouter(_:)`: walks another router's `routeHandlers` with the same context. */
    method TryRouter(router: Id, routeHandlers: Id -> seq<Id>, answer: HandleCall -> Option<Id>) returns (result: ExecutionResult, asked: seq<HandleCall>)
      ensures Run(result, asked) == Tried(routeHandlers(router), answer)
    {
      result, asked := TryNext(routeHandlers(router), answer);
    }
  }
}
