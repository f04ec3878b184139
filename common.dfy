/** Helper types shared by every module of the model. */
module Common {

  /** Swift's `Optional`: `None` plays the part of `nil`. */
  datatype Option<+T> = None | Some(value: T)

  /**
    Object identity. Handlers are reference types compared with `===`; the
    model keeps them in arenas keyed by `Id`, so identity is equality of ids.
  */
  type Id = nat

  /** An `NSUserActivity`, identified by its activity type. */
  type Activity = string

  /**
    The first present value: what a search that asks candidates in order and
    stops at the first non-`nil` answer returns.
  */
  function FirstSome<T>(answers: seq<Option<T>>): (r: Option<T>)
    ensures r.None? <==> forall i :: 0 <= i < |answers| ==> answers[i].None?
    ensures r.Some? ==> exists i :: 0 <= i < |answers| && answers[i] == r && forall j :: 0 <= j < i ==> answers[j].None?
  {
    if answers == [] then None
    else if answers[0].Some? then answers[0]
    else
      var r := FirstSome(answers[1..]);
      assert forall i :: 1 <= i < |answers| ==> answers[i] == answers[1..][i - 1];
      r
  }

  /** The first answer, if present, is the result; otherwise the search goes on with the rest. */
  lemma FirstSomeCons<T>(answers: seq<Option<T>>)
    requires answers != []
    ensures FirstSome(answers) == if answers[0].Some? then answers[0] else FirstSome(answers[1..])
  {
  }

  /** Searching `xs + ys` searches `ys` only when nothing in `xs` answered. */
  lemma {:induction false} FirstSomeAppend<T>(xs: seq<Option<T>>, ys: seq<Option<T>>)
    ensures FirstSome(xs + ys) == if FirstSome(xs).Some? then FirstSome(xs) else FirstSome(ys)
  {
    if xs != [] {
      FirstSomeAppend(xs[1..], ys);
      assert (xs + ys)[1..] == xs[1..] + ys;
    } else {
      assert xs + ys == ys;
    }
  }
}
