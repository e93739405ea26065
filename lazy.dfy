/**
 * The `Lazy` cell of archi/src/main.rs that holds the skybox while its image
 * loads on another thread: Pending until its polling closure first yields a
 * value, Done with that value from then on. The closure's answer to a call is
 * passed in as a parameter; the thread and channel behind it are not modelled.
 */
module LazyCell {
  import opened Wrappers

  datatype LazyState<T> = Pending | Done(value: T)

  /**
   * The state after one call of `value` when the closure, if called, would
   * answer `next`: Done stays as it is, Pending becomes Done on an answer and
   * stays Pending on none.
   */
  function Poll<T>(s: LazyState<T>, next: Option<T>): (r: LazyState<T>)
    ensures s.Done? ==> r == s
    ensures s.Pending? ==> (r.Done? <==> next.Some?)
    ensures s.Pending? && next.Some? ==> r.value == next.value
  {
    match s
    case Done(_) => s
    case Pending => if next.Some? then Done(next.value) else Pending
  }

  /** What `value` returns in a state: the held value when Done, nothing when Pending. */
  function Current<T>(s: LazyState<T>): (r: Option<T>)
    ensures r.Some? <==> s.Done?
    ensures s.Done? ==> r.value == s.value
  {
    if s.Done? then Some(s.value) else None
  }

  /** `Lazy<T, F>`: the state, overwritten in place, and a count of the closure's calls. */
  class Lazy<T> {
    var state: LazyState<T>
    ghost var calls: nat

    /** `Lazy::Pending(closure)`. */
    constructor ()
      ensures state == Pending && calls == 0
    {
      state := Pending;
      calls := 0;
    }

    /**
     * `Lazy::value`: when Done, return the value without calling the closure;
     * when Pending, call it once; on an answer store Done and recurse once to
     * return it, on none return nothing.
     */
    method Value(next: Option<T>) returns (r: Option<T>)
      modifies this
      ensures state == Poll(old(state), next)
      ensures r == Current(state)
      ensures calls == old(calls) + (if old(state).Pending? then 1 else 0)
      decreases if state.Done? then 0 else 1
    {
      match state
      case Done(t) =>
        r := Some(t);
      case Pending =>
        calls := calls + 1;
        match next
        case Some(t) =>
          state := Done(t);
          r := Value(next);
        case None =>
          r := None;
    }
  }

  /** The state after successive calls of `value` whose closure would answer ps[0], ps[1], ... */
  function PollAll<T>(s: LazyState<T>, ps: seq<Option<T>>): LazyState<T>
    decreases |ps|
  {
    if |ps| == 0 then s else PollAll(Poll(s, ps[0]), ps[1..])
  }

  /** The closure calls those calls make: one per call made while still Pending. */
  function CallsAll<T>(s: LazyState<T>, ps: seq<Option<T>>): nat
    decreases |ps|
  {
    if |ps| == 0 then 0 else (if s.Pending? then 1 else 0) + CallsAll(Poll(s, ps[0]), ps[1..])
  }

  /** The position of the first answer among the polls, if any. */
  function FirstAnswer<T>(ps: seq<Option<T>>): (r: Option<nat>)
    ensures r.Some? ==> r.value < |ps| && ps[r.value].Some? && forall j | 0 <= j < r.value :: ps[j].None?
    ensures r.None? ==> forall j | 0 <= j < |ps| :: ps[j].None?
    decreases |ps|
  {
    if |ps| == 0 then None
    else if ps[0].Some? then Some(0)
    else match FirstAnswer(ps[1..])
      case Some(i) => Some(i + 1)
      case None => None
  }

  /** A Done cell never changes again and never calls its closure again. */
  lemma {:induction false} DoneIsFinal<T>(v: T, ps: seq<Option<T>>)
    ensures PollAll(Done(v), ps) == Done(v)
    ensures CallsAll(Done(v), ps) == 0
    decreases |ps|
  {
    if |ps| > 0 {
      DoneIsFinal(v, ps[1..]);
    }
  }

  /**
   * From Pending, the cell ends Done with the first answer the closure gave
   * and called it up to and including that answer; with no answer it stays
   * Pending and called the closure every time.
   */
  lemma {:induction false} PendingTakesFirstAnswer<T>(ps: seq<Option<T>>)
    ensures FirstAnswer(ps).Some? ==>
      var i := FirstAnswer(ps).value;
      PollAll(Pending, ps) == Done(ps[i].value) && CallsAll(Pending, ps) == i + 1
    ensures FirstAnswer(ps).None? ==> PollAll(Pending, ps) == Pending && CallsAll(Pending, ps) == |ps|
    decreases |ps|
  {
    if |ps| > 0 {
      if ps[0].Some? {
        DoneIsFinal(ps[0].value, ps[1..]);
      } else {
        PendingTakesFirstAnswer(ps[1..]);
      }
    }
  }
}
