/**
 * The externally resolvable promise made by `createResolvablePromise`: a state machine
 * that starts `pending` and settles once, as `done` with a value or as `error` with a reason.
 */
module Gate {

  datatype Resolution<V, E> = Pending | Done(value: V) | Failed(error: E) {
    predicate Settled() {
      !Pending?
    }
  }

  /** A call of the handle's `resolve(v)` or `reject(e)`. */
  datatype Call<V, E> = ResolveWith(v: V) | RejectWith(e: E)

  /** The state one settling call leads to: only a pending promise moves. */
  function Step<V, E>(r: Resolution<V, E>, call: Call<V, E>): (s: Resolution<V, E>)
    ensures s.Settled()
    ensures r.Settled() ==> s == r
    ensures r.Pending? ==> (s.Done? <==> call.ResolveWith?)
  {
    if !r.Pending? then r
    else match call
      case ResolveWith(v) => Done(v)
      case RejectWith(e) => Failed(e)
  }

  /** The state after a sequence of settling calls, made in order. */
  function StepAll<V, E>(r: Resolution<V, E>, calls: seq<Call<V, E>>): Resolution<V, E>
    decreases |calls|
  {
    if calls == [] then r else StepAll(Step(r, calls[0]), calls[1..])
  }

  /** Once settled, later `resolve`/`reject` calls change nothing. */
  lemma {:induction false} SettledIsFinal<V, E>(r: Resolution<V, E>, calls: seq<Call<V, E>>)
    requires r.Settled()
    ensures StepAll(r, calls) == r
    decreases |calls|
  {
    if calls != [] {
      SettledIsFinal(Step(r, calls[0]), calls[1..]);
    }
  }

  /**
   * A promise settles at most once: whatever calls follow, a pending promise ends in the
   * state its first call gives it, and stays pending only when no call is made.
   */
  lemma SettlesOnce<V, E>(calls: seq<Call<V, E>>)
    ensures calls == [] ==> StepAll(Pending, calls) == Pending
    ensures calls != [] && calls[0].ResolveWith? ==> StepAll(Pending, calls) == Done(calls[0].v)
    ensures calls != [] && calls[0].RejectWith? ==> StepAll(Pending, calls) == Failed(calls[0].e)
  {
    if calls != [] {
      SettledIsFinal(Step(Pending, calls[0]), calls[1..]);
    }
  }

  /**
   * The handle returned by `createResolvablePromise`: `resolution` is the state of its
   * `promise`, and `Resolve`/`Reject` are its `resolve`/`reject` members.
   */
  class ResolvablePromise<V, E> {
    var resolution: Resolution<V, E>

    constructor ()
      ensures resolution == Pending
    {
      resolution := Pending;
    }

    method Resolve(v: V)
      modifies this
      ensures resolution == Step(old(resolution), ResolveWith(v))
      ensures resolution.Settled()
      ensures old(resolution).Settled() ==> resolution == old(resolution)
    {
      if resolution == Pending {
        resolution := Done(v);
      }
    }

    method Reject(e: E)
      modifies this
      ensures resolution == Step(old(resolution), RejectWith(e))
      ensures resolution.Settled()
      ensures old(resolution).Settled() ==> resolution == old(resolution)
    {
      if resolution == Pending {
        resolution := Failed(e);
      }
    }
  }
}
