/**
 * A JavaScript promise seen from its executor: it starts pending, and the
 * first call of `resolve` or `reject` fixes its outcome; every later call is
 * ignored.
 */
module Promises {

  datatype Outcome<T, E> = Pending | Fulfilled(value: T) | Rejected(reason: E)

  /** One call of the executor's `resolve` or `reject` callback. */
  datatype Attempt<T, E> = Fulfil(value: T) | Fail(reason: E)

  /** The outcome a pending promise takes on from a settle call. */
  function Settled<T, E>(a: Attempt<T, E>): (r: Outcome<T, E>)
    ensures !r.Pending?
  {
    match a
    case Fulfil(v) => Fulfilled(v)
    case Fail(e) => Rejected(e)
  }

  /** One settle call: it decides a pending promise and leaves a settled one alone. */
  function Settle<T, E>(o: Outcome<T, E>, a: Attempt<T, E>): (r: Outcome<T, E>)
    ensures !r.Pending?
    ensures !o.Pending? ==> r == o
  {
    if o.Pending? then Settled(a) else o
  }

  /** The outcome after a sequence of settle calls, in call order. */
  function SettleAll<T, E>(o: Outcome<T, E>, attempts: seq<Attempt<T, E>>): Outcome<T, E>
    decreases |attempts|
  {
    if attempts == [] then o else SettleAll(Settle(o, attempts[0]), attempts[1..])
  }

  /** No sequence of calls changes a promise that has settled. */
  lemma {:induction false} SettledIsFinal<T, E>(o: Outcome<T, E>, attempts: seq<Attempt<T, E>>)
    requires !o.Pending?
    ensures SettleAll(o, attempts) == o
    decreases |attempts|
  {
    if attempts != [] {
      SettledIsFinal(Settle(o, attempts[0]), attempts[1..]);
    }
  }

  /** The first settle call decides the outcome; a promise with no call stays pending. */
  lemma {:induction false} FirstAttemptDecides<T, E>(attempts: seq<Attempt<T, E>>)
    ensures attempts == [] ==> SettleAll(Pending, attempts) == Pending
    ensures attempts != [] ==> SettleAll(Pending, attempts) == Settled(attempts[0])
  {
    if attempts != [] {
      SettledIsFinal(Settled(attempts[0]), attempts[1..]);
    }
  }

  /** Settling through `a` and then `b` is settling through `a + b`. */
  lemma {:induction false} SettleAllAppend<T, E>(o: Outcome<T, E>, a: seq<Attempt<T, E>>, b: seq<Attempt<T, E>>)
    ensures SettleAll(o, a + b) == SettleAll(SettleAll(o, a), b)
    decreases |a|
  {
    if a == [] {
      assert a + b == b;
    } else {
      assert (a + b)[0] == a[0];
      assert (a + b)[1..] == a[1..] + b;
      SettleAllAppend(Settle(o, a[0]), a[1..], b);
    }
  }

  /**
   * The cell behind one promise. `attempts` records every settle call made so
   * far; `state` is always what those calls decide.
   */
  class Deferred<T, E> {
    var state: Outcome<T, E>
    ghost var attempts: seq<Attempt<T, E>>

    ghost predicate Valid()
      reads this
    {
      state == SettleAll(Pending, attempts)
    }

    constructor ()
      ensures Valid() && attempts == [] && state == Pending
    {
      state := Pending;
      attempts := [];
    }

    /** The executor's `resolve(v)`. */
    method Resolve(v: T)
      requires Valid()
      modifies this
      ensures Valid() && attempts == old(attempts) + [Fulfil(v)]
      ensures state == Settle(old(state), Fulfil(v))
    {
      SettleAllAppend(Pending, attempts, [Fulfil(v)]);
      state := Settle(state, Fulfil(v));
      attempts := attempts + [Fulfil(v)];
    }

    /** The executor's `reject(e)`, also what a throw inside the executor amounts to. */
    method Reject(e: E)
      requires Valid()
      modifies this
      ensures Valid() && attempts == old(attempts) + [Fail(e)]
      ensures state == Settle(old(state), Fail(e))
    {
      SettleAllAppend(Pending, attempts, [Fail(e)]);
      state := Settle(state, Fail(e));
      attempts := attempts + [Fail(e)];
    }
  }
}
