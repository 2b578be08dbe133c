/** `DefaultSubscription`: an unsubscribe that runs its callback at most once,
    under a lock. The callback is code outside the model: what it does on a
    call is passed in as its outcome. */
module Observables {
  import opened Outcomes
  import opened Locks

  /** `isUnsubscribed` together with how often the callback has run. */
  datatype SubscriptionState = SubscriptionState(unsubscribed: bool, callbackRuns: nat)

  /** The state `unsubscribe()` leaves when its lock was entered (`entered`)
      or refused. */
  function AfterUnsubscribe(s: SubscriptionState, entered: bool): (r: SubscriptionState)
    ensures !entered ==> r == s
    ensures entered ==> r.unsubscribed
    ensures r.callbackRuns == s.callbackRuns + (if entered && !s.unsubscribed then 1 else 0)
  {
    if entered && !s.unsubscribed then SubscriptionState(true, s.callbackRuns + 1) else s
  }

  /** The callback has run exactly once after unsubscribing, never before. */
  predicate RunsAtMostOnce(s: SubscriptionState)
  {
    s.callbackRuns == if s.unsubscribed then 1 else 0
  }

  /** A second successful `unsubscribe()` changes nothing. */
  lemma UnsubscribeIsIdempotent(s: SubscriptionState, entered: bool)
    ensures AfterUnsubscribe(AfterUnsubscribe(s, true), entered) == AfterUnsubscribe(s, true)
  {
  }

  /** Any sequence of `unsubscribe()` calls, each entering its lock or not,
      keeps the callback to at most one run. */
  lemma {:induction false} CallbackRunsAtMostOnce(s: SubscriptionState, calls: seq<bool>)
    requires RunsAtMostOnce(s)
    ensures RunsAtMostOnce(AfterCalls(s, calls))
    ensures AfterCalls(s, calls).callbackRuns <= 1
    decreases |calls|
  {
    if calls != [] {
      CallbackRunsAtMostOnce(AfterUnsubscribe(s, calls[0]), calls[1..]);
    }
  }

  /** The state after a sequence of `unsubscribe()` calls. */
  function AfterCalls(s: SubscriptionState, calls: seq<bool>): SubscriptionState
    decreases |calls|
  {
    if calls == [] then s else AfterCalls(AfterUnsubscribe(s, calls[0]), calls[1..])
  }

  /** `Subscription(lock, onUnsubscribe)`. */
  class Subscription {
    const lock: Lock
    var isUnsubscribed: bool
    /** How often `onUnsubscribe` has been called. */
    var callbackRuns: nat

    function State(): SubscriptionState
      reads this
    {
      SubscriptionState(isUnsubscribed, callbackRuns)
    }

    ghost predicate Valid()
      reads this, lock
    {
      lock.Valid() && RunsAtMostOnce(State())
    }

    /** The factory with an explicit lock. */
    constructor WithLock(l: Lock)
      requires l.Valid()
      ensures Valid() && lock == l
      ensures !isUnsubscribed && callbackRuns == 0
    {
      lock := l;
      isUnsubscribed := false;
      callbackRuns := 0;
    }

    /** The factory with its default argument, a fresh `Lock()`. */
    constructor ()
      ensures Valid() && fresh(lock)
      ensures lock.State() == LockState(NoOwner, 0)
      ensures !isUnsubscribed && callbackRuns == 0
    {
      lock := new Lock();
      isUnsubscribed := false;
      callbackRuns := 0;
    }

    /** `unsubscribe()` from thread `tid`: under the lock, the first call runs
        the callback (whose outcome it returns) and sets `isUnsubscribed` even
        when the callback throws; later calls do nothing; a call refused by
        the lock throws and leaves the flag as it was. */
    method Unsubscribe(tid: nat, callback: Result<()>) returns (r: Result<()>)
      requires Valid()
      modifies this, lock
      ensures Valid()
      ensures lock.State() == old(lock.State())
      ensures !CanEnter(old(lock.State()), tid) ==> lock.history == old(lock.history)
      ensures CanEnter(old(lock.State()), tid) ==>
                lock.history == old(lock.history) + [Enter(old(lock.State()), tid), lock.State()]
      ensures State() == AfterUnsubscribe(old(State()), CanEnter(old(lock.State()), tid))
      ensures !CanEnter(old(lock.State()), tid) ==> r == Failure(ConcurrentModification)
      ensures CanEnter(old(lock.State()), tid) ==>
                r == if old(isUnsubscribed) then Success(()) else callback
    {
      ghost var st := lock.State();
      var entered := lock.Acquire(tid);
      if !entered {
        return Failure(ConcurrentModification);
      }
      ExitUndoesEnter(st, tid);
      r := Success(());
      if !isUnsubscribed {
        callbackRuns := callbackRuns + 1;
        r := callback;
        isUnsubscribed := true;
      }
      lock.Release();
    }
  }
}
