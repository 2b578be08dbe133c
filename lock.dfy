/** `DefaultLock`: a guard that the thread holding it may enter again. The
    calling thread's id is passed in; atomicity of the compare-and-set is not
    modelled. */
module Locks {
  import opened Outcomes

  /** No thread holds the lock. */
  const NoOwner: int := -1

  /** `accessingThread` and `accessCount` as a value. */
  datatype LockState = LockState(owner: int, count: int)

  /** The state every balanced sequence of calls leaves behind: an owner
      exactly while the count is positive. */
  predicate Consistent(st: LockState)
  {
    && st.owner >= NoOwner
    && st.count >= 0
    && (st.owner == NoOwner <==> st.count == 0)
  }

  /** `accessingThread.get() == threadId || accessingThread.compareAndSet(-1L, threadId)`. */
  predicate CanEnter(st: LockState, tid: nat)
  {
    st.owner == tid || st.owner == NoOwner
  }

  /** Entering: the caller becomes the owner and the count goes up by one. */
  function Enter(st: LockState, tid: nat): (r: LockState)
    requires CanEnter(st, tid)
    ensures r.owner == tid && r.count == st.count + 1
  {
    LockState(tid, st.count + 1)
  }

  /** The `finally` of `invoke`: the count goes down by one and the owner is
      cleared when it reaches zero. */
  function Exit(st: LockState): (r: LockState)
    ensures r.count == st.count - 1
    ensures r.owner == (if r.count == 0 then NoOwner else st.owner)
  {
    var c := st.count - 1;
    LockState(if c == 0 then NoOwner else st.owner, c)
  }

  /** Leaving undoes entering, from every consistent state, and a consistent
      state stays consistent while the lock is held. */
  lemma ExitUndoesEnter(st: LockState, tid: nat)
    requires Consistent(st) && CanEnter(st, tid)
    ensures Consistent(Enter(st, tid))
    ensures Exit(Enter(st, tid)) == st
  {
  }

  /** A thread other than the owner is refused exactly while the lock is held. */
  lemma RefusedIffHeldByOther(st: LockState, tid: nat)
    requires Consistent(st)
    ensures !CanEnter(st, tid) <==> (st.count > 0 && st.owner != tid)
  {
  }

  /** The block run under the lock: it returns, it throws, or it calls
      `invoke` on the same lock again from thread `thread`. */
  datatype Block<+R> =
    | Returns(v: R)
    | Throws(e: Error)
    | ReEnters(thread: nat, inner: Block<R>)

  /** What `invoke(block)` returns or throws when called from `tid` in `st`. */
  function Run<R>(st: LockState, tid: nat, b: Block<R>): Result<R>
    decreases b
  {
    if !CanEnter(st, tid) then Failure(ConcurrentModification)
    else match b
      case Returns(v) => Success(v)
      case Throws(e) => Failure(e)
      case ReEnters(t, inner) => Run(Enter(st, tid), t, inner)
  }

  /** The lock states `invoke` passes through, one per entry and one per exit. */
  function Trace<R>(st: LockState, tid: nat, b: Block<R>): seq<LockState>
    decreases b
  {
    if !CanEnter(st, tid) then []
    else
      var e := Enter(st, tid);
      [e] + (match b case ReEnters(t, inner) => Trace(e, t, inner) case _ => []) + [Exit(e)]
  }

  /** Every state of a call's trace is consistent; the owner is the caller in
      all of them but the last, which is the state before the call. So nested
      entries release the owner only when the outermost call exits. */
  lemma {:induction false} OwnerReleasedAtOutermostExit<R>(st: LockState, tid: nat, b: Block<R>)
    requires Consistent(st)
    ensures var tr := Trace(st, tid, b);
            && (forall i :: 0 <= i < |tr| ==> Consistent(tr[i]))
            && (forall i :: 0 <= i < |tr| - 1 ==> tr[i].owner == tid && tr[i].count > st.count)
            && (tr != [] ==> tr[|tr| - 1] == st)
    decreases b
  {
    if CanEnter(st, tid) {
      var e := Enter(st, tid);
      ExitUndoesEnter(st, tid);
      match b
      case ReEnters(t, inner) =>
        OwnerReleasedAtOutermostExit(e, t, inner);
        var mid := Trace(e, t, inner);
        assert mid != [] ==> t == tid;
        assert Trace(st, tid, b) == [e] + mid + [st];
      case _ =>
    }
  }

  /** A re-entry from another thread while the lock is held always fails. */
  lemma {:induction false} OtherThreadIsRefused<R>(st: LockState, tid: nat, other: nat, inner: Block<R>)
    requires Consistent(st) && CanEnter(st, tid) && other != tid
    ensures Run(st, tid, ReEnters(other, inner)) == Failure(ConcurrentModification)
  {
    assert Enter(st, tid).owner == tid;
  }

  /** What `invoke` returns depends on who holds the lock, not on how often
      it was entered. */
  lemma {:induction false} RunIgnoresCount<R>(owner: int, c1: int, c2: int, tid: nat, b: Block<R>)
    ensures Run(LockState(owner, c1), tid, b) == Run(LockState(owner, c2), tid, b)
    decreases b
  {
    if CanEnter(LockState(owner, c1), tid) {
      match b
      case ReEnters(t, inner) =>
        RunIgnoresCount(tid, c1 + 1, c2 + 1, t, inner);
      case _ =>
    }
  }

  /** A block that re-enters from the calling thread returns what the inner
      block returns when called directly. */
  lemma {:induction false} SameThreadReentryIsTransparent<R>(st: LockState, tid: nat, b: Block<R>)
    requires CanEnter(st, tid)
    ensures Run(st, tid, ReEnters(tid, b)) == Run(st, tid, b)
  {
    RunIgnoresCount(tid, st.count + 1, st.count, tid, b);
    if st.owner == NoOwner {
      RunIgnoresCount(tid, st.count, st.count, tid, b);
      match b
      case ReEnters(t, inner) =>
        RunIgnoresCount(tid, st.count + 2, st.count + 1, t, inner);
      case _ =>
    }
  }

  /** `Lock()`, the default lock. */
  class Lock {
    var accessingThread: int
    var accessCount: int
    /** Every state the lock has passed through. */
    ghost var history: seq<LockState>

    function State(): LockState
      reads this
    {
      LockState(accessingThread, accessCount)
    }

    ghost predicate Valid()
      reads this
    {
      Consistent(State())
    }

    constructor ()
      ensures Valid()
      ensures accessingThread == NoOwner && accessCount == 0
      ensures history == []
    {
      accessingThread := NoOwner;
      accessCount := 0;
      history := [];
    }

    /** The check and `++accessCount` at the head of `invoke`. */
    method Acquire(tid: nat) returns (entered: bool)
      requires Valid()
      modifies this
      ensures entered == CanEnter(old(State()), tid)
      ensures entered ==> State() == Enter(old(State()), tid) && history == old(history) + [State()]
      ensures !entered ==> State() == old(State()) && history == old(history)
      ensures Consistent(State())
    {
      entered := accessingThread == tid || accessingThread == NoOwner;
      if entered {
        accessingThread := tid;
        accessCount := accessCount + 1;
        history := history + [State()];
      }
    }

    /** The `finally` of `invoke`. */
    method Release()
      requires accessCount > 0 && accessingThread > NoOwner
      modifies this
      ensures State() == Exit(old(State()))
      ensures history == old(history) + [State()]
    {
      accessCount := accessCount - 1;
      if accessCount == 0 {
        accessingThread := NoOwner;
      }
      history := history + [State()];
    }

    /** `invoke(block)` from thread `tid`: the block's outcome, or
        `ConcurrentModificationException` when another thread holds the lock.
        The lock is left as it was found. */
    method Invoke<R>(tid: nat, block: Block<R>) returns (r: Result<R>)
      requires Valid()
      modifies this
      ensures State() == old(State())
      ensures r == Run(old(State()), tid, block)
      ensures history == old(history) + Trace(old(State()), tid, block)
      decreases block
    {
      ghost var st, h0 := State(), history;
      var entered := Acquire(tid);
      if !entered {
        return Failure(ConcurrentModification);
      }
      ghost var e := State();
      ExitUndoesEnter(st, tid);
      ghost var mid: seq<LockState> := [];
      match block {
        case Returns(v) =>
          r := Success(v);
        case Throws(err) =>
          r := Failure(err);
        case ReEnters(t, inner) =>
          r := Invoke(t, inner);
          mid := Trace(e, t, inner);
      }
      assert history == h0 + [e] + mid && State() == e;
      Release();
      assert Trace(st, tid, block) == [e] + mid + [st];
    }
  }
}
