/** `StoreImpl` and the middleware chain of the store library. */
module Stores {
  import opened Outcomes

  // ---------------------------------------------------------------------
  // StoreImpl

  /** The single listener. Kotlin compares listener lambdas by identity, so a
      listener is named by an id; `NoOp` is the `{}` the store starts with,
      which no caller can pass back in. */
  datatype Listener = NoOp | Block(id: nat)

  /** What a listener does when it is called: return, throw, or call back into
      the store with `dispatch(message)` or `onStateChanged(block)`. An
      exception thrown by the call back propagates out of the listener. */
  datatype Reaction<+M> =
    | Returns
    | Throws(e: Error)
    | Dispatches(message: M)
    | SetsListener(block: nat)

  /** The reaction of listener `l` to state `s`; `react` describes the
      callers' listeners. */
  function ReactionOf<S, M>(l: Listener, s: S, react: (nat, S) -> Reaction<M>): Reaction<M>
  {
    match l
    case NoOp => Returns
    case Block(id) => react(id, s)
  }

  /** How a listener's call ends, given that every call back into the store
      from inside it meets the open transaction. */
  function ReactionOutcome<M>(rx: Reaction<M>): (r: Result<()>)
    ensures r.Success? <==> rx.Returns?
    ensures rx.Throws? ==> r == Failure(rx.e)
    ensures rx.Dispatches? || rx.SetsListener? ==> r == Failure(ConcurrentModification)
  {
    match rx
    case Returns => Success(())
    case Throws(e) => Failure(e)
    case Dispatches(_) => Failure(ConcurrentModification)
    case SetsListener(_) => Failure(ConcurrentModification)
  }

  /** The effect of one top-level call: the new state, the listener calls it
      made (listener and the state it was given), and what it returned. */
  datatype Step<S> = Step(state: S, notified: seq<(Listener, S)>, result: Result<()>)

  /** `dispatch(message)` outside a transaction. */
  function DispatchStep<S(==), M>(state: S, listener: Listener, reduce: (S, M) -> Result<S>,
                                  m: M, react: (nat, S) -> Reaction<M>): Step<S>
  {
    match reduce(state, m)
    case Failure(e) => Step(state, [], Failure(e))
    case Success(next) =>
      if next == state then Step(state, [], Success(()))
      else Step(next, [(listener, next)], ReactionOutcome(ReactionOf(listener, next, react)))
  }

  /** `dispatch` stores the reduced state and calls the listener once with it
      exactly when the state changed; an equal state, or a reducer that
      throws, keeps the state and calls nobody. */
  lemma DispatchNotifiesExactlyOnChange<S, M>(state: S, listener: Listener, reduce: (S, M) -> Result<S>,
                                                   m: M, react: (nat, S) -> Reaction<M>)
    ensures var st := DispatchStep(state, listener, reduce, m, react);
            && |st.notified| <= 1
            && (|st.notified| == 1 <==> reduce(state, m).Success? && reduce(state, m).value != state)
            && (|st.notified| == 1 ==> st.state == reduce(state, m).value && st.notified[0] == (listener, st.state))
            && (|st.notified| == 0 ==> st.state == state)
            && (reduce(state, m).Failure? ==> st.result == Failure(reduce(state, m).error))
  {
  }

  /** `onStateChanged(block)` outside a transaction. */
  function ListenStep<S, M>(state: S, listener: Listener, block: nat, react: (nat, S) -> Reaction<M>): Step<S>
  {
    if listener == Block(block) then Step(state, [], Success(()))
    else Step(state, [(Block(block), state)], ReactionOutcome(react(block, state)))
  }

  /** A new block is installed and called once with the current state; the
      block already installed is not called again; the state never changes. */
  lemma ListenCallsNewBlockOnce<S, M>(state: S, listener: Listener, block: nat, react: (nat, S) -> Reaction<M>)
    ensures var st := ListenStep(state, listener, block, react);
            && st.state == state
            && (listener == Block(block) <==> st.notified == [])
            && (listener != Block(block) ==> st.notified == [(Block(block), state)])
  {
  }

  /** `store(initialState, reducer)`. */
  class StoreImpl<S(==), M> {
    /** The reducer; a `Failure` stands for an exception it throws. */
    const reduce: (S, M) -> Result<S>
    var state: S
    var listener: Listener
    var inTransaction: bool
    /** Every call of a listener, with the state it was given. */
    ghost var notified: seq<(Listener, S)>

    constructor (initialState: S, reducer: (S, M) -> Result<S>)
      ensures reduce == reducer && state == initialState
      ensures listener == NoOp && !inTransaction && notified == []
    {
      reduce := reducer;
      state := initialState;
      listener := NoOp;
      inTransaction := false;
      notified := [];
    }

    /** `dispatch(message)`. Inside an open transaction (a call from the
        listener) it throws `ConcurrentModificationException` and changes
        nothing; otherwise it does `DispatchStep` and closes the transaction
        again, also when the reducer or the listener throws. */
    method Dispatch(m: M, react: (nat, S) -> Reaction<M>) returns (r: Result<()>)
      modifies this
      ensures inTransaction == old(inTransaction)
      ensures old(inTransaction) ==> r == Failure(ConcurrentModification) && unchanged(this)
      ensures !old(inTransaction) ==>
                var st := DispatchStep(old(state), old(listener), reduce, m, react);
                && state == st.state
                && listener == old(listener)
                && notified == old(notified) + st.notified
                && r == st.result
      decreases if inTransaction then 0 else 2
    {
      if inTransaction {
        return Failure(ConcurrentModification);
      }
      inTransaction := true;
      var reduced := reduce(state, m);
      match reduced {
        case Failure(e) =>
          r := Failure(e);
        case Success(next) =>
          r := Success(());
          if next != state {
            state := next;
            r := Notify(listener, next, react);
          }
      }
      inTransaction := false;
    }

    /** `onStateChanged(block)`: inside an open transaction it throws and
        changes nothing; otherwise it does `ListenStep`. */
    method OnStateChanged(block: nat, react: (nat, S) -> Reaction<M>) returns (r: Result<()>)
      modifies this
      ensures inTransaction == old(inTransaction)
      ensures old(inTransaction) ==> r == Failure(ConcurrentModification) && unchanged(this)
      ensures !old(inTransaction) ==>
                var st := ListenStep(old(state), old(listener), block, react);
                && state == old(state)
                && listener == Block(block)
                && notified == old(notified) + st.notified
                && r == st.result
      decreases if inTransaction then 0 else 2
    {
      if inTransaction {
        return Failure(ConcurrentModification);
      }
      inTransaction := true;
      r := Success(());
      if listener != Block(block) {
        listener := Block(block);
        r := Notify(listener, state, react);
      }
      inTransaction := false;
    }

    /** Calling listener `l` with `s` inside the transaction; what it calls
        back into the store fails and changes nothing. */
    method Notify(l: Listener, s: S, react: (nat, S) -> Reaction<M>) returns (r: Result<()>)
      requires inTransaction
      modifies this
      ensures inTransaction && state == old(state) && listener == old(listener)
      ensures notified == old(notified) + [(l, s)]
      ensures r == ReactionOutcome(ReactionOf(l, s, react))
      decreases 1
    {
      notified := notified + [(l, s)];
      match ReactionOf(l, s, react) {
        case Returns =>
          r := Success(());
        case Throws(e) =>
          r := Failure(e);
        case Dispatches(m) =>
          r := Dispatch(m, react);
        case SetsListener(b) =>
          r := OnStateChanged(b, react);
      }
    }
  }

  // ---------------------------------------------------------------------
  // Middleware chain

  /** One thing a middleware does while it handles a message: call
      `next.dispatch(dispatcher, state, message)`, send a message to the
      dispatcher, close the dispatcher, or send a message `X` to a sink of its
      own (another store's dispatcher). */
  datatype Act<+S, +M, +X> = Next(state: S, message: M) | Emit(message: M) | CloseDispatcher | Send(out: X)

  /** What leaves the chain, in order. */
  datatype Effect<+M, +X> = Emitted(message: M) | DispatcherClosed | Sent(out: X)

  /** A middleware, by what its `dispatch` does for a state and a message. */
  type Middleware<!S, !M, !X> = (S, M) -> seq<Act<S, M, X>>

  /** Where the shared iterator ends, which middleware ran (by index, in
      call order), and what left the chain. */
  datatype Walk<+M, +X> = Walk(pos: nat, invoked: seq<nat>, effects: seq<Effect<M, X>>)

  /** Strictly ascending indices within `[lo, hi)`. */
  predicate Ascending(s: seq<nat>, lo: nat, hi: nat)
  {
    && (forall i :: 0 <= i < |s| ==> lo <= s[i] < hi)
    && (forall i, j :: 0 <= i < j < |s| ==> s[i] < s[j])
  }

  lemma AscendingConcat(a: seq<nat>, b: seq<nat>, lo: nat, mid: nat, hi: nat)
    requires lo <= mid <= hi
    requires Ascending(a, lo, mid) && Ascending(b, mid, hi)
    ensures Ascending(a + b, lo, hi)
  {
    forall i | 0 <= i < |a + b|
      ensures lo <= (a + b)[i] < hi
    {
      if i < |a| { assert (a + b)[i] == a[i]; } else { assert (a + b)[i] == b[i - |a|]; }
    }
  }

  /** `MiddlewareChainNextImpl.dispatch` with the iterator at `pos`: run the
      next middleware, if any, and advance past it. */
  function WalkFrom<S, M, X>(mws: seq<Middleware<S, M, X>>, pos: nat, s: S, m: M): (w: Walk<M, X>)
    requires pos <= |mws|
    ensures pos <= w.pos <= |mws|
    ensures Ascending(w.invoked, pos, w.pos)
    ensures pos < |mws| <==> w.invoked != []
    ensures w.invoked != [] ==> w.invoked[0] == pos
    decreases |mws| - pos, 1, 0
  {
    if pos == |mws| then Walk(pos, [], [])
    else
      var w := Perform(mws, pos + 1, pos, mws[pos](s, m));
      AscendingConcat([pos], w.invoked, pos, pos + 1, w.pos);
      Walk(w.pos, [pos] + w.invoked, w.effects)
  }

  /** The rest of the body of the middleware at index `bound`, the iterator
      standing at `pos`. */
  function Perform<S, M, X>(mws: seq<Middleware<S, M, X>>, pos: nat, bound: nat, script: seq<Act<S, M, X>>): (w: Walk<M, X>)
    requires bound < pos <= |mws|
    ensures pos <= w.pos <= |mws|
    ensures Ascending(w.invoked, pos, w.pos)
    decreases |mws| - bound, 0, |script|
  {
    if script == [] then Walk(pos, [], [])
    else match script[0]
      case Next(s, m) =>
        var w1 := WalkFrom(mws, pos, s, m);
        var w2 := Perform(mws, w1.pos, bound, script[1..]);
        AscendingConcat(w1.invoked, w2.invoked, pos, w1.pos, w2.pos);
        Walk(w2.pos, w1.invoked + w2.invoked, w1.effects + w2.effects)
      case Emit(m) =>
        var w := Perform(mws, pos, bound, script[1..]);
        Walk(w.pos, w.invoked, [Emitted(m)] + w.effects)
      case CloseDispatcher =>
        var w := Perform(mws, pos, bound, script[1..]);
        Walk(w.pos, w.invoked, [DispatcherClosed] + w.effects)
      case Send(x) =>
        var w := Perform(mws, pos, bound, script[1..]);
        Walk(w.pos, w.invoked, [Sent(x)] + w.effects)
  }

  /** What a script sends out of the chain when none of its `next` calls
      reaches a middleware: its other acts, in order. */
  function EffectsOf<S, M, X>(script: seq<Act<S, M, X>>): (r: seq<Effect<M, X>>)
    ensures |r| <= |script|
    decreases |script|
  {
    if script == [] then []
    else
      (match script[0]
       case Next(_, _) => []
       case Emit(m) => [Emitted(m)]
       case CloseDispatcher => [DispatcherClosed]
       case Send(x) => [Sent(x)]) + EffectsOf(script[1..])
  }

  /** Past the last middleware, a script's `next` calls do nothing and its
      other acts leave the chain in order. */
  lemma {:induction false} PerformAtEnd<S, M, X>(mws: seq<Middleware<S, M, X>>, bound: nat, script: seq<Act<S, M, X>>)
    requires bound < |mws|
    ensures Perform(mws, |mws|, bound, script) == Walk(|mws|, [], EffectsOf(script))
    decreases |script|
  {
    if script != [] {
      PerformAtEnd(mws, bound, script[1..]);
      match script[0] {
        case Next(s, m) =>
          assert WalkFrom(mws, |mws|, s, m) == Walk(|mws|, [], []);
        case _ =>
      }
    }
  }

  /** The last middleware runs alone: its `next` calls reach nothing. */
  lemma {:induction false} LastMiddlewareRunsAlone<S, M, X>(mws: seq<Middleware<S, M, X>>, s: S, m: M)
    requires |mws| > 0
    ensures WalkFrom(mws, |mws| - 1, s, m) == Walk(|mws|, [|mws| - 1], EffectsOf(mws[|mws| - 1](s, m)))
  {
    PerformAtEnd(mws, |mws| - 1, mws[|mws| - 1](s, m));
  }

  /** `lo, lo + 1, ..., hi - 1`. */
  function Range(lo: nat, hi: nat): (r: seq<nat>)
    ensures |r| == if lo <= hi then hi - lo else 0
    ensures forall i :: 0 <= i < |r| ==> r[i] == lo + i
    decreases hi - lo
  {
    if lo >= hi then [] else [lo] + Range(lo + 1, hi)
  }

  /** Each dispatch through the chain runs every middleware at most once and
      in list order. */
  lemma ChainRunsEachMiddlewareAtMostOnceInOrder<S, M, X>(mws: seq<Middleware<S, M, X>>, s: S, m: M)
    ensures var inv := WalkFrom(mws, 0, s, m).invoked;
            && (forall i :: 0 <= i < |inv| ==> inv[i] < |mws|)
            && (forall i, j :: 0 <= i < j < |inv| ==> inv[i] < inv[j])
  {
  }

  /** `next` past the last middleware does nothing. */
  lemma NextAfterLastIsNoOp<S, M, X>(mws: seq<Middleware<S, M, X>>, s: S, m: M)
    ensures WalkFrom(mws, |mws|, s, m) == Walk(|mws|, [], [])
  {
  }

  /** Not calling `next` stops the chain: only the first middleware runs. */
  lemma {:induction false} NoNextStopsChain<S, M, X>(mws: seq<Middleware<S, M, X>>, s: S, m: M)
    requires |mws| > 0
    requires forall k :: 0 <= k < |mws[0](s, m)| ==> !mws[0](s, m)[k].Next?
    ensures WalkFrom(mws, 0, s, m).invoked == [0]
    ensures WalkFrom(mws, 0, s, m).pos == 1
  {
    NoNextRunsNothing(mws, 1, 0, mws[0](s, m));
  }

  lemma {:induction false} NoNextRunsNothing<S, M, X>(mws: seq<Middleware<S, M, X>>, pos: nat, bound: nat, script: seq<Act<S, M, X>>)
    requires bound < pos <= |mws|
    requires forall k :: 0 <= k < |script| ==> !script[k].Next?
    ensures Perform(mws, pos, bound, script).invoked == []
    ensures Perform(mws, pos, bound, script).pos == pos
    decreases |script|
  {
    if script != [] {
      assert !script[0].Next?;
      NoNextRunsNothing(mws, pos, bound, script[1..]);
    }
  }

  /** When every middleware just passes the message on, every middleware
      from the iterator's position on runs, each once, in order. */
  lemma {:induction false} PassThroughRunsAll<S, M, X>(mws: seq<Middleware<S, M, X>>, pos: nat, s: S, m: M)
    requires pos <= |mws|
    requires forall k :: pos <= k < |mws| ==> mws[k](s, m) == [Next(s, m)]
    ensures WalkFrom(mws, pos, s, m).invoked == Range(pos, |mws|)
    ensures WalkFrom(mws, pos, s, m).pos == |mws|
    ensures WalkFrom(mws, pos, s, m).effects == []
    decreases |mws| - pos
  {
    if pos < |mws| {
      PassThroughRunsAll(mws, pos + 1, s, m);
      var w1 := WalkFrom(mws, pos + 1, s, m);
      var script := mws[pos](s, m);
      assert script[1..] == [];
      assert Perform(mws, pos + 1, pos, script) == Walk(w1.pos, w1.invoked + [], w1.effects + []);
    }
  }

  /** `MiddlewareChainNextImpl` over the chain's fresh iterator: `pos` is the
      iterator's position; `invoked` and `effects` record what the walk did. */
  class ChainWalk<S, M, X> {
    const middleware: seq<Middleware<S, M, X>>
    var pos: nat
    var invoked: seq<nat>
    var effects: seq<Effect<M, X>>

    constructor (mws: seq<Middleware<S, M, X>>)
      ensures middleware == mws && pos == 0 && invoked == [] && effects == []
    {
      middleware := mws;
      pos := 0;
      invoked := [];
      effects := [];
    }

    /** `dispatch(dispatcher, state, message)`: if the iterator has a next
        middleware, take it and run it with this same `Next`. */
    method Dispatch(s: S, m: M)
      requires pos <= |middleware|
      modifies this
      ensures var w := WalkFrom(middleware, old(pos), s, m);
              pos == w.pos && invoked == old(invoked) + w.invoked && effects == old(effects) + w.effects
      decreases |middleware| - pos, 1, 0
    {
      if pos < |middleware| {
        var i := pos;
        pos := pos + 1;
        invoked := invoked + [i];
        Run(i, middleware[i](s, m));
        assert invoked == old(invoked) + ([i] + WalkFrom(middleware, old(pos), s, m).invoked[1..]);
      }
    }

    /** The body of the middleware at index `bound`, one act at a time. */
    method Run(ghost bound: nat, script: seq<Act<S, M, X>>)
      requires bound < pos <= |middleware|
      modifies this
      ensures var w := Perform(middleware, old(pos), bound, script);
              pos == w.pos && invoked == old(invoked) + w.invoked && effects == old(effects) + w.effects
      decreases |middleware| - bound, 0, |script|
    {
      if script != [] {
        match script[0] {
          case Next(s, m) =>
            Dispatch(s, m);
          case Emit(m) =>
            effects := effects + [Emitted(m)];
          case CloseDispatcher =>
            effects := effects + [DispatcherClosed];
          case Send(x) =>
            effects := effects + [Sent(x)];
        }
        Run(bound, script[1..]);
      }
    }
  }

  /** `middlewareChain(middleware)`. */
  class Chain<S, M, X> {
    const middleware: seq<Middleware<S, M, X>>
    /** The `close()` calls made on the middleware, by index. */
    var closed: seq<nat>

    constructor (mws: seq<Middleware<S, M, X>>)
      ensures middleware == mws && closed == []
    {
      middleware := mws;
      closed := [];
    }

    /** `dispatch(dispatcher, state, message)`: a walk over a fresh iterator.
        Returns which middleware ran, in order, and what the dispatcher got. */
    method Dispatch(s: S, m: M) returns (invoked: seq<nat>, effects: seq<Effect<M, X>>)
      ensures invoked == WalkFrom(middleware, 0, s, m).invoked
      ensures effects == WalkFrom(middleware, 0, s, m).effects
      ensures forall i, j :: 0 <= i < j < |invoked| ==> invoked[i] < invoked[j] < |middleware|
    {
      var walk := new ChainWalk(middleware);
      walk.Dispatch(s, m);
      invoked, effects := walk.invoked, walk.effects;
    }

    /** `close()`: `forEach { it.close() }`, which stops at the first `close`
        that throws; `outcome(i)` is how the `close` of middleware `i` ends. */
    method Close(outcome: nat -> Result<()>) returns (r: Result<()>)
      modifies this
      ensures var k := |closed| - |old(closed)|;
              && |closed| >= |old(closed)|
              && closed == old(closed) + Range(0, k)
              && k <= |middleware|
              && (forall j :: 0 <= j < k - 1 ==> outcome(j).Success?)
              && (r.Success? <==> k == |middleware| && forall j :: 0 <= j < k ==> outcome(j).Success?)
              && (r.Failure? ==> k > 0 && r == outcome(k - 1))
    {
      var i := 0;
      r := Success(());
      while i < |middleware|
        invariant 0 <= i <= |middleware|
        invariant closed == old(closed) + Range(0, i)
        invariant forall j :: 0 <= j < i ==> outcome(j).Success?
        invariant r == Success(())
      {
        closed := closed + [i];
        if outcome(i).Failure? {
          assert Range(0, i + 1) == Range(0, i) + [i];
          return outcome(i);
        }
        assert Range(0, i + 1) == Range(0, i) + [i];
        i := i + 1;
      }
    }
  }
}
