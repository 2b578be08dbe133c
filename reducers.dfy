/** `compose` of the store library: many reducers chained into one. */
module Reducers {
  import opened Outcomes

  /** `(State, Action) -> State`. */
  type Reducer<!S, !A> = (S, A) -> S

  /** The left fold `reducers.fold(state) { s, r -> r(s, action) }`: the
      last reducer applied to what the others made of `state`. */
  function Fold<S, A>(rs: seq<Reducer<S, A>>, s: S, a: A): S
    decreases |rs|
  {
    if rs == [] then s else rs[|rs| - 1](Fold(rs[..|rs| - 1], s, a), a)
  }

  /** `compose(vararg reducers)`: fails its `require` on an empty list,
      otherwise returns the reducer that folds them all over the state. */
  function Compose<S(!new), A(!new)>(rs: seq<Reducer<S, A>>): (r: Result<Reducer<S, A>>)
    ensures r.Failure? <==> rs == []
    ensures r.Failure? ==> r.error == IllegalArgument
    ensures r.Success? ==> forall s, a :: r.value(s, a) == Fold(rs, s, a)
  {
    if rs == [] then Failure(IllegalArgument)
    else Success((s, a) => Fold(rs, s, a))
  }

  /** Folding a concatenation folds the second list over the result of the first. */
  lemma {:induction false} FoldAppend<S, A>(xs: seq<Reducer<S, A>>, ys: seq<Reducer<S, A>>, s: S, a: A)
    ensures Fold(xs + ys, s, a) == Fold(ys, Fold(xs, s, a), a)
    decreases |ys|
  {
    if ys == [] {
      assert xs + ys == xs;
    } else {
      var last := ys[|ys| - 1];
      var init := ys[..|ys| - 1];
      assert (xs + ys)[..|xs + ys| - 1] == xs + init;
      FoldAppend(xs, init, s, a);
    }
  }

  /** The reducers run in argument order: the first one sees the original
      state, the rest fold over its result. */
  lemma {:induction false} FoldFirstThenRest<S, A>(rs: seq<Reducer<S, A>>, s: S, a: A)
    requires rs != []
    ensures Fold(rs, s, a) == Fold(rs[1..], rs[0](s, a), a)
  {
    assert rs == [rs[0]] + rs[1..];
    FoldAppend([rs[0]], rs[1..], s, a);
    assert [rs[0]][..0] == [];
  }

  /** `compose(r)` behaves like `r`. */
  lemma ComposeSingle<S(!new), A(!new)>(r: Reducer<S, A>, s: S, a: A)
    ensures Compose([r]).Success?
    ensures Compose([r]).value(s, a) == r(s, a)
  {
    assert [r][..0] == [];
    assert Fold([r], s, a) == r(s, a);
  }

  /** `compose(r1, ..., rn)(s, a) == compose(r2, ..., rn)(r1(s, a), a)` for n >= 2. */
  lemma ComposeFirstThenRest<S(!new), A(!new)>(rs: seq<Reducer<S, A>>, s: S, a: A)
    requires |rs| >= 2
    ensures Compose(rs).Success? && Compose(rs[1..]).Success?
    ensures Compose(rs).value(s, a) == Compose(rs[1..]).value(rs[0](s, a), a)
  {
    FoldFirstThenRest(rs, s, a);
  }

  /** When every reducer leaves `s` as it is for `a`, so does the composition. */
  lemma {:induction false} FoldOfIdentities<S, A>(rs: seq<Reducer<S, A>>, s: S, a: A)
    requires forall i :: 0 <= i < |rs| ==> rs[i](s, a) == s
    ensures Fold(rs, s, a) == s
    decreases |rs|
  {
    if rs != [] {
      FoldOfIdentities(rs[..|rs| - 1], s, a);
    }
  }
}
