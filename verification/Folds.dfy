/** Folds over a list, and which element of the list decides a field of the result. */
module Folds {
  import opened Wrappers

  function Bind<T, U>(o: Option<T>, f: T -> Option<U>): Option<U> {
    match o
    case Some(v) => f(v)
    case None => None
  }

  function OrElse<T>(o: Option<T>, inherited: T): T {
    match o
    case Some(v) => v
    case None => inherited
  }

  function OrKeep<T>(o: Option<T>, inherited: Option<T>): Option<T> {
    if o.Some? then o else inherited
  }

  function Lookup<K, V>(m: map<K, V>, k: K): Option<V> {
    if k in m then Some(m[k]) else None
  }

  function Fold<S, N>(step: (S, N) -> S, s: S, xs: seq<N>): S
    decreases |xs|
  {
    if xs == [] then s else Fold(step, step(s, xs[0]), xs[1..])
  }

  /** What the last element that says anything says. */
  function Last<N, T>(says: N -> Option<T>, xs: seq<N>): Option<T> {
    if xs == [] then None else OrKeep(Last(says, xs[1..]), says(xs[0]))
  }

  /** What the first element that says anything says. */
  function First<N, T>(says: N -> Option<T>, xs: seq<N>): Option<T> {
    if xs == [] then None else OrKeep(says(xs[0]), First(says, xs[1..]))
  }

  lemma {:induction false} FoldConcat<S, N>(step: (S, N) -> S, s: S, xs: seq<N>, ys: seq<N>)
    ensures Fold(step, s, xs + ys) == Fold(step, Fold(step, s, xs), ys)
    decreases |xs|
  {
    if xs == [] {
      assert xs + ys == ys;
    } else {
      assert (xs + ys)[1..] == xs[1..] + ys;
      FoldConcat(step, step(s, xs[0]), xs[1..], ys);
    }
  }

  lemma FoldOne<S, N>(step: (S, N) -> S, s: S, x: N)
    ensures Fold(step, s, [x]) == step(s, x)
  {
    assert [x][1..] == [];
  }

  lemma {:induction false} LastConcat<N, T>(says: N -> Option<T>, xs: seq<N>, ys: seq<N>)
    ensures Last(says, xs + ys) == OrKeep(Last(says, ys), Last(says, xs))
  {
    if xs == [] {
      assert xs + ys == ys;
    } else {
      assert (xs + ys)[1..] == xs[1..] + ys;
      LastConcat(says, xs[1..], ys);
    }
  }

  lemma {:induction false} FirstConcat<N, T>(says: N -> Option<T>, xs: seq<N>, ys: seq<N>)
    ensures First(says, xs + ys) == OrKeep(First(says, xs), First(says, ys))
  {
    if xs == [] {
      assert xs + ys == ys;
    } else {
      assert (xs + ys)[1..] == xs[1..] + ys;
      FirstConcat(says, xs[1..], ys);
    }
  }

  /** A field that every element either sets outright or leaves alone is set by the last to set it. */
  lemma {:induction false} LastDecides<S(!new), N(!new), T>(
      step: (S, N) -> S, get: S -> T, says: N -> Option<T>, s: S, xs: seq<N>)
    requires forall t, x :: get(step(t, x)) == OrElse(says(x), get(t))
    ensures get(Fold(step, s, xs)) == OrElse(Last(says, xs), get(s))
    decreases |xs|
  {
    if xs != [] {
      LastDecides(step, get, says, step(s, xs[0]), xs[1..]);
    }
  }

  /** A field that an element sets only while it is unset is set by the first to set it. */
  lemma {:induction false} FirstDecides<S(!new), N(!new), T>(
      step: (S, N) -> S, get: S -> Option<T>, says: N -> Option<T>, s: S, xs: seq<N>)
    requires forall t, x :: get(step(t, x)) == OrKeep(get(t), says(x))
    ensures get(Fold(step, s, xs)) == OrKeep(get(s), First(says, xs))
    decreases |xs|
  {
    if xs != [] {
      FirstDecides(step, get, says, step(s, xs[0]), xs[1..]);
    }
  }

  lemma {:induction false} FoldKeeps<S(!new), N(!new)>(step: (S, N) -> S, inv: S -> bool, s: S, xs: seq<N>)
    requires inv(s)
    requires forall t, x :: inv(t) ==> inv(step(t, x))
    ensures inv(Fold(step, s, xs))
    decreases |xs|
  {
    if xs != [] {
      FoldKeeps(step, inv, step(s, xs[0]), xs[1..]);
    }
  }

  /** An element that changes nothing can be left out. */
  lemma FoldIgnores<S(!new), N>(step: (S, N) -> S, s: S, xs: seq<N>, x: N, ys: seq<N>)
    requires forall t :: step(t, x) == t
    ensures Fold(step, s, xs + [x] + ys) == Fold(step, s, xs + ys)
  {
    FoldConcat(step, s, xs + [x], ys);
    FoldConcat(step, s, xs, [x]);
    FoldConcat(step, s, xs, ys);
  }

  /** A field that every element changes by itself is folded by itself. */
  lemma {:induction false} FoldProjects<S(!new), N(!new), T>(
      step: (S, N) -> S, get: S -> T, own: (T, N) -> T, s: S, xs: seq<N>)
    requires forall t, x :: get(step(t, x)) == own(get(t), x)
    ensures get(Fold(step, s, xs)) == Fold(own, get(s), xs)
    decreases |xs|
  {
    if xs != [] {
      FoldProjects(step, get, own, step(s, xs[0]), xs[1..]);
    }
  }

  /** What the elements contribute to a list, one after another. */
  function Collect<N, T>(f: N -> seq<T>, xs: seq<N>): seq<T> {
    if xs == [] then [] else f(xs[0]) + Collect(f, xs[1..])
  }

  /** A list that every element appends to holds what they contribute, in order. */
  lemma {:induction false} FoldCollects<S(!new), N(!new), T>(
      step: (S, N) -> S, get: S -> seq<T>, f: N -> seq<T>, s: S, xs: seq<N>)
    requires forall t, x :: get(step(t, x)) == get(t) + f(x)
    ensures get(Fold(step, s, xs)) == get(s) + Collect(f, xs)
    decreases |xs|
  {
    if xs == [] {
      assert get(s) + [] == get(s);
    } else {
      FoldCollects(step, get, f, step(s, xs[0]), xs[1..]);
      assert (get(s) + f(xs[0])) + Collect(f, xs[1..]) == get(s) + (f(xs[0]) + Collect(f, xs[1..]));
    }
  }

  /** A field that summarises the words so far goes on to summarise those the elements contribute. */
  lemma {:induction false} FoldSummarises<S(!new), N(!new), T(!new), U>(
      step: (S, N) -> S, get: S -> U, summary: seq<T> -> U, f: N -> seq<T>, s: S, xs: seq<N>, words: seq<T>)
    requires get(s) == summary(words)
    requires forall t, x, ws {:trigger step(t, x), summary(ws)} ::
      get(t) == summary(ws) ==> get(step(t, x)) == summary(ws + f(x))
    ensures get(Fold(step, s, xs)) == summary(words + Collect(f, xs))
    decreases |xs|
  {
    if xs == [] {
      assert words + Collect(f, xs) == words;
    } else {
      FoldSummarises(step, get, summary, f, step(s, xs[0]), xs[1..], words + f(xs[0]));
      assert (words + f(xs[0])) + Collect(f, xs[1..]) == words + (f(xs[0]) + Collect(f, xs[1..]));
    }
  }
}
