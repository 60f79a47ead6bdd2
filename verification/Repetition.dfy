/** Doing something to a state again and again. */
module Repetition {

  function Repeat<S>(f: S -> S, s: S, n: nat): S
    decreases n
  {
    if n == 0 then s else Repeat(f, f(s), n - 1)
  }

  lemma {:induction false} RepeatKeeps<S>(f: S -> S, p: S -> bool, s: S, n: nat)
    requires p(s) && forall t :: p(t) ==> p(f(t))
    ensures p(Repeat(f, s, n))
    decreases n
  {
    if n > 0 { RepeatKeeps(f, p, f(s), n - 1); }
  }

  lemma {:induction false} RepeatFixed<S>(f: S -> S, s: S, n: nat)
    requires f(s) == s
    ensures Repeat(f, s, n) == s
  {
    if n > 0 { RepeatFixed(f, s, n - 1); }
  }

  /** If `f` takes one off a measure as long as it does anything at all, then so often does it
      do something, up to `n` times. */
  lemma {:induction false} RepeatCounts<S>(f: S -> S, p: S -> bool, m: S -> int, s: S, n: nat)
    requires p(s) && forall t :: p(t) ==> p(f(t)) && (f(t) == t || m(f(t)) == m(t) - 1)
    ensures var r := Repeat(f, s, n);
            p(r) && 0 <= m(s) - m(r) <= n && (m(s) - m(r) < n ==> f(r) == r)
    decreases n
  {
    if f(s) == s { RepeatFixed(f, s, n); } else if n > 0 { RepeatCounts(f, p, m, f(s), n - 1); }
  }

  ghost predicate IsChain<S>(f: S -> S, path: seq<S>) {
    forall i :: 0 <= i < |path| - 1 ==> path[i + 1] == f(path[i])
  }

  /** A chain of `n` applications, or of fewer that end where `f` changes nothing. */
  lemma {:induction false} ChainIsRepeat<S>(f: S -> S, path: seq<S>, n: nat)
    requires 0 < |path| <= n + 1 && IsChain(f, path)
    requires |path| == n + 1 || f(path[|path| - 1]) == path[|path| - 1]
    ensures Repeat(f, path[0], n) == path[|path| - 1]
    decreases n
  {
    if |path| == 1 {
      if n > 0 { RepeatFixed(f, path[0], n); }
    } else {
      ChainIsRepeat(f, path[1..], n - 1);
    }
  }

  /** If `f` takes the first element off a list, then `n` times takes off the first `n`. */
  lemma {:induction false} RepeatPops<S, T>(f: S -> S, p: S -> bool, l: S -> seq<T>, s: S, n: nat)
    requires p(s) && forall t :: p(t) ==> p(f(t)) && l(f(t)) == if l(t) == [] then [] else l(t)[1..]
    ensures l(Repeat(f, s, n)) == l(s)[if n < |l(s)| then n else |l(s)|..]
    decreases n
  {
    if n > 0 { RepeatPops(f, p, l, f(s), n - 1); }
  }
}
