/** A partial step repeated over a list, and a plan that follows it. */
module Folds {
  import opened Models

  /** The state after all the events, each at the number after the last, or nothing once one is refused. */
  function Run<S, E>(step: (S, int, E) -> Option<S>, s: S, from: int, es: seq<E>): Option<S>
    decreases |es|
  {
    if es == [] then Some(s)
    else
      match Run(step, s, from, es[..|es| - 1])
      case None => None
      case Some(mid) => step(mid, from + |es|, es[|es| - 1])
  }

  function Scan<P, E>(next: (P, E) -> P, p: P, es: seq<E>): P
    decreases |es|
  {
    if es == [] then p else next(Scan(next, p, es[..|es| - 1]), es[|es| - 1])
  }

  lemma RunSnoc<S, E>(step: (S, int, E) -> Option<S>, s: S, from: int, es: seq<E>, e: E)
    ensures Run(step, s, from, es + [e])
            == match Run(step, s, from, es) case None => None case Some(mid) => step(mid, from + |es| + 1, e)
  {
    assert (es + [e])[..|es|] == es;
  }

  lemma ScanSnoc<P, E>(next: (P, E) -> P, p: P, es: seq<E>, e: E)
    ensures Scan(next, p, es + [e]) == next(Scan(next, p, es), e)
  {
    assert (es + [e])[..|es|] == es;
  }

  lemma {:induction false} RunPrefix<S, E>(step: (S, int, E) -> Option<S>, s: S, from: int, es: seq<E>, n: nat)
    requires n <= |es| && Run(step, s, from, es).Some?
    ensures Run(step, s, from, es[..n]).Some?
    decreases |es|
  {
    if n == |es| { assert es[..n] == es; }
    else {
      assert es[..|es| - 1][..n] == es[..n];
      RunPrefix(step, s, from, es[..|es| - 1], n);
    }
  }

  /** The event is admissible where the plan has come to. */
  ghost predicate AdmissibleAt<P, E>(next: (P, E) -> P, ok: (int, P, E) -> bool, p: P, from: int, es: seq<E>, k: int)
    requires 0 <= k < |es|
  {
    ok(from + k + 1, Scan(next, p, es[..k]), es[k])
  }

  /** One step keeps the relation between state and plan, and is possible exactly for an admissible event. */
  ghost predicate Keeps<S, P, E>(step: (S, int, E) -> Option<S>, next: (P, E) -> P, rel: (int, P, S) -> bool, ok: (int, P, E) -> bool,
                                 h: int, p: P, s: S, e: E)
  {
    rel(h, p, s) ==>
      && (step(s, h + 1, e).Some? <==> ok(h + 1, p, e))
      && (step(s, h + 1, e).Some? ==> rel(h + 1, next(p, e), step(s, h + 1, e).value))
  }

  lemma {:induction false} PrefixFollows<S, P, E>(step: (S, int, E) -> Option<S>, next: (P, E) -> P, rel: (int, P, S) -> bool,
                                                  ok: (int, P, E) -> bool, s: S, p: P, from: int, es: seq<E>, n: nat)
    requires rel(from, p, s) && n <= |es|
    requires forall h, q, t, e :: Keeps(step, next, rel, ok, h, q, t, e)
    ensures Run(step, s, from, es[..n]).Some? <==> forall k :: 0 <= k < n ==> AdmissibleAt(next, ok, p, from, es, k)
    ensures Run(step, s, from, es[..n]).Some? ==> rel(from + n, Scan(next, p, es[..n]), Run(step, s, from, es[..n]).value)
  {
    if n > 0 {
      var init, e := es[..n - 1], es[n - 1];
      PrefixFollows(step, next, rel, ok, s, p, from, es, n - 1);
      RunSnoc(step, s, from, init, e);
      ScanSnoc(next, p, init, e);
      assert es[..n] == init + [e];
      assert AdmissibleAt(next, ok, p, from, es, n - 1) <==> ok(from + n, Scan(next, p, init), e);
      match Run(step, s, from, init) {
        case None =>
        case Some(mid) => assert Keeps(step, next, rel, ok, from + (n - 1), Scan(next, p, init), mid, e);
      }
    }
  }

  /** The whole run succeeds exactly if every event is admissible, and then ends where the plan does. */
  lemma RunFollows<S, P, E>(step: (S, int, E) -> Option<S>, next: (P, E) -> P, rel: (int, P, S) -> bool, ok: (int, P, E) -> bool,
                            s: S, p: P, from: int, es: seq<E>)
    requires rel(from, p, s)
    requires forall h, q, t, e :: Keeps(step, next, rel, ok, h, q, t, e)
    ensures Run(step, s, from, es).Some? <==> forall k :: 0 <= k < |es| ==> AdmissibleAt(next, ok, p, from, es, k)
    ensures Run(step, s, from, es).Some? ==> rel(from + |es|, Scan(next, p, es), Run(step, s, from, es).value)
  {
    PrefixFollows(step, next, rel, ok, s, p, from, es, |es|);
    assert es[..|es|] == es;
  }
}
