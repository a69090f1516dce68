/** The loops of `minimax` over its moves, abstracted from the game: the
    maximizing loop with its `alpha` updates and cutoff, the minimizing loop
    with its `beta` updates and cutoff, and the plain maximum and minimum
    they approximate. A node's child searches are a function from the move
    index and the search window to the value the child search returns. */
module Pruning {

  /** A search value or bound: a real, or one of the infinities that
      `-Infinity` and `Infinity` stand for. */
  datatype Ext = NegInf | Fin(v: real) | PosInf

  predicate Le(a: Ext, b: Ext) {
    a.NegInf? || b.PosInf? || (a.Fin? && b.Fin? && a.v <= b.v)
  }

  predicate Lt(a: Ext, b: Ext) {
    !Le(b, a)
  }

  lemma LeTrans(a: Ext, b: Ext, c: Ext)
    requires Le(a, b) && Le(b, c)
    ensures Le(a, c)
  {
  }

  /** `Math.max` on extended values: one of the two, and above both. */
  function Max(a: Ext, b: Ext): (r: Ext)
    ensures r == a || r == b
    ensures Le(a, r) && Le(b, r)
  {
    if Le(a, b) then b else a
  }

  /** `Math.min` on extended values: one of the two, and below both. */
  function Min(a: Ext, b: Ext): (r: Ext)
    ensures r == a || r == b
    ensures Le(r, a) && Le(r, b)
  {
    if Le(a, b) then a else b
  }

  /** `Max` is the least upper bound. */
  lemma MaxBounds(a: Ext, b: Ext)
    ensures Le(a, Max(a, b)) && Le(b, Max(a, b))
    ensures forall c :: Le(a, c) && Le(b, c) ==> Le(Max(a, b), c)
  {
  }

  /** `Min` is the greatest lower bound. */
  lemma MinBounds(a: Ext, b: Ext)
    ensures Le(Min(a, b), a) && Le(Min(a, b), b)
    ensures forall c :: Le(c, a) && Le(c, b) ==> Le(c, Min(a, b))
  {
  }

  /** The searches of a node's children: `search(j, alpha, beta)` is what
      searching the child reached by move `j` in the window
      `(alpha, beta)` returns. */
  type Searches = (nat, Ext, Ext) -> real

  /** The true values of a node's children, by move index. */
  type Values = nat -> real

  /** The maximizing loop from move `i` of `n` on, with the current
      `alpha` and the best result `best` so far: each child is searched in
      `(alpha, beta)`, `alpha` rises to the best result, and the loop stops
      as soon as `beta <= alpha`. */
  function MaxLoop(search: Searches, n: nat, i: nat, alpha: Ext, beta: Ext, best: Ext): (r: Ext)
    requires i <= n
    ensures (best.Fin? || (best.NegInf? && i < n)) ==> r.Fin?
    decreases n - i
  {
    if i == n then best
    else
      var best' := Max(best, Fin(search(i, alpha, beta)));
      var alpha' := Max(alpha, best');
      if Le(beta, alpha') then best'
      else MaxLoop(search, n, i + 1, alpha', beta, best')
  }

  /** The minimizing loop, the mirror image of `MaxLoop`: `beta` falls to
      the best result, and the loop stops as soon as `beta <= alpha`. */
  function MinLoop(search: Searches, n: nat, i: nat, alpha: Ext, beta: Ext, best: Ext): (r: Ext)
    requires i <= n
    ensures (best.Fin? || (best.PosInf? && i < n)) ==> r.Fin?
    decreases n - i
  {
    if i == n then best
    else
      var best' := Min(best, Fin(search(i, alpha, beta)));
      var beta' := Min(beta, best');
      if Le(beta', alpha) then best'
      else MinLoop(search, n, i + 1, alpha, beta', best')
  }

  /** One iteration of the maximizing loop, given the child's result `v`. */
  lemma MaxLoopNext(search: Searches, n: nat, i: nat, alpha: Ext, beta: Ext, best: Ext, v: real)
    requires i < n && v == search(i, alpha, beta)
    ensures var best' := Max(best, Fin(v));
      MaxLoop(search, n, i, alpha, beta, best)
      == if Le(beta, Max(alpha, best')) then best' else MaxLoop(search, n, i + 1, Max(alpha, best'), beta, best')
  {
  }

  /** One iteration of the minimizing loop, given the child's result `v`. */
  lemma MinLoopNext(search: Searches, n: nat, i: nat, alpha: Ext, beta: Ext, best: Ext, v: real)
    requires i < n && v == search(i, alpha, beta)
    ensures var best' := Min(best, Fin(v));
      MinLoop(search, n, i, alpha, beta, best)
      == if Le(Min(beta, best'), alpha) then best' else MinLoop(search, n, i + 1, alpha, Min(beta, best'), best')
  {
  }

  /** The largest of `acc` and the values of moves `i` to `n`. */
  function MaxOver(value: Values, n: nat, i: nat, acc: Ext): (r: Ext)
    requires i <= n
    ensures (acc.Fin? || (acc.NegInf? && i < n)) ==> r.Fin?
    decreases n - i
  {
    if i == n then acc else MaxOver(value, n, i + 1, Max(acc, Fin(value(i))))
  }

  /** The smallest of `acc` and the values of moves `i` to `n`. */
  function MinOver(value: Values, n: nat, i: nat, acc: Ext): (r: Ext)
    requires i <= n
    ensures (acc.Fin? || (acc.PosInf? && i < n)) ==> r.Fin?
    decreases n - i
  {
    if i == n then acc else MinOver(value, n, i + 1, Min(acc, Fin(value(i))))
  }

  /** The maximum is at least the accumulator it starts from. */
  lemma {:induction false} MaxOverAbove(value: Values, n: nat, i: nat, acc: Ext)
    requires i <= n
    ensures Le(acc, MaxOver(value, n, i, acc))
    decreases n - i
  {
    if i < n {
      var acc' := Max(acc, Fin(value(i)));
      MaxOverAbove(value, n, i + 1, acc');
      MaxBounds(acc, Fin(value(i)));
      LeTrans(acc, acc', MaxOver(value, n, i + 1, acc'));
    }
  }

  /** The minimum is at most the accumulator it starts from. */
  lemma {:induction false} MinOverBelow(value: Values, n: nat, i: nat, acc: Ext)
    requires i <= n
    ensures Le(MinOver(value, n, i, acc), acc)
    decreases n - i
  {
    if i < n {
      var acc' := Min(acc, Fin(value(i)));
      MinOverBelow(value, n, i + 1, acc');
      MinBounds(acc, Fin(value(i)));
      LeTrans(MinOver(value, n, i + 1, acc'), acc', acc);
    }
  }

  /** The fail-soft guarantee of a search in the window `(alpha, beta)`
      that returns `r` where the true value is `v`: exact inside the
      window, and on the correct side of it, between the bound and the
      true value, outside. */
  predicate FailSoft(r: Ext, v: Ext, alpha: Ext, beta: Ext) {
    && (Lt(alpha, v) && Lt(v, beta) ==> r == v)
    && (Le(v, alpha) ==> Le(v, r) && Le(r, alpha))
    && (Le(beta, v) ==> Le(beta, r) && Le(r, v))
  }

  /** Every child search is fail-soft with respect to the child's true
      value, in every window with `alpha < beta`. */
  ghost predicate SoundChildren(search: Searches, value: Values, n: nat) {
    forall j: nat, a, b :: j < n && Lt(a, b) ==> FailSoft(Fin(search(j, a, b)), Fin(value(j)), a, b)
  }

  /** One iteration of the maximizing loop, on values. Its invariant:
      `alpha` is `alpha0` raised to the best result `best` so far, and
      `best` is the exact maximum `vm` of the true values seen once that
      exceeds `alpha0`, and lies between `vm` and `alpha0` before. If the
      child search with true value `vc` returns a fail-soft `r`, then
      either the loop cuts off with a result between `beta` and `vc`, or
      the invariant holds again one move later. */
  lemma MaxStep(alpha0: Ext, alpha: Ext, beta: Ext, best: Ext, vm: Ext, r: Ext, vc: Ext)
    requires Lt(alpha0, beta) && alpha == Max(alpha0, best) && Lt(alpha, beta)
    requires Le(vm, alpha0) ==> Le(vm, best) && Le(best, alpha0)
    requires Lt(alpha0, vm) ==> best == vm
    requires FailSoft(r, vc, alpha, beta)
    ensures var best', next := Max(best, r), Max(vm, vc);
      && (Le(beta, Max(alpha, best')) ==> Le(beta, best') && Le(best', vc))
      && (!Le(beta, Max(alpha, best')) ==>
            && Max(alpha, best') == Max(alpha0, best') && Lt(Max(alpha, best'), beta)
            && (Le(next, alpha0) ==> Le(next, best') && Le(best', alpha0))
            && (Lt(alpha0, next) ==> best' == next))
  {
  }

  /** The mirror image of `MaxStep` for the minimizing loop. */
  lemma MinStep(alpha: Ext, beta0: Ext, beta: Ext, best: Ext, vm: Ext, r: Ext, vc: Ext)
    requires Lt(alpha, beta0) && beta == Min(beta0, best) && Lt(alpha, beta)
    requires Le(beta0, vm) ==> Le(beta0, best) && Le(best, vm)
    requires Lt(vm, beta0) ==> best == vm
    requires FailSoft(r, vc, alpha, beta)
    ensures var best', next := Min(best, r), Min(vm, vc);
      && (Le(Min(beta, best'), alpha) ==> Le(vc, best') && Le(best', alpha))
      && (!Le(Min(beta, best'), alpha) ==>
            && Min(beta, best') == Min(beta0, best') && Lt(alpha, Min(beta, best'))
            && (Le(beta0, next) ==> Le(beta0, best') && Le(best', next))
            && (Lt(next, beta0) ==> best' == next))
  {
  }

  /** The maximizing loop keeps the invariant of `MaxStep` to the end, so
      its result is fail-soft for the maximum over all moves in the window
      `(alpha0, beta)` it started in. */
  lemma {:induction false} MaxLoopSound(search: Searches, value: Values, n: nat, i: nat,
                                        alpha0: Ext, alpha: Ext, beta: Ext, best: Ext, vm: Ext)
    requires SoundChildren(search, value, n) && i <= n
    requires Lt(alpha0, beta) && alpha == Max(alpha0, best) && Lt(alpha, beta)
    requires Le(vm, alpha0) ==> Le(vm, best) && Le(best, alpha0)
    requires Lt(alpha0, vm) ==> best == vm
    ensures FailSoft(MaxLoop(search, n, i, alpha, beta, best), MaxOver(value, n, i, vm), alpha0, beta)
    decreases n - i
  {
    if i < n {
      var r, vc := Fin(search(i, alpha, beta)), Fin(value(i));
      var best', next := Max(best, r), Max(vm, vc);
      var alpha' := Max(alpha, best');
      MaxStep(alpha0, alpha, beta, best, vm, r, vc);
      if Le(beta, alpha') {
        MaxOverAbove(value, n, i + 1, next);
        MaxBounds(vm, vc);
        LeTrans(vc, next, MaxOver(value, n, i + 1, next));
        LeTrans(best', vc, MaxOver(value, n, i + 1, next));
      } else {
        MaxLoopSound(search, value, n, i + 1, alpha0, alpha', beta, best', next);
      }
    }
  }

  /** The mirror image of `MaxLoopSound` for the minimizing loop. */
  lemma {:induction false} MinLoopSound(search: Searches, value: Values, n: nat, i: nat,
                                        alpha: Ext, beta0: Ext, beta: Ext, best: Ext, vm: Ext)
    requires SoundChildren(search, value, n) && i <= n
    requires Lt(alpha, beta0) && beta == Min(beta0, best) && Lt(alpha, beta)
    requires Le(beta0, vm) ==> Le(beta0, best) && Le(best, vm)
    requires Lt(vm, beta0) ==> best == vm
    ensures FailSoft(MinLoop(search, n, i, alpha, beta, best), MinOver(value, n, i, vm), alpha, beta0)
    decreases n - i
  {
    if i < n {
      var r, vc := Fin(search(i, alpha, beta)), Fin(value(i));
      var best', next := Min(best, r), Min(vm, vc);
      var beta' := Min(beta, best');
      MinStep(alpha, beta0, beta, best, vm, r, vc);
      if Le(beta', alpha) {
        MinOverBelow(value, n, i + 1, next);
        MinBounds(vm, vc);
        LeTrans(MinOver(value, n, i + 1, next), next, vc);
        LeTrans(MinOver(value, n, i + 1, next), vc, best');
      } else {
        MinLoopSound(search, value, n, i + 1, alpha, beta0, beta', best', next);
      }
    }
  }

  /** A maximizing node whose child searches are fail-soft is itself
      fail-soft in any window `(alpha, beta)` with `alpha < beta`. */
  lemma MaxSound(search: Searches, value: Values, n: nat, alpha: Ext, beta: Ext)
    requires SoundChildren(search, value, n) && Lt(alpha, beta)
    ensures FailSoft(MaxLoop(search, n, 0, alpha, beta, NegInf), MaxOver(value, n, 0, NegInf), alpha, beta)
  {
    MaxLoopSound(search, value, n, 0, alpha, alpha, beta, NegInf, NegInf);
  }

  /** A minimizing node whose child searches are fail-soft is itself
      fail-soft in any window `(alpha, beta)` with `alpha < beta`. */
  lemma MinSound(search: Searches, value: Values, n: nat, alpha: Ext, beta: Ext)
    requires SoundChildren(search, value, n) && Lt(alpha, beta)
    ensures FailSoft(MinLoop(search, n, 0, alpha, beta, PosInf), MinOver(value, n, 0, PosInf), alpha, beta)
  {
    MinLoopSound(search, value, n, 0, alpha, beta, beta, PosInf, PosInf);
  }
}
