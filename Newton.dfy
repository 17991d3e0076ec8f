/** Bracketed Newton iteration for a root of a real function: Newton steps
  * that would leave the current bracket are replaced by bisection. */
module Newton {
  import opened Wrappers

  /** What the search returns: the last iterate, the last function value,
    * the index of the last iteration and the payload of the last
    * evaluation. */
  datatype Outcome<A> = Outcome(x: real, fval: real, iter: nat, args: A)

  /** An objective returns its value, its derivative and a payload. */
  type Objective<A> = real -> (real, real, A)

  function Abs(v: real): real {
    if v < 0.0 then -v else v
  }

  /** The bracket after evaluating at x0: a negative value moves the lower
    * end to x0, any other value moves the upper end. */
  function Rebracket(x0: real, a: real, b: real, fval: real): (ab: (real, real))
    ensures fval < 0.0 ==> ab == (x0, b)
    ensures fval >= 0.0 ==> ab == (a, x0)
  {
    if fval < 0.0 then (x0, b) else (a, x0)
  }

  /** The next iterate: the Newton step when it falls strictly inside the
    * bracket, the midpoint otherwise. A zero derivative makes the step
    * infinite or undefined, which is never inside the bracket. */
  function Candidate(x0: real, fval: real, fpval: real, a: real, b: real): (x: real)
    ensures a <= b ==> a <= x <= b
    ensures fpval != 0.0 && a < x0 - fval / fpval < b ==> x == x0 - fval / fpval
    ensures (fpval == 0.0 || !(a < x0 - fval / fpval < b)) ==> x == 0.5 * (a + b)
  {
    if fpval != 0.0 && a < x0 - fval / fpval < b then x0 - fval / fpval else 0.5 * (a + b)
  }

  predicate Converged(x: real, x0: real, fval: real, tol: real) {
    Abs(x - x0) < tol || Abs(fval) < tol
  }

  /** The iteration from index `iter` on, starting at x0 in the bracket
    * [a, b]: the specification of the loop. */
  function Run<A>(func: Objective<A>, x0: real, a: real, b: real, iter: nat, maxiter: nat, tol: real): Outcome<A>
    requires iter < maxiter
    decreases maxiter - iter
  {
    var (fval, fpval, args) := func(x0);
    var (a1, b1) := Rebracket(x0, a, b, fval);
    var x := Candidate(x0, fval, fpval, a1, b1);
    if Converged(x, x0, fval, tol) || iter + 1 == maxiter then Outcome(x, fval, iter, args)
    else Run(func, x, a1, b1, iter + 1, maxiter, tol)
  }

  /** The point at which `Run` evaluates the objective last. */
  function LastPoint<A>(func: Objective<A>, x0: real, a: real, b: real, iter: nat, maxiter: nat, tol: real): real
    requires iter < maxiter
    decreases maxiter - iter
  {
    var (fval, fpval, _) := func(x0);
    var (a1, b1) := Rebracket(x0, a, b, fval);
    var x := Candidate(x0, fval, fpval, a1, b1);
    if Converged(x, x0, fval, tol) || iter + 1 == maxiter then x0
    else LastPoint(func, x, a1, b1, iter + 1, maxiter, tol)
  }

  /** `rootfind_newton`: with no iteration allowed, the source fails on an
    * unbound result. */
  method RootfindNewton<A>(func: Objective<A>, x0: real, a: real, b: real, maxiter: nat, tol: real)
    returns (r: Result<Outcome<A>>)
    ensures maxiter == 0 ==> r.Err?
    ensures maxiter > 0 ==> r == Ok(Run(func, x0, a, b, 0, maxiter, tol))
  {
    if maxiter == 0 {
      return Err("UnboundLocalError");
    }
    var lo, hi, cur := a, b, x0;
    var iter := 0;
    while true
      invariant iter < maxiter
      invariant Run(func, x0, a, b, 0, maxiter, tol) == Run(func, cur, lo, hi, iter, maxiter, tol)
      decreases maxiter - iter
    {
      var (fval, fpval, args) := func(cur);
      if fval < 0.0 {
        lo := cur;
      } else {
        hi := cur;
      }
      var x := cur - (if fpval != 0.0 then fval / fpval else 0.0);
      if fpval == 0.0 || !(lo < x < hi) {
        x := 0.5 * (lo + hi);
      }
      if Abs(x - cur) < tol || Abs(fval) < tol || iter + 1 == maxiter {
        return Ok(Outcome(x, fval, iter, args));
      }
      cur := x;
      iter := iter + 1;
    }
  }

  /** Started inside its bracket, the search keeps a <= b and returns an
    * iterate inside the original bracket. */
  lemma {:induction false} RunStaysInBracket<A>(func: Objective<A>, x0: real, a: real, b: real,
                                                iter: nat, maxiter: nat, tol: real)
    requires iter < maxiter && a <= x0 <= b
    ensures a <= Run(func, x0, a, b, iter, maxiter, tol).x <= b
    decreases maxiter - iter
  {
    var (fval, fpval, args) := func(x0);
    var (a1, b1) := Rebracket(x0, a, b, fval);
    var x := Candidate(x0, fval, fpval, a1, b1);
    if !(Converged(x, x0, fval, tol) || iter + 1 == maxiter) {
      RunStaysInBracket(func, x, a1, b1, iter + 1, maxiter, tol);
    }
  }

  /** The search performs at most `maxiter` evaluations; the returned value
    * and payload are those of its last evaluation, and it stopped because
    * that step converged or the iterations ran out. */
  lemma {:induction false} RunReturnsLastEvaluation<A>(func: Objective<A>, x0: real, a: real, b: real,
                                                       iter: nat, maxiter: nat, tol: real)
    requires iter < maxiter
    ensures iter <= Run(func, x0, a, b, iter, maxiter, tol).iter < maxiter
    ensures var o := Run(func, x0, a, b, iter, maxiter, tol);
            var p := LastPoint(func, x0, a, b, iter, maxiter, tol);
            o.fval == func(p).0 && o.args == func(p).2 &&
            (Converged(o.x, p, o.fval, tol) || o.iter + 1 == maxiter)
    decreases maxiter - iter
  {
    var (fval, fpval, args) := func(x0);
    var (a1, b1) := Rebracket(x0, a, b, fval);
    var x := Candidate(x0, fval, fpval, a1, b1);
    if !(Converged(x, x0, fval, tol) || iter + 1 == maxiter) {
      RunReturnsLastEvaluation(func, x, a1, b1, iter + 1, maxiter, tol);
    }
  }
}
