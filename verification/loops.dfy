/** A counted `for` loop whose body may raise: turn `i` maps the state built so
    far to the next state or to an exception, and the first exception ends the
    loop. The facts here hold for any body, so proofs about a particular loop
    only have to look at one turn. */
module Loops {
  import opened Wrappers

  /** Turns `i`, `i + 1`, ..., `n - 1` of the loop, from the state `acc`. */
  function Run<S, E>(turn: (nat, S) -> Result<S, E>, n: nat, i: nat, acc: S): (r: Result<S, E>)
    requires i <= n
    decreases n - i
  {
    if i == n then Success(acc)
    else
      match turn(i, acc)
      case Failure(err) => Failure(err)
      case Success(next) => Run(turn, n, i + 1, next)
  }

  /** When whether a turn raises depends on its number only (`fails`), a
      turn `j` that raises is never passed: the loop raises. */
  lemma {:induction false} RunStops<S, E>(turn: (nat, S) -> Result<S, E>, n: nat, i: nat, acc: S, fails: nat -> bool, j: nat)
    requires i <= j < n && fails(j)
    requires forall k: nat, s: S :: i <= k < n ==> (turn(k, s).Failure? <==> fails(k))
    ensures Run(turn, n, i, acc).Failure?
    decreases j - i
  {
    if turn(i, acc).Success? {
      RunStops(turn, n, i + 1, turn(i, acc).value, fails, j);
    }
  }

  /** When whether a turn raises depends on its number only (`fails`), a
      loop that raises does so at its first failing turn `j`, reached with
      the state `s`, and passes on that turn's exception. */
  lemma {:induction false} RunFailure<S, E>(turn: (nat, S) -> Result<S, E>, n: nat, i: nat, acc: S, fails: nat -> bool)
    returns (j: nat, s: S)
    requires i <= n && Run(turn, n, i, acc).Failure?
    requires forall k: nat, s: S :: i <= k < n ==> (turn(k, s).Failure? <==> fails(k))
    ensures i <= j < n && fails(j) && turn(j, s) == Failure(Run(turn, n, i, acc).error)
    ensures forall k :: i <= k < j ==> !fails(k)
    decreases n - i
  {
    if turn(i, acc).Failure? {
      j, s := i, acc;
    } else {
      j, s := RunFailure(turn, n, i + 1, turn(i, acc).value, fails);
    }
  }

  /** A property of (turn number, state) that holds at the start and that
      every turn which goes through carries over holds when the loop ends
      normally. */
  lemma {:induction false} RunKeeps<S, E>(turn: (nat, S) -> Result<S, E>, n: nat, i: nat, acc: S, inv: (nat, S) -> bool)
    requires i <= n && inv(i, acc)
    requires forall k: nat, s: S :: i <= k < n && inv(k, s) && turn(k, s).Success? ==> inv(k + 1, turn(k, s).value)
    ensures Run(turn, n, i, acc).Success? ==> inv(n, Run(turn, n, i, acc).value)
    decreases n - i
  {
    if i < n && turn(i, acc).Success? {
      RunKeeps(turn, n, i + 1, turn(i, acc).value, inv);
    }
  }
}
