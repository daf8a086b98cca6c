/** The result shapes the source uses everywhere: `TResult<T>` is `{ ok, result?, error? }` with a
    string error, and optional values are JavaScript's `undefined`. */
module Wrappers {

  datatype Option<T> = None | Some(value: T)

  /** `{ ok: true, result }` or `{ ok: false, error }`. */
  datatype Result<T> = Ok(value: T) | Err(error: string)

  /** Runs the steps `f(0)`, ..., `f(n - 1)` in order and stops at the first that fails. */
  function Collect<T>(n: nat, f: nat -> Result<T>): Result<seq<T>>
  {
    if n == 0 then Ok([])
    else
      var prev := Collect(n - 1, f);
      if prev.Err? then prev
      else if f(n - 1).Err? then Err(f(n - 1).error)
      else Ok(prev.value + [f(n - 1).value])
  }

  /** Collecting succeeds iff every step does, and then holds every step's value in order;
      otherwise it fails with the error of the first failing step. */
  lemma {:induction false} CollectSpec<T>(n: nat, f: nat -> Result<T>)
    ensures var r := Collect(n, f);
      (r.Ok? <==> forall k :: 0 <= k < n ==> f(k).Ok?) &&
      (r.Ok? ==> |r.value| == n && forall k :: 0 <= k < n ==> r.value[k] == f(k).value) &&
      (r.Err? ==> exists k :: 0 <= k < n && f(k).Err? && r.error == f(k).error &&
                              forall j :: 0 <= j < k ==> f(j).Ok?)
  {
    if n > 0 {
      CollectSpec(n - 1, f);
    }
  }

  /** Once a step has failed, collecting further steps keeps that failure. */
  lemma {:induction false} CollectStopsAtError<T>(m: nat, n: nat, f: nat -> Result<T>)
    requires m <= n && Collect(m, f).Err?
    ensures Collect(n, f) == Collect(m, f)
  {
    if m < n {
      CollectStopsAtError(m, n - 1, f);
    }
  }
}
