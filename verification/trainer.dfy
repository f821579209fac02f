/** The pure scheduling logic of `src/trainer.py`: the step-cycling generator
    over a data loader, the default logging interval and the checkpoint
    cadence of the training loop. */
module Trainer {
  import opened Common

  /** `loop_over_loader(loader, n)`, as the list of everything the generator
      yields. Steps are numbered from 1; the loader is restarted whenever it
      is exhausted; the stop test follows the yield, so at least one item
      comes out even when `n < 1`. */
  method LoopOverLoader<B>(loader: seq<B>, n: int) returns (out: seq<(int, B)>)
    requires |loader| > 0
    ensures |out| == if n >= 1 then n else 1
    ensures forall k :: 0 <= k < |out| ==> out[k] == (k + 1, loader[k % |loader|])
  {
    var bound := if n >= 1 then n else 1;
    var step := 0;
    out := [];
    while true
      invariant step == |out| && step < bound
      invariant step % |loader| == 0
      invariant forall k :: 0 <= k < |out| ==> out[k] == (k + 1, loader[k % |loader|])
      decreases bound - step
    {
      var start := step;
      var j := 0;
      while j < |loader|
        invariant 0 <= j <= |loader|
        invariant step == start + j == |out|
        invariant step < bound
        invariant forall k :: 0 <= k < |out| ==> out[k] == (k + 1, loader[k % |loader|])
      {
        ModOffset(start, j, |loader|);
        step := step + 1;
        out := out + [(step, loader[j])];
        if step >= n {
          return;
        }
        j := j + 1;
      }
      ModOffset(start, |loader| - 1, |loader|);
    }
  }

  /** Within one pass over the loader, position `j` of the pass is step
      `start + j`, whose remainder is `j`. */
  lemma ModOffset(start: nat, j: nat, len: nat)
    requires len > 0 && start % len == 0 && j < len
    ensures (start + j) % len == j
    ensures j == len - 1 ==> (start + j + 1) % len == 0
  {
    var q := start / len;
    assert start == q * len;
    ModUnique(start + j, len, q, j);
    if j == len - 1 {
      assert start + j + 1 == (q + 1) * len;
      ModUnique(start + j + 1, len, q + 1, 0);
    }
  }

  /** The logging interval of `Trainer.train`: the configured one, or when
      none is configured `max(1, validate_every // 5)`, which is at least 1
      and otherwise the floor of a fifth of the validation interval. */
  function PrintEvery(printEvery: Option<int>, validateEvery: int): (r: int)
    ensures printEvery.Some? ==> r == printEvery.value
    ensures printEvery.None? ==> r >= 1
    ensures printEvery.None? ==> (r == 1 <==> validateEvery < 10)
    ensures printEvery.None? && r > 1 ==> 5 * r <= validateEvery < 5 * r + 5
  {
    match printEvery
    case Some(p) => p
    case None =>
      var q := validateEvery / 5;
      if q >= 1 then q else 1
  }

  /** `step % print_every == 0`: a zero interval raises ZeroDivisionError. */
  function Checkpoint(step: int, printEvery: int): (r: Result<bool>)
    ensures r.Err? <==> printEvery == 0
    ensures r.Err? ==> r.error == ZeroDivisionError
  {
    if printEvery == 0 then Err(ZeroDivisionError)
    else Ok(step % printEvery == 0)
  }

  /** A checkpoint is written at the multiples of the interval and at no
      other step, whatever the signs. */
  lemma CheckpointMultiples(q: int, j: int, printEvery: int)
    requires printEvery != 0
    requires 0 <= j < if printEvery > 0 then printEvery else -printEvery
    ensures Checkpoint(q * printEvery + j, printEvery) == Ok(j == 0)
  {
    var a := q * printEvery + j;
    var d := if printEvery > 0 then printEvery else -printEvery;
    var q' := if printEvery > 0 then q else -q;
    assert a == q' * d + j;
    assert a % printEvery == a % d;
    ModUnique(a, d, q', j);
  }

  /** The remainder is the `j` of any decomposition `q * d + j` with `0 <= j < d`. */
  lemma ModUnique(a: int, d: int, q: int, j: int)
    requires d > 0 && 0 <= j < d && a == q * d + j
    ensures a % d == j
  {
    var q0, j0 := a / d, a % d;
    assert (q - q0) * d == j0 - j;
    MulBound(q - q0, d);
  }

  lemma MulBound(k: int, d: int)
    requires d > 0
    ensures k >= 1 ==> k * d >= d
    ensures k <= -1 ==> k * d <= -d
  {
    if k >= 1 {
      assert k * d == (k - 1) * d + d;
    } else if k <= -1 {
      assert k * d == (k + 1) * d - d;
    }
  }

  /** The steps among `1 .. n` at which the training loop writes a checkpoint.
      Python's and Dafny's remainders differ for a negative interval, but both
      are zero exactly at its multiples. */
  function CheckpointSteps(n: int, printEvery: int): (r: seq<int>)
    requires printEvery != 0
    ensures forall k :: 0 <= k < |r| ==> 1 <= r[k] <= n && r[k] % printEvery == 0
    decreases n
  {
    if n <= 0 then []
    else CheckpointSteps(n - 1, printEvery) + (if n % printEvery == 0 then [n] else [])
  }

  /** The checkpoint cadence of `Trainer.train`: the steps yielded by
      `loop_over_loader(loader, total_steps)` at which `step % print_every == 0`,
      in order. A zero interval raises at the first step; a run with
      `total_steps <= 0` still takes step 1. */
  method TrainCheckpoints<B>(loader: seq<B>, totalSteps: int, printEvery: int) returns (r: Result<seq<int>>)
    requires |loader| > 0
    ensures printEvery == 0 ==> r == Err(ZeroDivisionError)
    ensures printEvery != 0 ==> r == Ok(CheckpointSteps(if totalSteps >= 1 then totalSteps else 1, printEvery))
  {
    var steps := LoopOverLoader(loader, totalSteps);
    var saved := [];
    var k := 0;
    while k < |steps|
      invariant 0 <= k <= |steps|
      invariant printEvery == 0 ==> k == 0
      invariant printEvery != 0 ==> saved == CheckpointSteps(k, printEvery)
    {
      var step := steps[k].0;
      var due := Checkpoint(step, printEvery);
      if due.Err? {
        return Err(due.error);
      }
      if due.value {
        saved := saved + [step];
      }
      k := k + 1;
    }
    return Ok(saved);
  }

  /** Over `n >= 0` steps with interval `p >= 1` the checkpoints are written
      at `p, 2p, 3p, ...`: `n / p` of them. */
  lemma {:induction false} CheckpointCount(n: nat, printEvery: int)
    requires printEvery >= 1
    ensures |CheckpointSteps(n, printEvery)| == n / printEvery
    ensures forall k :: 0 <= k < |CheckpointSteps(n, printEvery)| ==>
      CheckpointSteps(n, printEvery)[k] == (k + 1) * printEvery
  {
    if n > 0 {
      CheckpointCount(n - 1, printEvery);
      DivStep(n, printEvery);
    }
  }

  /** Stepping from `n - 1` to `n` adds one to `n / p` exactly when `p` divides `n`. */
  lemma DivStep(n: nat, p: int)
    requires n >= 1 && p >= 1
    ensures n / p == (n - 1) / p + (if n % p == 0 then 1 else 0)
    ensures n % p == 0 ==> n == (n / p) * p
  {
    var q := (n - 1) / p;
    var j := (n - 1) % p;
    assert n - 1 == q * p + j;
    if j == p - 1 {
      ModUnique(n, p, q + 1, 0);
      assert n == (q + 1) * p;
    } else {
      ModUnique(n, p, q, j + 1);
    }
  }
}
