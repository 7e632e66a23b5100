/** Two pieces of arithmetic of habitat_baselines/il/disk_based/il_ddp_trainer.py:
    how the behaviour-cloning update cuts a rollout of `num_samples`
    timesteps into slices of `timestep_batch_size`, and how many episodes
    an evaluation runs. Python's `//`, `%` and slicing are written out. */
module Batching {
  import opened Results

  /** Python's `a // b` (rounds toward negative infinity). */
  function FloorDiv(a: int, b: int): int
    requires b != 0
  {
    if b > 0 then a / b else (-a) / (-b)
  }

  /** Python's `a % b` (takes the sign of `b`). */
  function PyMod(a: int, b: int): int
    requires b != 0
  {
    a - b * FloorDiv(a, b)
  }

  /** `num_samples // b + (num_samples % b != 0)`. */
  function NumSteps(numSamples: nat, b: int): (r: Result<int>)
    ensures r.Failure? <==> b == 0
    ensures r.Failure? ==> r.error == ZeroDivision
  {
    if b == 0 then Failure(ZeroDivision)
    else Success(FloorDiv(numSamples, b) + (if PyMod(numSamples, b) != 0 then 1 else 0))
  }

  /** A Python slice bound: a negative index counts from the end, and
      either way the bound is clamped to the sequence. */
  function SliceBound(i: int, len: nat): (r: nat)
    ensures r <= len
  {
    if i < 0 then (if i + len < 0 then 0 else i + len)
    else if i > len then len else i
  }

  /** `xs[lo:hi]`. */
  function Slice<T>(xs: seq<T>, lo: int, hi: int): (r: seq<T>)
    ensures |r| <= |xs|
    ensures 0 <= lo <= hi <= |xs| ==> r == xs[lo..hi]
    ensures 0 <= lo <= |xs| <= hi ==> r == xs[lo..]
    ensures 0 <= hi <= lo ==> r == []
  {
    var l := SliceBound(lo, |xs|);
    var h := SliceBound(hi, |xs|);
    if l < h then xs[l..h] else []
  }

  /** The slices the update loop takes:
      `v[i * b : i * b + b] for i in range(num_steps)`. */
  function Batches<T>(xs: seq<T>, b: int): (r: Result<seq<seq<T>>>)
    ensures r.Failure? <==> b == 0
  {
    var steps :- NumSteps(|xs|, b);
    if steps <= 0 then Success([])
    else Success(seq(steps, i requires 0 <= i < steps => Slice(xs, i * b, i * b + b)))
  }

  /** Independent reference: consecutive chunks of `b`, the last one
      possibly shorter. */
  function Chunks<T>(xs: seq<T>, b: nat): seq<seq<T>>
    requires b > 0
    decreases |xs|
  {
    if |xs| == 0 then []
    else if |xs| <= b then [xs]
    else [xs[..b]] + Chunks(xs[b..], b)
  }

  function Flatten<T>(xss: seq<seq<T>>): seq<T> {
    if |xss| == 0 then [] else xss[0] + Flatten(xss[1..])
  }

  // ---------------------------------------------------------------------
  // Properties

  /** `FloorDiv` and `PyMod` are Python's `//` and `%`: the quotient is
      rounded toward negative infinity, so the remainder lies between zero
      and the divisor and takes the divisor's sign. */
  lemma PythonDivision(a: int, b: int)
    requires b != 0
    ensures a == b * FloorDiv(a, b) + PyMod(a, b)
    ensures b > 0 ==> 0 <= PyMod(a, b) < b
    ensures b < 0 ==> b < PyMod(a, b) <= 0
  {
    if b < 0 {
      var q := (-a) / (-b);
      var m := (-a) % (-b);
      assert -a == q * (-b) + m && 0 <= m < -b;
      assert b * q == -(q * (-b));
      assert PyMod(a, b) == a - b * q == -m;
    } else {
      assert a == (a / b) * b + a % b;
      assert b * (a / b) == (a / b) * b;
    }
  }

  /** For a positive batch size the step count is the ceiling of
      `num_samples / b`: the steps hold every sample, and one step less
      would not. */
  lemma NumStepsIsCeiling(numSamples: nat, b: int)
    requires b > 0
    ensures var steps := NumSteps(numSamples, b).value;
      && steps >= 0
      && numSamples <= steps * b
      && (steps > 0 ==> (steps - 1) * b < numSamples)
  {
    var q := numSamples / b;
    var m := numSamples % b;
    assert numSamples == q * b + m;
    assert PyMod(numSamples, b) == m;
    if m != 0 {
      assert (q + 1) * b == q * b + b;
    }
  }

  /** A non-positive batch size makes no step at all. */
  lemma NegativeBatchSizeMakesNoStep(numSamples: nat, b: int)
    requires b < 0
    ensures NumSteps(numSamples, b).value <= 0
  {
    var a: int := 0 - numSamples as int;
    var q := a / (-b);
    var m := a % (-b);
    assert a == q * (-b) + m;
    if numSamples > 0 {
      assert q * (-b) < 0 * (-b);
      MulLess(q, 0, -b);
    }
  }

  /** Chunks give back the sequence when concatenated. */
  lemma {:induction false} ChunksCover<T>(xs: seq<T>, b: nat)
    requires b > 0
    ensures Flatten(Chunks(xs, b)) == xs
    decreases |xs|
  {
    if |xs| > b {
      ChunksCover(xs[b..], b);
      assert Chunks(xs, b)[1..] == Chunks(xs[b..], b);
      assert xs == xs[..b] + xs[b..];
    } else if |xs| > 0 {
      assert Chunks(xs, b)[1..] == [];
    }
  }

  /** Every chunk is non-empty and at most `b` long; all but the last are
      exactly `b` long. */
  lemma {:induction false} ChunkSizes<T>(xs: seq<T>, b: nat)
    requires b > 0
    ensures forall i :: 0 <= i < |Chunks(xs, b)| ==> 0 < |Chunks(xs, b)[i]| <= b
    ensures forall i :: 0 <= i < |Chunks(xs, b)| - 1 ==> |Chunks(xs, b)[i]| == b
    decreases |xs|
  {
    if |xs| > b {
      ChunkSizes(xs[b..], b);
      assert forall i :: 1 <= i < |Chunks(xs, b)| ==> Chunks(xs, b)[i] == Chunks(xs[b..], b)[i - 1];
    }
  }

  /** Euclidean division is determined by quotient and remainder. */
  lemma DivUnique(n: int, b: int, q: int, m: int)
    requires b > 0 && n == q * b + m && 0 <= m < b
    ensures n / b == q && n % b == m
  {
    var q', m' := n / b, n % b;
    assert n == q' * b + m';
    assert (q + 1) * b == q * b + b;
    assert (q' + 1) * b == q' * b + b;
    MulLess(q', q + 1, b);
    MulLess(q, q' + 1, b);
  }

  lemma MulLess(x: int, y: int, b: int)
    requires b > 0 && x * b < y * b
    ensures x < y
  {
  }

  /** Slice `i` of the rest after one batch is slice `i + 1` of the
      whole. */
  lemma ShiftedSlice<T>(xs: seq<T>, b: nat, i: nat)
    requires 0 < b < |xs|
    ensures Slice(xs[b..], i * b, i * b + b) == Slice(xs, (i + 1) * b, (i + 1) * b + b)
  {
    assert (i + 1) * b == i * b + b;
    var n := |xs|;
    var lo := i * b;
    var l := SliceBound(lo, n - b);
    var h := SliceBound(lo + b, n - b);
    assert SliceBound(lo + b, n) == l + b;
    assert SliceBound(lo + b + b, n) == h + b;
    if l < h {
      assert xs[b..][l..h] == xs[l + b..h + b];
    }
  }

  /** The step count for the rest after one batch is one less. */
  lemma NumStepsShift(n: nat, b: nat)
    requires 0 < b < n
    ensures NumSteps(n, b).value == 1 + NumSteps(n - b, b).value
  {
    var q := (n - b) / b;
    var m := (n - b) % b;
    assert n - b == q * b + m;
    assert n == (q + 1) * b + m;
    DivUnique(n, b, q + 1, m);
    assert b * (n / b) == (n / b) * b;
    assert b * ((n - b) / b) == ((n - b) / b) * b;
  }

  /** Slice `i` of the loop, for a positive batch size. */
  lemma BatchAt<T>(xs: seq<T>, b: nat, i: nat)
    requires 0 < b && i < NumSteps(|xs|, b).value
    ensures Batches(xs, b).Success? && |Batches(xs, b).value| == NumSteps(|xs|, b).value
    ensures Batches(xs, b).value[i] == Slice(xs, i * b, i * b + b)
  {
  }

  /** Slice `i + 1` of the loop over the whole is slice `i` of the loop
      over the rest after one batch. */
  lemma BatchShift<T>(xs: seq<T>, b: nat, i: nat)
    requires 0 < b < |xs| && i + 1 < NumSteps(|xs|, b).value
    requires NumSteps(|xs|, b).value == 1 + NumSteps(|xs| - b, b).value
    ensures Batches(xs, b).Success? && Batches(xs[b..], b).Success?
    ensures i + 1 < |Batches(xs, b).value| && i < |Batches(xs[b..], b).value|
    ensures Batches(xs, b).value[i + 1] == Batches(xs[b..], b).value[i]
  {
    BatchAt(xs, b, i + 1);
    BatchAt(xs[b..], b, i);
    ShiftedSlice(xs, b, i);
  }

  /** The loop's first slice is the first batch, and the remaining slices
      are those of the rest. */
  lemma BatchesUnfold<T>(xs: seq<T>, b: nat)
    requires 0 < b < |xs|
    ensures Batches(xs, b).Success? && Batches(xs[b..], b).Success?
    ensures Batches(xs, b).value == [xs[..b]] + Batches(xs[b..], b).value
  {
    NumStepsShift(|xs|, b);
    NumStepsIsCeiling(|xs[b..]|, b);
    BatchAt(xs, b, 0);
    var all := Batches(xs, b).value;
    var rest := Batches(xs[b..], b).value;
    assert all[0] == xs[..b] by {
      assert 0 * b == 0;
    }
    assert |all| == |rest| + 1;
    forall i | 0 <= i < |rest|
      ensures all[i + 1] == rest[i]
    {
      BatchShift(xs, b, i);
    }
    assert all == [xs[..b]] + rest;
  }

  /** The update loop's slices are exactly the consecutive chunks, so
      they cover every timestep once, in order, with no gaps or
      overlaps. */
  lemma {:induction false} BatchesAreChunks<T>(xs: seq<T>, b: nat)
    requires b > 0
    ensures Batches(xs, b) == Success(Chunks(xs, b))
    decreases |xs|
  {
    if |xs| == 0 {
      DivUnique(0, b, 0, 0);
    } else if |xs| <= b {
      if |xs| == b {
        DivUnique(|xs|, b, 1, 0);
      } else {
        DivUnique(|xs|, b, 0, |xs|);
      }
      assert b * (|xs| / b) == (|xs| / b) * b;
      assert NumSteps(|xs|, b).value == 1;
      assert Slice(xs, 0 * b, 0 * b + b) == xs[0..|xs|] == xs;
      assert Batches(xs, b).value == [xs];
    } else {
      BatchesAreChunks(xs[b..], b);
      BatchesUnfold(xs, b);
    }
  }

  /** Sum of episode counts over the environments. */
  function Sum(xs: seq<nat>): nat {
    if |xs| == 0 then 0 else xs[0] + Sum(xs[1..])
  }

  /** The number of episodes an evaluation runs: all of them for `-1`,
      otherwise the configured count lowered to what the datasets hold. */
  function EvalEpisodeCount(configured: int, episodesPerEnv: seq<nat>): (r: int)
    ensures configured == -1 ==> r == Sum(episodesPerEnv)
    ensures configured != -1 ==> r <= configured && r <= Sum(episodesPerEnv)
    ensures configured != -1 ==> r == configured || r == Sum(episodesPerEnv)
  {
    if configured == -1 then Sum(episodesPerEnv)
    else
      var total := Sum(episodesPerEnv);
      if total < configured then total else configured
  }
}
