/** `_pause_envs` of habitat_baselines/il/disk_based/il_ddp_trainer.py:
    environments that have run out of new episodes are paused, and every
    per-environment tensor of the evaluation loop is compacted to the
    environments still running. Tensors are kept as sequences along their
    environment dimension; the rows themselves are opaque. */
module Pausing {
  import opened Results
  import opened Dicts

  /** `list(range(n))`. */
  function Range(n: nat): (r: seq<int>)
    ensures |r| == n && forall i :: 0 <= i < n ==> r[i] == i
  {
    seq(n, i requires 0 <= i < n => i)
  }

  /** `xs.pop(i)` for its effect on the list: a negative index counts
      from the end, and an index outside the list raises IndexError. */
  function Pop<T>(xs: seq<T>, i: int): (r: Result<seq<T>>)
    ensures r.Success? <==> -|xs| <= i < |xs|
    ensures r.Failure? ==> r.error == IndexOutOfRange
    ensures r.Success? ==> |r.value| == |xs| - 1
  {
    if i < -|xs| || i >= |xs| then Failure(IndexOutOfRange)
    else
      var j := if i < 0 then i + |xs| else i;
      Success(xs[..j] + xs[j + 1..])
  }

  /** `for idx in reversed(toPause): state_index.pop(idx)`. */
  function PopAll<T>(xs: seq<T>, toPause: seq<int>): (r: Result<seq<T>>)
    ensures r.Failure? ==> r.error == IndexOutOfRange
    ensures r.Success? ==> |r.value| == |xs| - |toPause|
  {
    if |toPause| == 0 then Success(xs)
    else
      var ys :- Pop(xs, toPause[|toPause| - 1]);
      PopAll(ys, toPause[..|toPause| - 1])
  }

  /** `0..n` without the members of `removed`, in ascending order. */
  function Without(n: nat, removed: seq<int>): seq<int> {
    if n == 0 then []
    else Without(n - 1, removed) + (if n - 1 in removed then [] else [n - 1])
  }

  /** `t[idx]` for a tensor `t` and an index list `idx` (and
      `[t[i] for i in idx]` for a list): an index outside the batch
      dimension raises IndexError. */
  function Gather<T>(xs: seq<T>, idx: seq<int>): (r: Result<seq<T>>)
    ensures r.Success? <==> forall j :: 0 <= j < |idx| ==> -|xs| <= idx[j] < |xs|
    ensures r.Failure? ==> r.error == IndexOutOfRange
    ensures r.Success? ==> |r.value| == |idx|
    ensures r.Success? ==> forall j :: 0 <= j < |idx| && 0 <= idx[j] ==> r.value[j] == xs[idx[j]]
    ensures r.Success? ==> forall j :: 0 <= j < |idx| && idx[j] < 0 ==> r.value[j] == xs[idx[j] + |xs|]
  {
    if forall j :: 0 <= j < |idx| ==> -|xs| <= idx[j] < |xs| then
      Success(seq(|idx|, j requires 0 <= j < |idx| => if idx[j] < 0 then xs[idx[j] + |xs|] else xs[idx[j]]))
    else Failure(IndexOutOfRange)
  }

  /** `test_recurrent_hidden_states[:, idx]`: the second dimension is the
      environment. */
  function GatherEach<T>(layers: seq<seq<T>>, idx: seq<int>): (r: Result<seq<seq<T>>>)
    ensures r.Failure? ==> r.error == IndexOutOfRange
    ensures r.Success? ==> |r.value| == |layers|
    ensures r.Success? ==> forall l :: 0 <= l < |layers| ==> Gather(layers[l], idx) == Success(r.value[l])
  {
    if |layers| == 0 then Success([])
    else
      var init :- GatherEach(layers[..|layers| - 1], idx);
      var last :- Gather(layers[|layers| - 1], idx);
      Success(init + [last])
  }

  /** `for k, v in batch.items(): batch[k] = v[idx]`: the keys stay in
      place and each value is re-indexed. */
  function GatherValues<T>(batch: Dict<string, seq<T>>, idx: seq<int>): (r: Result<Dict<string, seq<T>>>)
    ensures r.Failure? ==> r.error == IndexOutOfRange
    ensures r.Success? ==> Keys(r.value) == Keys(batch)
    ensures r.Success? ==> forall i :: 0 <= i < |batch| ==> Gather(batch[i].1, idx) == Success(r.value[i].1)
  {
    if |batch| == 0 then Success([])
    else
      var init :- GatherValues(batch[..|batch| - 1], idx);
      var (k, v) := batch[|batch| - 1];
      var last :- Gather(v, idx);
      Success(init + [(k, last)])
  }

  /** The per-environment state of the evaluation loop. */
  datatype EvalState<T, F> = EvalState(
    hiddenStates: seq<seq<T>>,   // layers x environments
    notDoneMasks: seq<T>,
    episodeReward: seq<T>,
    prevActions: seq<T>,
    batch: Dict<string, seq<T>>,
    rgbFrames: seq<F>)

  /** Every tensor has `n` entries along its environment dimension. */
  predicate Shaped<T, F>(s: EvalState<T, F>, n: nat) {
    && (forall l :: 0 <= l < |s.hiddenStates| ==> |s.hiddenStates[l]| == n)
    && |s.notDoneMasks| == n && |s.episodeReward| == n && |s.prevActions| == n
    && (forall i :: 0 <= i < |s.batch| ==> |s.batch[i].1| == n)
    && |s.rgbFrames| == n
  }

  /** The environments paused by `envs.pause_at`, in call order. */
  function Reverse(xs: seq<int>): (r: seq<int>)
    ensures |r| == |xs| && forall i :: 0 <= i < |xs| ==> r[i] == xs[|xs| - 1 - i]
  {
    seq(|xs|, i requires 0 <= i < |xs| => xs[|xs| - 1 - i])
  }

  /** `_pause_envs(envs_to_pause, envs, ...)`: the indices handed to
      `pause_at`, and the compacted state. */
  function PauseEnvs<T, F>(toPause: seq<int>, numEnvs: nat, s: EvalState<T, F>): (r: Result<(seq<int>, EvalState<T, F>)>)
    ensures |toPause| == 0 ==> r == Success(([], s))
    ensures r.Failure? ==> r.error == IndexOutOfRange
    ensures r.Success? ==> r.value.0 == Reverse(toPause)
  {
    if |toPause| == 0 then Success(([], s))
    else
      var stateIndex :- PopAll(Range(numEnvs), toPause);
      var s' :- Compact(s, stateIndex);
      Success((Reverse(toPause), s'))
  }

  /** Every tensor of the state re-indexed by `idx`. */
  function Compact<T, F>(s: EvalState<T, F>, idx: seq<int>): (r: Result<EvalState<T, F>>)
    ensures r.Failure? ==> r.error == IndexOutOfRange
    ensures r.Success? ==>
              && |r.value.notDoneMasks| == |idx| && |r.value.episodeReward| == |idx|
              && |r.value.prevActions| == |idx| && |r.value.rgbFrames| == |idx|
    ensures r.Success? ==> forall j :: 0 <= j < |idx| && 0 <= idx[j] < |s.episodeReward| ==> r.value.episodeReward[j] == s.episodeReward[idx[j]]
  {
    var hidden :- GatherEach(s.hiddenStates, idx);
    var masks :- Gather(s.notDoneMasks, idx);
    var reward :- Gather(s.episodeReward, idx);
    var actions :- Gather(s.prevActions, idx);
    var batch :- GatherValues(s.batch, idx);
    var frames :- Gather(s.rgbFrames, idx);
    Success(EvalState(hidden, masks, reward, actions, batch, frames))
  }

  // ---------------------------------------------------------------------
  // Properties

  /** Exactly the numbers below `n` outside `removed`, strictly
      ascending. */
  lemma {:induction false} WithoutMembers(n: nat, removed: seq<int>)
    ensures forall x :: x in Without(n, removed) <==> 0 <= x < n && x !in removed
    ensures forall i, j :: 0 <= i < j < |Without(n, removed)| ==> Without(n, removed)[i] < Without(n, removed)[j]
  {
    if n > 0 {
      WithoutMembers(n - 1, removed);
      var w := Without(n - 1, removed);
      assert forall i :: 0 <= i < |w| ==> w[i] in w;
    }
  }

  /** Below the smallest removed number, nothing is missing. */
  lemma {:induction false} WithoutBelow(n: nat, removed: seq<int>)
    requires forall s :: s in removed ==> s >= n
    ensures Without(n, removed) == Range(n)
  {
    if n > 0 {
      WithoutBelow(n - 1, removed);
    }
  }

  /** Popping position `x` of the list is removing the number `x`, when
      every number removed so far is larger. */
  lemma {:induction false} PopWithout(n: nat, removed: seq<int>, x: int)
    requires 0 <= x < n && x !in removed
    requires forall s :: s in removed ==> s > x
    ensures |Without(n, removed)| > x
    ensures Pop(Without(n, removed), x) == Success(Without(n, [x] + removed))
  {
    if n - 1 == x {
      WithoutBelow(x, removed);
      WithoutBelow(x, [x] + removed);
    } else {
      PopWithout(n - 1, removed, x);
      var w := Without(n - 1, removed);
      var t: seq<int> := if n - 1 in removed then [] else [n - 1];
      assert Without(n, removed) == w + t;
      assert (w + t)[..x] + (w + t)[x + 1..] == (w[..x] + w[x + 1..]) + t;
    }
  }

  /** Popping an ascending list of positions from the back removes those
      numbers, given that the numbers already removed are larger still. */
  lemma {:induction false} PopAllWithout(n: nat, removed: seq<int>, toPause: seq<int>)
    requires forall i :: 0 <= i < |toPause| ==> 0 <= toPause[i] < n && toPause[i] !in removed
    requires forall i, j :: 0 <= i < j < |toPause| ==> toPause[i] < toPause[j]
    requires forall s, i :: s in removed && 0 <= i < |toPause| ==> s > toPause[i]
    ensures PopAll(Without(n, removed), toPause) == Success(Without(n, toPause + removed))
    decreases |toPause|
  {
    if |toPause| > 0 {
      var last := toPause[|toPause| - 1];
      var init := toPause[..|toPause| - 1];
      PopWithout(n, removed, last);
      assert PopAll(Without(n, removed), toPause) == PopAll(Without(n, [last] + removed), init);
      PopAllWithout(n, [last] + removed, init);
      assert toPause + removed == init + ([last] + removed);
    } else {
      assert toPause + removed == removed;
    }
  }

  /** The state index is the ascending list of the environments that are
      not paused, for a pause list built as the evaluation loop builds it
      (ascending, within range). */
  lemma StateIndexIsComplement(numEnvs: nat, toPause: seq<int>)
    requires forall i :: 0 <= i < |toPause| ==> 0 <= toPause[i] < numEnvs
    requires forall i, j :: 0 <= i < j < |toPause| ==> toPause[i] < toPause[j]
    ensures var r := PopAll(Range(numEnvs), toPause);
      && r.Success?
      && |r.value| == numEnvs - |toPause|
      && (forall x :: x in r.value <==> 0 <= x < numEnvs && x !in toPause)
      && (forall i, j :: 0 <= i < j < |r.value| ==> r.value[i] < r.value[j])
  {
    WithoutBelow(numEnvs, []);
    PopAllWithout(numEnvs, [], toPause);
    assert toPause + [] == toPause;
    WithoutMembers(numEnvs, toPause);
  }

  /** With an empty pause list nothing is paused and nothing changes. */
  lemma NothingToPause<T, F>(numEnvs: nat, s: EvalState<T, F>)
    ensures PauseEnvs([], numEnvs, s) == Success(([], s))
  {
  }

  /** Compacting a state whose tensors all have `n` entries by indices
      below `n`: every tensor then has one entry per index, the entry the
      index picks, and the batch keeps its keys. */
  lemma CompactShaped<T, F>(s: EvalState<T, F>, n: nat, idx: seq<int>)
    requires Shaped(s, n)
    requires forall j :: 0 <= j < |idx| ==> 0 <= idx[j] < n
    ensures var r := Compact(s, idx);
      && r.Success?
      && Shaped(r.value, |idx|)
      && Keys(r.value.batch) == Keys(s.batch)
      && (forall l, j :: 0 <= l < |s.hiddenStates| && 0 <= j < |idx| ==>
            r.value.hiddenStates[l][j] == s.hiddenStates[l][idx[j]])
      && (forall i, j :: 0 <= i < |s.batch| && 0 <= j < |idx| ==> r.value.batch[i].1[j] == s.batch[i].1[idx[j]])
      && (forall j :: 0 <= j < |idx| ==>
            && r.value.notDoneMasks[j] == s.notDoneMasks[idx[j]]
            && r.value.episodeReward[j] == s.episodeReward[idx[j]]
            && r.value.prevActions[j] == s.prevActions[idx[j]]
            && r.value.rgbFrames[j] == s.rgbFrames[idx[j]])
  {
    GatherEachShaped(s.hiddenStates, idx, n);
    GatherValuesShaped(s.batch, idx, n);
  }

  /** Pausing compacts every tensor to the running environments: each
      output has `numEnvs - |toPause|` entries, and its `j`-th entry is
      the input's entry for the `j`-th running environment. */
  lemma PauseCompacts<T, F>(toPause: seq<int>, numEnvs: nat, s: EvalState<T, F>)
    requires |toPause| > 0 && Shaped(s, numEnvs)
    requires forall i :: 0 <= i < |toPause| ==> 0 <= toPause[i] < numEnvs
    requires forall i, j :: 0 <= i < j < |toPause| ==> toPause[i] < toPause[j]
    ensures PopAll(Range(numEnvs), toPause).Success?
    ensures var r := PauseEnvs(toPause, numEnvs, s);
      var idx := PopAll(Range(numEnvs), toPause).value;
      && (forall j :: 0 <= j < |idx| ==> 0 <= idx[j] < numEnvs)
      && r.Success?
      && r.value.0 == Reverse(toPause)
      && Shaped(r.value.1, numEnvs - |toPause|)
      && r.value.1 == Compact(s, idx).value
  {
    StateIndexIsComplement(numEnvs, toPause);
    var idx := PopAll(Range(numEnvs), toPause).value;
    assert forall j :: 0 <= j < |idx| ==> idx[j] in idx;
    CompactShaped(s, numEnvs, idx);
  }

  lemma {:induction false} GatherEachShaped<T>(layers: seq<seq<T>>, idx: seq<int>, n: nat)
    requires forall l :: 0 <= l < |layers| ==> |layers[l]| == n
    requires forall j :: 0 <= j < |idx| ==> 0 <= idx[j] < n
    ensures GatherEach(layers, idx).Success?
    ensures forall l :: 0 <= l < |layers| ==> |GatherEach(layers, idx).value[l]| == |idx|
  {
    if |layers| > 0 {
      GatherEachShaped(layers[..|layers| - 1], idx, n);
    }
  }

  lemma {:induction false} GatherValuesShaped<T>(batch: Dict<string, seq<T>>, idx: seq<int>, n: nat)
    requires forall i :: 0 <= i < |batch| ==> |batch[i].1| == n
    requires forall j :: 0 <= j < |idx| ==> 0 <= idx[j] < n
    ensures GatherValues(batch, idx).Success?
    ensures forall i :: 0 <= i < |batch| ==> |GatherValues(batch, idx).value[i].1| == |idx|
  {
    if |batch| > 0 {
      GatherValuesShaped(batch[..|batch| - 1], idx, n);
    }
  }
}
