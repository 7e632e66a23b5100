/** The trainer's metric flattening (`_extract_scalars_from_info` and
    `_extract_scalars_from_infos` of
    habitat_baselines/il/disk_based/il_ddp_trainer.py): an episode's info
    dict is flattened to dotted keys holding floats, skipping blacklisted
    metrics and anything that is not a single number. */
module Metrics {
  import opened Results
  import opened Dicts

  /** `METRICS_BLACKLIST`. */
  const Blacklist: set<string> := {
    "top_down_map", "collisions.is_collision", "goal_vis_pixels", "rearrangement_reward",
    "coverage", "collisions.count", "release_failed", "object_receptacle_distance",
    "exploration_metrics", "room_visitation_map"}

  /** A value of an info dict, as far as `np.size` and `float` tell them
      apart. */
  datatype InfoValue =
    | IDict(entries: Dict<string, InfoValue>)
    | IStr(s: string)
    | IScalar(x: real)          // a Python number or bool, or a 0-d array
    | IArray(values: seq<real>) // a numpy array: its size is its element count
    | IList(items: seq<real>)   // a Python list: np.size counts it, float() refuses it
    | INone                     // np.size(None) is 1, float(None) refuses it

  /** `np.size(v) == 1 and not isinstance(v, str)`, for a non-dict value. */
  predicate SizeOne(v: InfoValue) {
    match v
    case IScalar(_) => true
    case IArray(vs) => |vs| == 1
    case IList(xs) => |xs| == 1
    case INone => true
    case _ => false
  }

  /** The float a leaf converts to, when it converts. */
  predicate Kept(v: InfoValue, x: real) {
    match v
    case IScalar(y) => x == y
    case IArray(ys) => |ys| == 1 && x == ys[0]
    case _ => false
  }

  /** `float(v)` of a size-one leaf. */
  function ToFloat(v: InfoValue): (r: Result<real>)
    requires SizeOne(v)
    ensures r.Success? <==> v.IScalar? || v.IArray?
    ensures r.Success? ==> Kept(v, r.value)
    ensures r.Failure? ==> r.error == NotConvertible
  {
    match v
    case IScalar(x) => Success(x)
    case IArray(xs) => Success(xs[0])
    case _ => Failure(NotConvertible)
  }

  /** `result.update({k + "." + subk: subv ... if k + "." + subk not in
      METRICS_BLACKLIST})`. */
  function Merge(acc: Dict<string, real>, k: string, sub: Dict<string, real>): (r: Dict<string, real>)
    ensures forall key :: HasKey(acc, key) ==> HasKey(r, key)
    ensures forall j :: 0 <= j < |sub| && k + "." + sub[j].0 !in Blacklist ==> HasKey(r, k + "." + sub[j].0)
    decreases |sub|
  {
    if |sub| == 0 then acc
    else
      var key := k + "." + sub[0].0;
      SetKeepsKeys(acc, key, sub[0].1);
      assert forall j :: 1 <= j < |sub| ==> sub[j] == sub[1..][j - 1];
      Merge(if key in Blacklist then acc else Set(acc, key, sub[0].1), k, sub[1..])
  }

  /** The loop of `_extract_scalars_from_info` over the first `n` items. */
  function ExtractPrefix(info: InfoValue, n: nat): (r: Result<Dict<string, real>>)
    requires info.IDict? && n <= |info.entries|
    ensures r.Failure? ==> r.error == NotConvertible
    decreases info, n
  {
    if n == 0 then Success([])
    else
      var acc :- ExtractPrefix(info, n - 1);
      var (k, v) := info.entries[n - 1];
      if k in Blacklist then Success(acc)
      else if v.IDict? then
        var sub :- ExtractPrefix(v, |v.entries|);
        Success(Merge(acc, k, sub))
      else if SizeOne(v) then
        var x :- ToFloat(v);
        Success(Set(acc, k, x))
      else Success(acc)
  }

  /** `_extract_scalars_from_info(info)`. */
  function ExtractScalars(info: InfoValue): (r: Result<Dict<string, real>>)
    requires info.IDict?
    ensures r.Failure? ==> r.error == NotConvertible
  {
    ExtractPrefix(info, |info.entries|)
  }

  // ---------------------------------------------------------------------
  // What may be emitted

  /** `key` with value `x` is emitted by one of the first `n` items of
      `info`: a kept leaf under its own non-blacklisted key, or, below a
      non-blacklisted dict `k`, a key `sub` emitted by that dict, as
      `k + "." + sub` unless that dotted key is blacklisted. */
  ghost predicate Emits(info: InfoValue, n: nat, key: string, x: real)
    requires info.IDict? && n <= |info.entries|
    decreases info
  {
    exists i :: 0 <= i < n && info.entries[i].0 !in Blacklist &&
      (  (key == info.entries[i].0 && Kept(info.entries[i].1, x))
      || (info.entries[i].1.IDict? && key !in Blacklist &&
          exists sub :: key == info.entries[i].0 + "." + sub
                        && Emits(info.entries[i].1, |info.entries[i].1.entries|, sub, x)))
  }

  /** Every entry of the merge came from the accumulator or is a
      non-blacklisted dotted key of the sub-result. */
  lemma {:induction false} MergeEntries(acc: Dict<string, real>, k: string, sub: Dict<string, real>)
    ensures forall e :: e in Merge(acc, k, sub) ==>
      e in acc || (e.0 !in Blacklist && exists j :: 0 <= j < |sub| && e == (k + "." + sub[j].0, sub[j].1))
    decreases |sub|
  {
    if |sub| > 0 {
      var key := k + "." + sub[0].0;
      var acc' := if key in Blacklist then acc else Set(acc, key, sub[0].1);
      MergeEntries(acc', k, sub[1..]);
      if key !in Blacklist {
        SetEntries(acc, key, sub[0].1);
      }
      forall e | e in Merge(acc, k, sub)
        ensures e in acc || (e.0 !in Blacklist && exists j :: 0 <= j < |sub| && e == (k + "." + sub[j].0, sub[j].1))
      {
        if e !in acc' {
          var j :| 0 <= j < |sub[1..]| && e == (k + "." + sub[1..][j].0, sub[1..][j].1);
          assert e == (k + "." + sub[j + 1].0, sub[j + 1].1);
        }
      }
    }
  }

  /** Merging keeps a dict free of repeated keys. */
  lemma {:induction false} MergeDistinct(acc: Dict<string, real>, k: string, sub: Dict<string, real>)
    requires DistinctKeys(acc)
    ensures DistinctKeys(Merge(acc, k, sub))
    decreases |sub|
  {
    if |sub| > 0 {
      var key := k + "." + sub[0].0;
      if key !in Blacklist {
        SetDistinct(acc, key, sub[0].1);
      }
      MergeDistinct(if key in Blacklist then acc else Set(acc, key, sub[0].1), k, sub[1..]);
    }
  }

  /** Soundness: every emitted pair is a kept leaf reached through
      non-blacklisted keys, so in particular no emitted key is
      blacklisted. */
  lemma {:induction false} ExtractedScalarsAreLeaves(info: InfoValue, n: nat)
    requires info.IDict? && n <= |info.entries|
    ensures var r := ExtractPrefix(info, n);
      r.Success? ==> forall e :: e in r.value ==> Emits(info, n, e.0, e.1)
    decreases info, n
  {
    var r := ExtractPrefix(info, n);
    if n > 0 && r.Success? {
      var acc := ExtractPrefix(info, n - 1).value;
      ExtractedScalarsAreLeaves(info, n - 1);
      var (k, v) := info.entries[n - 1];
      forall e | e in acc
        ensures Emits(info, n, e.0, e.1)
      {
        var i :| 0 <= i < n - 1 && info.entries[i].0 !in Blacklist &&
          (  (e.0 == info.entries[i].0 && Kept(info.entries[i].1, e.1))
          || (info.entries[i].1.IDict? && e.0 !in Blacklist &&
              exists sub :: e.0 == info.entries[i].0 + "." + sub
                            && Emits(info.entries[i].1, |info.entries[i].1.entries|, sub, e.1)));
        assert 0 <= i < n;
      }
      if k !in Blacklist && v.IDict? {
        var sub := ExtractPrefix(v, |v.entries|).value;
        ExtractedScalarsAreLeaves(v, |v.entries|);
        MergeEntries(acc, k, sub);
        forall e | e in r.value && e !in acc
          ensures Emits(info, n, e.0, e.1)
        {
          var j :| 0 <= j < |sub| && e == (k + "." + sub[j].0, sub[j].1);
          assert sub[j] in sub;
          assert Emits(v, |v.entries|, sub[j].0, sub[j].1);
          assert info.entries[n - 1].0 + "." + sub[j].0 == e.0;
        }
      } else if k !in Blacklist && SizeOne(v) {
        var x := ToFloat(v).value;
        SetEntries(acc, k, x);
        assert r.value == Set(acc, k, x);
        forall e | e in r.value && e !in acc
          ensures Emits(info, n, e.0, e.1)
        {
          assert e == (k, x);
          assert Kept(info.entries[n - 1].1, e.1);
        }
      }
    }
  }

  /** No blacklisted key is ever emitted, at the top level or dotted. */
  lemma NoBlacklistedKey(info: InfoValue)
    requires info.IDict?
    ensures var r := ExtractScalars(info);
      r.Success? ==> forall e :: e in r.value ==> e.0 !in Blacklist
  {
    ExtractedScalarsAreLeaves(info, |info.entries|);
  }

  /** The result never repeats a key. */
  lemma {:induction false} ExtractedKeysDistinct(info: InfoValue, n: nat)
    requires info.IDict? && n <= |info.entries|
    ensures ExtractPrefix(info, n).Success? ==> DistinctKeys(ExtractPrefix(info, n).value)
    decreases n
  {
    if n > 0 && ExtractPrefix(info, n).Success? {
      var acc := ExtractPrefix(info, n - 1).value;
      ExtractedKeysDistinct(info, n - 1);
      var (k, v) := info.entries[n - 1];
      if k !in Blacklist && v.IDict? {
        MergeDistinct(acc, k, ExtractPrefix(v, |v.entries|).value);
      } else if k !in Blacklist && SizeOne(v) {
        SetDistinct(acc, k, ToFloat(v).value);
      }
    }
  }

  /** A kept leaf under a non-blacklisted key is emitted under that key
      with its value, unless a later item writes the same key again. */
  lemma LastLeafKept(info: InfoValue, n: nat, x: real)
    requires info.IDict? && 0 < n <= |info.entries|
    requires info.entries[n - 1].0 !in Blacklist && Kept(info.entries[n - 1].1, x)
    requires ExtractPrefix(info, n - 1).Success?
    ensures ExtractPrefix(info, n).Success?
    ensures Get(ExtractPrefix(info, n).value, info.entries[n - 1].0) == Some(x)
  {
  }

  /** Strings, multi-element values and blacklisted items contribute
      nothing and raise nothing. */
  lemma DroppedLeaf(info: InfoValue, n: nat)
    requires info.IDict? && 0 < n <= |info.entries|
    requires var (k, v) := info.entries[n - 1];
      k in Blacklist || v.IStr? || (!v.IDict? && !SizeOne(v))
    ensures ExtractPrefix(info, n) == ExtractPrefix(info, n - 1)
  {
  }

  /** `float(None)` and `float([x])` raise: such a leaf aborts the call. */
  lemma UnconvertibleLeafFails(info: InfoValue, n: nat)
    requires info.IDict? && 0 < n <= |info.entries|
    requires var (k, v) := info.entries[n - 1];
      k !in Blacklist && (v.INone? || (v.IList? && |v.items| == 1))
    ensures ExtractPrefix(info, n) == Failure(NotConvertible)
  {
  }

  // ---------------------------------------------------------------------
  // Collecting over a batch of infos

  /** Every info's scalars, in order, or the first failure. */
  function ExtractAll(infos: seq<InfoValue>): (r: Result<seq<Dict<string, real>>>)
    requires forall i :: 0 <= i < |infos| ==> infos[i].IDict?
    ensures r.Success? <==> forall i :: 0 <= i < |infos| ==> ExtractScalars(infos[i]).Success?
    ensures r.Success? ==> |r.value| == |infos|
    ensures r.Success? ==> forall i :: 0 <= i < |infos| ==> r.value[i] == ExtractScalars(infos[i]).value
  {
    if |infos| == 0 then Success([])
    else
      var init := infos[..|infos| - 1];
      assert forall i :: 0 <= i < |init| ==> init[i] == infos[i];
      var rest :- ExtractAll(init);
      var last :- ExtractScalars(infos[|infos| - 1]);
      Success(rest + [last])
  }

  /** The values recorded under `key`, one per dict that has it, in order. */
  function Column(ds: seq<Dict<string, real>>, key: string): seq<real> {
    if |ds| == 0 then []
    else
      Column(ds[..|ds| - 1], key) + AsList(Get(ds[|ds| - 1], key))
  }

  function AsList(o: Option<real>): seq<real> {
    if o.Some? then [o.value] else []
  }

  /** A defaultdict entry: absent until something is appended. */
  function NonEmpty(c: seq<real>): Option<seq<real>> {
    if |c| == 0 then None else Some(c)
  }

  /** A column never has more values than there are dicts. */
  lemma {:induction false} ColumnBound(ds: seq<Dict<string, real>>, key: string)
    ensures |Column(ds, key)| <= |ds|
  {
    if |ds| > 0 {
      ColumnBound(ds[..|ds| - 1], key);
    }
  }

  /** The positions of the dicts that hold `key`, in order. */
  function Sources(ds: seq<Dict<string, real>>, key: string): seq<nat> {
    if |ds| == 0 then []
    else Sources(ds[..|ds| - 1], key) + (if HasKey(ds[|ds| - 1], key) then [|ds| - 1] else [])
  }

  /** Entry `j` of a column comes from the `j`-th dict holding the key. */
  lemma {:induction false} SourcesValues(ds: seq<Dict<string, real>>, key: string)
    ensures |Sources(ds, key)| == |Column(ds, key)|
    ensures forall j :: 0 <= j < |Sources(ds, key)| ==>
      Sources(ds, key)[j] < |ds| && Get(ds[Sources(ds, key)[j]], key) == Some(Column(ds, key)[j])
  {
    if |ds| > 0 {
      var init := ds[..|ds| - 1];
      SourcesValues(init, key);
      var prev := Sources(init, key);
      var c := Column(init, key);
      assert forall j :: 0 <= j < |prev| ==> Sources(ds, key)[j] == prev[j] && Column(ds, key)[j] == c[j] && ds[prev[j]] == init[prev[j]];
    }
  }

  /** The positions are strictly increasing and below `|ds|`. */
  lemma {:induction false} SourcesIncreasing(ds: seq<Dict<string, real>>, key: string)
    ensures forall j :: 0 <= j < |Sources(ds, key)| ==> Sources(ds, key)[j] < |ds|
    ensures forall j, j' :: 0 <= j < j' < |Sources(ds, key)| ==> Sources(ds, key)[j] < Sources(ds, key)[j']
  {
    if |ds| > 0 {
      SourcesIncreasing(ds[..|ds| - 1], key);
    }
  }

  /** Every dict holding the key is listed. */
  lemma {:induction false} SourcesComplete(ds: seq<Dict<string, real>>, key: string)
    ensures forall i :: 0 <= i < |ds| && HasKey(ds[i], key) ==> i in Sources(ds, key)
  {
    if |ds| > 0 {
      var init := ds[..|ds| - 1];
      SourcesComplete(init, key);
      assert forall i :: 0 <= i < |init| ==> init[i] == ds[i];
    }
  }

  /** A column lists, in increasing dict order, exactly the values the
      dicts holding `key` give it. */
  lemma ColumnSources(ds: seq<Dict<string, real>>, key: string) returns (idx: seq<nat>)
    ensures |idx| == |Column(ds, key)|
    ensures forall j :: 0 <= j < |idx| ==> idx[j] < |ds| && Get(ds[idx[j]], key) == Some(Column(ds, key)[j])
    ensures forall j, j' :: 0 <= j < j' < |idx| ==> idx[j] < idx[j']
    ensures forall i :: 0 <= i < |ds| && HasKey(ds[i], key) ==> i in idx
  {
    idx := Sources(ds, key);
    SourcesValues(ds, key);
    SourcesIncreasing(ds, key);
    SourcesComplete(ds, key);
  }

  /** The effect of appending one info's scalars to the running columns:
      the keys of `ex[..j]` have gained their value. */
  ghost predicate AppendedUpTo(acc: Dict<string, seq<real>>, prev: seq<Dict<string, real>>, ex: Dict<string, real>, j: nat)
    requires j <= |ex|
  {
    forall key :: Get(acc, key) == NonEmpty(Column(prev, key) + AsList(Get(ex[..j], key)))
  }

  /** One `results[k].append(v)`. */
  lemma AppendStep(acc: Dict<string, seq<real>>, prev: seq<Dict<string, real>>, ex: Dict<string, real>, j: nat)
    requires DistinctKeys(ex) && j < |ex|
    requires AppendedUpTo(acc, prev, ex, j)
    ensures AppendedUpTo(Set(acc, ex[j].0, Get(acc, ex[j].0).GetOr([]) + [ex[j].1]), prev, ex, j + 1)
  {
    var k := ex[j].0;
    var acc' := Set(acc, k, Get(acc, k).GetOr([]) + [ex[j].1]);
    assert !HasKey(ex[..j], k);
    assert ex[..j + 1] == ex[..j] + [ex[j]];
    GetAppend(ex[..j], ex[j].0, ex[j].1);
    forall key
      ensures Get(acc', key) == NonEmpty(Column(prev, key) + AsList(Get(ex[..j + 1], key)))
    {
      if key == k {
        assert Get(acc, k) == NonEmpty(Column(prev, k) + AsList(Get(ex[..j], k)));
        assert Get(acc, k).GetOr([]) == Column(prev, k);
      } else {
        GetSetOther(acc, k, Get(acc, k).GetOr([]) + [ex[j].1], key);
        assert Get(acc, key) == NonEmpty(Column(prev, key) + AsList(Get(ex[..j], key)));
      }
    }
  }

  /** Before any append, the columns are those of the earlier dicts. */
  lemma AppendStart(acc: Dict<string, seq<real>>, prev: seq<Dict<string, real>>, ex: Dict<string, real>)
    requires forall key :: Get(acc, key) == NonEmpty(Column(prev, key))
    ensures AppendedUpTo(acc, prev, ex, 0)
  {
    assert ex[..0] == [];
    forall key
      ensures Get(acc, key) == NonEmpty(Column(prev, key) + AsList(Get(ex[..0], key)))
    {
      assert Column(prev, key) + AsList(Get(ex[..0], key)) == Column(prev, key);
    }
  }

  /** After every append, the columns are those of the extended batch. */
  lemma AppendEnd(acc: Dict<string, seq<real>>, prev: seq<Dict<string, real>>, ex: Dict<string, real>)
    requires AppendedUpTo(acc, prev, ex, |ex|)
    ensures forall key :: Get(acc, key) == NonEmpty(Column(prev + [ex], key))
  {
    assert ex[..|ex|] == ex;
    assert (prev + [ex])[..|prev|] == prev;
    forall key
      ensures Get(acc, key) == NonEmpty(Column(prev + [ex], key))
    {
      assert Column(prev + [ex], key) == Column(prev, key) + AsList(Get(ex, key));
    }
  }

  /** `_extract_scalars_from_infos(infos)`: for every key emitted by any
      info, the list of its values over the infos that emit it, in infos
      order. */
  method ExtractScalarsFromInfos(infos: seq<InfoValue>) returns (r: Result<Dict<string, seq<real>>>)
    requires forall i :: 0 <= i < |infos| ==> infos[i].IDict?
    ensures r.Success? <==> forall i :: 0 <= i < |infos| ==> ExtractScalars(infos[i]).Success?
    ensures r.Failure? ==> r.error == NotConvertible
    ensures r.Success? ==> DistinctKeys(r.value)
    ensures r.Success? ==> forall key :: Get(r.value, key) == NonEmpty(Column(ExtractAll(infos).value, key))
  {
    var results: Dict<string, seq<real>> := [];
    var i := 0;
    while i < |infos|
      invariant 0 <= i <= |infos|
      invariant forall i' :: 0 <= i' < i ==> ExtractScalars(infos[i']).Success?
      invariant ExtractAll(infos[..i]).Success?
      invariant DistinctKeys(results)
      invariant forall key :: Get(results, key) == NonEmpty(Column(ExtractAll(infos[..i]).value, key))
    {
      var ex := ExtractScalars(infos[i]);
      if ex.Failure? {
        return Failure(ex.error);
      }
      var scalars := ex.value;
      ExtractedKeysDistinct(infos[i], |infos[i].entries|);
      ghost var prev := ExtractAll(infos[..i]).value;
      var j := 0;
      AppendStart(results, prev, scalars);
      while j < |scalars|
        invariant 0 <= j <= |scalars|
        invariant DistinctKeys(results)
        invariant AppendedUpTo(results, prev, scalars, j)
      {
        var (k, x) := scalars[j];
        AppendStep(results, prev, scalars, j);
        SetDistinct(results, k, Get(results, k).GetOr([]) + [x]);
        results := Set(results, k, Get(results, k).GetOr([]) + [x]);
        j := j + 1;
      }
      AppendEnd(results, prev, scalars);
      assert infos[..i + 1][..i] == infos[..i];
      assert ExtractAll(infos[..i + 1]).value == prev + [scalars];
      i := i + 1;
    }
    assert infos[..i] == infos;
    return Success(results);
  }
}
