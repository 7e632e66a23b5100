/** The dataset script that removes camera-turn steps from the recorded
    reference replays (scripts/dataset/dataset_remove_camera_turn.py).

    Each episode's `reference_replay` keeps, in order, exactly the steps
    whose action is neither LOOK_UP nor LOOK_DOWN, and every kept step has
    its `agent_state.sensor_data` replaced by a fixed rgb/semantic sensor
    pose. The script then writes the bytes it READ, not the cleaned
    document, so the cleaning never reaches the output file. */
module ReplayFilter {
  import opened Results
  import opened Dicts
  import opened Json

  type byte = x: int | 0 <= x < 256

  /** Sensor pose relative to the agent body: identity rotation (x, y, z, w)
      and a camera 1.395 units above the body origin. */
  const FixedPose: Json := JObj([
    ("rotation", JList([JNum(0.0), JNum(0.0), JNum(0.0), JNum(1.0)])),
    ("position", JList([JNum(0.0), JNum(1.395), JNum(0.0)]))
  ])

  const FixedSensorData: Json := JObj([("rgb", FixedPose), ("semantic", FixedPose)])

  predicate IsCameraTurn(action: Json) {
    action == JStr("LOOK_UP") || action == JStr("LOOK_DOWN")
  }

  /** The step with `step["agent_state"]["sensor_data"]` overwritten. */
  function PatchStep(step: Json): (r: Result<Json>)
    ensures r.Success? ==> r.value.JObj?
    ensures r.Success? ==> forall k :: k != "agent_state" ==> Member(r.value, k) == Member(step, k)
    ensures r.Success? ==>
      var a := Member(r.value, "agent_state");
      && a.Success? && a.value.JObj?
      && Member(a.value, "sensor_data") == Success(FixedSensorData)
      && Member(step, "agent_state").Success?
      && forall k :: k != "sensor_data" ==> Member(a.value, k) == Member(Member(step, "agent_state").value, k)
  {
    var agentState :- Member(step, "agent_state");
    var agentState' :- SetMember(agentState, "sensor_data", FixedSensorData);
    assert forall k :: k != "sensor_data" ==> Member(agentState', k) == Member(agentState, k) by {
      forall k | k != "sensor_data"
        ensures Member(agentState', k) == Member(agentState, k)
      {
        GetSetOther(agentState.fields, "sensor_data", FixedSensorData, k);
      }
    }
    var step' := JObj(Set(step.fields, "agent_state", agentState'));
    assert forall k :: k != "agent_state" ==> Member(step', k) == Member(step, k) by {
      forall k | k != "agent_state"
        ensures Member(step', k) == Member(step, k)
      {
        GetSetOther(step.fields, "agent_state", agentState', k);
      }
    }
    Success(step')
  }

  /** One iteration of the inner loop: `Some(step')` when the step is
      kept, `None` when it is a camera turn. */
  function CleanStep(step: Json): (r: Result<Option<Json>>)
    ensures Member(step, "action").Failure? ==> r.Failure?
    ensures r.Success? ==> Member(step, "action").Success?
    ensures r.Success? ==> (r.value.None? <==> IsCameraTurn(Member(step, "action").value))
    ensures r.Success? && r.value.Some? ==> PatchStep(step) == Success(r.value.value)
    ensures Member(step, "action").Success? && IsCameraTurn(Member(step, "action").value) ==> r == Success(None)
  {
    var action :- Member(step, "action");
    if IsCameraTurn(action) then Success(None)
    else
      var step' :- PatchStep(step);
      Success(Some(step'))
  }

  /** `cleaned_action_ep` built from one episode's replay. */
  function CleanReplay(steps: seq<Json>): (r: Result<seq<Json>>)
    ensures r.Success? ==> |r.value| <= |steps|
  {
    if |steps| == 0 then Success([])
    else
      var head :- CleanStep(steps[0]);
      var tail :- CleanReplay(steps[1..]);
      Success(if head.Some? then [head.value] + tail else tail)
  }

  function CleanEpisode(episode: Json): (r: Result<Json>)
    ensures r.Success? ==> forall k :: k != "reference_replay" ==> Member(r.value, k) == Member(episode, k)
    ensures r.Success? ==>
      var replay := Member(episode, "reference_replay");
      && replay.Success? && Iterate(replay.value).Success?
      && CleanReplay(Iterate(replay.value).value).Success?
      && Member(r.value, "reference_replay") == Success(JList(CleanReplay(Iterate(replay.value).value).value))
  {
    var replay :- Member(episode, "reference_replay");
    var steps :- Iterate(replay);
    var cleaned :- CleanReplay(steps);
    SetMember(episode, "reference_replay", JList(cleaned))
  }

  function CleanEpisodes(episodes: seq<Json>): (r: Result<seq<Json>>)
    ensures r.Success? ==> |r.value| == |episodes|
    ensures r.Success? <==> forall i :: 0 <= i < |episodes| ==> CleanEpisode(episodes[i]).Success?
    ensures r.Success? ==> forall i :: 0 <= i < |episodes| ==> CleanEpisode(episodes[i]) == Success(r.value[i])
  {
    if |episodes| == 0 then Success([])
    else
      var head :- CleanEpisode(episodes[0]);
      var tail :- CleanEpisodes(episodes[1..]);
      Success([head] + tail)
  }

  /** The in-memory effect of the loop over `data["episodes"]`. Every
      iteration rewrites the episode list in place, so when the list is
      iterated at all it is a JSON list holding the cleaned episodes. */
  function Clean(data: Json): (r: Result<Json>)
    ensures r.Success? ==> forall k :: k != "episodes" ==> Member(r.value, k) == Member(data, k)
    ensures r.Success? ==> Member(data, "episodes").Success? && Iterate(Member(data, "episodes").value).Success?
    ensures r.Success? && Member(data, "episodes").value.JList? ==>
      var e := Member(r.value, "episodes");
      e.Success? && e.value.JList? && CleanEpisodes(Member(data, "episodes").value.items) == Success(e.value.items)
    ensures r.Success? && !Member(data, "episodes").value.JList? ==> r.value == data
  {
    var episodes :- Member(data, "episodes");
    var items :- Iterate(episodes);
    var cleaned :- CleanEpisodes(items);
    if episodes.JList? then SetMember(data, "episodes", JList(cleaned)) else Success(data)
  }

  datatype Written = Written(path: string, bytes: seq<byte>, returned: string)

  /** `process_dataset(dataset)`: `raw` is the decompressed file content and
      `parsed` the outcome of decoding it. The written file holds `raw`. */
  function ProcessDataset(name: string, raw: seq<byte>, parsed: Result<Json>): (r: Result<Written>)
    ensures r.Success? <==> parsed.Success? && Clean(parsed.value).Success?
    ensures r.Success? ==> r.value.bytes == raw
    ensures r.Success? ==> r.value.path == "cleaned_dataset/" + name && r.value.returned == name
  {
    var data :- parsed;
    var _ :- Clean(data);
    Success(Written("cleaned_dataset/" + name, raw, name))
  }

  // ---------------------------------------------------------------------
  // Properties of the filter

  /** The steps of a replay whose action is not a camera turn, in order:
      the reference the cleaned replay is compared with. */
  function NonTurning(steps: seq<Json>): (r: seq<Json>)
    ensures |r| <= |steps|
    ensures forall i :: 0 <= i < |r| ==> r[i] in steps
  {
    if |steps| == 0 then []
    else
      var a := Member(steps[0], "action");
      (if a.Success? && !IsCameraTurn(a.value) then [steps[0]] else []) + NonTurning(steps[1..])
  }

  /** A cleaned replay is the non-turning steps, each patched: so no kept
      step is a camera turn, every other step is kept, their order is
      preserved and each kept step carries the fixed sensor pose. */
  lemma {:induction false} CleanReplayIsPatchedFilter(steps: seq<Json>)
    requires CleanReplay(steps).Success?
    ensures var r := CleanReplay(steps).value;
      && |r| == |NonTurning(steps)|
      && forall i :: 0 <= i < |r| ==> PatchStep(NonTurning(steps)[i]) == Success(r[i])
  {
    if |steps| > 0 {
      CleanReplayIsPatchedFilter(steps[1..]);
      var head := CleanStep(steps[0]).value;
      var tail := CleanReplay(steps[1..]).value;
      var a := Member(steps[0], "action");
      if head.Some? {
        assert NonTurning(steps) == [steps[0]] + NonTurning(steps[1..]);
        assert CleanReplay(steps).value == [head.value] + tail;
      } else {
        assert NonTurning(steps) == NonTurning(steps[1..]);
      }
    }
  }

  /** No kept step has a camera-turn action, and each has the fixed
      sensor data. */
  lemma CleanedStepsAreNotTurns(steps: seq<Json>, i: int)
    requires CleanReplay(steps).Success?
    requires 0 <= i < |CleanReplay(steps).value|
    ensures var s := CleanReplay(steps).value[i];
      && Member(s, "action").Success?
      && !IsCameraTurn(Member(s, "action").value)
      && Member(s, "agent_state").Success?
      && Member(Member(s, "agent_state").value, "sensor_data") == Success(FixedSensorData)
  {
    CleanReplayIsPatchedFilter(steps);
    NonTurningActions(steps, i);
  }

  lemma {:induction false} NonTurningActions(steps: seq<Json>, i: int)
    requires 0 <= i < |NonTurning(steps)|
    ensures var a := Member(NonTurning(steps)[i], "action"); a.Success? && !IsCameraTurn(a.value)
  {
    var a := Member(steps[0], "action");
    var rest := NonTurning(steps[1..]);
    if a.Success? && !IsCameraTurn(a.value) {
      assert NonTurning(steps) == [steps[0]] + rest;
      if i > 0 {
        NonTurningActions(steps[1..], i - 1);
        assert NonTurning(steps)[i] == rest[i - 1];
      }
    } else {
      assert NonTurning(steps) == rest;
      NonTurningActions(steps[1..], i);
    }
  }

  /** Cleaning a replay a second time changes nothing. */
  lemma {:induction false} CleanReplayIdempotent(steps: seq<Json>)
    requires CleanReplay(steps).Success?
    ensures CleanReplay(CleanReplay(steps).value) == CleanReplay(steps)
  {
    if |steps| > 0 {
      CleanReplayIdempotent(steps[1..]);
      var head := CleanStep(steps[0]).value;
      var tail := CleanReplay(steps[1..]).value;
      if head.Some? {
        CleanStepIdempotent(steps[0]);
        assert ([head.value] + tail)[1..] == tail;
      }
    }
  }

  lemma CleanStepIdempotent(step: Json)
    requires CleanStep(step).Success? && CleanStep(step).value.Some?
    ensures CleanStep(CleanStep(step).value.value) == CleanStep(step)
  {
    var s1 := CleanStep(step).value.value;
    PatchStepIdempotent(step);
  }

  lemma PatchStepIdempotent(step: Json)
    requires PatchStep(step).Success?
    ensures PatchStep(PatchStep(step).value) == PatchStep(step)
  {
    var a := Member(step, "agent_state").value;
    var a1 := SetMember(a, "sensor_data", FixedSensorData).value;
    var s1 := SetMember(step, "agent_state", a1).value;
    assert PatchStep(step) == Success(s1);
    assert Member(s1, "agent_state") == Success(a1);
    SetIdempotent(a.fields, "sensor_data", FixedSensorData);
    assert SetMember(a1, "sensor_data", FixedSensorData) == Success(a1);
    SetIdempotent(step.fields, "agent_state", a1);
    assert SetMember(s1, "agent_state", a1) == Success(s1);
  }

  /** Cleaning a whole document twice is the same as cleaning it once. */
  lemma CleanIdempotent(data: Json)
    requires Clean(data).Success?
    ensures Clean(Clean(data).value) == Clean(data)
  {
    var episodes := Member(data, "episodes").value;
    var items := Iterate(episodes).value;
    var cleaned := CleanEpisodes(items).value;
    if episodes.JList? {
      var d1 := SetMember(data, "episodes", JList(cleaned)).value;
      assert Member(d1, "episodes") == Success(JList(cleaned));
      CleanEpisodesIdempotent(items);
      SetIdempotent(data.fields, "episodes", JList(cleaned));
    }
  }

  lemma {:induction false} CleanEpisodesIdempotent(episodes: seq<Json>)
    requires CleanEpisodes(episodes).Success?
    ensures CleanEpisodes(CleanEpisodes(episodes).value) == CleanEpisodes(episodes)
  {
    if |episodes| > 0 {
      CleanEpisodesIdempotent(episodes[1..]);
      CleanEpisodeIdempotent(episodes[0]);
      var r := CleanEpisodes(episodes).value;
      assert r[1..] == CleanEpisodes(episodes[1..]).value;
    }
  }

  lemma CleanEpisodeIdempotent(episode: Json)
    requires CleanEpisode(episode).Success?
    ensures CleanEpisode(CleanEpisode(episode).value) == CleanEpisode(episode)
  {
    var replay := Member(episode, "reference_replay").value;
    var steps := Iterate(replay).value;
    var cleaned := CleanReplay(steps).value;
    var e1 := CleanEpisode(episode).value;
    assert Member(e1, "reference_replay") == Success(JList(cleaned));
    CleanReplayIdempotent(steps);
    SetIdempotent(episode.fields, "reference_replay", JList(cleaned));
  }

  /** The number of episodes is unchanged by cleaning. */
  lemma CleanKeepsEpisodeCount(data: Json)
    requires Clean(data).Success?
    requires Member(data, "episodes").Success? && Member(data, "episodes").value.JList?
    ensures var e := Member(Clean(data).value, "episodes");
      e.Success? && e.value.JList? && |e.value.items| == |Member(data, "episodes").value.items|
  {
  }

  /** The file written does not depend on the document: two inputs with
      the same bytes whose cleaning succeeds produce the same output. */
  lemma OutputIgnoresCleaning(name: string, raw: seq<byte>, d1: Json, d2: Json)
    requires Clean(d1).Success? && Clean(d2).Success?
    ensures ProcessDataset(name, raw, Success(d1)) == ProcessDataset(name, raw, Success(d2))
    ensures ProcessDataset(name, raw, Success(d1)) == Success(Written("cleaned_dataset/" + name, raw, name))
  {
  }
}
