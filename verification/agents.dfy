/** Agent pose control of the simulator wrapper: `get_agent_state`,
    `set_agent_state`, `_update_agents_state` and `get_observations_at`
    (habitat/sims/habitat_simulator/habitat_simulator.py). Only agent 0
    exists; any other id is refused by an assertion. */
module Agents {
  import opened Results
  import opened Engine
  import Sensors

  /** One entry of the agent list of the configuration. */
  datatype AgentConfig = AgentConfig(isSetStartState: bool, startPosition: seq<real>, startRotation: seq<real>)

  /** `get_agent_state(agent_id)`. */
  function GetAgentState(e: EngineState, agentId: int): (r: Result<Pose>)
    ensures r.Success? <==> agentId == 0
    ensures r.Success? ==> r.value == e.agent.body
    ensures r.Failure? ==> r.error == MultiAgentUnsupported(agentId)
  {
    if agentId != 0 then Failure(MultiAgentUnsupported(agentId)) else Success(e.agent.body)
  }

  /** `set_agent_state(position, rotation, agent_id, reset_sensors)`: the
      body moves to the given pose and no sensor state is passed, so the
      sensors follow the body. It always answers True. */
  function SetAgentState(e: EngineState, position: seq<real>, rotation: seq<real>, agentId: int, resetSensors: bool): (r: Result<(EngineState, bool)>)
    ensures r.Success? <==> agentId == 0
    ensures r.Failure? ==> r.error == MultiAgentUnsupported(agentId)
    ensures r.Success? ==> r.value.1
    ensures r.Success? ==> r.value.0 == e.(agent := r.value.0.agent)
    ensures r.Success? ==> r.value.0.agent.body == Pose(position, rotation)
    ensures r.Success? ==> r.value.0.agent.specOffsets == e.agent.specOffsets
    ensures r.Success? && resetSensors ==> r.value.0.agent.sensorOffsets == e.agent.specOffsets
    ensures r.Success? && !resetSensors ==> r.value.0.agent.sensorOffsets == e.agent.sensorOffsets
  {
    var current :- GetAgentState(e, agentId);
    var newState := AgentStateArg(Pose(position, rotation), map[]);
    Success((e.(agent := AgentSetState(e.agent, newState, resetSensors)), true))
  }

  /** True when some agent after the first asks for a start state. */
  predicate OtherAgentStarts(agents: seq<AgentConfig>) {
    exists i :: 0 < i < |agents| && agents[i].isSetStartState
  }

  /** The loop of `_update_agents_state` from index `k` on. */
  function UpdateFrom(e: EngineState, agents: seq<AgentConfig>, k: nat, updated: bool): (r: Result<(EngineState, bool)>)
    requires k <= |agents|
    ensures r.Success? <==> forall i :: k <= i < |agents| && i != 0 ==> !agents[i].isSetStartState
    ensures r.Success? ==> r.value.1 == (updated || exists i :: k <= i < |agents| && agents[i].isSetStartState)
    ensures r.Success? && (k > 0 || |agents| == 0 || !agents[0].isSetStartState) ==> r.value.0 == e
    ensures r.Success? ==> r.value.0 == e.(agent := r.value.0.agent)
    decreases |agents| - k
  {
    if k == |agents| then Success((e, updated))
    else if !agents[k].isSetStartState then UpdateFrom(e, agents, k + 1, updated)
    else
      var (e', _) :- SetAgentState(e, agents[k].startPosition, agents[k].startRotation, k, true);
      UpdateFrom(e', agents, k + 1, true)
  }

  /** `_update_agents_state()`: every agent configured with a start state
      is moved there, with its sensors reset; the result says whether any
      was. */
  function UpdateAgentsState(e: EngineState, agents: seq<AgentConfig>): (r: Result<(EngineState, bool)>)
    ensures r.Success? <==> !OtherAgentStarts(agents)
    ensures r.Success? ==> r.value.1 == exists i :: 0 <= i < |agents| && agents[i].isSetStartState
    ensures r.Success? ==> r.value.0 == e.(agent := r.value.0.agent)
  {
    UpdateFrom(e, agents, 0, false)
  }

  /** With a single agent configured with a start state, that agent stands
      at the start pose with its sensors reset, and nothing else of the
      engine changes. */
  lemma StartStateApplied(e: EngineState, agents: seq<AgentConfig>)
    requires |agents| >= 1 && agents[0].isSetStartState && !OtherAgentStarts(agents)
    ensures var r := UpdateAgentsState(e, agents);
      && r.Success?
      && r.value.0 == e.(agent := r.value.0.agent)
      && r.value.0.agent.body == Pose(agents[0].startPosition, agents[0].startRotation)
      && r.value.0.agent.sensorOffsets == e.agent.specOffsets
  {
    var (e', _) := SetAgentState(e, agents[0].startPosition, agents[0].startRotation, 0, true).value;
    assert UpdateAgentsState(e, agents) == UpdateFrom(e', agents, 1, true);
  }

  /** Without any start state the engine is left as it was. */
  lemma NoStartStateNoChange(e: EngineState, agents: seq<AgentConfig>)
    requires forall i :: 0 <= i < |agents| ==> !agents[i].isSetStartState
    ensures UpdateAgentsState(e, agents) == Success((e, false))
  {
  }

  /** What `get_observations_at` leaves behind: the observations (None
      when the pose could not be set), the engine, and the raw buffers
      remembered as the previous observation. */
  datatype ObservedAt = ObservedAt(
    observations: Option<map<string, Sensors.Observation>>,
    engine: EngineState,
    prevSimObs: Sensors.SimObs)

  /** The engine with the agent at the requested pose, if a full pose was
      requested. */
  function PoseFor(e: EngineState, position: Option<seq<real>>, rotation: Option<seq<real>>): (r: EngineState)
    ensures position.None? || rotation.None? ==> r == e
    ensures position.Some? && rotation.Some? ==>
              SetAgentState(e, position.value, rotation.value, 0, false) == Success((r, true))
  {
    if position.None? || rotation.None? then e
    else e.(agent := e.agent.(body := Pose(position.value, rotation.value)))
  }

  /** `get_observations_at(position, rotation, keep_agent_at_new_pose)`.
      `render` is `get_sensor_observations` of the engine in a given
      state. Unless asked to keep it, the agent is put back at its
      previous pose with `reset_sensors=False`. */
  function GetObservationsAt(e: EngineState, sensors: seq<Sensors.Sensor>, render: EngineState -> Sensors.SimObs,
                             position: Option<seq<real>>, rotation: Option<seq<real>>, keep: bool): (r: Result<ObservedAt>)
    ensures r.Success? <==> Sensors.SuiteObservations(render(PoseFor(e, position, rotation)), sensors).Success?
    ensures r.Success? ==> r.value.prevSimObs == render(PoseFor(e, position, rotation))
    ensures r.Success? ==> r.value.observations.Some?
    ensures r.Success? ==>
              r.value.observations == Some(Sensors.SuiteObservations(render(PoseFor(e, position, rotation)), sensors).value)
  {
    var current := GetAgentState(e, 0).value;
    var (e1, success) := if position.None? || rotation.None? then (e, true)
                         else SetAgentState(e, position.value, rotation.value, 0, false).value;
    if success then
      var simObs := render(e1);
      var observations :- Sensors.SuiteObservations(simObs, sensors);
      var e2 := if !keep then SetAgentState(e1, current.position, current.rotation, 0, false).value.0 else e1;
      Success(ObservedAt(Some(observations), e2, simObs))
    else Success(ObservedAt(None, e1, map[]))
  }

  /** Looking from another pose without keeping it leaves the engine
      exactly as it was. */
  lemma ObservationsAtRestoresPose(e: EngineState, sensors: seq<Sensors.Sensor>, render: EngineState -> Sensors.SimObs,
                                   position: Option<seq<real>>, rotation: Option<seq<real>>)
    requires GetObservationsAt(e, sensors, render, position, rotation, false).Success?
    ensures GetObservationsAt(e, sensors, render, position, rotation, false).value.engine == e
  {
  }

  /** Keeping the new pose leaves the agent there, sensors untouched. */
  lemma ObservationsAtKeepsPose(e: EngineState, sensors: seq<Sensors.Sensor>, render: EngineState -> Sensors.SimObs,
                                position: seq<real>, rotation: seq<real>)
    requires GetObservationsAt(e, sensors, render, Some(position), Some(rotation), true).Success?
    ensures var s := GetObservationsAt(e, sensors, render, Some(position), Some(rotation), true).value.engine;
      && s == e.(agent := s.agent)
      && s.agent == e.agent.(body := Pose(position, rotation))
  {
  }
}
