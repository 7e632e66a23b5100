/** The native engine as the wrapper sees it: an object table, a template
    table, a navigation mesh flag and one agent. Only the state the
    wrapper's decisions read or write is kept; geometry is symbolic, and
    everything the engine computes (random points, contact tests,
    rendering) is supplied by the caller as an oracle. */
module Engine {
  import opened Results

  datatype Vec3 = Vec3(x: real, y: real, z: real)

  /** Rotations are kept as terms rather than quaternions. */
  datatype Rotation =
    | InitialRotation
    | Coeffs(coeffs: seq<real>)          // `quat_from_coeffs` of a descriptor's list
    | Yawed(turn: real, base: Rotation)  // a rotation of `turn` full turns about the up axis, then `base`

  datatype MotionType = Static | Dynamic | Kinematic

  datatype SimObject = SimObject(
    handle: string,
    translation: Vec3,
    rotation: Rotation,
    motion: MotionType,
    semanticId: int)

  datatype Template = Template(handle: string, scale: Vec3)

  /** A body pose as the API passes it: a position list and an
      (x, y, z, w) rotation list. */
  datatype Pose = Pose(position: seq<real>, rotation: seq<real>)

  /** The agent: its body pose, each sensor's pose relative to the body,
      and the relative poses its sensor specifications declare. */
  datatype Agent = Agent(body: Pose, sensorOffsets: map<string, Pose>, specOffsets: map<string, Pose>)

  datatype EngineState = EngineState(
    scene: string,
    instantiations: nat,
    closes: nat,
    objects: map<int, SimObject>,
    nextObjectId: int,
    templates: seq<Template>,
    navmeshLoaded: bool,
    navmeshRecomputes: nat,
    agent: Agent)

  /** Valid states hand out fresh ids: every live id is below the next. */
  predicate ValidIds(e: EngineState) {
    forall id :: id in e.objects ==> id < e.nextObjectId
  }

  function SetTranslation(e: EngineState, id: int, t: Vec3): (r: EngineState)
    ensures r.objects.Keys == e.objects.Keys
    ensures id in e.objects ==> r.objects[id] == e.objects[id].(translation := t)
    ensures forall other :: other in e.objects && other != id ==> r.objects[other] == e.objects[other]
    ensures r == e.(objects := r.objects)
  {
    if id in e.objects then e.(objects := e.objects[id := e.objects[id].(translation := t)]) else e
  }

  function SetRotation(e: EngineState, id: int, q: Rotation): (r: EngineState)
    ensures r.objects.Keys == e.objects.Keys
    ensures id in e.objects ==> r.objects[id] == e.objects[id].(rotation := q)
    ensures forall other :: other in e.objects && other != id ==> r.objects[other] == e.objects[other]
    ensures r == e.(objects := r.objects)
  {
    if id in e.objects then e.(objects := e.objects[id := e.objects[id].(rotation := q)]) else e
  }

  function SetMotionType(e: EngineState, id: int, m: MotionType): (r: EngineState)
    ensures r.objects.Keys == e.objects.Keys
    ensures id in e.objects ==> r.objects[id] == e.objects[id].(motion := m)
    ensures forall other :: other in e.objects && other != id ==> r.objects[other] == e.objects[other]
    ensures r == e.(objects := r.objects)
  {
    if id in e.objects then e.(objects := e.objects[id := e.objects[id].(motion := m)]) else e
  }

  function SetSemanticId(e: EngineState, id: int, sem: int): (r: EngineState)
    ensures r.objects.Keys == e.objects.Keys
    ensures id in e.objects ==> r.objects[id] == e.objects[id].(semanticId := sem)
    ensures forall other :: other in e.objects && other != id ==> r.objects[other] == e.objects[other]
    ensures r == e.(objects := r.objects)
  {
    if id in e.objects then e.(objects := e.objects[id := e.objects[id].(semanticId := sem)]) else e
  }

  /** `a` is `b` moved and turned: handle, motion type and semantic id
      are the same. */
  predicate OnlyPoseDiffers(a: SimObject, b: SimObject) {
    a == b.(translation := a.translation, rotation := a.rotation)
  }

  function TranslationOf(e: EngineState, id: int): Vec3 {
    if id in e.objects then e.objects[id].translation else Vec3(0.0, 0.0, 0.0)
  }

  function RotationOf(e: EngineState, id: int): Rotation {
    if id in e.objects then e.objects[id].rotation else InitialRotation
  }

  /** `add_object_by_handle`: a new dynamic object under a fresh id. */
  function AddObject(e: EngineState, handle: string): (r: (EngineState, int))
    ensures ValidIds(e) ==> r.1 !in e.objects && ValidIds(r.0)
    ensures r.0.objects.Keys == e.objects.Keys + {r.1}
    ensures r.0.objects[r.1] == SimObject(handle, Vec3(0.0, 0.0, 0.0), InitialRotation, Dynamic, 0)
    ensures forall other :: other in e.objects && other != r.1 ==> r.0.objects[other] == e.objects[other]
    ensures r.0 == e.(objects := r.0.objects, nextObjectId := r.1 + 1)
  {
    var id := e.nextObjectId;
    var obj := SimObject(handle, Vec3(0.0, 0.0, 0.0), InitialRotation, Dynamic, 0);
    (e.(objects := e.objects[id := obj], nextObjectId := id + 1), id)
  }

  /** `remove_all_objects`. */
  function RemoveAllObjects(e: EngineState): (r: EngineState)
    ensures r.objects == map[] && r == e.(objects := map[])
  {
    e.(objects := map[])
  }

  /** `recompute_navmesh(pathfinder, navmesh_settings, True)`. */
  function RecomputeNavmesh(e: EngineState): (r: EngineState)
    ensures r == e.(navmeshRecomputes := e.navmeshRecomputes + 1)
  {
    e.(navmeshRecomputes := e.navmeshRecomputes + 1)
  }

  /** `close()` followed by `reconfigure(sim_config)` against a new scene:
      the object table starts empty and the instantiation is counted.
      `navmeshLoaded` is whether the new scene comes with a mesh. */
  function Reinstantiate(e: EngineState, scene: string, navmeshLoaded: bool): (r: EngineState)
    ensures r.scene == scene && r.objects == map[]
    ensures r.instantiations == e.instantiations + 1 && r.closes == e.closes + 1
    ensures r.navmeshLoaded == navmeshLoaded
    ensures r.nextObjectId == e.nextObjectId && r.templates == e.templates
    ensures r.navmeshRecomputes == e.navmeshRecomputes && r.agent == e.agent
  {
    e.(scene := scene, instantiations := e.instantiations + 1, closes := e.closes + 1,
       objects := map[], navmeshLoaded := navmeshLoaded)
  }

  /** The state handed to `agent.set_state`. */
  datatype AgentStateArg = AgentStateArg(body: Pose, sensorStates: map<string, Pose>)

  /** `agent.set_state(state, reset_sensors)`: the body moves; with
      `reset_sensors` every sensor returns to its specified pose; any
      sensor pose in the state then overrides. */
  function AgentSetState(a: Agent, s: AgentStateArg, resetSensors: bool): (r: Agent)
    ensures r.body == s.body && r.specOffsets == a.specOffsets
  {
    var offsets := if resetSensors then a.specOffsets else a.sensorOffsets;
    a.(body := s.body, sensorOffsets := offsets + s.sensorStates)
  }
}
