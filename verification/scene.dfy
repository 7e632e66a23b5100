/** Scene lifecycle of the simulator wrapper: `reconfigure` and the
    scene-state initialisation that inserts every described object
    (`_initialize_THDA_scene`) in habitat/sims/habitat_simulator/habitat_simulator.py.

    Each described object is instantiated from a template (reused when an
    existing template's handle contains the requested path, loaded and
    registered with the described or a default scale otherwise), recorded
    in the id mappings, either put at its given pose or sampled onto the
    navigation mesh, and finally made static. */
module SceneLifecycle {
  import opened Results
  import opened Engine
  import opened Placement
  import opened Agents

  /** Scale given to a newly loaded template without a described scale. */
  const DefaultTemplateScale: Vec3 := Vec3(5.0, 5.0, 5.0)

  /** One entry of `scene_state[0]["objects"]`. A `None` or empty scale
      is `None` here; the rotation, when present, is a coefficient list. */
  datatype ObjectDescriptor = ObjectDescriptor(
    template: string,
    position: Option<Vec3>,
    rotation: Option<seq<real>>,
    scale: Option<Vec3>,
    objectId: int,
    semanticCategory: int)

  /** The `objects` entry of a scene state: absent, `None`, or a list. */
  datatype ObjectsField = NoObjectsKey | NullObjects | ObjectList(descs: seq<ObjectDescriptor>)

  datatype SceneStateEntry = SceneStateEntry(objects: ObjectsField)

  /** The part of the Habitat configuration this layer reads. A missing
      `scene_state` attribute and a `None` one are both `None`. */
  datatype HabitatConfig = HabitatConfig(
    scene: string,
    sceneState: Option<seq<SceneStateEntry>>,
    agents: seq<AgentConfig>)

  /** The engine's answers this layer cannot compute: the handle of the
      first template `load_object_configs` registers for a path (None when
      it registers none), whether a scene comes with a navigation mesh,
      and the sampler's random draws and contact tests. */
  datatype World = World(load: string -> Option<string>, hasNavmesh: string -> bool, draws: Draws)

  datatype Simulator = Simulator(
    config: HabitatConfig,
    currentScene: string,
    engine: EngineState,
    simToObjid: map<int, int>,
    objidToSim: map<int, int>,
    semIdToCategory: map<int, int>)

  /** `needle in hay`: `needle` occurs in `hay` at some position. */
  predicate Contains(hay: string, needle: string) {
    (|needle| <= |hay| && hay[..|needle|] == needle) || (|hay| > 0 && Contains(hay[1..], needle))
  }

  /** `get_file_template_handles(path)[0]`: the first registered template
      whose handle contains the path. */
  function FindTemplate(templates: seq<Template>, path: string): (r: Option<string>)
    ensures r.None? <==> forall i :: 0 <= i < |templates| ==> !Contains(templates[i].handle, path)
    ensures r.Some? ==> exists i :: 0 <= i < |templates| && templates[i].handle == r.value
                          && Contains(r.value, path)
                          && forall j :: 0 <= j < i ==> !Contains(templates[j].handle, path)
  {
    if |templates| == 0 then None
    else if Contains(templates[0].handle, path) then Some(templates[0].handle)
    else
      var r := FindTemplate(templates[1..], path);
      assert forall i :: 1 <= i < |templates| ==> templates[i] == templates[1..][i - 1];
      if r.Some? then
        var i :| 0 <= i < |templates[1..]| && templates[1..][i].handle == r.value
                 && Contains(r.value, path)
                 && forall j :: 0 <= j < i ==> !Contains(templates[1..][j].handle, path);
        assert templates[i + 1].handle == r.value;
        r
      else r
  }

  /** The template handle for a descriptor, registering a loaded template
      (with its scale) when no existing handle matches. */
  function ResolveTemplate(e: EngineState, desc: ObjectDescriptor, load: string -> Option<string>): (r: Result<(EngineState, string)>)
    ensures r.Failure? <==> FindTemplate(e.templates, desc.template).None? && load(desc.template).None?
    ensures r.Failure? ==> r.error == TemplateNotFound(desc.template)
    ensures r.Success? && FindTemplate(e.templates, desc.template).Some? ==>
              r.value == (e, FindTemplate(e.templates, desc.template).value)
    ensures r.Success? && FindTemplate(e.templates, desc.template).None? ==>
              && r.value.1 == load(desc.template).value
              && r.value.0 == e.(templates := e.templates + [Template(r.value.1, desc.scale.GetOr(DefaultTemplateScale))])
  {
    match FindTemplate(e.templates, desc.template)
    case Some(handle) => Success((e, handle))
    case None =>
      match load(desc.template)
      case None => Failure(TemplateNotFound(desc.template))
      case Some(handle) =>
        Success((e.(templates := e.templates + [Template(handle, desc.scale.GetOr(DefaultTemplateScale))]), handle))
  }

  /** The id mappings agree: exactly the live objects have a described
      id, and every described id maps to a live object that maps back. */
  predicate MappingsConsistent(s: Simulator) {
    && ValidIds(s.engine)
    && s.simToObjid.Keys == s.engine.objects.Keys
    && (forall k :: k in s.objidToSim ==> s.objidToSim[k] in s.simToObjid && s.simToObjid[s.objidToSim[k]] == k)
  }

  /** Every inserted object is static. */
  predicate AllStatic(e: EngineState) {
    forall o :: o in e.objects ==> e.objects[o].motion == Static
  }

  /** `sample_object_state(object_id)` with its defaults, whose answer the
      initialisation ignores, followed by a navigation mesh recompute. */
  function SampleOntoMesh(e: EngineState, id: int, draws: Draws): (r: EngineState)
    ensures r == e.(objects := r.objects, navmeshRecomputes := e.navmeshRecomputes + 1)
    ensures r.objects.Keys == e.objects.Keys
    ensures forall o :: o in e.objects && o != id ==> r.objects[o] == e.objects[o]
    ensures id in e.objects ==> OnlyPoseDiffers(r.objects[id], e.objects[id])
  {
    SampleFromRaises(e, id, DefaultParams, draws, 0);
    SampleFromOnlyMovesObject(e, id, DefaultParams, draws, 0);
    var sampled := SampleSpec(e, id, DefaultParams, draws).value.engine;
    RecomputeNavmesh(sampled)
  }

  /** The pose step of the loop body, once the object exists under `id`:
      a given position (and rotation) is applied, otherwise the object is
      sampled onto the mesh. */
  function PoseObject(e: EngineState, id: int, desc: ObjectDescriptor, draws: Draws): (r: EngineState)
    ensures r == e.(objects := r.objects, navmeshRecomputes := r.navmeshRecomputes)
    ensures r.navmeshRecomputes == e.navmeshRecomputes + (if desc.position.None? then 1 else 0)
    ensures r.objects.Keys == e.objects.Keys
    ensures forall o :: o in e.objects && o != id ==> r.objects[o] == e.objects[o]
    ensures id in e.objects ==> OnlyPoseDiffers(r.objects[id], e.objects[id])
    ensures id in e.objects && desc.position.Some? ==> r.objects[id].translation == desc.position.value
    ensures id in e.objects && desc.position.Some? && desc.rotation.Some? ==> r.objects[id].rotation == Coeffs(desc.rotation.value)
  {
    match desc.position
    case Some(pos) =>
      var e1 := SetTranslation(e, id, pos);
      if desc.rotation.Some? then SetRotation(e1, id, Coeffs(desc.rotation.value)) else e1
    case None => SampleOntoMesh(e, id, draws)
  }

  /** The engine fields the initialisation never touches. */
  predicate SameSceneAndAgent(a: EngineState, b: EngineState) {
    a.scene == b.scene && a.instantiations == b.instantiations && a.closes == b.closes
    && a.navmeshLoaded == b.navmeshLoaded && a.agent == b.agent
  }

  /** The engine side of one iteration: resolve the template, add the
      object, give it the described semantic id, pose it, make it static. */
  function InsertObject(e: EngineState, desc: ObjectDescriptor, w: World): (r: Result<(EngineState, int)>)
    ensures r.Failure? <==> FindTemplate(e.templates, desc.template).None? && w.load(desc.template).None?
    ensures r.Failure? ==> r.error == TemplateNotFound(desc.template)
  {
    var (e1, handle) :- ResolveTemplate(e, desc, w.load);
    var (e2, id) := AddObject(e1, handle);
    var e3 := SetSemanticId(e2, id, desc.objectId);
    var e4 := PoseObject(e3, id, desc, w.draws);
    Success((SetMotionType(e4, id, Static), id))
  }

  /** The object inserted for `desc` under `id` is as described. */
  predicate AsDescribed(o: SimObject, desc: ObjectDescriptor) {
    && o.motion == Static
    && o.semanticId == desc.objectId
    && (desc.position.Some? ==> o.translation == desc.position.value)
  }

  /** The inserted object takes the next fresh id and is as described;
      no other object changes; the mesh is recomputed once if the object
      was sampled. */
  lemma InsertObjectEffect(e: EngineState, desc: ObjectDescriptor, w: World)
    requires ValidIds(e)
    requires InsertObject(e, desc, w).Success?
    ensures var (r, id) := InsertObject(e, desc, w).value;
      && id == e.nextObjectId
      && ValidIds(r)
      && SameSceneAndAgent(r, e)
      && (forall o :: o in r.objects <==> o in e.objects || o == id)
      && id !in e.objects
      && (forall o :: o in e.objects ==> r.objects[o] == e.objects[o])
      && AsDescribed(r.objects[id], desc)
      && r.nextObjectId == id + 1
      && r.navmeshRecomputes == e.navmeshRecomputes + (if desc.position.None? then 1 else 0)
  {
    var (e1, handle) := ResolveTemplate(e, desc, w.load).value;
    assert e1 == e.(templates := e1.templates);
    var (e2, id) := AddObject(e1, handle);
    var e3 := SetSemanticId(e2, id, desc.objectId);
    var e4 := PoseObject(e3, id, desc, w.draws);
    var e5 := SetMotionType(e4, id, Static);
    assert InsertObject(e, desc, w).value == (e5, id);
    assert e5.objects[id].semanticId == e4.objects[id].semanticId == desc.objectId;
  }

  /** One iteration of the initialisation loop: insert the object and
      record it in the three mappings. */
  function PlaceObject(s: Simulator, desc: ObjectDescriptor, w: World): (r: Result<Simulator>)
    ensures r.Failure? <==> FindTemplate(s.engine.templates, desc.template).None? && w.load(desc.template).None?
    ensures r.Success? ==> r.value.config == s.config && r.value.currentScene == s.currentScene
  {
    var (e, id) :- InsertObject(s.engine, desc, w);
    Success(Recorded(s, e, id, desc))
  }

  /** The mappings after recording a fresh object `id` under the
      described id. */
  function Recorded(s: Simulator, e: EngineState, id: int, desc: ObjectDescriptor): (r: Simulator)
    ensures r.engine == e && r.config == s.config && r.currentScene == s.currentScene
    ensures r.simToObjid.Keys == s.simToObjid.Keys + {id} && r.simToObjid[id] == desc.objectId
    ensures forall o :: o in s.simToObjid && o != id ==> r.simToObjid[o] == s.simToObjid[o]
    ensures r.objidToSim.Keys == s.objidToSim.Keys + {desc.objectId} && r.objidToSim[desc.objectId] == id
    ensures forall k :: k in s.objidToSim && k != desc.objectId ==> r.objidToSim[k] == s.objidToSim[k]
    ensures r.semIdToCategory.Keys == s.semIdToCategory.Keys + {desc.objectId}
    ensures r.semIdToCategory[desc.objectId] == desc.semanticCategory
    ensures forall k :: k in s.semIdToCategory && k != desc.objectId ==> r.semIdToCategory[k] == s.semIdToCategory[k]
  {
    s.(engine := e,
       simToObjid := s.simToObjid[id := desc.objectId],
       objidToSim := s.objidToSim[desc.objectId := id],
       semIdToCategory := s.semIdToCategory[desc.objectId := desc.semanticCategory])
  }

  /** Recording a fresh object keeps the mappings consistent. */
  lemma RecordedConsistent(s: Simulator, e: EngineState, id: int, desc: ObjectDescriptor)
    requires MappingsConsistent(s)
    requires ValidIds(e) && id !in s.engine.objects
    requires forall o :: o in e.objects <==> o in s.engine.objects || o == id
    ensures MappingsConsistent(Recorded(s, e, id, desc))
  {
    var r := Recorded(s, e, id, desc);
    assert r.simToObjid == s.simToObjid[id := desc.objectId] && r.engine == e;
    assert r.simToObjid.Keys == s.simToObjid.Keys + {id};
    assert e.objects.Keys == s.engine.objects.Keys + {id} by {
      forall o | o in e.objects.Keys ensures o in s.engine.objects.Keys + {id} {
        assert o in e.objects;
      }
      forall o | o in s.engine.objects.Keys + {id} ensures o in e.objects.Keys {
        assert o in s.engine.objects || o == id;
      }
    }
    forall k | k in r.objidToSim
      ensures r.objidToSim[k] in r.simToObjid && r.simToObjid[r.objidToSim[k]] == k
    {
      if k != desc.objectId {
        assert s.objidToSim[k] in s.engine.objects;
      }
    }
  }

  /** One iteration keeps the id mappings consistent and records the new
      object under its described id. */
  lemma PlaceObjectEffect(s: Simulator, desc: ObjectDescriptor, w: World)
    requires MappingsConsistent(s)
    requires PlaceObject(s, desc, w).Success?
    ensures var r := PlaceObject(s, desc, w).value;
      var id := s.engine.nextObjectId;
      && MappingsConsistent(r)
      && r.simToObjid == s.simToObjid[id := desc.objectId]
      && r.objidToSim == s.objidToSim[desc.objectId := id]
      && r.semIdToCategory == s.semIdToCategory[desc.objectId := desc.semanticCategory]
  {
    InsertObjectEffect(s.engine, desc, w);
    var (e, id) := InsertObject(s.engine, desc, w).value;
    assert PlaceObject(s, desc, w).value == Recorded(s, e, id, desc);
    RecordedConsistent(s, e, id, desc);
  }

  /** The number of descriptors without a position (each is sampled and
      followed by a mesh recompute). */
  function SampledCount(descs: seq<ObjectDescriptor>): nat {
    if |descs| == 0 then 0
    else SampledCount(descs[..|descs| - 1]) + (if descs[|descs| - 1].position.None? then 1 else 0)
  }

  /** The engine `after` is `before` with one more object, under `id`,
      inserted as described. */
  ghost predicate InsertedAfter(before: EngineState, after: EngineState, id: int, desc: ObjectDescriptor) {
    && id == before.nextObjectId
    && ValidIds(after)
    && SameSceneAndAgent(after, before)
    && (forall o :: o in after.objects <==> o in before.objects || o == id)
    && (forall o :: o in before.objects ==> after.objects[o] == before.objects[o])
    && id in after.objects && AsDescribed(after.objects[id], desc)
    && after.nextObjectId == id + 1
    && after.navmeshRecomputes == before.navmeshRecomputes + (if desc.position.None? then 1 else 0)
  }

  /** What one iteration does to the simulator, as `InsertObjectEffect`
      and `PlaceObjectEffect` state it. */
  ghost predicate StepEffect(s: Simulator, r: Simulator, desc: ObjectDescriptor) {
    && MappingsConsistent(r)
    && r.config == s.config && r.currentScene == s.currentScene
    && InsertedAfter(s.engine, r.engine, s.engine.nextObjectId, desc)
    && r == Recorded(s, r.engine, s.engine.nextObjectId, desc)
  }

  /** `step` behaves like an iteration of the initialisation loop. */
  ghost predicate IsPlacementStep(step: (Simulator, ObjectDescriptor) -> Result<Simulator>) {
    forall s, d :: MappingsConsistent(s) && step(s, d).Success? ==> StepEffect(s, step(s, d).value, d)
  }

  /** The iteration of the initialisation loop for a given world. */
  function PlaceStep(w: World): (r: (Simulator, ObjectDescriptor) -> Result<Simulator>)
    ensures forall t, desc :: r(t, desc).Failure? <==>
              FindTemplate(t.engine.templates, desc.template).None? && w.load(desc.template).None?
  {
    (s, d) => PlaceObject(s, d, w)
  }

  /** `PlaceObject` is an iteration step in the sense of `StepEffect`. */
  lemma PlaceStepIsPlacementStep(w: World)
    ensures IsPlacementStep(PlaceStep(w))
  {
    forall s, d | MappingsConsistent(s) && PlaceStep(w)(s, d).Success?
      ensures StepEffect(s, PlaceStep(w)(s, d).value, d)
    {
      InsertObjectEffect(s.engine, d, w);
      PlaceObjectEffect(s, d, w);
    }
  }

  /** The loop over the described objects, in order; the first failing
      iteration aborts it. */
  function PlaceAll(s: Simulator, descs: seq<ObjectDescriptor>, step: (Simulator, ObjectDescriptor) -> Result<Simulator>): (r: Result<Simulator>)
    ensures |descs| == 0 ==> r == Success(s)
    ensures r.Failure? ==> exists i, t :: 0 <= i < |descs| && step(t, descs[i]) == Failure(r.error)
    decreases |descs|
  {
    if |descs| == 0 then Success(s)
    else
      var before :- PlaceAll(s, descs[..|descs| - 1], step);
      step(before, descs[|descs| - 1])
  }

  /** The loop keeps the mappings consistent, adds one object per
      descriptor under consecutive fresh ids, keeps the objects that were
      there and recomputes the mesh once per sampled object. */
  lemma {:induction false} PlaceAllFrame(s: Simulator, descs: seq<ObjectDescriptor>, step: (Simulator, ObjectDescriptor) -> Result<Simulator>)
    requires MappingsConsistent(s) && IsPlacementStep(step)
    requires PlaceAll(s, descs, step).Success?
    ensures var r := PlaceAll(s, descs, step).value;
      var start := s.engine.nextObjectId;
      && MappingsConsistent(r)
      && r.config == s.config && r.currentScene == s.currentScene
      && SameSceneAndAgent(r.engine, s.engine)
      && r.engine.nextObjectId == start + |descs|
      && (forall o :: o in r.engine.objects <==> o in s.engine.objects || start <= o < start + |descs|)
      && (forall o :: o in s.engine.objects ==> r.engine.objects[o] == s.engine.objects[o])
      && r.engine.navmeshRecomputes == s.engine.navmeshRecomputes + SampledCount(descs)
    decreases |descs|
  {
    if |descs| > 0 {
      var init := descs[..|descs| - 1];
      PlaceAllFrame(s, init, step);
      var before := PlaceAll(s, init, step).value;
      assert PlaceAll(s, descs, step) == step(before, descs[|descs| - 1]);
    }
  }

  /** Descriptor `i` was placed under id `start + i` as described. */
  predicate PlacedAsDescribed(r: Simulator, start: int, descs: seq<ObjectDescriptor>, i: int)
    requires 0 <= i < |descs|
  {
    && start + i in r.engine.objects
    && AsDescribed(r.engine.objects[start + i], descs[i])
    && start + i in r.simToObjid
    && r.simToObjid[start + i] == descs[i].objectId
  }

  /** No later descriptor reuses the object id of descriptor `i`. */
  predicate LastWithItsId(descs: seq<ObjectDescriptor>, i: int)
    requires 0 <= i < |descs|
  {
    forall j :: i < j < |descs| ==> descs[j].objectId != descs[i].objectId
  }

  /** The object id of descriptor `i` leads to the object placed for it. */
  predicate FoundById(r: Simulator, start: int, descs: seq<ObjectDescriptor>, i: int)
    requires 0 <= i < |descs|
  {
    && descs[i].objectId in r.objidToSim && r.objidToSim[descs[i].objectId] == start + i
    && descs[i].objectId in r.semIdToCategory && r.semIdToCategory[descs[i].objectId] == descs[i].semanticCategory
  }

  /** One more iteration keeps every earlier descriptor placed as
      described and places the new one. */
  lemma PlacedStep(before: Simulator, r: Simulator, start: int, init: seq<ObjectDescriptor>, descs: seq<ObjectDescriptor>)
    requires |descs| > 0 && init == descs[..|descs| - 1]
    requires StepEffect(before, r, descs[|descs| - 1]) && before.engine.nextObjectId == start + |init|
    requires forall i :: 0 <= i < |init| ==> PlacedAsDescribed(before, start, init, i)
    ensures forall i :: 0 <= i < |descs| ==> PlacedAsDescribed(r, start, descs, i)
  {
    forall i | 0 <= i < |descs| ensures PlacedAsDescribed(r, start, descs, i) {
      if i < |init| {
        assert descs[i] == init[i];
        assert PlacedAsDescribed(before, start, init, i);
        assert start + i in before.engine.objects;
      }
    }
  }

  /** One more iteration keeps every earlier object id that is not reused
      leading to its object, and records the new one. */
  lemma FoundStep(before: Simulator, r: Simulator, start: int, init: seq<ObjectDescriptor>, descs: seq<ObjectDescriptor>)
    requires |descs| > 0 && init == descs[..|descs| - 1]
    requires StepEffect(before, r, descs[|descs| - 1]) && before.engine.nextObjectId == start + |init|
    requires forall i :: 0 <= i < |init| && LastWithItsId(init, i) ==> FoundById(before, start, init, i)
    ensures forall i :: 0 <= i < |descs| && LastWithItsId(descs, i) ==> FoundById(r, start, descs, i)
  {
    var n := |descs| - 1;
    forall i | 0 <= i < |descs| && LastWithItsId(descs, i) ensures FoundById(r, start, descs, i) {
      if i < n {
        assert descs[i] == init[i];
        assert forall j :: i < j < n ==> descs[j] == init[j];
        assert LastWithItsId(init, i);
        assert FoundById(before, start, init, i);
      }
    }
  }

  /** Descriptor `i` is placed under the `i`-th fresh id, as described. */
  lemma {:induction false} PlaceAllPlaced(s: Simulator, descs: seq<ObjectDescriptor>, step: (Simulator, ObjectDescriptor) -> Result<Simulator>)
    requires MappingsConsistent(s) && IsPlacementStep(step)
    requires PlaceAll(s, descs, step).Success?
    ensures forall i :: 0 <= i < |descs| ==> PlacedAsDescribed(PlaceAll(s, descs, step).value, s.engine.nextObjectId, descs, i)
    decreases |descs|
  {
    if |descs| > 0 {
      var init := descs[..|descs| - 1];
      PlaceAllPlaced(s, init, step);
      PlaceAllFrame(s, init, step);
      var before := PlaceAll(s, init, step).value;
      assert PlaceAll(s, descs, step) == step(before, descs[|descs| - 1]);
      PlacedStep(before, PlaceAll(s, descs, step).value, s.engine.nextObjectId, init, descs);
    }
  }

  /** Each object id leads to the object of the last descriptor that
      carries it, and to its semantic category. */
  lemma {:induction false} PlaceAllFound(s: Simulator, descs: seq<ObjectDescriptor>, step: (Simulator, ObjectDescriptor) -> Result<Simulator>)
    requires MappingsConsistent(s) && IsPlacementStep(step)
    requires PlaceAll(s, descs, step).Success?
    ensures forall i :: 0 <= i < |descs| && LastWithItsId(descs, i) ==> FoundById(PlaceAll(s, descs, step).value, s.engine.nextObjectId, descs, i)
    decreases |descs|
  {
    if |descs| > 0 {
      var init := descs[..|descs| - 1];
      PlaceAllFound(s, init, step);
      PlaceAllFrame(s, init, step);
      var before := PlaceAll(s, init, step).value;
      assert PlaceAll(s, descs, step) == step(before, descs[|descs| - 1]);
      FoundStep(before, PlaceAll(s, descs, step).value, s.engine.nextObjectId, init, descs);
    }
  }

  /** Object `sim` has described id `objid`, which leads back to it. */
  predicate InverseAt(r: Simulator, sim: int, objid: int) {
    sim in r.simToObjid && r.simToObjid[sim] == objid && objid in r.objidToSim && r.objidToSim[objid] == sim
  }

  /** With pairwise distinct object ids, the two id mappings are inverse
      on the inserted objects. */
  lemma DistinctIdsGiveInverseMappings(s: Simulator, descs: seq<ObjectDescriptor>, step: (Simulator, ObjectDescriptor) -> Result<Simulator>)
    requires MappingsConsistent(s) && IsPlacementStep(step)
    requires PlaceAll(s, descs, step).Success?
    requires forall i, j :: 0 <= i < j < |descs| ==> descs[i].objectId != descs[j].objectId
    ensures forall i :: 0 <= i < |descs| ==> InverseAt(PlaceAll(s, descs, step).value, s.engine.nextObjectId + i, descs[i].objectId)
  {
    PlaceAllPlaced(s, descs, step);
    PlaceAllFound(s, descs, step);
    InverseFromDistinct(PlaceAll(s, descs, step).value, s.engine.nextObjectId, descs);
  }

  lemma InverseFromDistinct(r: Simulator, start: int, descs: seq<ObjectDescriptor>)
    requires forall i :: 0 <= i < |descs| ==> PlacedAsDescribed(r, start, descs, i)
    requires forall i :: 0 <= i < |descs| && LastWithItsId(descs, i) ==> FoundById(r, start, descs, i)
    requires forall i, j :: 0 <= i < j < |descs| ==> descs[i].objectId != descs[j].objectId
    ensures forall i :: 0 <= i < |descs| ==> InverseAt(r, start + i, descs[i].objectId)
  {
    forall i | 0 <= i < |descs| ensures InverseAt(r, start + i, descs[i].objectId) {
      assert LastWithItsId(descs, i);
      assert PlacedAsDescribed(r, start, descs, i) && FoundById(r, start, descs, i);
    }
  }

  /** The simulator with the object table emptied and the mesh
      recomputed, as the initialisation starts. */
  function Cleared(s: Simulator): (r: Simulator)
    ensures MappingsConsistent(r.(simToObjid := map[], objidToSim := map[], semIdToCategory := map[]))
    ensures r.engine.objects == map[]
    ensures r.engine.navmeshRecomputes == s.engine.navmeshRecomputes + 1
    ensures r.engine.scene == s.engine.scene && r.engine.instantiations == s.engine.instantiations
    ensures r.engine.closes == s.engine.closes && r.engine.nextObjectId == s.engine.nextObjectId
    ensures r.engine.templates == s.engine.templates && r.engine.navmeshLoaded == s.engine.navmeshLoaded
    ensures r.engine.agent == s.engine.agent
    ensures r.config == s.config && r.currentScene == s.currentScene
    ensures r.simToObjid == s.simToObjid && r.objidToSim == s.objidToSim && r.semIdToCategory == s.semIdToCategory
  {
    s.(engine := RecomputeNavmesh(RemoveAllObjects(s.engine)))
  }

  /** `_initialize_THDA_scene()`: remove every object and recompute the
      mesh; without a scene state, stop there. Otherwise read
      `scene_state[0]["objects"]`, reset the mappings and, unless it is
      `None`, insert every described object and recompute the mesh. */
  function InitializeThdaScene(s: Simulator, w: World): (r: Result<Simulator>)
    ensures s.config.sceneState.None? ==> r == Success(Cleared(s))
    ensures s.config.sceneState.Some? && |s.config.sceneState.value| == 0 ==> r == Failure(IndexOutOfRange)
    ensures s.config.sceneState.Some? && |s.config.sceneState.value| > 0 && s.config.sceneState.value[0].objects.NoObjectsKey? ==>
              r == Failure(KeyMissing("objects"))
    ensures r.Success? ==> r.value.config == s.config && r.value.currentScene == s.currentScene
    ensures r.Success? ==> SameSceneAndAgent(r.value.engine, s.engine)
    ensures r.Success? && s.config.sceneState.Some? ==> MappingsConsistent(r.value)
  {
    var cleared := Cleared(s);
    match s.config.sceneState
    case None => Success(cleared)
    case Some(states) =>
      if |states| == 0 then Failure(IndexOutOfRange)
      else
        match states[0].objects
        case NoObjectsKey => Failure(KeyMissing("objects"))
        case NullObjects => Success(cleared.(simToObjid := map[], objidToSim := map[], semIdToCategory := map[]))
        case ObjectList(descs) =>
          var empty := cleared.(simToObjid := map[], objidToSim := map[], semIdToCategory := map[]);
          var placed :- PlaceAll(empty, descs, PlaceStep(w));
          PlaceStepIsPlacementStep(w);
          PlaceAllFrame(empty, descs, PlaceStep(w));
          Success(placed.(engine := RecomputeNavmesh(placed.engine)))
  }

  /** After initialising from a list of descriptors, the scene holds
      exactly one static object per descriptor, under consecutive fresh
      ids, each as described, and nothing else. */
  lemma InitializedSceneHoldsDescribedObjects(s: Simulator, w: World, descs: seq<ObjectDescriptor>)
    requires s.config.sceneState.Some? && |s.config.sceneState.value| > 0
    requires s.config.sceneState.value[0].objects == ObjectList(descs)
    requires InitializeThdaScene(s, w).Success?
    ensures var r := InitializeThdaScene(s, w).value;
      && (forall o :: o in r.engine.objects <==> s.engine.nextObjectId <= o < s.engine.nextObjectId + |descs|)
      && AllStatic(r.engine)
      && (forall i :: 0 <= i < |descs| ==> PlacedAsDescribed(r, s.engine.nextObjectId, descs, i))
      && r.engine.navmeshRecomputes == s.engine.navmeshRecomputes + SampledCount(descs) + 2
  {
    var empty := Cleared(s).(simToObjid := map[], objidToSim := map[], semIdToCategory := map[]);
    PlaceStepIsPlacementStep(w);
    PlaceAllFrame(empty, descs, PlaceStep(w));
    PlaceAllPlaced(empty, descs, PlaceStep(w));
    var placed := PlaceAll(empty, descs, PlaceStep(w)).value;
    var r := InitializeThdaScene(s, w).value;
    assert r == placed.(engine := RecomputeNavmesh(placed.engine));
    PlacedObjectsAreStatic(placed, r, s.engine.nextObjectId, descs);
  }

  /** A scene holding only placed objects holds only static ones. */
  lemma PlacedObjectsAreStatic(placed: Simulator, r: Simulator, start: int, descs: seq<ObjectDescriptor>)
    requires r.engine.objects == placed.engine.objects && r.simToObjid == placed.simToObjid
    requires forall o :: o in placed.engine.objects <==> start <= o < start + |descs|
    requires forall i :: 0 <= i < |descs| ==> PlacedAsDescribed(placed, start, descs, i)
    ensures forall i :: 0 <= i < |descs| ==> PlacedAsDescribed(r, start, descs, i)
    ensures AllStatic(r.engine)
  {
    forall i | 0 <= i < |descs| ensures PlacedAsDescribed(r, start, descs, i) {
      assert PlacedAsDescribed(placed, start, descs, i);
    }
    forall o | o in r.engine.objects ensures r.engine.objects[o].motion == Static {
      assert PlacedAsDescribed(placed, start, descs, o - start);
    }
  }

  /** `reconfigure(habitat_config)`: the engine is closed and rebuilt only
      when the scene changes; agents with a start state are moved there;
      the mappings are reset; the scene state is inserted. */
  function Reconfigure(s: Simulator, config: HabitatConfig, w: World): (r: Result<Simulator>)
    ensures r.Success? ==> r.value.config == config && r.value.currentScene == config.scene
    ensures OtherAgentStarts(config.agents) ==> r.Failure?
    ensures r.Success? ==> MappingsConsistent(r.value)
  {
    var sameScene := config.scene == s.currentScene;
    var e1 := if sameScene then s.engine else Reinstantiate(s.engine, config.scene, w.hasNavmesh(config.scene));
    var (e2, _) :- UpdateAgentsState(e1, config.agents);
    InitializeThdaScene(Simulator(config, config.scene, e2, map[], map[], map[]), w)
  }

  /** Reconfiguring for the scene already loaded keeps the engine instance;
      another scene closes it and instantiates one more. */
  lemma ReconfigureReinstantiatesOnlyOnSceneChange(s: Simulator, config: HabitatConfig, w: World)
    requires Reconfigure(s, config, w).Success?
    ensures var e := Reconfigure(s, config, w).value.engine;
      && (config.scene == s.currentScene ==> e.instantiations == s.engine.instantiations && e.closes == s.engine.closes)
      && (config.scene != s.currentScene ==> e.instantiations == s.engine.instantiations + 1 && e.closes == s.engine.closes + 1 && e.scene == config.scene)
  {
  }

  /** With a list of object descriptors in the scene state, reconfiguring
      leaves exactly the described objects, under consecutive ids from the
      engine's next id, each found under its object id in the mappings the
      call rebuilt from empty. */
  lemma ReconfigurePlacesSceneState(s: Simulator, config: HabitatConfig, w: World, descs: seq<ObjectDescriptor>)
    requires config.sceneState.Some? && |config.sceneState.value| > 0
    requires config.sceneState.value[0].objects == ObjectList(descs)
    requires Reconfigure(s, config, w).Success?
    ensures var r := Reconfigure(s, config, w).value;
      var start := s.engine.nextObjectId;
      && (forall o :: o in r.engine.objects <==> start <= o < start + |descs|)
      && (forall i :: 0 <= i < |descs| ==> PlacedAsDescribed(r, start, descs, i))
      && r.simToObjid.Keys == r.engine.objects.Keys
  {
    var e1 := if config.scene == s.currentScene then s.engine
              else Reinstantiate(s.engine, config.scene, w.hasNavmesh(config.scene));
    var e2 := UpdateAgentsState(e1, config.agents).value.0;
    var reset := Simulator(config, config.scene, e2, map[], map[], map[]);
    assert Reconfigure(s, config, w) == InitializeThdaScene(reset, w);
    InitializedSceneHoldsDescribedObjects(reset, w, descs);
  }

  /** Without a scene state, reconfiguring leaves an empty scene and empty
      mappings. */
  lemma ReconfigureWithoutSceneState(s: Simulator, config: HabitatConfig, w: World)
    requires config.sceneState.None?
    requires Reconfigure(s, config, w).Success?
    ensures var r := Reconfigure(s, config, w).value;
      r.engine.objects == map[] && r.simToObjid == map[] && r.objidToSim == map[] && r.semIdToCategory == map[]
  {
  }
}
