# Habitat simulator wrapper, imitation-learning trainer helpers and dataset scripts, in Dafny

This project models the parts of the habitat-im-baseline repository that do
more than forward calls. It covers three areas.

**The Habitat-Sim wrapper** (`habitat/sims/habitat_simulator/habitat_simulator.py`)
- How configuration fields are copied onto engine structures (`overwrite_config`).
- What the RGB, depth and semantic sensors declare and return.
- How `reconfigure` rebuilds the engine and moves agents to their start states.
- How `_initialize_THDA_scene` loads, places and maps the objects of a scene state.
- The retry loop of `sample_object_state`.
- The path-cache handling of `geodesic_distance`.
- How `set_agent_state` and `get_observations_at` move the agent and restore its pose.

**The disk-based behaviour-cloning trainer** (`habitat_baselines/il/disk_based/il_ddp_trainer.py`)
- Scalar metric extraction from nested info dicts.
- Environment pausing with its tensor re-indexing.
- The cutting of a rollout into time-step batches.
- The number of evaluation episodes.

**Two dataset scripts**
- Dropping camera-turn steps from reference replays.
- Collecting each episode's first object template.

The engine is abstract data. It holds:
- objects, each with a handle, translation, rotation term, motion type and semantic id;
- registered template handles;
- the agent's body pose and sensor offsets;
- counters for navigation-mesh recomputations, engine instantiations and closes.

Whatever the engine computes and this code cannot see is a parameter (an oracle):
- random navigable points, random yaw turns, object half-heights and contact tests, all keyed by object id and attempt number;
- template loading;
- rendering;
- the path finder.

Python exceptions become `Result.Failure` values. Python dicts are ordered association lists (`Dicts`). JSON documents are a `Json` datatype with ordered object fields. Python's floor division, modulo, negative indexing and slice clamping are written out.

Modules:
- `Results`: `Option`, `Result` and the error kinds.
- `Dicts`: ordered dicts.
- `Json`: JSON values with Python subscripting and iteration.
- `Engine`: the abstract engine state and its primitive calls.
- `ConfigTranslation`: `overwrite_config`.
- `Sensors`: the three sensors, `check_sim_obs` and the sensor suite.
- `Agents`: agent state, `_update_agents_state` and `get_observations_at`.
- `Placement`: `sample_object_state`.
- `SceneLifecycle`: `_initialize_THDA_scene` and `reconfigure`.
- `Navigation`: `geodesic_distance`.
- `Metrics`: `_extract_scalars_from_info(s)`.
- `Pausing`: `_pause_envs`.
- `Batching`: the time-step slicing and the evaluation episode count.
- `ReplayFilter`: `scripts/dataset/dataset_remove_camera_turn.py`.
- `TemplateExtraction`: `scripts/dataset/change_dataset_obj_folder.py`.

Where the code and its documented intent differ, the model follows the code:
- `sample_object_state` only prints when the object is STATIC. It does not abort, so a STATIC object is still moved (`Placement.StaticObjectIsStillMoved`).
- The unconstrained-rotation branch of `sample_object_state` calls `ut.random_quaternion()`, but the module never imports `ut`. That branch therefore raises a NameError after moving the object (`Placement.SampleFromRaises`).
- `dataset_remove_camera_turn.py` cleans the document in memory but writes back the bytes it read. The written file never depends on the cleaning (`ReplayFilter.OutputIgnoresCleaning`).
- With `NORMALIZE_DEPTH` set, the depth sensor declares `[0, 1]` as its bounds. The values are clipped to `[MIN_DEPTH, MAX_DEPTH]` and then rescaled.

## Model

| member | source | states |
|---|---|---|
| ConfigTranslation.LowerKeys | habitat/sims/habitat_simulator/habitat_simulator.py:65-67 | every lower-cased key of a nested node is present, every key comes from some field, and a repeated key holds the value of the last field that lower-cases to it |
| ConfigTranslation.StoredForm | habitat/sims/habitat_simulator/habitat_simulator.py:65-69 | a nested node is stored as exactly the mapping of its lower-cased keys (`LowerKeys`), so only lower-case keys appear; a leaf is stored unchanged |
| ConfigTranslation.OverwriteConfig | habitat/sims/habitat_simulator/habitat_simulator.py:54-73 | the target keeps its attribute set; an attribute no field names keeps its value; otherwise it holds the stored form of the last field whose lower-cased name matches |
| ConfigTranslation.CaseInsensitive | habitat/sims/habitat_simulator/habitat_simulator.py:71-73 | lower-casing every source field name first gives the same result: matching ignores case |
| ConfigTranslation.UnmatchedFieldIgnored | habitat/sims/habitat_simulator/habitat_simulator.py:71-73 | a field naming no attribute of the target can be removed from anywhere in the source without changing the result |
| ConfigTranslation.LastFieldExists | habitat/sims/habitat_simulator/habitat_simulator.py:71-73 | when no field is the last one naming an attribute, no field names it at all, so the two cases of the overwrite are exhaustive |
| ConfigTranslation.ExampleProjection | habitat/sims/habitat_simulator/habitat_simulator.py:54-73 | on fields `Foo`, `Bar` (nested, with key `Baz`) and `Qux` against attributes `foo` and `bar`, `foo` gets the leaf, `bar` a mapping with key `baz`, and `Qux` is dropped |
| ConfigTranslation.LowerIdempotent | habitat/sims/habitat_simulator/habitat_simulator.py:67 | lower-casing a lower-cased name changes nothing |
| ConfigTranslation.Lower | habitat/sims/habitat_simulator/habitat_simulator.py:67 | lower-casing keeps the length, leaves no upper-case letter, maps each upper-case letter to its lower-case partner and keeps every other character |
| Sensors.ObservationSpace | habitat/sims/habitat_simulator/habitat_simulator.py:84-168 | RGB is height x width x 3 of uint8; depth is height x width x 1 of float32 with bounds [0, 1] when normalising and [MIN_DEPTH, MAX_DEPTH] otherwise; semantic is height x width of uint32 |
| Sensors.CheckSimObs | habitat/sims/habitat_simulator/habitat_simulator.py:178-182 | the check passes exactly when the simulator produced a buffer under the sensor's uuid, and otherwise fails naming that uuid |
| Sensors.DepthTransform | habitat/sims/habitat_simulator/habitat_simulator.py:134-151 | the output has the input's rows and columns with one channel per pixel, each value clipped and rescaled when normalising; a zero depth range fails |
| Sensors.GetObservation | habitat/sims/habitat_simulator/habitat_simulator.py:92-175 | a missing buffer fails for every sensor kind with the sensor's uuid |
| Sensors.SuiteObservations | habitat/sims/habitat_simulator/habitat_simulator.py:704 | the suite fails iff some sensor's observation fails; on success the keys are exactly the sensors' uuids, and each uuid holds the observation of the last sensor carrying it |
| Sensors.RgbKeepsFirstThreeChannels | habitat/sims/habitat_simulator/habitat_simulator.py:98-100 | the RGB observation keeps every pixel's first three channels and drops the alpha channel |
| Sensors.SemanticIsIdentity | habitat/sims/habitat_simulator/habitat_simulator.py:170-175 | the semantic observation is the engine's buffer unchanged |
| Sensors.MissingBufferFails | habitat/sims/habitat_simulator/habitat_simulator.py:178-182 | every sensor kind fails on a missing buffer, naming the sensor's uuid |
| Sensors.ClipBounds | habitat/sims/habitat_simulator/habitat_simulator.py:135 | clipping lands in [lo, hi] when lo <= hi, and gives hi when lo > hi |
| Sensors.DepthValueWithinDeclaredBounds | habitat/sims/habitat_simulator/habitat_simulator.py:109-149 | every transformed depth value lies within the bounds the sensor declares in its observation space |
| Sensors.DepthObservationInSpace | habitat/sims/habitat_simulator/habitat_simulator.py:121-151 | the depth observation has one channel per pixel and every value lies within the declared bounds |
| Sensors.DropAlpha | habitat/sims/habitat_simulator/habitat_simulator.py:98-100 | the image keeps its rows and columns, and every pixel becomes a prefix of at most three channels of the original pixel |
| Sensors.Clip | habitat/sims/habitat_simulator/habitat_simulator.py:135 | `np.clip` lands in [lo, hi] when lo <= hi: a value below lo becomes lo, a value above hi becomes hi, and a value already there is unchanged; with lo > hi it gives hi |
| Sensors.DepthValue | habitat/sims/habitat_simulator/habitat_simulator.py:134-149 | without normalising a depth is its clip to [MIN_DEPTH, MAX_DEPTH]; with normalising it is the affine rescale of that clip, MIN_DEPTH + r * (MAX_DEPTH - MIN_DEPTH) giving back the clipped depth, so over a non-degenerate range it lies in [0, 1] |
| Agents.GetAgentState | habitat/sims/habitat_simulator/habitat_simulator.py:641-645 | only agent 0 is supported: any other id fails, and agent 0 gives its body pose |
| Agents.SetAgentState | habitat/sims/habitat_simulator/habitat_simulator.py:647-683 | for agent 0 the body moves to the requested pose and the call answers True; sensor offsets are reset only when asked; nothing else in the engine changes; other ids fail |
| Agents.UpdateFrom | habitat/sims/habitat_simulator/habitat_simulator.py:286-296 | the loop from agent k succeeds iff no later agent other than agent 0 asks for a start state, and reports whether any agent from k on asked for one |
| Agents.UpdateAgentsState | habitat/sims/habitat_simulator/habitat_simulator.py:284-296 | succeeds iff no agent beyond the first asks for a start state, and answers True iff some agent asked for one |
| Agents.StartStateApplied | habitat/sims/habitat_simulator/habitat_simulator.py:286-294 | an agent 0 configured with a start state ends up standing at that start position and rotation |
| Agents.NoStartStateNoChange | habitat/sims/habitat_simulator/habitat_simulator.py:284-296 | without any start state the engine is unchanged and the answer is False |
| Agents.GetObservationsAt | habitat/sims/habitat_simulator/habitat_simulator.py:685-713 | the call fails iff the sensor suite fails on the buffers rendered at `PoseFor`; on success the observations are exactly the suite's output for those buffers, and the buffers are recorded as the previous simulator output |
| Agents.ObservationsAtRestoresPose | habitat/sims/habitat_simulator/habitat_simulator.py:691-710 | without keeping the new pose the engine ends exactly as it started |
| Agents.ObservationsAtKeepsPose | habitat/sims/habitat_simulator/habitat_simulator.py:695-705 | keeping the new pose leaves the agent there, with its sensor offsets untouched |
| Agents.PoseFor | habitat/sims/habitat_simulator/habitat_simulator.py:691-697 | an incomplete pose leaves the engine as it is; a complete one is where `set_agent_state` with unchanged sensors puts agent 0, and that call answers True |
| Engine.AddObject | habitat/sims/habitat_simulator/habitat_simulator.py:422 | the new object gets a fresh id above every live one and is a dynamic object of the given handle at the origin; other objects are untouched |
| Engine.Reinstantiate | habitat/sims/habitat_simulator/habitat_simulator.py:338-341 | the engine is closed once and instantiated once more on the new scene, with no objects |
| Engine.AgentSetState | habitat/sims/habitat_simulator/habitat_simulator.py:681-682 | the body takes the given pose and the sensors' spec offsets stay |
| Engine.SetTranslation | habitat/sims/habitat_simulator/habitat_simulator.py:435 | only the named object's translation changes |
| Engine.SetRotation | habitat/sims/habitat_simulator/habitat_simulator.py:440 | only the named object's rotation changes |
| Engine.SetMotionType | habitat/sims/habitat_simulator/habitat_simulator.py:449 | only the named object's motion type changes |
| Engine.SetSemanticId | habitat/sims/habitat_simulator/habitat_simulator.py:428 | only the named object's semantic id changes |
| Placement.Attempt | habitat/sims/habitat_simulator/habitat_simulator.py:488-524 | one attempt completes exactly when the object is kept upright; the unconstrained branch raises |
| Placement.AttemptFrame | habitat/sims/habitat_simulator/habitat_simulator.py:490-524 | an attempt moves and turns only the object being placed; its handle, motion type and semantic id stay |
| Placement.SampleObjectState | habitat/sims/habitat_simulator/habitat_simulator.py:460-532 | the early aborts and a non-positive try budget answer False without moving anything; the answer is True only after a contact-free attempt; a False answer after the checks means every allowed attempt was used |
| Placement.SampleFromOutcome | habitat/sims/habitat_simulator/habitat_simulator.py:487-529 | the loop stops at the first contact-free attempt or after max_tries attempts that all met contact, leaving the object where the last attempt put it |
| Placement.SampleCharacterisation | habitat/sims/habitat_simulator/habitat_simulator.py:483-532 | the call answers True iff some attempt within max_tries was contact-free; it stops at the first such attempt, and every earlier one met contact |
| Placement.SampleFromOnlyMovesObject | habitat/sims/habitat_simulator/habitat_simulator.py:487-529 | the whole loop moves and turns only the object being placed |
| Placement.FirstNavmeshAttempt | habitat/sims/habitat_simulator/habitat_simulator.py:491-524 | the first mesh attempt puts the object at the drawn point, raised by half its height plus the 0.04 collision margin, and turned about the up axis |
| Placement.StaticObjectIsStillMoved | habitat/sims/habitat_simulator/habitat_simulator.py:469-474 | a STATIC object is not refused: with a loaded mesh and at least one try, at least one attempt is made |
| Placement.SampleFromRaises | habitat/sims/habitat_simulator/habitat_simulator.py:508-510 | the loop raises exactly when it makes an attempt with unconstrained rotation, and the error is the undefined name `ut` |
| Placement.SampleFrom | habitat/sims/habitat_simulator/habitat_simulator.py:487-529 | the loop from attempt k fails only with the undefined name `ut`; the reported count is at least k and never exceeds max_tries once k is within it; a placed object ends free of contact after more than k attempts; an unplaced object reports max_tries attempts, or k when k is already past it; the object set is kept |
| Placement.SampleSpec | habitat/sims/habitat_simulator/habitat_simulator.py:460-532 | the early aborts answer False with no attempt and the engine untouched; at most max(max_tries, 0) attempts are made; True means at least one attempt and no contact; False after the checks means all max_tries attempts were used; the object set is kept |
| Placement.After | habitat/sims/habitat_simulator/habitat_simulator.py:487-524 | the first n attempts succeed iff n is zero or the object is kept upright (the other branch raises) |
| Placement.AttemptPose | habitat/sims/habitat_simulator/habitat_simulator.py:490-524 | attempt k of an upright object puts it at the drawn mesh point raised by half its height plus the 0.04 margin, or at the drawn box point, turned about the up axis by the attempt-k yaw from its current rotation, motion type unchanged |
| SceneLifecycle.FindTemplate | habitat/sims/habitat_simulator/habitat_simulator.py:387-394 | no handle is found iff no registered handle contains the path; a found handle is a registered one |
| SceneLifecycle.ResolveTemplate | habitat/sims/habitat_simulator/habitat_simulator.py:387-417 | resolution fails, naming the template, iff no registered handle matches and loading finds nothing; otherwise it reuses the match or registers the loaded template |
| SceneLifecycle.SampleOntoMesh | habitat/sims/habitat_simulator/habitat_simulator.py:441-445 | sampling with the defaults moves and turns only that object and recomputes the mesh once |
| SceneLifecycle.PoseObject | habitat/sims/habitat_simulator/habitat_simulator.py:434-445 | a described position (and rotation, when one is given) is applied as is; without a position the object is sampled and the mesh recomputed once |
| SceneLifecycle.InsertObject | habitat/sims/habitat_simulator/habitat_simulator.py:387-449 | the insertion fails iff the template cannot be resolved, naming it |
| SceneLifecycle.InsertObjectEffect | habitat/sims/habitat_simulator/habitat_simulator.py:422-449 | the inserted object takes the next fresh id; it is static, its semantic id is the described object id, and it stands at the described position when one is given; other objects, the scene and the agent are untouched; the mesh is recomputed once exactly when the object was sampled |
| SceneLifecycle.PlaceObject | habitat/sims/habitat_simulator/habitat_simulator.py:382-449 | one iteration fails iff the template cannot be resolved, and keeps the configuration and the current scene |
| SceneLifecycle.RecordedConsistent | habitat/sims/habitat_simulator/habitat_simulator.py:424-432 | recording a fresh object keeps the id mappings consistent with the live objects |
| SceneLifecycle.Recorded | habitat/sims/habitat_simulator/habitat_simulator.py:424-432 | recording adds exactly the new id to the sim-to-id keys with the described id as value, the described id to the id-to-sim keys with the new id as value, and the described id to the category keys with its category; every other entry, the engine, configuration and current scene are unchanged |
| SceneLifecycle.PlaceObjectEffect | habitat/sims/habitat_simulator/habitat_simulator.py:422-432 | one iteration keeps the mappings consistent and records the new object under its described id and category |
| SceneLifecycle.PlaceStepIsPlacementStep | habitat/sims/habitat_simulator/habitat_simulator.py:382-449 | the iteration step has the insertion effect the loop lemmas assume |
| SceneLifecycle.PlaceStep | habitat/sims/habitat_simulator/habitat_simulator.py:382-449 | one iteration fails iff no registered handle matches the template and loading finds nothing |
| SceneLifecycle.PlaceAll | habitat/sims/habitat_simulator/habitat_simulator.py:381-449 | no descriptors leave the simulator as it is; a failure is the failure of some iteration on one of the descriptors |
| SceneLifecycle.PlaceAllFrame | habitat/sims/habitat_simulator/habitat_simulator.py:381-449 | the loop adds exactly one object per descriptor under consecutive fresh ids, keeps the mappings consistent and leaves the scene and agent alone |
| SceneLifecycle.PlaceAllPlaced | habitat/sims/habitat_simulator/habitat_simulator.py:381-449 | descriptor i is placed under the i-th fresh id as described |
| SceneLifecycle.PlaceAllFound | habitat/sims/habitat_simulator/habitat_simulator.py:424-425 | each described object id leads to the object of the last descriptor carrying that id |
| SceneLifecycle.DistinctIdsGiveInverseMappings | habitat/sims/habitat_simulator/habitat_simulator.py:424-425 | with pairwise distinct described ids, the two id mappings are inverse to each other on every placed object |
| SceneLifecycle.InverseFromDistinct | habitat/sims/habitat_simulator/habitat_simulator.py:424-425 | objects placed as described and found by id, with distinct ids, give mappings that are inverse at each object |
| SceneLifecycle.Cleared | habitat/sims/habitat_simulator/habitat_simulator.py:362-363 | every object is removed and the mesh recomputed exactly once; templates, agent, scene, instance counters, object-id counter, configuration, current scene and the three mappings are unchanged; with empty mappings the mapping invariant holds |
| SceneLifecycle.InitializeThdaScene | habitat/sims/habitat_simulator/habitat_simulator.py:360-457 | without a scene state only the clearing happens; an empty scene state list and a missing `objects` key fail; on success the configuration, scene and agent are kept and the mappings are consistent |
| SceneLifecycle.InitializedSceneHoldsDescribedObjects | habitat/sims/habitat_simulator/habitat_simulator.py:360-457 | the scene then holds exactly one static object per descriptor, each as described under consecutive fresh ids, and the mesh is recomputed twice plus once per sampled object |
| SceneLifecycle.PlacedObjectsAreStatic | habitat/sims/habitat_simulator/habitat_simulator.py:449-457 | the final mesh recomputation keeps every placed object, and every object in the scene is static |
| SceneLifecycle.Reconfigure | habitat/sims/habitat_simulator/habitat_simulator.py:333-349 | on success the new configuration and its scene are current and the id mappings, reset at 345-347 and refilled by the scene initialisation, are consistent with the live objects; a start state for any agent but the first makes the call fail |
| SceneLifecycle.ReconfigurePlacesSceneState | habitat/sims/habitat_simulator/habitat_simulator.py:333-349 | with a scene state, a successful reconfigure leaves exactly one object per descriptor, under consecutive fresh ids, each placed as described, and the sim-to-id mapping covers exactly the live objects |
| SceneLifecycle.ReconfigureReinstantiatesOnlyOnSceneChange | habitat/sims/habitat_simulator/habitat_simulator.py:335-341 | the same scene keeps the engine instance; a new scene closes it and instantiates one more on that scene |
| SceneLifecycle.ReconfigureWithoutSceneState | habitat/sims/habitat_simulator/habitat_simulator.py:345-369 | without a scene state the scene is left empty and all three mappings are empty |
| Navigation.GeodesicDistance | habitat/sims/habitat_simulator/habitat_simulator.py:534-558 | the call fails iff there is no cached query and the goal is empty; it queries the cached ends, or the single point as one end, or the list of points; an episode gets back the query with the new start and distance, and with those queried ends stored as its requested ends |
| Navigation.CachedGoalIgnored | habitat/sims/habitat_simulator/habitat_simulator.py:540-549 | once an episode carries a query, any goal passed with it is ignored and the cached ends stay |
| Navigation.RepeatQueryIsStable | habitat/sims/habitat_simulator/habitat_simulator.py:540-558 | repeating a call with the episode it returned gives the same distance and the same episode |
| Navigation.SinglePointIsOneEnd | habitat/sims/habitat_simulator/habitat_simulator.py:542-547 | a single point and the one-element list holding it ask the same query |
| Navigation.NoEpisodeNoCache | habitat/sims/habitat_simulator/habitat_simulator.py:540-558 | without an episode a non-empty goal always succeeds and nothing is cached |
| Metrics.ToFloat | habitat_baselines/il/disk_based/il_ddp_trainer.py:100-101 | a scalar or a one-element array converts to its value; `None` and a one-element list raise |
| Metrics.ExtractScalars | habitat_baselines/il/disk_based/il_ddp_trainer.py:79-103 | the only failure is an unconvertible leaf |
| Metrics.ExtractPrefix | habitat_baselines/il/disk_based/il_ddp_trainer.py:83-101 | the loop over the first n items fails only on an unconvertible leaf |
| Metrics.ExtractedScalarsAreLeaves | habitat_baselines/il/disk_based/il_ddp_trainer.py:84-101 | every extracted pair is a convertible leaf reached through non-blacklisted keys joined by dots, at its converted value |
| Metrics.NoBlacklistedKey | habitat_baselines/il/disk_based/il_ddp_trainer.py:77-95 | no blacklisted key is ever emitted, neither at the top level nor as a dotted key |
| Metrics.ExtractedKeysDistinct | habitat_baselines/il/disk_based/il_ddp_trainer.py:83-101 | the result never repeats a key |
| Metrics.LastLeafKept | habitat_baselines/il/disk_based/il_ddp_trainer.py:100-101 | a convertible leaf under a non-blacklisted key is emitted under its own key with its value at the iteration that reads it; a later nested dict can overwrite that key with a dotted key of the same spelling |
| Metrics.DroppedLeaf | habitat_baselines/il/disk_based/il_ddp_trainer.py:85-100 | strings, multi-element values and blacklisted items contribute nothing |
| Metrics.UnconvertibleLeafFails | habitat_baselines/il/disk_based/il_ddp_trainer.py:100-101 | a size-one leaf that `float` rejects aborts the whole extraction |
| Metrics.MergeEntries | habitat_baselines/il/disk_based/il_ddp_trainer.py:88-97 | every merged entry was already there or is a non-blacklisted dotted key of the nested result |
| Metrics.MergeDistinct | habitat_baselines/il/disk_based/il_ddp_trainer.py:88-97 | merging keeps the result free of repeated keys |
| Metrics.Merge | habitat_baselines/il/disk_based/il_ddp_trainer.py:88-97 | merging keeps every key already present and adds every non-blacklisted dotted key of the nested result |
| Metrics.ExtractAll | habitat_baselines/il/disk_based/il_ddp_trainer.py:111-112 | every info's scalars in order, succeeding iff each info's extraction succeeds |
| Metrics.ColumnSources | habitat_baselines/il/disk_based/il_ddp_trainer.py:110-113 | a column lists, in increasing info order, exactly the values of the infos that hold the key |
| Metrics.ColumnBound | habitat_baselines/il/disk_based/il_ddp_trainer.py:110-113 | a column never holds more values than there are infos |
| Metrics.ExtractScalarsFromInfos | habitat_baselines/il/disk_based/il_ddp_trainer.py:105-115 | succeeds iff every info extracts; each key maps to the list of its values across the infos, in order, and only keys that occur are present |
| Pausing.Pop | habitat_baselines/il/disk_based/il_ddp_trainer.py:140 | `pop` succeeds exactly for an index within Python's negative-to-positive range, removing one element |
| Pausing.PopAll | habitat_baselines/il/disk_based/il_ddp_trainer.py:139-140 | popping every listed index removes one element each, or raises IndexError |
| Pausing.Gather | habitat_baselines/il/disk_based/il_ddp_trainer.py:148-150 | indexing by a list succeeds iff every index is in range, -len to len-1, and picks the indexed entries in order, a negative index counting from the end |
| Pausing.GatherEach | habitat_baselines/il/disk_based/il_ddp_trainer.py:144-146 | indexing the second dimension indexes every layer the same way |
| Pausing.GatherValues | habitat_baselines/il/disk_based/il_ddp_trainer.py:152-153 | every batch entry is indexed the same way and the keys stay in order |
| Pausing.PauseEnvs | habitat_baselines/il/disk_based/il_ddp_trainer.py:117-165 | with nothing to pause the state is returned unchanged; the environments are paused in reverse list order; the only failure is an out-of-range index |
| Pausing.StateIndexIsComplement | habitat_baselines/il/disk_based/il_ddp_trainer.py:138-140 | for ascending in-range indices the state index is the ascending list of exactly the environments not paused |
| Pausing.PopAllWithout | habitat_baselines/il/disk_based/il_ddp_trainer.py:139-140 | popping ascending positions from the back removes exactly those numbers |
| Pausing.NothingToPause | habitat_baselines/il/disk_based/il_ddp_trainer.py:137-165 | an empty pause list pauses nothing and changes nothing |
| Pausing.CompactShaped | habitat_baselines/il/disk_based/il_ddp_trainer.py:144-155 | compacting by in-range indices succeeds, re-indexes every tensor, batch entry and frame list, and leaves every tensor with one entry per index |
| Pausing.PauseCompacts | habitat_baselines/il/disk_based/il_ddp_trainer.py:137-165 | after pausing, every tensor holds the entries of exactly the environments still running, in ascending order |
| Pausing.GatherEachShaped | habitat_baselines/il/disk_based/il_ddp_trainer.py:144-146 | in-range indices never fail and give one entry per index in every layer |
| Pausing.GatherValuesShaped | habitat_baselines/il/disk_based/il_ddp_trainer.py:152-153 | in-range indices never fail and give one entry per index in every batch entry |
| Pausing.Compact | habitat_baselines/il/disk_based/il_ddp_trainer.py:144-155 | re-indexing the state fails only with IndexError; on success the masks, rewards, actions and frames have one entry per index, and a non-negative index picks that environment's reward |
| Batching.NumSteps | habitat_baselines/il/disk_based/il_ddp_trainer.py:381-383 | the step count fails with a division by zero exactly when the batch size is zero |
| Batching.NumStepsIsCeiling | habitat_baselines/il/disk_based/il_ddp_trainer.py:383 | for a positive batch size the steps hold every sample and one step fewer would not |
| Batching.PythonDivision | habitat_baselines/il/disk_based/il_ddp_trainer.py:383 | `//` and `%` are Python's: the quotient times the divisor plus the remainder is the dividend, and the remainder lies between zero and the divisor, with the divisor's sign |
| Batching.NegativeBatchSizeMakesNoStep | habitat_baselines/il/disk_based/il_ddp_trainer.py:383-385 | a negative batch size gives no steps |
| Batching.BatchesAreChunks | habitat_baselines/il/disk_based/il_ddp_trainer.py:381-391 | the loop's slices are the consecutive chunks of the batch size |
| Batching.ChunksCover | habitat_baselines/il/disk_based/il_ddp_trainer.py:385-391 | the chunks concatenate back to the whole rollout: every time step is used once, in order |
| Batching.ChunkSizes | habitat_baselines/il/disk_based/il_ddp_trainer.py:385-391 | every chunk is non-empty and at most the batch size; all but the last are exactly the batch size |
| Batching.Slice | habitat_baselines/il/disk_based/il_ddp_trainer.py:385-391 | a Python slice is never longer than the sequence; an in-range slice is the subsequence, a stop past the end is clamped, and a stop not after the start gives nothing |
| Batching.Batches | habitat_baselines/il/disk_based/il_ddp_trainer.py:381-391 | the slicing fails with a division by zero exactly when the batch size is zero |
| Batching.EvalEpisodeCount | habitat_baselines/il/disk_based/il_ddp_trainer.py:581-592 | -1 means every episode of every environment; otherwise the count is the configured one, lowered to the dataset total when that is smaller |
| Json.Member | scripts/dataset/dataset_remove_camera_turn.py:18-21 | subscripting by a key succeeds exactly on an object holding the key, giving its value |
| Json.SetMember | scripts/dataset/dataset_remove_camera_turn.py:22 | assigning by a key succeeds exactly on an object, after which the key holds the new value |
| Dicts.Get | habitat_baselines/il/disk_based/il_ddp_trainer.py:113 | a lookup finds a value iff the key is present, and the value is held by an entry with that key |
| Dicts.Set | habitat_baselines/il/disk_based/il_ddp_trainer.py:101 | after assignment the key holds the new value; an existing key keeps the length, and a new key is appended at the end |
| Json.Iterate | scripts/dataset/change_dataset_obj_folder.py:37 | iteration visits a list's elements in order, a string's characters as one-character strings, and an object's keys as strings; other values raise |
| ReplayFilter.PatchStep | scripts/dataset/dataset_remove_camera_turn.py:22-49 | the patched step is an object whose members other than `agent_state` are unchanged, and whose `agent_state` differs only in `sensor_data`, which holds the fixed RGB and semantic poses |
| ReplayFilter.CleanStep | scripts/dataset/dataset_remove_camera_turn.py:21-49 | a step without an action raises; a camera turn is dropped, and a step is dropped only if it is a camera turn; a kept step is the patched step |
| ReplayFilter.NonTurning | scripts/dataset/dataset_remove_camera_turn.py:21 | the filtered steps are no more than the steps and each is one of them |
| ReplayFilter.CleanReplay | scripts/dataset/dataset_remove_camera_turn.py:19-50 | cleaning never adds a step |
| ReplayFilter.CleanEpisodes | scripts/dataset/dataset_remove_camera_turn.py:18-52 | the episode list cleans iff every episode cleans, and entry i of the result is episode i cleaned, so the count is kept |
| ReplayFilter.CleanEpisode | scripts/dataset/dataset_remove_camera_turn.py:19-52 | only `reference_replay` changes, to the list of the cleaned steps of the old replay |
| ReplayFilter.Clean | scripts/dataset/dataset_remove_camera_turn.py:18-52 | only `episodes` changes: a list of episodes becomes the list of the cleaned episodes; a string or object under `episodes` leaves the document unchanged; a document without an iterable `episodes` raises |
| ReplayFilter.ProcessDataset | scripts/dataset/dataset_remove_camera_turn.py:10-60 | it succeeds iff the document parses and cleans; the bytes written are the bytes read, to `cleaned_dataset/` plus the name, and the name is returned |
| ReplayFilter.CleanReplayIsPatchedFilter | scripts/dataset/dataset_remove_camera_turn.py:19-50 | the cleaned replay is the non-turning steps in order, each patched |
| ReplayFilter.CleanedStepsAreNotTurns | scripts/dataset/dataset_remove_camera_turn.py:21 | no kept step looks up or down, and each has the fixed sensor poses |
| ReplayFilter.NonTurningActions | scripts/dataset/dataset_remove_camera_turn.py:21 | every step the filter keeps has an action that is not a camera turn |
| ReplayFilter.CleanReplayIdempotent | scripts/dataset/dataset_remove_camera_turn.py:19-50 | cleaning a cleaned replay changes nothing |
| ReplayFilter.CleanStepIdempotent | scripts/dataset/dataset_remove_camera_turn.py:21-50 | a kept step is kept unchanged by a second cleaning |
| ReplayFilter.PatchStepIdempotent | scripts/dataset/dataset_remove_camera_turn.py:22-49 | patching a patched step changes nothing |
| ReplayFilter.CleanIdempotent | scripts/dataset/dataset_remove_camera_turn.py:18-52 | cleaning a whole document twice is cleaning it once |
| ReplayFilter.CleanEpisodesIdempotent | scripts/dataset/dataset_remove_camera_turn.py:18-52 | cleaning the episode list twice is cleaning it once |
| ReplayFilter.CleanEpisodeIdempotent | scripts/dataset/dataset_remove_camera_turn.py:19-52 | cleaning one episode twice is cleaning it once |
| ReplayFilter.CleanKeepsEpisodeCount | scripts/dataset/dataset_remove_camera_turn.py:18-52 | the cleaned document has as many episodes as the original |
| ReplayFilter.OutputIgnoresCleaning | scripts/dataset/dataset_remove_camera_turn.py:13-60 | the file written is the same for any two documents that clean: the cleaning never reaches the output |
| TemplateExtraction.Somes | scripts/dataset/change_dataset_obj_folder.py:36-43 | the kept values are never more than the entries |
| TemplateExtraction.Templates | scripts/dataset/change_dataset_obj_folder.py:36-43 | there is at most one template per episode |
| TemplateExtraction.ProcessDataset | scripts/dataset/change_dataset_obj_folder.py:28-47 | it succeeds iff the document has an iterable `episodes` member, and returns exactly `Templates` of the iterated episodes: each episode's first template, in episode order, at most one per episode |
| TemplateExtraction.TemplatesOfOne | scripts/dataset/change_dataset_obj_folder.py:38-43 | an episode contributes its first object's template when the lookup succeeds, and nothing otherwise |
| TemplateExtraction.TemplateLookup | scripts/dataset/change_dataset_obj_folder.py:39-41 | a missing scene state raises; a null scene state gives nothing, and only a null one does; otherwise the value is the first object's `object_template` |
| TemplateExtraction.FirstTemplate | scripts/dataset/change_dataset_obj_folder.py:38-43 | an episode yields a template exactly when the lookup succeeds with one, and then it is that template; a raising lookup yields nothing |
| TemplateExtraction.TemplatesMember | scripts/dataset/change_dataset_obj_folder.py:37-41 | every collected template is the first object's template of some episode |
| TemplateExtraction.SomesMember | scripts/dataset/change_dataset_obj_folder.py:37-43 | every kept value came from an entry that held it |
| TemplateExtraction.SomesAppend | scripts/dataset/change_dataset_obj_folder.py:37-43 | the kept values of a concatenation are the concatenated kept values |
| TemplateExtraction.TemplatesAppend | scripts/dataset/change_dataset_obj_folder.py:37-43 | the templates of consecutive episode runs concatenate in episode order |
| TemplateExtraction.NullSceneStateSkipped | scripts/dataset/change_dataset_obj_folder.py:39 | an episode whose scene state is null contributes nothing, wherever it stands |
| TemplateExtraction.MalformedEpisodeSkipped | scripts/dataset/change_dataset_obj_folder.py:41-43 | an episode whose lookup raises contributes nothing, and the error is swallowed |

## Left out

- File and network I/O: gzip reading and writing, UTF-8 decoding and `json.loads` are parameters (`raw` bytes and a parsed document). The `Pool` fan-out and the `__main__` blocks of both scripts are left out.
- The `print` calls of the scripts and the simulator, and the `logger.warn` calls of the evaluation clamp. They are output only.
- Rendering: `get_sensor_observations` is an oracle from engine state to sensor buffers. The torch branch of the depth sensor (`clamp`/`unsqueeze`) behaves like the numpy branch and is not told apart.
- Quaternion arithmetic: rotations are symbolic terms (`Yawed`, `Coeffs`). `quat_from_coeffs`/`quat_to_magnum` and the bounding-box geometry behind the y-raise are opaque oracles (`halfHeight`).
- Randomness: random navigable points, box samples, yaw angles and contact tests are oracles keyed by object id and attempt number.
- `__init__` (habitat_simulator.py:200-226): the assertion that every configured sensor type is registered, the suite construction, the action space and the navigation-mesh settings are not modelled; the model starts from an already built simulator.
- `create_sim_config` (habitat_simulator.py:228-274): the version check, the three `overwrite_config` calls it makes (the copying itself is `ConfigTranslation.OverwriteConfig`), the sensor specifications built from the suite (uuid, resolution, hfov, sensor type, GPU transfer) and the action-space lookup are not modelled; `SceneLifecycle.Reconfigure` takes the resulting engine configuration as given.
- `reset` (habitat_simulator.py:298-304): the engine reset, the call to `_update_agents_state` (modelled as `Agents.UpdateAgentsState`), the re-render when an agent moved, the recording of `_prev_sim_obs` and the suite conversion are not composed into one member.
- `step` (habitat_simulator.py:306-310): the engine step is not modelled; its bookkeeping is the same as the tail of `Agents.GetObservationsAt`.
- `render` (habitat_simulator.py:312-331): the assertion that the requested mode is an active sensor (error kind `InactiveMode`) and the torch-to-numpy conversion are not modelled as a member; its observations are those of `Sensors.SuiteObservations`.
- `semantic_annotations`, `action_space_shortest_path`, `up_vector`/`forward_vector`, `get_straight_shortest_path_points`, `sample_navigable_point`, `is_navigable`, `distance_to_closest_obstacle`, `island_radius`, `previous_step_collided` and `get_rotation_vec`: pass-throughs to the engine with no logic of their own.
- `remove_all_objects` and `recompute_navmesh` are taken as engine primitives (`Engine.RemoveAllObjects`, `Engine.RecomputeNavmesh`): the first empties the object table, the second counts one recomputation. What they do to the simulator is stated by `SceneLifecycle.Cleared` and `SceneLifecycle.InitializedSceneHoldsDescribedObjects`.
- Engine.AddObject: assumes habitat_sim hands out object ids from a counter that only grows, so an id is never reused after removal, and a new object is dynamic, at the origin, with semantic id 0.
- Engine.Reinstantiate: assumes `close` plus `reconfigure` of habitat_sim keeps registered templates, the agent's pose, the object-id counter and the mesh recomputation count, and drops every object.
- The trainer's `train` and `_eval_checkpoint` bodies beyond the slicing and the episode-count clamp: model updates, distributed setup, video and checkpoint handling have no logic beyond calls into torch.
- `VectorEnv.pause_at`: modelled as the list of indices it is called with, in call order.
- `load_object_configs`, `get_template_by_ID` and the handle habitat_sim gives a registered template are the `load` oracle. The scale is modelled: `SceneLifecycle.ResolveTemplate` registers the template with the described scale, or 5 when none is given.
- SceneLifecycle.FindTemplate: assumes `get_file_template_handles` returns the matching handles in registration order and matches the path as a case-sensitive substring of the handle.
- Placement.After: states only when the first n attempts succeed; where they put the object is stated per attempt by `Placement.AttemptPose`, `Placement.AttemptFrame` and `Placement.FirstNavmeshAttempt`.
- `int(object.object_id)` is taken to be an integer id; a non-numeric id would raise, and that error path is not modelled.
- `_get_agent_config` resolves agent names through the configuration; agents are given as a list of their configurations.
- ConfigTranslation.Lower: lower-casing is ASCII-only, because Dafny strings carry no Unicode case tables.
- Sensors.DepthTransform: with `NORMALIZE_DEPTH` and MIN_DEPTH == MAX_DEPTH, numpy produces NaN (no exception); the model reports `DegenerateDepthRange` instead, because the model has no floating-point NaN.
- Sensors: reals replace float32 and uint8/uint32 pixel values, so rounding is not modelled.
- Sensors.GetObservation: assumes the engine hands each sensor a buffer of its own type. The source has no such check (the semantic sensor returns whatever it receives, the depth sensor clips it); the model answers `UnexpectedBuffer` for a buffer of another sensor's type instead of modelling what numpy would do with it.
- Pausing.PauseEnvs: the success case is characterised only for ascending, in-range pause lists on a well-shaped state (`PauseCompacts`); for other lists only the error kind and the pause order are stated.
- Metrics.ToFloat: `np.size` and `float` are modelled for scalars, strings, arrays, lists, nested dicts and `None`; other Python objects are not modelled.
