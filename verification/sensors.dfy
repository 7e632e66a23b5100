/** The sensor layer: the colour, depth and semantic sensors that turn the
    engine's raw per-step buffers into observations, and the observation
    space each declares (habitat/sims/habitat_simulator/habitat_simulator.py).

    Depth values are reals; the numpy and torch code paths of the depth
    sensor compute the same values and are modelled once. */
module Sensors {
  import opened Results

  /** Colour channels kept from the engine's RGBA buffer. */
  const RgbSensorDimension: nat := 3
  const Uint32Max: int := 0xFFFF_FFFF

  datatype SensorKind = Color | Depth | Semantic

  datatype SensorConfig = SensorConfig(
    height: nat,
    width: nat,
    minDepth: real,
    maxDepth: real,
    normalizeDepth: bool)

  datatype Sensor = Sensor(uuid: string, kind: SensorKind, config: SensorConfig)

  datatype DType = UInt8 | Float32 | UInt32

  /** A `spaces.Box` descriptor. */
  datatype Box = Box(low: real, high: real, shape: seq<nat>, dtype: DType)

  /** What the engine produces under a sensor's uuid: colour pixels
      (rows x columns x channels), depth values (rows x columns) or
      semantic ids (rows x columns). */
  datatype Buffer =
    | ColorBuffer(pixels: seq<seq<seq<int>>>)
    | DepthBuffer(depth: seq<seq<real>>)
    | SemanticBuffer(ids: seq<seq<int>>)

  /** The engine's per-step output, keyed by sensor uuid. */
  type SimObs = map<string, Buffer>

  datatype Observation =
    | ColorObs(pixels: seq<seq<seq<int>>>)
    | DepthObs(depth: seq<seq<seq<real>>>)
    | SemanticObs(ids: seq<seq<int>>)

  /** The `(low, high)` bounds the depth sensor declares. */
  function DepthBounds(c: SensorConfig): (real, real) {
    if c.normalizeDepth then (0.0, 1.0) else (c.minDepth, c.maxDepth)
  }

  /** `_get_observation_space` of each sensor kind. */
  function ObservationSpace(s: Sensor): (b: Box)
    ensures s.kind.Color? ==> b.shape == [s.config.height, s.config.width, RgbSensorDimension] && b.dtype == UInt8
    ensures s.kind.Depth? ==> b.shape == [s.config.height, s.config.width, 1] && b.dtype == Float32
    ensures s.kind.Semantic? ==> b.shape == [s.config.height, s.config.width] && b.dtype == UInt32
    ensures s.kind.Depth? && s.config.normalizeDepth ==> b.low == 0.0 && b.high == 1.0
    ensures s.kind.Depth? && !s.config.normalizeDepth ==> b.low == s.config.minDepth && b.high == s.config.maxDepth
  {
    match s.kind
    case Color => Box(0.0, 255.0, [s.config.height, s.config.width, RgbSensorDimension], UInt8)
    case Depth =>
      var (lo, hi) := DepthBounds(s.config);
      Box(lo, hi, [s.config.height, s.config.width, 1], Float32)
    case Semantic => Box(0.0, Uint32Max as real, [s.config.height, s.config.width], UInt32)
  }

  /** `sim_obs.get(uuid)` followed by `check_sim_obs`: a missing buffer is
      an assertion failure naming the sensor. */
  function CheckSimObs(simObs: SimObs, s: Sensor): (r: Result<Buffer>)
    ensures r.Success? <==> s.uuid in simObs
    ensures r.Success? ==> r.value == simObs[s.uuid]
    ensures r.Failure? ==> r.error == MissingObservation(s.uuid)
  {
    if s.uuid in simObs then Success(simObs[s.uuid]) else Failure(MissingObservation(s.uuid))
  }

  function Min(a: int, b: int): int { if a <= b then a else b }

  /** `obs[:, :, :3]`: drop any channel beyond the third. */
  function DropAlpha(pixels: seq<seq<seq<int>>>): (r: seq<seq<seq<int>>>)
    ensures |r| == |pixels|
    ensures forall i :: 0 <= i < |pixels| ==> |r[i]| == |pixels[i]|
    ensures forall i, j :: 0 <= i < |pixels| && 0 <= j < |pixels[i]| ==>
              r[i][j] <= pixels[i][j] && |r[i][j]| == Min(RgbSensorDimension, |pixels[i][j]|)
  {
    seq(|pixels|, r requires 0 <= r < |pixels| =>
      seq(|pixels[r]|, c requires 0 <= c < |pixels[r]| =>
        pixels[r][c][..Min(RgbSensorDimension, |pixels[r][c]|)]))
  }

  /** `np.clip(v, lo, hi)`, which is `min(max(v, lo), hi)` even when
      `lo > hi`. */
  function Clip(v: real, lo: real, hi: real): (r: real)
    ensures lo <= hi ==> lo <= r <= hi
    ensures lo <= v <= hi ==> r == v
    ensures lo > hi ==> r == hi
    ensures lo <= hi && v < lo ==> r == lo
    ensures v > hi ==> r == hi
  {
    var up := if v < lo then lo else v;
    if up > hi then hi else up
  }

  /** The depth sensor's per-value transform. */
  function DepthValue(c: SensorConfig, v: real): (r: real)
    requires c.normalizeDepth ==> c.minDepth != c.maxDepth
    ensures !c.normalizeDepth && c.minDepth <= c.maxDepth ==> c.minDepth <= r <= c.maxDepth
    ensures !c.normalizeDepth && c.minDepth <= v <= c.maxDepth ==> r == v
    ensures c.normalizeDepth && c.minDepth < c.maxDepth ==> 0.0 <= r <= 1.0
    ensures !c.normalizeDepth ==> r == Clip(v, c.minDepth, c.maxDepth)
    ensures c.normalizeDepth ==> c.minDepth + r * (c.maxDepth - c.minDepth) == Clip(v, c.minDepth, c.maxDepth)
  {
    var clipped := Clip(v, c.minDepth, c.maxDepth);
    if c.normalizeDepth then
      var range := c.maxDepth - c.minDepth;
      if c.minDepth < c.maxDepth then DivideWithinUnit(clipped - c.minDepth, range); (clipped - c.minDepth) / range
      else (clipped - c.minDepth) / range
    else clipped
  }

  /** Clip, add a trailing channel axis, optionally rescale. */
  function DepthTransform(c: SensorConfig, depth: seq<seq<real>>): (r: Result<seq<seq<seq<real>>>>)
    ensures r.Failure? <==> c.normalizeDepth && c.minDepth == c.maxDepth
    ensures r.Success? ==> |r.value| == |depth|
    ensures r.Success? ==> forall i :: 0 <= i < |depth| ==> |r.value[i]| == |depth[i]|
    ensures r.Success? ==> forall i, j :: 0 <= i < |depth| && 0 <= j < |depth[i]| ==>
                             r.value[i][j] == [DepthValue(c, depth[i][j])]
  {
    if c.normalizeDepth && c.minDepth == c.maxDepth then Failure(DegenerateDepthRange)
    else
      Success(seq(|depth|, i requires 0 <= i < |depth| =>
        seq(|depth[i]|, j requires 0 <= j < |depth[i]| => [DepthValue(c, depth[i][j])])))
  }

  /** `get_observation` of each sensor kind. */
  function GetObservation(simObs: SimObs, s: Sensor): (r: Result<Observation>)
    ensures s.uuid !in simObs ==> r == Failure(MissingObservation(s.uuid))
  {
    var buffer :- CheckSimObs(simObs, s);
    match (s.kind, buffer)
    case (Color, ColorBuffer(pixels)) => Success(ColorObs(DropAlpha(pixels)))
    case (Depth, DepthBuffer(depth)) =>
      var d :- DepthTransform(s.config, depth);
      Success(DepthObs(d))
    case (Semantic, SemanticBuffer(ids)) => Success(SemanticObs(ids))
    case _ => Failure(UnexpectedBuffer(s.uuid))
  }

  /** `SensorSuite.get_observations`: every sensor's observation, keyed by
      uuid; the first sensor that fails aborts the call. */
  function SuiteObservations(simObs: SimObs, sensors: seq<Sensor>): (r: Result<map<string, Observation>>)
    ensures r.Success? ==> forall i :: 0 <= i < |sensors| ==> sensors[i].uuid in r.value
    ensures r.Success? ==> forall i :: 0 <= i < |sensors| ==> sensors[i].uuid in simObs
    ensures r.Success? ==> forall u :: u in r.value ==> exists i :: 0 <= i < |sensors| && sensors[i].uuid == u
    ensures r.Success? ==> forall i :: 0 <= i < |sensors| && LastWithUuid(sensors, i) ==>
                             GetObservation(simObs, sensors[i]) == Success(r.value[sensors[i].uuid])
    ensures r.Failure? <==> exists i :: 0 <= i < |sensors| && GetObservation(simObs, sensors[i]).Failure?
  {
    if |sensors| == 0 then Success(map[])
    else
      var init := sensors[..|sensors| - 1];
      var last := sensors[|sensors| - 1];
      InitOfSensors(sensors);
      var rest :- SuiteObservations(simObs, init);
      var obs :- GetObservation(simObs, last);
      Success(rest[last.uuid := obs])
  }

  /** The sensors but the last are a prefix, and a last-with-its-uuid
      sensor among them stays so in the prefix. */
  lemma InitOfSensors(sensors: seq<Sensor>)
    requires |sensors| > 0
    ensures forall i :: 0 <= i < |sensors| - 1 ==> sensors[i] == sensors[..|sensors| - 1][i]
    ensures forall i :: 0 <= i < |sensors| - 1 && LastWithUuid(sensors, i) ==> LastWithUuid(sensors[..|sensors| - 1], i)
  {
  }

  /** No later sensor shares the uuid of sensor `i`, so its observation is
      the one the dictionary keeps. */
  predicate LastWithUuid(sensors: seq<Sensor>, i: nat)
    requires i < |sensors|
  {
    forall j :: i < j < |sensors| ==> sensors[j].uuid != sensors[i].uuid
  }

  // ---------------------------------------------------------------------
  // Properties

  /** The RGB sensor keeps exactly the first three channels of every pixel
      that has at least three, and leaves the image's height and width. */
  lemma RgbKeepsFirstThreeChannels(simObs: SimObs, s: Sensor)
    requires s.kind.Color? && s.uuid in simObs && simObs[s.uuid].ColorBuffer?
    ensures var r := GetObservation(simObs, s);
      var px := simObs[s.uuid].pixels;
      && r.Success? && r.value.ColorObs?
      && |r.value.pixels| == |px|
      && forall i, j :: 0 <= i < |px| && 0 <= j < |px[i]| ==>
           |r.value.pixels[i]| == |px[i]|
           && (|px[i][j]| >= RgbSensorDimension ==>
                 |r.value.pixels[i][j]| == RgbSensorDimension && r.value.pixels[i][j] == px[i][j][..3])
  {
  }

  /** The semantic sensor passes the buffer through unchanged. */
  lemma SemanticIsIdentity(simObs: SimObs, s: Sensor)
    requires s.kind.Semantic? && s.uuid in simObs && simObs[s.uuid].SemanticBuffer?
    ensures GetObservation(simObs, s) == Success(SemanticObs(simObs[s.uuid].ids))
  {
  }

  /** Every sensor kind fails when its buffer is missing. */
  lemma MissingBufferFails(simObs: SimObs, s: Sensor)
    requires s.uuid !in simObs
    ensures GetObservation(simObs, s).Failure?
    ensures GetObservation(simObs, s).error == MissingObservation(s.uuid)
  {
  }

  /** With `lo <= hi`, clipping lands in `[lo, hi]`; with `lo > hi` every
      value becomes `hi`. */
  lemma ClipBounds(v: real, lo: real, hi: real)
    ensures lo <= hi ==> lo <= Clip(v, lo, hi) <= hi
    ensures lo > hi ==> Clip(v, lo, hi) == hi
  {
  }

  /** Every depth value lies within the bounds the sensor declares, for
      any raw input, whenever the configured range is a proper interval.
      Normalised depth lies in [0, 1] even for a reversed range. */
  lemma DepthValueWithinDeclaredBounds(c: SensorConfig, v: real)
    requires if c.normalizeDepth then c.minDepth != c.maxDepth else c.minDepth <= c.maxDepth
    ensures DepthBounds(c).0 <= DepthValue(c, v) <= DepthBounds(c).1
  {
    var clipped := Clip(v, c.minDepth, c.maxDepth);
    ClipBounds(v, c.minDepth, c.maxDepth);
    if c.normalizeDepth {
      var range := c.maxDepth - c.minDepth;
      assert DepthValue(c, v) == (clipped - c.minDepth) / range;
      if c.minDepth < c.maxDepth {
        assert 0.0 <= clipped - c.minDepth <= range;
        DivideWithinUnit(clipped - c.minDepth, range);
      } else {
        assert clipped - c.minDepth == range;
        DivideBySelf(range);
      }
    }
  }

  lemma DivideBySelf(y: real)
    requires y != 0.0
    ensures y / y == 1.0
  {
  }

  lemma DivideWithinUnit(x: real, y: real)
    requires 0.0 < y && 0.0 <= x <= y
    ensures 0.0 <= x / y <= 1.0
  {
  }

  /** The depth observation has one channel per pixel and lies in the
      declared observation space of the sensor. */
  lemma DepthObservationInSpace(simObs: SimObs, s: Sensor)
    requires s.kind.Depth? && s.uuid in simObs && simObs[s.uuid].DepthBuffer?
    requires if s.config.normalizeDepth then s.config.minDepth != s.config.maxDepth
             else s.config.minDepth <= s.config.maxDepth
    ensures var r := GetObservation(simObs, s);
      var space := ObservationSpace(s);
      && r.Success? && r.value.DepthObs?
      && |r.value.depth| == |simObs[s.uuid].depth|
      && forall i, j :: 0 <= i < |r.value.depth| && 0 <= j < |r.value.depth[i]| ==>
           |r.value.depth[i][j]| == 1 && space.low <= r.value.depth[i][j][0] <= space.high
  {
    var depth := simObs[s.uuid].depth;
    var r := GetObservation(simObs, s);
    forall i, j | 0 <= i < |r.value.depth| && 0 <= j < |r.value.depth[i]|
      ensures |r.value.depth[i][j]| == 1
      ensures ObservationSpace(s).low <= r.value.depth[i][j][0] <= ObservationSpace(s).high
    {
      DepthValueWithinDeclaredBounds(s.config, depth[i][j]);
    }
  }
}
