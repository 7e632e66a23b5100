/** `sample_object_state`: finding a collision-free pose for an object by
    bounded random retries (habitat/sims/habitat_simulator/habitat_simulator.py).

    The random draws and the engine's contact test are oracles. Each
    attempt moves the object to a drawn point, turns it by a drawn angle
    about the up axis and, when sampling from the navigation mesh, raises
    it by half its bounding-box height plus a collision margin. The first
    attempt that ends without contact is accepted. */
module Placement {
  import opened Results
  import opened Engine

  /** Clearance added above a navigation-mesh sample point. */
  const SceneCollisionMargin: real := 0.04

  datatype Box3 = Box3(lo: Vec3, hi: Vec3)

  /** The keyword arguments of `sample_object_state`. */
  datatype Params = Params(fromNavmesh: bool, maintainUp: bool, maxTries: int, bb: Option<Box3>)

  /** The arguments the scene initialisation passes (the defaults). */
  const DefaultParams: Params := Params(true, true, 100, None)

  /** Oracles, keyed by object id and attempt number (from 0):
      `navigablePoint` is `pathfinder.get_random_navigable_point()`,
      `boxPoint` is `np.random.uniform(bb.min, bb.max)`, `yawTurn` is
      `random.random()`, `halfHeight` is half the height of the object's
      transformed bounding box, and `contact` is `contact_test`. */
  datatype Draws = Draws(
    navigablePoint: (int, nat) -> Vec3,
    boxPoint: (int, nat) -> Vec3,
    yawTurn: (int, nat) -> real,
    halfHeight: (int, nat) -> real,
    contact: (EngineState, int) -> bool)

  datatype Placement = Placement(placed: bool, engine: EngineState, attempts: nat)

  function Max0(n: int): nat { if n > 0 then n else 0 }

  /** True when the early checks make the call return False at once. */
  predicate Aborts(e: EngineState, p: Params) {
    (p.fromNavmesh && !e.navmeshLoaded) || (!p.fromNavmesh && p.bb.None?)
  }

  /** Attempt number `k`. Without `maintain_object_up` the code calls the
      undefined name `ut` after moving the object, which raises. */
  function Attempt(e: EngineState, id: int, p: Params, d: Draws, k: nat): (r: Result<EngineState>)
    ensures r.Success? <==> p.maintainUp
    ensures r.Success? ==> r.value.objects.Keys == e.objects.Keys && r.value == e.(objects := r.value.objects)
  {
    var location := if p.fromNavmesh then d.navigablePoint(id, k) else d.boxPoint(id, k);
    var e1 := SetTranslation(e, id, location);
    if !p.maintainUp then Failure(UndefinedName("ut"))
    else
      var e2 := SetRotation(e1, id, Yawed(d.yawTurn(id, k), RotationOf(e1, id)));
      if p.fromNavmesh then
        var t := TranslationOf(e2, id);
        Success(SetTranslation(e2, id, t.(y := t.y + d.halfHeight(id, k) + SceneCollisionMargin)))
      else Success(e2)
  }

  /** An attempt moves and turns only the object being placed. */
  lemma AttemptFrame(e: EngineState, id: int, p: Params, d: Draws, k: nat)
    requires p.maintainUp
    ensures var s := Attempt(e, id, p, d, k).value;
      && s.objects.Keys == e.objects.Keys
      && (forall o :: o in e.objects && o != id ==> s.objects[o] == e.objects[o])
      && (id in e.objects ==> OnlyPoseDiffers(s.objects[id], e.objects[id]))
      && s == e.(objects := s.objects)
  {
  }

  /** The engine after `n` attempts in a row, ignoring contact. */
  function After(e: EngineState, id: int, p: Params, d: Draws, n: nat): (r: Result<EngineState>)
    ensures r.Success? <==> n == 0 || p.maintainUp
  {
    if n == 0 then Success(e)
    else
      var prev :- After(e, id, p, d, n - 1);
      Attempt(prev, id, p, d, n - 1)
  }

  /** Attempt `j` (counted from 1) completed and left the object in
      contact. */
  predicate MetContact(e: EngineState, id: int, p: Params, d: Draws, j: nat) {
    After(e, id, p, d, j).Success? && d.contact(After(e, id, p, d, j).value, id)
  }

  /** The retry loop from attempt `k` on, as a recursive definition. */
  function SampleFrom(e: EngineState, id: int, p: Params, d: Draws, k: nat): (r: Result<Placement>)
    ensures r.Failure? ==> r.error == UndefinedName("ut")
    ensures r.Success? ==> k <= r.value.attempts
    ensures r.Success? && k <= Max0(p.maxTries) ==> r.value.attempts <= Max0(p.maxTries)
    ensures r.Success? && r.value.placed ==> k < r.value.attempts && !d.contact(r.value.engine, id)
    ensures r.Success? && !r.value.placed ==> r.value.attempts == if k < p.maxTries then p.maxTries else k
    ensures r.Success? ==> r.value.engine.objects.Keys == e.objects.Keys
    decreases Max0(p.maxTries - k)
  {
    if k >= p.maxTries then Success(Placement(false, e, k))
    else
      var next :- Attempt(e, id, p, d, k);
      if !d.contact(next, id) then Success(Placement(true, next, k + 1))
      else SampleFrom(next, id, p, d, k + 1)
  }

  /** The whole call. The STATIC check only prints, so it is absent. */
  function SampleSpec(e: EngineState, id: int, p: Params, d: Draws): (r: Result<Placement>)
    ensures Aborts(e, p) ==> r == Success(Placement(false, e, 0))
    ensures r.Failure? ==> r.error == UndefinedName("ut")
    ensures r.Success? ==> r.value.attempts <= Max0(p.maxTries) && r.value.engine.objects.Keys == e.objects.Keys
    ensures r.Success? && r.value.placed ==> r.value.attempts >= 1 && !d.contact(r.value.engine, id)
    ensures r.Success? && !r.value.placed && !Aborts(e, p) ==> r.value.attempts == Max0(p.maxTries)
  {
    if Aborts(e, p) then Success(Placement(false, e, 0))
    else SampleFrom(e, id, p, d, 0)
  }

  /** `sample_object_state(object_id, from_navmesh, maintain_object_up,
      max_tries, bb)`. */
  method SampleObjectState(e: EngineState, id: int, p: Params, d: Draws) returns (r: Result<Placement>)
    ensures r == SampleSpec(e, id, p, d)
    ensures Aborts(e, p) ==> r == Success(Placement(false, e, 0))
    ensures p.maxTries <= 0 ==> r == Success(Placement(false, e, 0))
    ensures r.Success? ==> r.value.attempts <= Max0(p.maxTries)
    ensures r.Success? && r.value.placed ==> r.value.attempts >= 1 && !d.contact(r.value.engine, id)
    ensures r.Success? && !r.value.placed && !Aborts(e, p) ==> r.value.attempts == Max0(p.maxTries)
  {
    if p.fromNavmesh {
      if !e.navmeshLoaded {
        return Success(Placement(false, e, 0));
      }
    } else if p.bb.None? {
      return Success(Placement(false, e, 0));
    }
    var tries: nat := 0;
    var valid := false;
    var current := e;
    while !valid && tries < p.maxTries
      invariant tries <= Max0(p.maxTries)
      invariant !valid ==> SampleFrom(e, id, p, d, 0) == SampleFrom(current, id, p, d, tries)
      invariant valid ==> SampleFrom(e, id, p, d, 0) == Success(Placement(true, current, tries))
      invariant valid ==> tries >= 1 && !d.contact(current, id)
      decreases Max0(p.maxTries - tries), !valid
    {
      var attempt := Attempt(current, id, p, d, tries);
      if attempt.Failure? {
        return Failure(attempt.error);
      }
      ghost var before := current;
      current := attempt.value;
      assert SampleFrom(before, id, p, d, tries)
          == if !d.contact(current, id) then Success(Placement(true, current, tries + 1))
             else SampleFrom(current, id, p, d, tries + 1);
      tries := tries + 1;
      if !d.contact(current, id) {
        valid := true;
      }
    }
    return Success(Placement(valid, current, tries));
  }

  // ---------------------------------------------------------------------
  // Properties

  /** The loop from attempt `k` either stops at the first contact-free
      attempt or runs to `max_tries`, having met contact every time. */
  lemma {:induction false} SampleFromOutcome(e: EngineState, id: int, p: Params, d: Draws, k: nat, current: EngineState)
    requires k <= Max0(p.maxTries)
    requires After(e, id, p, d, k) == Success(current)
    requires forall j :: 1 <= j <= k ==> MetContact(e, id, p, d, j)
    requires SampleFrom(current, id, p, d, k).Success?
    ensures var pl := SampleFrom(current, id, p, d, k).value;
      && k <= pl.attempts <= Max0(p.maxTries)
      && After(e, id, p, d, pl.attempts) == Success(pl.engine)
      && (forall j :: 1 <= j < pl.attempts ==> MetContact(e, id, p, d, j))
      && (pl.placed <==> pl.attempts >= 1 && !d.contact(pl.engine, id))
      && (!pl.placed ==> pl.attempts == Max0(p.maxTries))
    decreases Max0(p.maxTries - k)
  {
    if k < p.maxTries {
      SampleFromStep(current, id, p, d, k);
      var next := Attempt(current, id, p, d, k).value;
      AfterStep(e, id, p, d, k, current);
      if d.contact(next, id) {
        ContactExtend(e, id, p, d, k, next);
        SampleFromOutcome(e, id, p, d, k + 1, next);
      }
    } else if k >= 1 {
      assert MetContact(e, id, p, d, k);
    }
  }

  /** One loop iteration: attempt `k`, then stop or go on. */
  lemma SampleFromStep(current: EngineState, id: int, p: Params, d: Draws, k: nat)
    requires k < p.maxTries && SampleFrom(current, id, p, d, k).Success?
    ensures Attempt(current, id, p, d, k).Success?
    ensures var next := Attempt(current, id, p, d, k).value;
      SampleFrom(current, id, p, d, k)
        == if !d.contact(next, id) then Success(Placement(true, next, k + 1))
           else SampleFrom(next, id, p, d, k + 1)
  {
  }

  /** `After` takes one more attempt from where it stood. */
  lemma AfterStep(e: EngineState, id: int, p: Params, d: Draws, k: nat, current: EngineState)
    requires After(e, id, p, d, k) == Success(current)
    ensures After(e, id, p, d, k + 1) == Attempt(current, id, p, d, k)
  {
  }

  /** One more attempt in contact extends the run of contacts. */
  lemma ContactExtend(e: EngineState, id: int, p: Params, d: Draws, k: nat, next: EngineState)
    requires forall j :: 1 <= j <= k ==> MetContact(e, id, p, d, j)
    requires After(e, id, p, d, k + 1) == Success(next) && d.contact(next, id)
    ensures forall j :: 1 <= j <= k + 1 ==> MetContact(e, id, p, d, j)
  {
    assert MetContact(e, id, p, d, k + 1);
  }

  /** The call returns True exactly when some attempt, within `max_tries`,
      ended without contact, and it stops at the first such attempt: every
      earlier attempt met contact and the object is left where that
      attempt put it. A failed search leaves it at the last attempt. */
  lemma SampleCharacterisation(e: EngineState, id: int, p: Params, d: Draws)
    requires !Aborts(e, p)
    requires SampleSpec(e, id, p, d).Success?
    ensures var pl := SampleSpec(e, id, p, d).value;
      && pl.attempts <= Max0(p.maxTries)
      && After(e, id, p, d, pl.attempts) == Success(pl.engine)
      && (forall j :: 1 <= j < pl.attempts ==> MetContact(e, id, p, d, j))
      && (pl.placed <==> pl.attempts >= 1 && !d.contact(pl.engine, id))
      && (!pl.placed ==> pl.attempts == Max0(p.maxTries))
  {
    SampleFromOutcome(e, id, p, d, 0, e);
  }

  /** Sampling moves and turns only the object being placed; its handle,
      motion type and semantic id stay. */
  lemma {:induction false} SampleFromOnlyMovesObject(e: EngineState, id: int, p: Params, d: Draws, k: nat)
    requires SampleFrom(e, id, p, d, k).Success?
    ensures var s := SampleFrom(e, id, p, d, k).value.engine;
      && s.objects.Keys == e.objects.Keys
      && (forall o :: o in e.objects && o != id ==> s.objects[o] == e.objects[o])
      && (id in e.objects ==> OnlyPoseDiffers(s.objects[id], e.objects[id]))
      && s == e.(objects := s.objects)
    decreases Max0(p.maxTries - k)
  {
    if k < p.maxTries {
      AttemptFrame(e, id, p, d, k);
      var next := Attempt(e, id, p, d, k).value;
      if d.contact(next, id) {
        SampleFromOnlyMovesObject(next, id, p, d, k + 1);
      }
    }
  }

  /** Attempt `k` moves the object to the `k`-th drawn point (from the
      mesh, raised by half its height and the margin, or from the box) and
      turns it about the up axis by the `k`-th drawn angle. */
  lemma AttemptPose(e: EngineState, id: int, p: Params, d: Draws, k: nat)
    requires id in e.objects && p.maintainUp
    ensures var s := Attempt(e, id, p, d, k).value;
      var point := if p.fromNavmesh then d.navigablePoint(id, k) else d.boxPoint(id, k);
      && id in s.objects
      && s.objects[id].translation
           == (if p.fromNavmesh then point.(y := point.y + d.halfHeight(id, k) + SceneCollisionMargin) else point)
      && s.objects[id].rotation == Yawed(d.yawTurn(id, k), e.objects[id].rotation)
      && s.objects[id].motion == e.objects[id].motion
  {
    var point := if p.fromNavmesh then d.navigablePoint(id, k) else d.boxPoint(id, k);
    var e1 := SetTranslation(e, id, point);
    var e2 := SetRotation(e1, id, Yawed(d.yawTurn(id, k), e.objects[id].rotation));
    var t := TranslationOf(e2, id);
    assert t == point;
    if p.fromNavmesh {
      var e3 := SetTranslation(e2, id, t.(y := t.y + d.halfHeight(id, k) + SceneCollisionMargin));
      assert Attempt(e, id, p, d, k) == Success(e3);
    } else {
      assert Attempt(e, id, p, d, k) == Success(e2);
    }
  }

  /** The first attempt from the navigation mesh moves the object to the
      first drawn point (raised above it) and turns it about the up axis. */
  lemma FirstNavmeshAttempt(e: EngineState, id: int, p: Params, d: Draws)
    requires id in e.objects && p.fromNavmesh && p.maintainUp
    ensures var first := After(e, id, p, d, 1);
      && first.Success? && id in first.value.objects
      && first.value.objects[id].translation.x == d.navigablePoint(id, 0).x
      && first.value.objects[id].translation.y == d.navigablePoint(id, 0).y + d.halfHeight(id, 0) + SceneCollisionMargin
      && first.value.objects[id].translation.z == d.navigablePoint(id, 0).z
      && first.value.objects[id].rotation == Yawed(d.yawTurn(id, 0), e.objects[id].rotation)
      && first.value.objects[id].motion == e.objects[id].motion
  {
    AttemptPose(e, id, p, d, 0);
    assert After(e, id, p, d, 1) == Attempt(e, id, p, d, 0);
  }

  /** A STATIC object is not refused: with a loaded mesh, an upright
      rotation and at least one try, at least one attempt is made, and
      that attempt moves the object as `FirstNavmeshAttempt` describes. */
  lemma StaticObjectIsStillMoved(e: EngineState, id: int, p: Params, d: Draws)
    requires id in e.objects && e.objects[id].motion == Static
    requires p.fromNavmesh && e.navmeshLoaded && p.maintainUp && p.maxTries >= 1
    ensures SampleSpec(e, id, p, d).Success?
    ensures SampleSpec(e, id, p, d).value.attempts >= 1
  {
    SampleFromRaises(e, id, p, d, 0);
    var next := Attempt(e, id, p, d, 0).value;
    if d.contact(next, id) {
      SampleFromRaises(next, id, p, d, 1);
    }
  }

  /** The loop raises exactly when it makes an attempt and the object is
      not kept upright (the undefined name is reached on the first one). */
  lemma {:induction false} SampleFromRaises(e: EngineState, id: int, p: Params, d: Draws, k: nat)
    ensures SampleFrom(e, id, p, d, k).Failure? <==> k < p.maxTries && !p.maintainUp
    ensures SampleFrom(e, id, p, d, k).Failure? ==> SampleFrom(e, id, p, d, k).error == UndefinedName("ut")
    decreases Max0(p.maxTries - k)
  {
    if k < p.maxTries && p.maintainUp {
      var next := Attempt(e, id, p, d, k).value;
      if d.contact(next, id) {
        SampleFromRaises(next, id, p, d, k + 1);
      }
    }
  }
}
