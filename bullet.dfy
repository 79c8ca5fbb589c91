/**
 * The per-bullet lifecycle of Game/Bullet.cs: the on-screen test with its
 * 0.08 margin, the wasInScreen / launched flags, the lifespan timer, the
 * spread-shot countdown and the SetId / SetPattern setters. Motion (rigidbody
 * velocity, the fan orbit, homing) is not modelled. The camera's viewport
 * projection of the bullet's position is an input: None stands for a
 * missing camera, in which case the boundary check does nothing.
 * ReleaseObject deactivates the bullet and hands it to the pool; each such
 * hand-over is counted as one release.
 */
module BulletLifecycle {
  import Wrappers
  import opened BitConverter
  import opened VectorCodec

  datatype BulletPattern = None | Normal | Spread | Fan | Winder | Cage | StateCount

  /** Camera.WorldToViewportPoint of the bullet: x, y in viewport units, z the depth. */
  datatype Viewport = Viewport(x: real, y: real, z: real)

  const ViewportMargin: real := 0.08

  /** The isInScreen test of CheckScreenBoundary. */
  predicate InScreen(vp: Viewport)
    ensures vp.z > 0.0 && 0.0 <= vp.x <= 1.0 && 0.0 <= vp.y <= 1.0 ==> InScreen(vp)
    ensures InScreen(vp) ==> vp.z > 0.0 && -0.08 <= vp.x <= 1.08 && -0.08 <= vp.y <= 1.08
  {
    && vp.z > 0.0
    && -ViewportMargin <= vp.x <= 1.0 + ViewportMargin
    && -ViewportMargin <= vp.y <= 1.0 + ViewportMargin
  }

  /** The fields of a Bullet the lifecycle reads and writes. */
  datatype BulletState = BulletState(
    pattern: BulletPattern,
    levelSpeed: real,
    lifeTimer: real,
    launched: bool,
    wasInScreen: bool,
    spreadTimer: real,
    spreadTimeStamp: real,
    fanCenter: Vector2,
    fanAngularSpeedDeg: real,
    bulletId: u16,
    active: bool)

  /** What one FixedUpdate did: the new state, releases handed to the pool, whether a spread shot was requested. */
  datatype TickOutcome = TickOutcome(after: BulletState, releases: nat, spreadShot: bool)

  /** OnEnable: the reset run each time the object is activated. */
  function Enabled(s: BulletState): BulletState
  {
    s.(launched := false, wasInScreen := false, lifeTimer := 0.0, spreadTimer := 0.0, pattern := None)
  }

  /** ReleaseObject, as far as the bullet itself is concerned. */
  function Released(s: BulletState): BulletState
  {
    s.(active := false)
  }

  /** UpdateSpread: fires when the stamp has passed the timer, then counts dt. */
  function SpreadStep(s: BulletState, dt: real): (BulletState, bool)
  {
    if s.spreadTimeStamp > s.spreadTimer then (s.(spreadTimeStamp := 0.0 + dt), true)
    else (s.(spreadTimeStamp := s.spreadTimeStamp + dt), false)
  }

  /** CheckScreenBoundary: launch on the first in-screen tick, release on leaving after that. */
  function BoundaryStep(s: BulletState, cam: Wrappers.Option<Viewport>): (BulletState, nat)
  {
    match cam
    case None => (s, 0)
    case Some(vp) =>
      if !s.wasInScreen && InScreen(vp) then (s.(wasInScreen := true, launched := true), 0)
      else if s.wasInScreen && !InScreen(vp) then (Released(s), 1)
      else (s, 0)
  }

  /** FixedUpdate: pattern step, boundary check, then the lifespan timer. */
  function Ticked(s: BulletState, cam: Wrappers.Option<Viewport>, dt: real, lifespan: real): TickOutcome
  {
    var (s1, shot) := if s.pattern == Spread then SpreadStep(s, dt) else (s, false);
    var (s2, r) := BoundaryStep(s1, cam);
    var s3 := s2.(lifeTimer := s2.lifeTimer + dt);
    if s3.lifeTimer >= lifespan then TickOutcome(Released(s3), r + 1, shot)
    else TickOutcome(s3, r, shot)
  }

  /** SetId: 0 is ignored. */
  function WithId(s: BulletState, id: u16): BulletState
  {
    if id > 0 then s.(bulletId := id) else s
  }

  /** Mathf.Sign: a unit of the argument's sign, with 1 for zero. */
  function Sign(f: real): (r: real)
    ensures r == 1.0 || r == -1.0
    ensures r * f >= 0.0
    ensures f == 0.0 ==> r == 1.0
  {
    if f >= 0.0 then 1.0 else -1.0
  }

  /**
   * SetPattern without the direction normalisation and the signed-angle
   * computation; signedAngle is the value Vector2.SignedAngle returns.
   */
  function WithPattern(s: BulletState, pattern: BulletPattern, dir: Vector2, levelSpeed: real,
                       bulletOffset: real, signedAngle: real): BulletState
  {
    var t := s.(levelSpeed := levelSpeed, pattern := pattern);
    match pattern
    case Spread => if bulletOffset > 0.0 then t.(spreadTimer := bulletOffset * 0.1) else t
    case Fan => t.(fanCenter := dir, fanAngularSpeedDeg := (45.0 + levelSpeed) * Sign(signedAngle))
    case _ => t
  }

  /** The flags stay equal: both are set together and cleared together. */
  predicate LaunchConsistent(s: BulletState)
  {
    s.launched == s.wasInScreen
  }

  /** Every transition of the bullet keeps launched == wasInScreen. */
  lemma TransitionsKeepLaunchConsistent(s: BulletState, cam: Wrappers.Option<Viewport>, dt: real, lifespan: real,
                                         id: u16, pattern: BulletPattern, dir: Vector2, levelSpeed: real,
                                         bulletOffset: real, signedAngle: real)
    requires LaunchConsistent(s)
    ensures LaunchConsistent(Ticked(s, cam, dt, lifespan).after)
    ensures LaunchConsistent(Enabled(s))
    ensures LaunchConsistent(WithId(s, id))
    ensures LaunchConsistent(WithPattern(s, pattern, dir, levelSpeed, bulletOffset, signedAngle))
  {
  }

  /** A tick releases iff the bullet was on screen and has left, or its life is over. */
  lemma TickReleases(s: BulletState, cam: Wrappers.Option<Viewport>, dt: real, lifespan: real)
    ensures var o := Ticked(s, cam, dt, lifespan);
      && o.releases == (if s.wasInScreen && cam.Some? && !InScreen(cam.value) then 1 else 0)
                       + (if s.lifeTimer + dt >= lifespan then 1 else 0)
      && (o.after.active <==> s.active && o.releases == 0)
      && o.after.lifeTimer == s.lifeTimer + dt
  {
  }

  /** Launching happens exactly on the first tick the projection is on screen. */
  lemma TickLaunches(s: BulletState, cam: Wrappers.Option<Viewport>, dt: real, lifespan: real)
    requires LaunchConsistent(s)
    ensures var o := Ticked(s, cam, dt, lifespan);
      && (o.after.launched <==> s.launched || (cam.Some? && InScreen(cam.value)))
      && (o.after.wasInScreen <==> s.wasInScreen || (cam.Some? && InScreen(cam.value)))
  {
  }

  /**
   * Leaving the screen and reaching the lifespan on the same tick hands the
   * bullet to the pool twice: both ReleaseObject calls run within one FixedUpdate.
   */
  lemma ReleasedTwiceInOneTick(s: BulletState, vp: Viewport, dt: real, lifespan: real)
    requires s.active && s.wasInScreen && !InScreen(vp)
    requires s.lifeTimer + dt >= lifespan
    ensures Ticked(s, Wrappers.Some(vp), dt, lifespan).releases == 2
    ensures !Ticked(s, Wrappers.Some(vp), dt, lifespan).after.active
  {
  }

  /** A Spread bullet whose timer is 0 requests a shot on every tick its stamp is positive. */
  lemma SpreadWithZeroTimer(s: BulletState, cam: Wrappers.Option<Viewport>, dt: real, lifespan: real)
    requires s.pattern == Spread && s.spreadTimer == 0.0 && s.spreadTimeStamp > 0.0 && dt > 0.0
    ensures Ticked(s, cam, dt, lifespan).spreadShot
    ensures Ticked(s, cam, dt, lifespan).after.spreadTimeStamp == dt
  {
  }

  /**
   * A bullet spawned from a packet (activated, then SetPattern with the
   * default offset -1) has spread timer 0: OnEnable clears it and only a
   * positive offset sets it.
   */
  lemma SpawnedSpreadTimerIsZero(s: BulletState, dir: Vector2, levelSpeed: real, signedAngle: real)
    ensures WithPattern(Enabled(s), Spread, dir, levelSpeed, -1.0, signedAngle).spreadTimer == 0.0
    ensures WithPattern(Enabled(s), Spread, dir, levelSpeed, -1.0, signedAngle).spreadTimeStamp == s.spreadTimeStamp
  {
  }

  /** FixedUpdate runs only while active; a run ends at the first release. */
  function Run(s: BulletState, cams: seq<Wrappers.Option<Viewport>>, dt: real, lifespan: real): (r: (BulletState, nat))
    decreases |cams|
  {
    if cams == [] || !s.active then (s, 0)
    else
      var o := Ticked(s, cams[0], dt, lifespan);
      var (t, n) := Run(o.after, cams[1..], dt, lifespan);
      (t, o.releases + n)
  }

  /**
   * The lifespan bounds a bullet's life: an active bullet whose timer plus
   * the time of |cams| ticks (at least one) reaches the lifespan has been
   * released by then.
   */
  lemma {:induction false} ReleasedWithinLifespan(s: BulletState, cams: seq<Wrappers.Option<Viewport>>, dt: real, lifespan: real)
    requires s.active && |cams| >= 1 && dt > 0.0
    requires s.lifeTimer + |cams| as real * dt >= lifespan
    ensures !Run(s, cams, dt, lifespan).0.active
    ensures Run(s, cams, dt, lifespan).1 >= 1
    decreases |cams|
  {
    var o := Ticked(s, cams[0], dt, lifespan);
    TickReleases(s, cams[0], dt, lifespan);
    if o.after.active {
      assert o.after.lifeTimer + |cams[1..]| as real * dt == s.lifeTimer + |cams| as real * dt;
      ReleasedWithinLifespan(o.after, cams[1..], dt, lifespan);
    } else {
      assert Run(o.after, cams[1..], dt, lifespan) == (o.after, 0);
    }
  }

  /**
   * A bullet whose projection never enters the screen is never launched,
   * and only the lifespan timer releases it: at most once, and only on a
   * tick where the timer has reached the lifespan.
   */
  lemma {:induction false} OffScreenOnlyLifespan(s: BulletState, cams: seq<Wrappers.Option<Viewport>>, dt: real, lifespan: real)
    requires !s.wasInScreen && !s.launched
    requires forall i :: 0 <= i < |cams| ==> cams[i].None? || !InScreen(cams[i].value)
    ensures !Run(s, cams, dt, lifespan).0.launched
    ensures Run(s, cams, dt, lifespan).1 <= 1
    ensures Run(s, cams, dt, lifespan).0.active ==> Run(s, cams, dt, lifespan).1 == 0
    ensures Run(s, cams, dt, lifespan).1 == 1 ==> Run(s, cams, dt, lifespan).0.lifeTimer >= lifespan
    decreases |cams|
  {
    if cams != [] && s.active {
      var o := Ticked(s, cams[0], dt, lifespan);
      TickReleases(s, cams[0], dt, lifespan);
      TickLaunches(s, cams[0], dt, lifespan);
      if o.after.active {
        OffScreenOnlyLifespan(o.after, cams[1..], dt, lifespan);
      } else {
        assert Run(o.after, cams[1..], dt, lifespan) == (o.after, 0);
      }
    }
  }

  /** A Bullet component. Fields mirror the C# ones the lifecycle touches. */
  class Bullet {
    const lifespan: real
    var pattern: BulletPattern
    var levelSpeed: real
    var lifeTimer: real
    var launch: bool
    var wasInScreen: bool
    var spreadTimer: real
    var spreadTimeStamp: real
    var fanCenter: Vector2
    var fanAngularSpeedDeg: real
    var bulletId: u16
    var active: bool

    function State(): BulletState
      reads this
    {
      BulletState(pattern, levelSpeed, lifeTimer, launch, wasInScreen, spreadTimer, spreadTimeStamp,
                  fanCenter, fanAngularSpeedDeg, bulletId, active)
    }

    ghost predicate Valid()
      reads this
    {
      LaunchConsistent(State())
    }

    /** IsLaunched. */
    function IsLaunched(): (b: bool)
      reads this
      ensures Valid() ==> (b <==> wasInScreen)
    {
      launch
    }

    /** The field initialisers of a new, active Bullet followed by its first OnEnable. */
    constructor(lifespan: real)
      ensures Valid() && this.lifespan == lifespan
      ensures State() == Enabled(BulletState(None, 1.0, 0.0, false, false, 4.0, 0.0, Vector2(0.0, 0.0), 0.0, 0, true))
    {
      this.lifespan := lifespan;
      pattern, levelSpeed, lifeTimer := None, 1.0, 0.0;
      launch, wasInScreen := false, false;
      spreadTimer, spreadTimeStamp := 4.0, 0.0;
      fanCenter, fanAngularSpeedDeg := Vector2(0.0, 0.0), 0.0;
      bulletId, active := 0, true;
      new;
      OnEnable();
    }

    method OnEnable()
      modifies this
      ensures Valid()
      ensures State() == Enabled(old(State()))
    {
      launch := false;
      wasInScreen := false;
      lifeTimer := 0.0;
      spreadTimer := 0.0;
      pattern := None;
    }

    /** gameObject.SetActive(value): OnEnable runs when an inactive bullet is switched on. */
    method SetActive(value: bool)
      requires Valid()
      modifies this
      ensures Valid()
      ensures State() == if value && !old(active) then Enabled(old(State())).(active := true)
                         else old(State()).(active := value)
    {
      if value && !active {
        active := true;
        OnEnable();
      } else {
        active := value;
      }
    }

    method FixedUpdate(cam: Wrappers.Option<Viewport>, dt: real) returns (releases: nat, spreadShot: bool)
      requires Valid() && active
      modifies this
      ensures Valid()
      ensures TickOutcome(State(), releases, spreadShot) == Ticked(old(State()), cam, dt, lifespan)
    {
      spreadShot := false;
      match pattern {
        case Fan =>
        case Spread =>
          spreadShot := UpdateSpread(dt);
        case _ =>
      }
      releases := CheckScreenBoundary(cam);
      lifeTimer := lifeTimer + dt;
      if lifeTimer >= lifespan {
        ReleaseObject();
        releases := releases + 1;
      }
    }

    /** UpdateSpread; the returned flag stands for the RequestSpreadShot call. */
    method UpdateSpread(dt: real) returns (fired: bool)
      requires Valid()
      modifies this
      ensures Valid()
      ensures (State(), fired) == SpreadStep(old(State()), dt)
    {
      fired := false;
      if spreadTimeStamp > spreadTimer {
        spreadTimeStamp := 0.0;
        fired := true;
      }
      spreadTimeStamp := spreadTimeStamp + dt;
    }

    /** CheckScreenBoundary; returns how many times it released the bullet (0 or 1). */
    method CheckScreenBoundary(cam: Wrappers.Option<Viewport>) returns (releases: nat)
      requires Valid()
      modifies this
      ensures Valid()
      ensures (State(), releases) == BoundaryStep(old(State()), cam)
    {
      releases := 0;
      if cam.None? {
        return;
      }
      var isInScreen := InScreen(cam.value);
      if !wasInScreen && isInScreen {
        wasInScreen := true;
        launch := true;
      } else if wasInScreen && !isInScreen {
        ReleaseObject();
        releases := 1;
      }
    }

    /** ReleaseObject: deactivate; the hand-over to the pool is counted by the caller. */
    method ReleaseObject()
      requires Valid()
      modifies this
      ensures Valid()
      ensures State() == Released(old(State()))
    {
      active := false;
    }

    method SetId(id: u16)
      requires Valid()
      modifies this
      ensures Valid()
      ensures State() == WithId(old(State()), id)
    {
      if id > 0 {
        bulletId := id;
      }
    }

    method SetPattern(pattern: BulletPattern, dir: Vector2, levelSpeed: real, bulletOffset: real, signedAngle: real)
      requires Valid()
      modifies this
      ensures Valid()
      ensures State() == WithPattern(old(State()), pattern, dir, levelSpeed, bulletOffset, signedAngle)
    {
      this.levelSpeed := levelSpeed;
      this.pattern := pattern;
      match pattern {
        case Spread =>
          if bulletOffset > 0.0 {
            spreadTimer := bulletOffset * 0.1;
          }
        case Fan =>
          fanCenter := dir;
          var baseAngularDeg := 45.0 + levelSpeed;
          fanAngularSpeedDeg := baseAngularDeg * Sign(signedAngle);
        case _ =>
      }
    }
  }
}
