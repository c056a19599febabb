// The red and purple eggs. Each freezes its own rigid body on the frame the
// manager's pause begins and gives the body its motion back on the frame
// the pause ends; when the pallet catches it, it calls the manager
// (explosion for red, speed boost for purple) and is destroyed.

module PausableEggs {
  import opened Physics
  import opened EggSession
  import opened GameManager

  /** The speed an egg starts falling at. */
  const FallSpeed: real := 2.0

  const PlayerTag: string := "Player"
  const GroundTag: string := "Ground"

  /** The part of an egg the pause logic reads and writes: its body and what it stored at the last freeze. */
  datatype Motion = Motion(body: Body, pausedVelocity: Vec2, pausedAngularVelocity: real, wasPaused: bool)

  /** The body an egg leaves Start with: falling straight down, light angular damping, full gravity. */
  function Launched(b: Body): Body {
    b.(linearDamping := 0.0, angularDamping := 0.1, gravityScale := 1.0, linearVelocity := Vec2(0.0, -FallSpeed))
  }

  /**
   * One Update with the manager present, as a function of what it reports:
   * on the frame the pause begins the velocities are stored and the body
   * is frozen as kinematic; on the frame it ends the body is dynamic again
   * with the stored velocities. The remembered flag then always agrees
   * with the manager, and a frame with no change of pause does nothing.
   */
  function PauseStep(m: Motion, isPaused: bool): (r: Motion)
    ensures r.wasPaused == isPaused
    ensures isPaused == m.wasPaused ==> r == m
    ensures r.body.gravityScale == m.body.gravityScale
    ensures r.body.linearDamping == m.body.linearDamping && r.body.angularDamping == m.body.angularDamping
  {
    if isPaused && !m.wasPaused then
      m.(pausedVelocity := m.body.linearVelocity,
         pausedAngularVelocity := m.body.angularVelocity,
         body := m.body.(linearVelocity := Zero2, angularVelocity := 0.0, bodyType := Kinematic),
         wasPaused := true)
    else if !isPaused && m.wasPaused then
      m.(body := m.body.(bodyType := Dynamic,
                         linearVelocity := m.pausedVelocity,
                         angularVelocity := m.pausedAngularVelocity),
         wasPaused := false)
    else m
  }

  /** The motion after one Update per entry of the pause flags the manager reported, in order. */
  function Run(m: Motion, pauses: seq<bool>): Motion
    decreases |pauses|
  {
    if pauses == [] then m else Run(PauseStep(m, pauses[0]), pauses[1..])
  }

  // ---------------------------------------------------------------------
  // Properties

  /**
   * While the pause lasts nothing happens: a frozen egg stays frozen, its
   * body at rest and its stored velocities kept, however many frames pass.
   */
  lemma {:induction false} FrozenWhilePaused(m: Motion, pauses: seq<bool>)
    requires m.wasPaused
    requires forall k :: 0 <= k < |pauses| ==> pauses[k]
    ensures Run(m, pauses) == m
    decreases |pauses|
  {
    if pauses != [] {
      assert PauseStep(m, pauses[0]) == m;
      FrozenWhilePaused(m, pauses[1..]);
    }
  }

  /**
   * The freeze: on the frame the pause begins the egg stops dead as a
   * kinematic body and remembers the velocities it had.
   */
  lemma FreezeOnPause(m: Motion)
    requires !m.wasPaused
    ensures var r := PauseStep(m, true);
      r.body == m.body.(linearVelocity := Zero2, angularVelocity := 0.0, bodyType := Kinematic)
      && r.pausedVelocity == m.body.linearVelocity && r.pausedAngularVelocity == m.body.angularVelocity
  {
  }

  /**
   * A pause of any length, with no outside change to the body, gives a
   * falling egg back exactly the motion it had when the pause began.
   */
  lemma PauseRoundTrip(m: Motion, held: seq<bool>)
    requires !m.wasPaused && m.body.bodyType == Dynamic
    requires forall k :: 0 <= k < |held| ==> held[k]
    ensures Run(m, [true] + held + [false]).body == m.body
    ensures !Run(m, [true] + held + [false]).wasPaused
  {
    var frozen := PauseStep(m, true);
    FrozenWhilePaused(frozen, held);
    RunAppend(m, [true] + held, [false]);
    RunAppend(m, [true], held);
    assert Run(m, [true]) == frozen;
    assert Run(m, [true] + held) == frozen;
  }

  /** Running two lists of frames one after the other is running their concatenation. */
  lemma {:induction false} RunAppend(m: Motion, a: seq<bool>, b: seq<bool>)
    ensures Run(m, a + b) == Run(Run(m, a), b)
    decreases |a|
  {
    if a != [] {
      assert (a + b)[0] == a[0] && (a + b)[1..] == a[1..] + b;
      RunAppend(PauseStep(m, a[0]), a[1..], b);
      assert Run(m, a + b) == Run(PauseStep(m, a[0]), a[1..] + b);
      assert Run(m, a) == Run(PauseStep(m, a[0]), a[1..]);
    } else {
      assert a + b == b;
    }
  }

  // ---------------------------------------------------------------------
  // The components

  /** The red egg: catching it sets off the explosion. */
  class RedEgg {
    var rb: Body
    var pausedVelocity: Vec2
    var pausedAngularVelocity: real
    var wasPaused: bool

    function Current(): Motion
      reads this
    {
      Motion(rb, pausedVelocity, pausedAngularVelocity, wasPaused)
    }

    /** A new egg over the body it was instantiated with; the pause memory starts at its defaults. */
    constructor (rb: Body)
      ensures Current() == Motion(rb, Zero2, 0.0, false)
    {
      this.rb := rb;
      pausedVelocity, pausedAngularVelocity, wasPaused := Zero2, 0.0, false;
    }

    method Start()
      modifies this
      ensures Current() == old(Current()).(body := Launched(old(rb)))
    {
      rb := rb.(linearDamping := 0.0);
      rb := rb.(angularDamping := 0.1);
      rb := rb.(gravityScale := 1.0);
      rb := rb.(linearVelocity := Vec2(0.0, -FallSpeed));
    }

    /** Update: with no manager nothing happens; otherwise one step of the pause edge detector. */
    method Update(manager: EggGameManager?)
      modifies this
      ensures Current() == if manager == null then old(Current()) else PauseStep(old(Current()), manager.isPaused)
    {
      if manager != null {
        var isPaused := manager.IsPaused();
        if isPaused && !wasPaused {
          pausedVelocity := rb.linearVelocity;
          pausedAngularVelocity := rb.angularVelocity;
          rb := rb.(linearVelocity := Zero2, angularVelocity := 0.0, bodyType := Kinematic);
          wasPaused := true;
        } else if !isPaused && wasPaused {
          rb := rb.(bodyType := Dynamic, linearVelocity := pausedVelocity, angularVelocity := pausedAngularVelocity);
          wasPaused := false;
        }
      }
    }

    /**
     * The pallet (tag Player) catching the egg explodes the game, when a
     * manager exists; the pallet or the ground destroys the egg; any other
     * tag does nothing.
     */
    method OnTriggerEnter2D(tag: string, manager: EggGameManager?) returns (destroyed: bool)
      modifies manager
      ensures destroyed <==> tag == PlayerTag || tag == GroundTag
      ensures manager != null ==>
        manager.State() == (if tag == PlayerTag then TriggerExplosionSpec(old(manager.State())) else old(manager.State()))
        && manager.originalObjectStates == old(manager.originalObjectStates)
    {
      destroyed := false;
      if tag == PlayerTag {
        if manager != null {
          manager.TriggerExplosion();
        }
        destroyed := true;
      } else if tag == GroundTag {
        destroyed := true;
      }
    }
  }

  /** The purple egg: catching it starts the speed boost. */
  class PurpleEgg {
    var rb: Body
    var pausedVelocity: Vec2
    var pausedAngularVelocity: real
    var wasPaused: bool

    function Current(): Motion
      reads this
    {
      Motion(rb, pausedVelocity, pausedAngularVelocity, wasPaused)
    }

    constructor (rb: Body)
      ensures Current() == Motion(rb, Zero2, 0.0, false)
    {
      this.rb := rb;
      pausedVelocity, pausedAngularVelocity, wasPaused := Zero2, 0.0, false;
    }

    method Start()
      modifies this
      ensures Current() == old(Current()).(body := Launched(old(rb)))
    {
      rb := rb.(linearDamping := 0.0);
      rb := rb.(angularDamping := 0.1);
      rb := rb.(gravityScale := 1.0);
      rb := rb.(linearVelocity := Vec2(0.0, -FallSpeed));
    }

    method Update(manager: EggGameManager?)
      modifies this
      ensures Current() == if manager == null then old(Current()) else PauseStep(old(Current()), manager.isPaused)
    {
      if manager != null {
        var isPaused := manager.IsPaused();
        if isPaused && !wasPaused {
          pausedVelocity := rb.linearVelocity;
          pausedAngularVelocity := rb.angularVelocity;
          rb := rb.(linearVelocity := Zero2, angularVelocity := 0.0, bodyType := Kinematic);
          wasPaused := true;
        } else if !isPaused && wasPaused {
          rb := rb.(bodyType := Dynamic, linearVelocity := pausedVelocity, angularVelocity := pausedAngularVelocity);
          wasPaused := false;
        }
      }
    }

    /**
     * The pallet (tag Player) catching the egg starts the speed boost once,
     * when a manager exists; the pallet or the ground destroys the egg; any
     * other tag does nothing.
     */
    method OnTriggerEnter2D(tag: string, manager: EggGameManager?) returns (destroyed: bool)
      modifies manager
      ensures destroyed <==> tag == PlayerTag || tag == GroundTag
      ensures manager != null ==>
        manager.State() == (if tag == PlayerTag then TriggerSpeedBoostSpec(old(manager.State())) else old(manager.State()))
        && manager.originalObjectStates == old(manager.originalObjectStates)
    {
      destroyed := false;
      if tag == PlayerTag {
        if manager != null {
          manager.TriggerSpeedBoost();
        }
        destroyed := true;
      } else if tag == GroundTag {
        destroyed := true;
      }
    }
  }
}
