// The pallet the player moves between four lanes. Its position on screen
// belongs to the engine; what is modelled is the lane index it aims at,
// the flag saying it is still travelling, and how key presses and the
// manager's pause and explosion gate them.

module PalletInput {
  import opened Physics
  import opened GameManager

  /** The keys the pallet reacts to; any other key is Other. */
  datatype Key = Q | R | A | D | Alpha1 | Alpha2 | Alpha3 | Alpha4 | Other

  /** The lane the pallet aims at when the scene starts. */
  const StartLane: int := 1

  /** The two keys that select lane i; none past the fourth lane. */
  function LaneKeys(i: nat): set<Key> {
    match i
    case 0 => {Q, Alpha1}
    case 1 => {R, Alpha2}
    case 2 => {A, Alpha3}
    case 3 => {D, Alpha4}
    case _ => {}
  }

  /** Some key of lane i was pressed this frame. */
  predicate Pressed(keys: set<Key>, i: nat) {
    LaneKeys(i) * keys != {}
  }

  /** The lane HandleInput asks MoveTo for, testing the lanes in order; None when no lane key is down. */
  function Requested(keys: set<Key>): Option<int> {
    if Q in keys || Alpha1 in keys then Some(0)
    else if R in keys || Alpha2 in keys then Some(1)
    else if A in keys || Alpha3 in keys then Some(2)
    else if D in keys || Alpha4 in keys then Some(3)
    else None
  }

  /** MoveTo accepts an index inside the array whose slot holds a position. */
  predicate Accepts(positions: seq<bool>, i: int) {
    0 <= i < |positions| && positions[i]
  }

  /**
   * The lane after MoveTo(i): a lane that was a valid index, or that held
   * a position, stays so.
   */
  function MoveTarget(positions: seq<bool>, current: int, i: int): (r: int)
    ensures 0 <= current < |positions| ==> 0 <= r < |positions|
    ensures Accepts(positions, current) ==> Accepts(positions, r)
    ensures r != current ==> r == i && Accepts(positions, i)
  {
    if Accepts(positions, i) then i else current
  }

  /** The input gate: no new lane while travelling, or while the manager reports paused or exploded. */
  predicate InputBlocked(isMoving: bool, halted: bool) {
    isMoving || halted
  }

  /** The lane after one HandleInput call. */
  function AfterInput(positions: seq<bool>, current: int, isMoving: bool, halted: bool, keys: set<Key>): int {
    if InputBlocked(isMoving, halted) then current
    else match Requested(keys)
      case None => current
      case Some(i) => MoveTarget(positions, current, i)
  }

  // ---------------------------------------------------------------------
  // Properties

  /**
   * Key priority: lane i is requested exactly when one of its keys is down
   * and no key of a lower lane is; nothing is requested exactly when no
   * lane key is down.
   */
  lemma RequestedIsLowestLane(keys: set<Key>, i: nat)
    ensures Requested(keys) == Some(i) <==> i < 4 && Pressed(keys, i) && forall j: nat :: j < i ==> !Pressed(keys, j)
    ensures Requested(keys) == None <==> forall j: nat :: j < 4 ==> !Pressed(keys, j)
  {
    assert Pressed(keys, 0) <==> Q in keys || Alpha1 in keys by {
      assert Q in keys ==> Q in LaneKeys(0) * keys;
      assert Alpha1 in keys ==> Alpha1 in LaneKeys(0) * keys;
    }
    assert Pressed(keys, 1) <==> R in keys || Alpha2 in keys by {
      assert R in keys ==> R in LaneKeys(1) * keys;
      assert Alpha2 in keys ==> Alpha2 in LaneKeys(1) * keys;
    }
    assert Pressed(keys, 2) <==> A in keys || Alpha3 in keys by {
      assert A in keys ==> A in LaneKeys(2) * keys;
      assert Alpha3 in keys ==> Alpha3 in LaneKeys(2) * keys;
    }
    assert Pressed(keys, 3) <==> D in keys || Alpha4 in keys by {
      assert D in keys ==> D in LaneKeys(3) * keys;
      assert Alpha4 in keys ==> Alpha4 in LaneKeys(3) * keys;
    }
    if Requested(keys) == None {
      forall j: nat | j < 4 ensures !Pressed(keys, j) {
      }
    }
  }

  /**
   * HandleInput: while travelling, paused or exploded the lane never
   * changes; otherwise it is the lowest pressed lane if MoveTo accepts it,
   * and the current one if not. A valid lane stays valid.
   */
  lemma AfterInputOutcome(positions: seq<bool>, current: int, isMoving: bool, halted: bool, keys: set<Key>, i: nat)
    ensures InputBlocked(isMoving, halted) ==> AfterInput(positions, current, isMoving, halted, keys) == current
    ensures !InputBlocked(isMoving, halted) && i < 4 && Pressed(keys, i) && (forall j: nat :: j < i ==> !Pressed(keys, j)) ==>
      AfterInput(positions, current, isMoving, halted, keys) == (if Accepts(positions, i) then i else current)
    ensures (forall j: nat :: j < 4 ==> !Pressed(keys, j)) ==> AfterInput(positions, current, isMoving, halted, keys) == current
    ensures 0 <= current < |positions| ==> 0 <= AfterInput(positions, current, isMoving, halted, keys) < |positions|
    ensures Accepts(positions, current) ==> Accepts(positions, AfterInput(positions, current, isMoving, halted, keys))
  {
    RequestedIsLowestLane(keys, i);
  }

  // ---------------------------------------------------------------------
  // The component

  class Pallet {
    /** Which of the serialized position slots hold a transform. */
    const positions: seq<bool>
    var currentPosition: int
    var isMoving: bool

    /** The lane index is inside the position array. */
    predicate Valid()
      reads this
    {
      0 <= currentPosition < |positions|
    }

    /** The field initialisers; Start reads slot 1, so the array has at least two slots. */
    constructor (positions: seq<bool>)
      requires StartLane < |positions|
      ensures this.positions == positions
      ensures currentPosition == StartLane && !isMoving
      ensures Valid()
    {
      this.positions := positions;
      currentPosition := StartLane;
      isMoving := false;
    }

    method MoveTo(positionIndex: int)
      requires Valid()
      modifies this`currentPosition
      ensures Valid()
      ensures currentPosition == MoveTarget(positions, old(currentPosition), positionIndex)
    {
      if 0 <= positionIndex < |positions| && positions[positionIndex] {
        currentPosition := positionIndex;
      }
    }

    /** True when the manager exists and reports paused or exploded. */
    static method Halted(manager: EggGameManager?) returns (halted: bool)
      ensures halted <==> manager != null && (manager.isPaused || manager.exploded)
    {
      halted := false;
      if manager != null {
        halted := manager.IsPaused();
        if !halted {
          halted := manager.IsExploded();
        }
      }
    }

    method HandleInput(manager: EggGameManager?, keys: set<Key>)
      requires Valid()
      modifies this`currentPosition
      ensures Valid()
      ensures currentPosition ==
        AfterInput(positions, old(currentPosition), isMoving,
                   manager != null && (manager.isPaused || manager.exploded), keys)
    {
      if isMoving {
        return;
      }
      var halted := Halted(manager);
      if halted {
        return;
      }
      if Q in keys || Alpha1 in keys {
        MoveTo(0);
      } else if R in keys || Alpha2 in keys {
        MoveTo(1);
      } else if A in keys || Alpha3 in keys {
        MoveTo(2);
      } else if D in keys || Alpha4 in keys {
        MoveTo(3);
      }
    }

    /**
     * Update: input first, then, unless the manager reports paused or
     * exploded, travel toward the lane's position. Whether the pallet is
     * still more than 0.1 away from it after this frame's input is the
     * parameter farFromTarget.
     */
    method Update(manager: EggGameManager?, keys: set<Key>, farFromTarget: bool)
      requires Valid()
      modifies this
      ensures Valid()
      ensures var halted := manager != null && (manager.isPaused || manager.exploded);
        currentPosition == AfterInput(positions, old(currentPosition), old(isMoving), halted, keys)
        && isMoving == (if halted || !positions[currentPosition] then old(isMoving) else farFromTarget)
    {
      HandleInput(manager, keys);
      var halted := Halted(manager);
      if halted {
        return;
      }
      if positions[currentPosition] {
        isMoving := farFromTarget;
      }
    }
  }
}
