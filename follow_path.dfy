/**
 * FollowPath: moves an object along a list of waypoints and back again, like a ping-pong
 * ball. The movement itself (Vector3.MoveTowards with the frame time) is left to the engine;
 * each Update is told whether the object has reached its current target.
 */
module FollowPaths {

  /** A waypoint position; it is only stored and handed back. */
  datatype Position = Position(x: real, y: real, z: real)

  /** How an Update ended: normally, or with an IndexOutOfRangeException from the waypoint array. */
  datatype Outcome = Done | IndexOutOfRange

  /** The index of the waypoint being approached and the direction of travel along the list. */
  datatype Cursor = Cursor(idx: int, direction: int)

  predicate IsDirection(d: int)
  {
    d == 1 || d == -1
  }

  /**
   * The index arithmetic Update runs when the target is reached: step in the current
   * direction; past the last waypoint turn back to the one before it, before the first
   * waypoint turn forward to the one after it, and with fewer than two waypoints use -1.
   */
  function Advance(c: Cursor, count: nat): (r: Cursor)
    ensures IsDirection(r.direction) || r.direction == c.direction
    ensures count >= 2 && 0 <= c.idx < count && IsDirection(c.direction) ==>
      0 <= r.idx < count && IsDirection(r.direction)
    ensures count == 1 && c.idx == 0 && IsDirection(c.direction) ==> r.idx == -1
  {
    var next := c.idx + c.direction;
    if next >= count then Cursor(if count > 1 then count - 2 else -1, -1)
    else if next < 0 then Cursor(if count > 1 then 1 else -1, 1)
    else Cursor(next, c.direction)
  }

  /** The cursor after `k` reached targets. */
  function Walk(c: Cursor, count: nat, k: nat): Cursor
    decreases k
  {
    if k == 0 then c else Walk(Advance(c, count), count, k - 1)
  }

  lemma {:induction false} WalkSplit(c: Cursor, count: nat, a: nat, b: nat)
    ensures Walk(c, count, a + b) == Walk(Walk(c, count, a), count, b)
    decreases a
  {
    if a > 0 {
      WalkSplit(Advance(c, count), count, a - 1, b);
    }
  }

  /** Travelling forward, the index grows by one per reached waypoint up to the last one. */
  lemma {:induction false} WalkForward(i: int, count: nat, k: nat)
    requires 0 <= i && i + k < count
    ensures Walk(Cursor(i, 1), count, k) == Cursor(i + k, 1)
    decreases k
  {
    if k > 0 {
      WalkForward(i + 1, count, k - 1);
    }
  }

  /** Travelling backward, the index shrinks by one per reached waypoint down to the first one. */
  lemma {:induction false} WalkBackward(i: int, count: nat, k: nat)
    requires i < count && 0 <= i - k
    ensures Walk(Cursor(i, -1), count, k) == Cursor(i - k, -1)
    decreases k
  {
    if k > 0 {
      WalkBackward(i - 1, count, k - 1);
    }
  }

  /**
   * With at least two waypoints the path is a ping-pong: from the second waypoint, moving
   * forward, 2 * (count - 1) reached targets lead through the last waypoint and the first one
   * back to the same waypoint and direction.
   */
  lemma {:induction false} PingPongIsPeriodic(count: nat)
    requires count >= 2
    ensures Walk(Cursor(1, 1), count, 2 * (count - 1)) == Cursor(1, 1)
    ensures Walk(Cursor(1, 1), count, count - 2) == Cursor(count - 1, 1)
    ensures Walk(Cursor(1, 1), count, 2 * count - 3) == Cursor(0, -1)
  {
    var n := count;
    WalkForward(1, n, n - 2);
    WalkSplit(Cursor(1, 1), n, n - 2, 1);
    assert Walk(Cursor(n - 1, 1), n, 1) == Cursor(n - 2, -1);
    WalkBackward(n - 2, n, n - 2);
    WalkSplit(Cursor(1, 1), n, n - 1, n - 2);
    WalkSplit(Cursor(1, 1), n, 2 * n - 3, 1);
    assert Walk(Cursor(0, -1), n, 1) == Cursor(1, 1);
  }

  class FollowPath {
    const waypoints: seq<Position>
    var direction: int
    var currentWaypointIdx: int
    var currentTargetPosition: Position

    /** The direction is +1 or -1, and the index is -1 (no target) or a waypoint whose position is the target. */
    ghost predicate Valid()
      reads this
    {
      IsDirection(direction) &&
      -1 <= currentWaypointIdx < |waypoints| &&
      (currentWaypointIdx >= 0 ==> currentTargetPosition == waypoints[currentWaypointIdx])
    }

    /** The field initialisers: direction +1, no target, the zero vector. */
    constructor (waypoints: seq<Position>)
      ensures Valid()
      ensures this.waypoints == waypoints
      ensures direction == 1 && currentWaypointIdx == -1 && currentTargetPosition == Position(0.0, 0.0, 0.0)
    {
      this.waypoints := waypoints;
      direction := 1;
      currentWaypointIdx := -1;
      currentTargetPosition := Position(0.0, 0.0, 0.0);
    }

    /** Awake: with any waypoints, head for the first one; with none, keep no target. */
    method Awake()
      requires Valid()
      modifies this
      ensures Valid() && direction == old(direction)
      ensures |waypoints| > 0 ==> currentWaypointIdx == 0 && currentTargetPosition == waypoints[0]
      ensures |waypoints| == 0 ==>
        currentWaypointIdx == old(currentWaypointIdx) && currentTargetPosition == old(currentTargetPosition)
    {
      if |waypoints| > 0 {
        currentWaypointIdx := 0;
        currentTargetPosition := waypoints[currentWaypointIdx];
      }
    }

    /**
     * Update, as written: with a target and `reached` (MoveTowards arrived at it), the cursor
     * advances and the new target is read from the array, which throws when the index is -1.
     */
    method Update(reached: bool) returns (outcome: Outcome)
      requires Valid()
      modifies this
      ensures old(currentWaypointIdx) < 0 || !reached ==>
        outcome == Done && currentWaypointIdx == old(currentWaypointIdx) &&
        direction == old(direction) && currentTargetPosition == old(currentTargetPosition)
      ensures old(currentWaypointIdx) >= 0 && reached ==>
        Cursor(currentWaypointIdx, direction) == Advance(Cursor(old(currentWaypointIdx), old(direction)), |waypoints|)
      ensures outcome == IndexOutOfRange <==> old(currentWaypointIdx) >= 0 && reached && |waypoints| == 1
      ensures outcome == Done ==> Valid()
      ensures |waypoints| >= 2 && old(currentWaypointIdx) >= 0 ==> currentWaypointIdx >= 0
    {
      if currentWaypointIdx >= 0 {
        if reached {
          currentWaypointIdx := currentWaypointIdx + direction;
          if currentWaypointIdx >= |waypoints| {
            direction := -1;
            if |waypoints| > 1 {
              currentWaypointIdx := |waypoints| - 2;
            } else {
              currentWaypointIdx := -1;
            }
          } else if currentWaypointIdx < 0 {
            direction := 1;
            if |waypoints| > 1 {
              currentWaypointIdx := 1;
            } else {
              currentWaypointIdx := -1;
            }
          }
          if currentWaypointIdx < 0 {
            return IndexOutOfRange;
          }
          currentTargetPosition := waypoints[currentWaypointIdx];
        }
      }
      return Done;
    }

    /**
     * Update as the comments in it intend: with a single waypoint, reaching it ends the
     * movement (index -1) instead of reading the array at -1.
     */
    method UpdateIntended(reached: bool)
      requires Valid()
      modifies this
      ensures Valid()
      ensures old(currentWaypointIdx) < 0 || !reached ==>
        currentWaypointIdx == old(currentWaypointIdx) && direction == old(direction) &&
        currentTargetPosition == old(currentTargetPosition)
      ensures old(currentWaypointIdx) >= 0 && reached ==>
        Cursor(currentWaypointIdx, direction) == Advance(Cursor(old(currentWaypointIdx), old(direction)), |waypoints|)
      ensures |waypoints| == 1 && old(currentWaypointIdx) >= 0 && reached ==> currentWaypointIdx == -1
    {
      if currentWaypointIdx >= 0 {
        if reached {
          currentWaypointIdx := currentWaypointIdx + direction;
          if currentWaypointIdx >= |waypoints| {
            direction := -1;
            if |waypoints| > 1 {
              currentWaypointIdx := |waypoints| - 2;
            } else {
              currentWaypointIdx := -1;
            }
          } else if currentWaypointIdx < 0 {
            direction := 1;
            if |waypoints| > 1 {
              currentWaypointIdx := 1;
            } else {
              currentWaypointIdx := -1;
            }
          }
          if currentWaypointIdx >= 0 {
            currentTargetPosition := waypoints[currentWaypointIdx];
          }
        }
      }
    }
  }

  /** One waypoint: Awake heads for it, and reaching it makes Update throw. */
  method SingleWaypointThrows(p: Position) returns (outcome: Outcome)
    ensures outcome == IndexOutOfRange
  {
    var follower := new FollowPath([p]);
    follower.Awake();
    outcome := follower.Update(true);
  }

  /** With the intended Update, reaching the only waypoint stops the movement. */
  method SingleWaypointStops(p: Position) returns (idx: int)
    ensures idx == -1
  {
    var follower := new FollowPath([p]);
    follower.Awake();
    follower.UpdateIntended(true);
    idx := follower.currentWaypointIdx;
  }
}
