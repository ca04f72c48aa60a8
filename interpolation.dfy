// The constant-velocity, straight-line trajectory interpolator: one live
// segment from a start pose to a target pose in (x, y, z, e) space, where e
// is the auxiliary slider axis. Floats are modelled as reals; millis() and
// the square root of the maths library are parameters.
module Interp {
  import opened Platform

  /** Below this total length (mm) a move is finished as soon as it starts. */
  const SNAP_DISTANCE: real := 0.001
  /** Feed rates are in mm per minute, elapsed times in milliseconds. */
  const MS_PER_MINUTE: real := 60000.0

  datatype Pose = Pose(x: real, y: real, z: real, e: real)

  const Origin: Pose := Pose(0.0, 0.0, 0.0, 0.0)

  /** The sum of the squared component differences of two poses. */
  function SquaredDistance(a: Pose, b: Pose): (d: real)
    ensures 0.0 <= d
    ensures a == b ==> d == 0.0
  {
    var dx, dy, dz, de := b.x - a.x, b.y - a.y, b.z - a.z, b.e - a.e;
    Square(dx);
    Square(dy);
    Square(dz);
    Square(de);
    dx * dx + dy * dy + dz * dz + de * de
  }

  lemma Square(v: real)
    ensures 0.0 <= v * v
  {
  }

  /** The pose a fraction `ratio` of the way from `s` to `t`. */
  function Lerp(s: Pose, t: Pose, ratio: real): (p: Pose)
    ensures ratio == 0.0 ==> p == s
    ensures ratio == 1.0 ==> p == t
    ensures s == t ==> p == s
  {
    Pose(s.x + (t.x - s.x) * ratio, s.y + (t.y - s.y) * ratio,
         s.z + (t.z - s.z) * ratio, s.e + (t.e - s.e) * ratio)
  }

  /** `p` lies on the closed segment from `s` to `t`. */
  ghost predicate OnSegment(s: Pose, t: Pose, p: Pose) {
    exists k :: 0.0 <= k <= 1.0 && p == Lerp(s, t, k)
  }

  /** Distance a move at `feedRate` mm/min covers in `elapsed` ms. */
  function DistanceMoved(feedRate: real, elapsed: uint32): (d: real)
    ensures elapsed == 0 ==> d == 0.0
    ensures 0.0 <= feedRate ==> 0.0 <= d
    ensures 0.0 < feedRate && 0 < elapsed ==> 0.0 < d
  {
    feedRate / MS_PER_MINUTE * elapsed as real
  }

  /** For a non-negative feed rate, the distance covered never decreases with time. */
  lemma DistanceMovedMonotone(feedRate: real, t1: uint32, t2: uint32)
    requires 0.0 <= feedRate && t1 <= t2
    ensures 0.0 <= DistanceMoved(feedRate, t1) <= DistanceMoved(feedRate, t2)
  {
    var v := feedRate / MS_PER_MINUTE;
    assert 0.0 <= v;
    assert v * t1 as real <= v * t2 as real by {
      assert v * (t2 as real - t1 as real) >= 0.0;
    }
  }

  /** The interpolator's whole state. */
  datatype Segment = Segment(start: Pose, target: Pose, current: Pose, feedRate: real,
                             startTime: uint32, totalDistance: real, finished: bool)

  const Initial: Segment := Segment(Origin, Origin, Origin, 0.0, 0, 0.0, true)

  /** What the maths library's sqrt is relied on for. */
  ghost predicate SqrtLaws(sqrt: real -> real) {
    && (forall x :: 0.0 <= x ==> 0.0 <= sqrt(x))
    && sqrt(0.0) == 0.0
  }

  /**
   * The segment invariant: the length is never negative; an unfinished
   * segment is long enough to divide by and, at a non-negative feed rate,
   * its current pose lies on the segment.
   */
  ghost predicate Coherent(s: Segment) {
    && 0.0 <= s.totalDistance
    && (!s.finished ==> SNAP_DISTANCE <= s.totalDistance)
    && (!s.finished && 0.0 <= s.feedRate ==> OnSegment(s.start, s.target, s.current))
  }

  /** setInterpolation: start a new segment from wherever the current pose is. */
  function Begin(s: Segment, target: Pose, feedRate: real, now: uint32, sqrt: real -> real): (r: Segment)
    requires SqrtLaws(sqrt)
    // The pre-call pose becomes the start; any earlier segment is discarded.
    ensures r.start == s.current && r.target == target
    ensures r.feedRate == feedRate && r.startTime == now
    ensures r.totalDistance == sqrt(SquaredDistance(s.current, target))
    // A move shorter than the snap distance ends at once, on its target;
    // a longer one starts at its start pose.
    ensures r.finished <==> r.totalDistance < SNAP_DISTANCE
    ensures r.current == if r.finished then target else s.current
    ensures Coherent(r)
  {
    var total := sqrt(SquaredDistance(s.current, target));
    var r := Segment(s.current, target, s.current, feedRate, now, total, false);
    if total < SNAP_DISTANCE then
      r.(current := target, finished := true)
    else
      assert Lerp(r.start, r.target, 0.0) == r.current;
      r
  }

  /** A move to where the arm already is finishes at once. */
  lemma ZeroLengthMoveFinishes(s: Segment, feedRate: real, now: uint32, sqrt: real -> real)
    requires SqrtLaws(sqrt)
    ensures Begin(s, s.current, feedRate, now, sqrt).finished
    ensures Begin(s, s.current, feedRate, now, sqrt).current == s.current
  {
  }

  /** updateActualPosition at clock reading `now`. */
  function Advance(s: Segment, now: uint32): (r: Segment)
    requires Coherent(s)
    // Only the current pose and the finished flag ever change.
    ensures r == s.(current := r.current, finished := r.finished)
    // A finished segment stays as it is.
    ensures s.finished ==> r == s
    // A segment that completes in this call ends exactly on its target.
    ensures !s.finished && r.finished ==> r.current == s.target
    // While running at a non-negative feed rate, the pose stays on the segment
    // and short of the target.
    ensures !r.finished && 0.0 <= s.feedRate ==>
              exists k :: 0.0 <= k < 1.0 && r.current == Lerp(s.start, s.target, k)
    // The segment finishes exactly when the distance covered since the start
    // time reaches its length; until then the pose is that fraction of the way.
    ensures var moved := DistanceMoved(s.feedRate, WrapSub(now, s.startTime));
            && (r.finished <==> s.finished || moved >= s.totalDistance)
            && (!r.finished ==> r.current == Lerp(s.start, s.target, moved / s.totalDistance))
    ensures Coherent(r)
  {
    if s.finished then s
    else
      var moved := DistanceMoved(s.feedRate, WrapSub(now, s.startTime));
      if moved >= s.totalDistance then
        s.(current := s.target, finished := true)
      else
        var ratio := moved / s.totalDistance;
        if 0.0 <= s.feedRate then
          DistanceMovedMonotone(s.feedRate, 0, WrapSub(now, s.startTime));
          RatioBelowOne(moved, s.totalDistance);
          s.(current := Lerp(s.start, s.target, ratio))
        else
          s.(current := Lerp(s.start, s.target, ratio))
  }

  lemma RatioBelowOne(moved: real, total: real)
    requires 0.0 <= moved < total
    ensures 0.0 <= moved / total < 1.0
  {
    var ratio := moved / total;
    assert (1.0 - ratio) * total == total - moved;
    assert 0.0 < 1.0 - ratio;
  }

  /**
   * Once the elapsed time reaches the segment's travel time
   * (length * 60000 / feed rate), an update lands exactly on the target and
   * finishes the segment.
   */
  lemma ArrivalSnapsToTarget(s: Segment, now: uint32)
    requires Coherent(s) && !s.finished && 0.0 < s.feedRate
    requires WrapSub(now, s.startTime) as real >= s.totalDistance * MS_PER_MINUTE / s.feedRate
    ensures Advance(s, now).finished && Advance(s, now).current == s.target
  {
    var elapsed := WrapSub(now, s.startTime);
    TravelTimeCoversLength(s.feedRate, s.totalDistance, elapsed as real);
    assert DistanceMoved(s.feedRate, elapsed) >= s.totalDistance;
  }

  /** Moving at `feedRate` for at least length * 60000 / feedRate ms covers the length. */
  lemma TravelTimeCoversLength(feedRate: real, length: real, elapsed: real)
    requires 0.0 < feedRate && elapsed >= length * MS_PER_MINUTE / feedRate
    ensures feedRate / MS_PER_MINUTE * elapsed >= length
  {
    var v := feedRate / MS_PER_MINUTE;
    assert length * MS_PER_MINUTE / feedRate == length / v;
    assert v * (length / v) == length;
    assert v * elapsed >= v * (length / v) by {
      assert v * (elapsed - length / v) >= 0.0;
    }
  }

  /**
   * Two updates of the same running segment at a non-negative feed rate, the
   * second at least as late as the first: once the first has finished so has
   * the second, and while the second is still running both report poses on
   * the segment whose fractions of the way never decrease.
   */
  lemma ProgressMonotone(s: Segment, now1: uint32, now2: uint32)
    requires Coherent(s) && !s.finished && 0.0 <= s.feedRate
    requires WrapSub(now1, s.startTime) <= WrapSub(now2, s.startTime)
    ensures Advance(s, now1).finished ==> Advance(s, now2).finished
    ensures !Advance(s, now2).finished ==>
              exists k1, k2 :: 0.0 <= k1 <= k2 < 1.0
                            && Advance(s, now1).current == Lerp(s.start, s.target, k1)
                            && Advance(s, now2).current == Lerp(s.start, s.target, k2)
  {
    var e1, e2 := WrapSub(now1, s.startTime), WrapSub(now2, s.startTime);
    var d1, d2 := DistanceMoved(s.feedRate, e1), DistanceMoved(s.feedRate, e2);
    var total := s.totalDistance;
    var a1, a2 := Advance(s, now1), Advance(s, now2);
    assert a1.finished <==> d1 >= total;
    assert a2.finished <==> d2 >= total;
    DistanceMovedMonotone(s.feedRate, e1, e2);
    if !a2.finished {
      RatioBelowOne(d2, total);
      var k1, k2 := d1 / total, d2 / total;
      QuotientMonotone(d1, d2, total);
      assert a1.current == Lerp(s.start, s.target, k1);
      assert a2.current == Lerp(s.start, s.target, k2);
    }
  }

  /** Dividing by a positive length keeps the order. */
  lemma QuotientMonotone(a: real, b: real, total: real)
    requires a <= b && 0.0 < total
    ensures a / total <= b / total
  {
    assert (b / total - a / total) * total == b - a;
  }

  /** setCurrentPos: re-seed the pose without motion. */
  function Reseed(s: Segment, p: Pose): (r: Segment)
    ensures r == s.(current := p, finished := true)
    ensures Coherent(s) ==> Coherent(r)
  {
    s.(current := p, finished := true)
  }

  class Interpolation {
    const sqrt: real -> real

    var start: Pose
    var target: Pose
    var current: Pose
    var feedRate: real
    var startTime: uint32
    var totalDistance: real
    var finished: bool

    function State(): Segment
      reads this
    {
      Segment(start, target, current, feedRate, startTime, totalDistance, finished)
    }

    ghost predicate Valid()
      reads this
    {
      SqrtLaws(sqrt) && Coherent(State())
    }

    constructor (sqrt: real -> real)
      requires SqrtLaws(sqrt)
      ensures Valid() && this.sqrt == sqrt
      ensures State() == Initial
    {
      this.sqrt := sqrt;
      start, target, current := Origin, Origin, Origin;
      feedRate := 0.0;
      startTime := 0;
      totalDistance := 0.0;
      finished := true;
    }

    /** `now` is the millis() reading when the move is started. */
    method SetInterpolation(tx: real, ty: real, tz: real, te: real, fr: real, now: uint32)
      requires Valid()
      modifies this
      ensures State() == Begin(old(State()), Pose(tx, ty, tz, te), fr, now, sqrt)
      ensures Valid()
    {
      start := current;
      target := Pose(tx, ty, tz, te);
      feedRate := fr;
      var dx, dy, dz, de := target.x - start.x, target.y - start.y, target.z - start.z, target.e - start.e;
      assert dx * dx + dy * dy + dz * dz + de * de == SquaredDistance(start, target);
      totalDistance := sqrt(dx * dx + dy * dy + dz * dz + de * de);
      startTime := now;
      finished := false;
      if totalDistance < SNAP_DISTANCE {
        current := target;
        finished := true;
      }
    }

    /** `now` is the millis() reading at this control cycle. */
    method UpdateActualPosition(now: uint32)
      requires Valid()
      modifies this`current, this`finished
      ensures State() == Advance(old(State()), now)
      ensures Valid()
    {
      if finished {
        return;
      }
      var elapsedTime := WrapSub(now, startTime);
      var distanceMoved := DistanceMoved(feedRate, elapsedTime);
      if distanceMoved >= totalDistance {
        current := target;
        finished := true;
      } else {
        var ratio := distanceMoved / totalDistance;
        current := Lerp(start, target, ratio);
      }
    }

    /** While a move runs at a non-negative feed rate, the reported pose is on its segment. */
    function IsFinished(): (r: bool)
      reads this
      ensures Valid() && !r && 0.0 <= feedRate ==> OnSegment(start, target, current)
    {
      finished
    }

    method SetCurrentPos(x: real, y: real, z: real, e: real)
      requires Valid()
      modifies this`current, this`finished
      ensures State() == Reseed(old(State()), Pose(x, y, z, e))
      ensures Valid()
    {
      current := Pose(x, y, z, e);
      finished := true;
    }
  }
}
