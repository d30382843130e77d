/**
 * The run-tracking state of script.js (the globals of lines 25-31, reset
 * by the start handler at lines 53-59 and advanced by the position
 * callback at lines 75-96), as a value with pure step functions.
 *
 * The distance between two points (`getDistance`, a haversine formula)
 * is a parameter `distance`; everything proved here needs of it only that
 * it is never negative.
 */
module Tracking {
  import opened Wrappers

  datatype Coord = Coord(lat: real, lon: real)

  /** A spoken kilometre announcement: which kilometre, and the seconds since the last one. */
  datatype Milestone = Milestone(km: int, seconds: int)

  /** One smoothed position and the clock reading (milliseconds) when it arrived. */
  datatype Fix = Fix(position: Coord, now: int)

  /** The module-level run state of the source. */
  datatype Track = Track(
    totalDistance: real,
    prevPosition: Option<Coord>,
    nextMilestone: int,
    startTime: int,
    lastMilestoneTime: int,
    pathCoordinates: seq<Coord>,
    elapsedTime: real)

  /** Metres between two points. */
  type Metric = (Coord, Coord) -> real

  /** Metres between consecutive milestone announcements. */
  const MilestoneStep: int := 1000

  ghost predicate NonNegative(distance: Metric)
  {
    forall a, b :: distance(a, b) >= 0.0
  }

  /**
   * What holds of the state between callbacks: the distance is never
   * negative, the next milestone is a whole positive kilometre, and no
   * kilometre has been announced before it was covered.
   */
  predicate Inv(t: Track)
  {
    t.totalDistance >= 0.0 &&
    t.nextMilestone >= MilestoneStep && t.nextMilestone % MilestoneStep == 0 &&
    (t.nextMilestone - MilestoneStep) as real <= t.totalDistance &&
    (t.prevPosition.None? ==> t.pathCoordinates == [] && t.totalDistance == 0.0)
  }

  /** The state the start handler leaves behind, the clock reading `now`. */
  function Started(now: int): (t: Track)
    ensures Inv(t)
    ensures t.totalDistance == 0.0 && t.prevPosition.None? && t.nextMilestone == MilestoneStep
    ensures t.startTime == now && t.lastMilestoneTime == now
    ensures t.pathCoordinates == [] && t.elapsedTime == 0.0
  {
    Track(0.0, None, MilestoneStep, now, now, [], 0.0)
  }

  /**
   * `((ms) / 1000).toFixed(0)` for an integer count of milliseconds: the
   * nearest whole second. `toFixed` rounds the magnitude and puts the sign
   * back, so a half second goes away from zero.
   */
  function RoundToSeconds(ms: int): (s: int)
    ensures ms >= 0 ==> 1000 * s - 500 <= ms < 1000 * s + 500
    ensures ms < 0 ==> 1000 * s - 500 < ms <= 1000 * s + 500
    ensures (ms >= 0 ==> s >= 0) && (ms <= 0 ==> s <= 0)
  {
    if ms >= 0 then (ms + 500) / 1000 else -((-ms + 500) / 1000)
  }

  /** Negative half seconds round away from zero, as `toFixed(0)` does. */
  lemma RoundToSecondsNegativeTies()
    ensures RoundToSeconds(-500) == -1 && RoundToSeconds(-1500) == -2
    ensures RoundToSeconds(500) == 1 && RoundToSeconds(-499) == 0
  {
  }

  /**
   * The position callback after filtering: the first fix after a start
   * only records the position; every later one adds the distance from the
   * previous fix, appends the point to the path, and announces at most
   * one milestone, when the total has reached the next one.
   */
  function ObserveStep(t: Track, c: Coord, now: int, distance: Metric): (r: (Track, Option<Milestone>))
    ensures r.0.prevPosition == Some(c)
    ensures r.0.startTime == t.startTime && r.0.elapsedTime == t.elapsedTime
    ensures t.prevPosition.None? ==> r.0 == t.(prevPosition := Some(c)) && r.1.None?
    ensures t.prevPosition.Some? ==>
              r.0.totalDistance == t.totalDistance + distance(t.prevPosition.value, c) &&
              r.0.pathCoordinates == t.pathCoordinates + [c]
    ensures r.1.Some? <==> t.prevPosition.Some? && r.0.totalDistance >= t.nextMilestone as real
    ensures r.1.Some? ==>
              r.0.nextMilestone == t.nextMilestone + MilestoneStep &&
              r.0.lastMilestoneTime == now &&
              r.1.value == Milestone(t.nextMilestone / MilestoneStep, RoundToSeconds(now - t.lastMilestoneTime))
    ensures r.1.None? ==>
              r.0.nextMilestone == t.nextMilestone && r.0.lastMilestoneTime == t.lastMilestoneTime
  {
    match t.prevPosition
    case None => (t.(prevPosition := Some(c)), None)
    case Some(prev) =>
      var moved := t.(totalDistance := t.totalDistance + distance(prev, c),
                      pathCoordinates := t.pathCoordinates + [c],
                      prevPosition := Some(c));
      if moved.totalDistance >= t.nextMilestone as real then
        var event := Milestone(t.nextMilestone / MilestoneStep, RoundToSeconds(now - t.lastMilestoneTime));
        (moved.(nextMilestone := t.nextMilestone + MilestoneStep, lastMilestoneTime := now), Some(event))
      else
        (moved, None)
  }

  /**
   * One callback keeps the invariant; an announced kilometre is exactly
   * the milestone that was due, and the next one never goes down.
   */
  lemma ObservePreservesInv(t: Track, c: Coord, now: int, distance: Metric)
    requires Inv(t) && NonNegative(distance)
    ensures Inv(ObserveStep(t, c, now, distance).0)
    ensures ObserveStep(t, c, now, distance).0.nextMilestone >= t.nextMilestone
    ensures ObserveStep(t, c, now, distance).0.totalDistance >= t.totalDistance
    ensures var e := ObserveStep(t, c, now, distance).1;
            e.Some? ==> e.value.km >= 1 && e.value.km * MilestoneStep == t.nextMilestone
  {
    var r := ObserveStep(t, c, now, distance);
    if t.prevPosition.Some? {
      assert distance(t.prevPosition.value, c) >= 0.0;
    }
    if r.1.Some? {
      assert r.0.nextMilestone % MilestoneStep == 0;
    }
  }

  /** The smoothed positions of a sequence of fixes. */
  function Positions(fixes: seq<Fix>): (ps: seq<Coord>)
    ensures |ps| == |fixes| && forall i :: 0 <= i < |fixes| ==> ps[i] == fixes[i].position
  {
    seq(|fixes|, i requires 0 <= i < |fixes| => fixes[i].position)
  }

  /** The length of a path: the sum of the distances between consecutive points. */
  function PathLength(ps: seq<Coord>, distance: Metric): real
  {
    if |ps| < 2 then 0.0
    else PathLength(ps[..|ps| - 1], distance) + distance(ps[|ps| - 2], ps[|ps| - 1])
  }

  /** The state after a sequence of callbacks, and the announcements they made, in order. */
  function Run(t: Track, fixes: seq<Fix>, distance: Metric): (Track, seq<Milestone>)
  {
    if fixes == [] then (t, [])
    else
      var (before, events) := Run(t, fixes[..|fixes| - 1], distance);
      var last := fixes[|fixes| - 1];
      var (after, event) := ObserveStep(before, last.position, last.now, distance);
      (after, if event.Some? then events + [event.value] else events)
  }

  /**
   * A whole run from the start, as to position and distance: the path is
   * every fix but the first, the total is the length of the path through
   * all fixes, and the last fix is the previous position.
   */
  lemma {:induction false} RunPath(start: int, fixes: seq<Fix>, distance: Metric)
    ensures var t := Run(Started(start), fixes, distance).0;
            t.startTime == start &&
            (fixes == [] ==> t == Started(start)) &&
            (fixes != [] ==>
               t.prevPosition == Some(fixes[|fixes| - 1].position) &&
               t.pathCoordinates == Positions(fixes)[1..] &&
               t.totalDistance == PathLength(Positions(fixes), distance))
    decreases |fixes|
  {
    if fixes != [] {
      var init := fixes[..|fixes| - 1];
      var last := fixes[|fixes| - 1];
      RunPath(start, init, distance);
      var before := Run(Started(start), init, distance).0;
      var ps := Positions(fixes);
      assert Positions(init) == ps[..|fixes| - 1];
      if init != [] {
        assert ps[..|fixes| - 1][1..] + [ps[|fixes| - 1]] == ps[1..];
        assert before.prevPosition == Some(ps[|fixes| - 2]);
      }
    }
  }

  /**
   * A whole run from the start, as to announcements: the first fix and
   * each later fix announce at most one kilometre, the kilometres come out
   * as 1, 2, 3, … with none skipped, and none is announced before it was
   * covered.
   */
  lemma {:induction false} RunMilestones(start: int, fixes: seq<Fix>, distance: Metric)
    requires NonNegative(distance)
    ensures var r := Run(Started(start), fixes, distance);
            Inv(r.0) &&
            (fixes == [] ==> r.1 == []) &&
            (fixes != [] ==> |r.1| < |fixes|) &&
            r.0.nextMilestone == MilestoneStep * (|r.1| + 1) &&
            (MilestoneStep * |r.1|) as real <= r.0.totalDistance &&
            (forall i :: 0 <= i < |r.1| ==> r.1[i].km == i + 1)
    decreases |fixes|
  {
    if fixes != [] {
      var init := fixes[..|fixes| - 1];
      var last := fixes[|fixes| - 1];
      RunMilestones(start, init, distance);
      var before := Run(Started(start), init, distance);
      var step := ObserveStep(before.0, last.position, last.now, distance);
      ObservePreservesInv(before.0, last.position, last.now, distance);
      if init == [] {
        assert step.1.None?;
      }
      if step.1.Some? {
        assert step.1.value.km == |before.1| + 1;
      }
    }
  }

  /** The clock never goes back, from the start through every fix. */
  predicate ClockMonotone(start: int, fixes: seq<Fix>)
  {
    (forall i :: 0 <= i < |fixes| ==> start <= fixes[i].now) &&
    (forall i, j :: 0 <= i < j < |fixes| ==> fixes[i].now <= fixes[j].now)
  }

  /**
   * With a clock that never goes back, the last milestone time lies
   * between the start and the latest fix, so every announced time is
   * non-negative.
   */
  lemma {:induction false} RunTimes(start: int, fixes: seq<Fix>, distance: Metric)
    requires ClockMonotone(start, fixes)
    ensures var r := Run(Started(start), fixes, distance);
            start <= r.0.lastMilestoneTime &&
            (fixes != [] ==> r.0.lastMilestoneTime <= fixes[|fixes| - 1].now) &&
            (forall i :: 0 <= i < |r.1| ==> r.1[i].seconds >= 0)
    decreases |fixes|
  {
    if fixes != [] {
      var init := fixes[..|fixes| - 1];
      var last := fixes[|fixes| - 1];
      assert ClockMonotone(start, init);
      RunTimes(start, init, distance);
      var before := Run(Started(start), init, distance);
      assert before.0.lastMilestoneTime <= last.now;
      assert RoundToSeconds(last.now - before.0.lastMilestoneTime) >= 0;
    }
  }

  /**
   * The milestone rule is a single `if`: one fix that carries the total
   * from nothing past three kilometres announces only the first, and the
   * second and third stay due.
   */
  lemma OneMilestonePerFix(a: Coord, b: Coord, start: int, now: int)
    requires a != b
    ensures var jump: Metric := (p, q) => if p == q then 0.0 else 3000.0;
            var (t, events) := Run(Started(start), [Fix(a, start), Fix(b, now)], jump);
            t.totalDistance == 3000.0 && events == [Milestone(1, RoundToSeconds(now - start))] &&
            t.nextMilestone == 2000
  {
    var jump: Metric := (p, q) => if p == q then 0.0 else 3000.0;
    var fixes := [Fix(a, start), Fix(b, now)];
    assert fixes[..1] == [Fix(a, start)];
    assert fixes[..1][..0] == [];
    assert Run(Started(start), [], jump) == (Started(start), []);
    var one := [Fix(a, start)];
    assert one[..|one| - 1] == [];
    var first := Run(Started(start), one, jump);
    assert first == (Started(start).(prevPosition := Some(a)), []);
    assert jump(a, b) == 3000.0;
    var second := ObserveStep(first.0, b, now, jump);
    assert second.1 == Some(Milestone(1, RoundToSeconds(now - start)));
  }
}
