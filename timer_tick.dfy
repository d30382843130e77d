/**
 * The body of the once-a-second timer tick (script.js lines 119-125):
 * the elapsed time since the start and the pace label, shown only when
 * some distance has been covered.
 */
module TimerTick {
  import opened Wrappers
  import opened TimeFormat

  /** `(Date.now() - startTime) / 1000`, from integer milliseconds. */
  function ElapsedSeconds(now: int, startTime: int): real
  {
    (now - startTime) as real / 1000.0
  }

  /** The time label's whole seconds are the elapsed milliseconds divided by 1000, rounded down. */
  lemma ElapsedFloor(now: int, startTime: int)
    ensures ElapsedSeconds(now, startTime).Floor == (now - startTime) / 1000
  {
    var ms := now - startTime;
    var q := ms / 1000;
    var r := ms % 1000;
    assert ms == 1000 * q + r && 0 <= r < 1000;
    assert ms as real / 1000.0 == q as real + r as real / 1000.0;
    assert q as real <= ms as real / 1000.0 < q as real + 1.0;
  }

  /** Seconds per kilometre: `elapsed / (totalDistance / 1000)`. */
  function Pace(elapsed: real, totalDistance: real): (p: real)
    requires totalDistance > 0.0
    ensures p * totalDistance == elapsed * 1000.0
    ensures elapsed >= 0.0 ==> p >= 0.0
  {
    elapsed / (totalDistance / 1000.0)
  }

  /** The pace text, present exactly when the distance is positive, so no division by zero. */
  function PaceLabel(elapsed: real, totalDistance: real): (r: Option<string>)
    ensures r.Some? <==> totalDistance > 0.0
  {
    if totalDistance > 0.0 then Some(FormatTime(Pace(elapsed, totalDistance).Floor) + " /km")
    else None
  }

  /** The time text `formatTime(Math.floor(elapsedTime))`. */
  function TimeLabel(elapsed: real): string
  {
    FormatTime(elapsed.Floor)
  }

  /**
   * With a non-negative elapsed time and a positive distance, the pace
   * label reads back as the whole seconds per kilometre followed by " /km".
   */
  lemma PaceLabelReadsBack(elapsed: real, totalDistance: real)
    requires elapsed >= 0.0 && totalDistance > 0.0
    ensures var r := PaceLabel(elapsed, totalDistance);
            var p := Pace(elapsed, totalDistance);
            r.Some? && |r.value| >= 4 &&
            r.value[|r.value| - 4..] == " /km" &&
            ParseTime(r.value[..|r.value| - 4]) == Some(p.Floor) &&
            p.Floor as real <= p < p.Floor as real + 1.0
  {
    var p := Pace(elapsed, totalDistance);
    var t := FormatTime(p.Floor);
    FormatTimeRoundTrip(p.Floor);
    FormatTimeShape(p.Floor);
    var r := t + " /km";
    assert r[..|r| - 4] == t;
    assert r[|r| - 4..] == " /km";
  }

  /** Once the clock has not gone back, the time label reads back as the whole seconds elapsed. */
  lemma TimeLabelReadsBack(now: int, startTime: int)
    requires now >= startTime
    ensures ParseTime(TimeLabel(ElapsedSeconds(now, startTime))) == Some((now - startTime) / 1000)
  {
    ElapsedFloor(now, startTime);
    FormatTimeRoundTrip((now - startTime) / 1000);
  }
}
