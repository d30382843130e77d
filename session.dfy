/**
 * The tracking session of script.js as an object: the module-level
 * globals (lines 25-31) become fields, the two filters of lines 34-35
 * become constant references, the start handler (lines 53-59) becomes
 * `Start`, the position callback (lines 69-96) `OnPosition` and the body
 * of the timer tick (lines 119-125) `Tick`. Each is proved against the
 * pure functions of `Tracking`, `Kalman` and `TimerTick`.
 */
module Session {
  import opened Wrappers
  import opened Tracking
  import Kalman
  import TimeFormat
  import TimerTick

  /** The tuning and the prior (Dubai) of the two filters. */
  const ProcessNoise: real := 0.0001
  const MeasurementNoise: real := 0.0005
  const InitialError: real := 1.0
  const InitialLatitude: real := 25.276987
  const InitialLongitude: real := 55.296249

  class TrackingSession {
    var totalDistance: real
    var prevPosition: Option<Coord>
    var nextMilestone: int
    var startTime: int
    var lastMilestoneTime: int
    var pathCoordinates: seq<Coord>
    var elapsedTime: real
    const kalmanLat: Kalman.KalmanFilter
    const kalmanLon: Kalman.KalmanFilter
    /** `getDistance`, in metres. */
    const distance: Metric

    function State(): Track
      reads this
    {
      Track(totalDistance, prevPosition, nextMilestone, startTime, lastMilestoneTime,
            pathCoordinates, elapsedTime)
    }

    ghost predicate Valid()
      reads this, kalmanLat, kalmanLon
    {
      kalmanLat != kalmanLon && kalmanLat.Valid() && kalmanLon.Valid() &&
      kalmanLat.processNoise == ProcessNoise && kalmanLat.measurementNoise == MeasurementNoise &&
      kalmanLon.processNoise == ProcessNoise && kalmanLon.measurementNoise == MeasurementNoise &&
      NonNegative(distance) && Inv(State())
    }

    /**
     * The page as loaded: the globals' initial values and two fresh
     * filters. `startTime` and `lastMilestoneTime` are undefined in the
     * source until the first start; they read as 0 here.
     */
    constructor (distance: Metric)
      requires NonNegative(distance)
      ensures Valid() && fresh(kalmanLat) && fresh(kalmanLon)
      ensures this.distance == distance
      ensures State() == Track(0.0, None, MilestoneStep, 0, 0, [], 0.0)
      ensures kalmanLat.State() == Kalman.Estimator(InitialLatitude, InitialError)
      ensures kalmanLon.State() == Kalman.Estimator(InitialLongitude, InitialError)
      ensures kalmanLat.kalmanGain == 0.0 && kalmanLon.kalmanGain == 0.0
    {
      this.distance := distance;
      kalmanLat := new Kalman.KalmanFilter(ProcessNoise, MeasurementNoise, InitialError, InitialLatitude);
      kalmanLon := new Kalman.KalmanFilter(ProcessNoise, MeasurementNoise, InitialError, InitialLongitude);
      totalDistance := 0.0;
      prevPosition := None;
      nextMilestone := MilestoneStep;
      startTime := 0;
      lastMilestoneTime := 0;
      pathCoordinates := [];
      elapsedTime := 0.0;
    }

    /**
     * The start handler: resets the run state at clock reading `now` and
     * leaves both filters as they are, so a second run starts from where
     * the first run's smoothing ended.
     */
    method Start(now: int)
      requires Valid()
      modifies this
      ensures Valid()
      ensures State() == Started(now)
      ensures unchanged(kalmanLat) && unchanged(kalmanLon)
    {
      totalDistance := 0.0;
      prevPosition := None;
      nextMilestone := MilestoneStep;
      startTime := now;
      lastMilestoneTime := startTime;
      pathCoordinates := [];
      elapsedTime := 0.0;
    }

    /** The callback body after filtering (lines 75-96), on smoothed coordinates. */
    method Observe(latitude: real, longitude: real, now: int) returns (event: Option<Milestone>)
      requires Valid()
      modifies this
      ensures Valid()
      ensures (State(), event) == ObserveStep(old(State()), Coord(latitude, longitude), now, distance)
      ensures nextMilestone >= old(nextMilestone) && totalDistance >= old(totalDistance)
      ensures event.Some? ==> event.value.km * MilestoneStep == old(nextMilestone)
      ensures unchanged(kalmanLat) && unchanged(kalmanLon)
    {
      ObservePreservesInv(State(), Coord(latitude, longitude), now, distance);
      event := None;
      if prevPosition.Some? {
        var prev := prevPosition.value;
        var dist := distance(prev, Coord(latitude, longitude));
        totalDistance := totalDistance + dist;
        pathCoordinates := pathCoordinates + [Coord(latitude, longitude)];
        if totalDistance >= nextMilestone as real {
          var timeTaken := RoundToSeconds(now - lastMilestoneTime);
          event := Some(Milestone(nextMilestone / MilestoneStep, timeTaken));
          nextMilestone := nextMilestone + MilestoneStep;
          lastMilestoneTime := now;
        }
      }
      prevPosition := Some(Coord(latitude, longitude));
    }

    /**
     * The whole position callback (lines 69-96): both filters take one
     * step on the raw reading, then the smoothed point is observed.
     */
    method OnPosition(latitude: real, longitude: real, now: int) returns (event: Option<Milestone>)
      requires Valid()
      modifies this, kalmanLat, kalmanLon
      ensures Valid()
      ensures kalmanLat.State() == Kalman.Next(old(kalmanLat.State()), ProcessNoise, MeasurementNoise, latitude)
      ensures kalmanLon.State() == Kalman.Next(old(kalmanLon.State()), ProcessNoise, MeasurementNoise, longitude)
      ensures kalmanLat.kalmanGain == Kalman.Gain(old(kalmanLat.estimateError) + ProcessNoise, MeasurementNoise)
      ensures kalmanLon.kalmanGain == Kalman.Gain(old(kalmanLon.estimateError) + ProcessNoise, MeasurementNoise)
      ensures Kalman.Between(kalmanLat.estimate, old(kalmanLat.estimate), latitude)
      ensures Kalman.Between(kalmanLon.estimate, old(kalmanLon.estimate), longitude)
      ensures (State(), event) ==
                ObserveStep(old(State()), Coord(kalmanLat.estimate, kalmanLon.estimate), now, distance)
    {
      var lat := kalmanLat.Update(latitude);
      var lon := kalmanLon.Update(longitude);
      event := Observe(lat, lon, now);
    }

    /**
     * The body of the one-second timer: the elapsed seconds since the
     * start, the time text, and the pace text when there is a distance.
     */
    method Tick(now: int) returns (timeText: string, paceText: Option<string>)
      requires Valid()
      modifies this`elapsedTime
      ensures Valid()
      ensures elapsedTime == TimerTick.ElapsedSeconds(now, startTime)
      ensures timeText == TimerTick.TimeLabel(elapsedTime)
      ensures paceText == TimerTick.PaceLabel(elapsedTime, totalDistance)
    {
      elapsedTime := (now - startTime) as real / 1000.0;
      timeText := TimeFormat.FormatTime(elapsedTime.Floor);
      if totalDistance > 0.0 {
        var paceInSeconds := TimerTick.Pace(elapsedTime, totalDistance);
        paceText := Some(TimeFormat.FormatTime(paceInSeconds.Floor) + " /km");
      } else {
        paceText := None;
      }
    }
  }
}
