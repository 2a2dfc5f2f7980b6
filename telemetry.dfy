/**
 * One tick of simulated telemetry: the heart-rate random walk and the
 * run-length counters over the colour-coded form signal.
 */
module Telemetry {

  const StartHeartRate := 90
  const MinHeartRate := 60
  const MaxHeartRate := 180

  /** What `random.randint(-2, 3)` can draw as a heart-rate step. */
  predicate DrawnStep(step: int) {
    -2 <= step <= 3
  }

  /** `max(60, min(heart_rate + step, 180))` */
  function NextHeartRate(hr: int, step: int): (r: int)
    ensures MinHeartRate <= r <= MaxHeartRate
    ensures MinHeartRate <= hr + step <= MaxHeartRate ==> r == hr + step
    ensures hr + step < MinHeartRate ==> r == MinHeartRate
    ensures hr + step > MaxHeartRate ==> r == MaxHeartRate
  {
    var raised := hr + step;
    var capped := if raised < MaxHeartRate then raised else MaxHeartRate;
    if capped > MinHeartRate then capped else MinHeartRate
  }

  /** The form signal drawn each tick. */
  datatype Color = Green | Yellow | Red

  /** The `red_streak` and `green_streak` counters. */
  datatype Streaks = Streaks(red: nat, green: nat)

  const NoStreak := Streaks(0, 0)

  /** What a sample makes the coach do: nothing, warn about form, or praise. */
  datatype Signal = Calm | Warn | Praise

  /** Both counters below three, and at most one of them running. */
  predicate ValidStreaks(s: Streaks) {
    s.red <= 2 && s.green <= 2 && (s.red == 0 || s.green == 0)
  }

  /**
   * Feeds one colour to the counters. A RED (GREEN) extends its own run and
   * clears the other; the third in a row signals and clears its own counter,
   * whatever the user then answers. YELLOW clears both.
   */
  function StreakStep(s: Streaks, c: Color): (r: (Streaks, Signal))
    ensures ValidStreaks(s) ==> ValidStreaks(r.0)
    ensures c == Yellow ==> r == (NoStreak, Calm)
    ensures r.1 == Warn <==> c == Red && s.red == 2
    ensures r.1 == Praise <==> c == Green && s.green == 2
    ensures c == Red ==> r.0.green == 0
    ensures c == Green ==> r.0.red == 0
    ensures ValidStreaks(s) && c == Red ==> r.0.red == (s.red + 1) % 3
    ensures ValidStreaks(s) && c == Green ==> r.0.green == (s.green + 1) % 3
  {
    match c
    case Red =>
      var red := s.red + 1;
      if red == 3 then (Streaks(0, 0), Warn) else (Streaks(red, 0), Calm)
    case Green =>
      var green := s.green + 1;
      if green == 3 then (Streaks(0, 0), Praise) else (Streaks(0, green), Calm)
    case Yellow =>
      (Streaks(0, 0), Calm)
  }
}
