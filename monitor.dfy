/**
 * The live session monitor (`simulate_form_feedback`): every tick it advances
 * the heart rate, records a sample, feeds the form signal to the streak
 * counters and drains the commands typed since the previous tick; the first
 * "end workout" ends the session.
 *
 * The random draws, the clock reading, the answer to the tip offer and the
 * lines the background listener queued are inputs: one `Tick` per iteration.
 */
module Monitor {
  import opened Wrappers
  import opened Text
  import opened Duration
  import opened Telemetry

  /** Everything the outside world supplies to one iteration of the loop. */
  datatype Tick = Tick(
    elapsed: nat,            // whole seconds since the session started
    step: int,               // the heart-rate step drawn this tick
    color: Color,            // the form signal drawn this tick
    answer: string,          // the line typed in reply to "Want a tip?", read only after a form warning
    queued: seq<string>)     // the lines the listener read since the last drain, as typed

  /** The values printed for one tick. */
  datatype Sample = Sample(minutes: nat, seconds: nat, heartRate: int, color: Color)

  /** A coaching interjection; a form warning speaks the tip only if the user accepts it. */
  datatype Coaching = FormWarning(spokenTip: Option<string>) | Encouragement

  /** The loop's locals after some ticks, with the samples and interjections so far. */
  datatype MonitorState = MonitorState(
    heartRate: int,
    streaks: Streaks,
    samples: seq<Sample>,
    coaching: seq<Coaching>)

  const EndCommand := "end workout"

  /**
   * The listener reads each line as `input().strip().lower()`; the loop
   * compares the result with "end workout" exactly.
   */
  predicate IsEndCommand(line: string) {
    Normalize(line) == EndCommand
  }

  predicate HasEndCommand(commands: seq<string>) {
    commands != [] && (IsEndCommand(commands[0]) || HasEndCommand(commands[1..]))
  }

  /**
   * "end workout" typed in any case, with any whitespace around it, is the
   * end command.
   */
  lemma EndCommandTolerant(before: string, typed: string, after: string)
    requires forall i :: 0 <= i < |before| ==> IsSpace(before[i])
    requires forall i :: 0 <= i < |after| ==> IsSpace(after[i])
    requires Lower(typed) == EndCommand
    ensures IsEndCommand(before + typed + after)
  {
    var line := before + typed + after;
    LowerAt(typed);
    assert LowerChar(typed[0]) == 'e' && LowerChar(typed[|typed| - 1]) == 't';
    StripStartAt(line, |before|);
    assert line[|before|..] == typed + after;
    StripEndAt(typed + after, |typed|);
    assert (typed + after)[..|typed|] == typed;
  }

  /** For instance, " End Workout" typed with a leading space ends the session. */
  lemma EndCommandExample()
    ensures IsEndCommand(" End Workout")
  {
    var line := " End Workout";
    var typed := line[1..];
    assert line == [' '] + typed + [];
    LowerAt(typed);
    assert forall i :: 0 <= i < |typed| ==> Lower(typed)[i] == EndCommand[i];
    EndCommandTolerant([' '], typed, []);
  }

  /** Whether the drain at this tick sees "end workout". */
  predicate EndsAt(t: Tick) {
    HasEndCommand(t.queued)
  }

  /** The reply to the tip offer, stripped and lower-cased, accepts it only when it is "yes". */
  predicate WantsTip(answer: string) {
    Normalize(answer) == "yes"
  }

  function Initial(): MonitorState {
    MonitorState(StartHeartRate, NoStreak, [], [])
  }

  /** One tick of the loop body, before its command drain. */
  function Step(st: MonitorState, t: Tick, tip: string): MonitorState {
    var hr := NextHeartRate(st.heartRate, t.step);
    var (minutes, seconds) := SplitElapsed(t.elapsed);
    var (streaks, signal) := StreakStep(st.streaks, t.color);
    var said :=
      match signal
      case Calm => []
      case Warn => [FormWarning(if WantsTip(t.answer) then Some(tip) else None)]
      case Praise => [Encouragement];
    MonitorState(hr, streaks, st.samples + [Sample(minutes, seconds, hr, t.color)], st.coaching + said)
  }

  /** The state after running the given ticks from the start of a session. */
  function Run(ticks: seq<Tick>, tip: string): (st: MonitorState)
    ensures |st.samples| == |ticks|
    ensures ValidStreaks(st.streaks)
    ensures MinHeartRate <= st.heartRate <= MaxHeartRate
  {
    if ticks == [] then Initial() else Step(Run(ticks[..|ticks| - 1], tip), ticks[|ticks| - 1], tip)
  }

  /** How many of the last ticks in a row drew colour `c`. */
  function TrailingRun(ticks: seq<Tick>, c: Color): nat {
    if ticks == [] || ticks[|ticks| - 1].color != c then 0 else TrailingRun(ticks[..|ticks| - 1], c) + 1
  }

  /**
   * With steps drawn from [-2, 3], the heart rate after `n` ticks lies in
   * [60, 180] and within [90 - 2n, 90 + 3n].
   */
  lemma {:induction false} HeartRateDrift(ticks: seq<Tick>, tip: string)
    requires forall i :: 0 <= i < |ticks| ==> DrawnStep(ticks[i].step)
    ensures MinHeartRate <= Run(ticks, tip).heartRate <= MaxHeartRate
    ensures StartHeartRate - 2 * |ticks| <= Run(ticks, tip).heartRate <= StartHeartRate + 3 * |ticks|
  {
    if ticks != [] {
      var prefix := ticks[..|ticks| - 1];
      assert forall i :: 0 <= i < |prefix| ==> prefix[i] == ticks[i];
      HeartRateDrift(prefix, tip);
    }
  }

  /**
   * The streak counters are the lengths of the trailing RED and GREEN runs,
   * modulo three: a run of three resets its counter.
   */
  lemma {:induction false} StreaksCountRuns(ticks: seq<Tick>, tip: string)
    ensures Run(ticks, tip).streaks == Streaks(TrailingRun(ticks, Red) % 3, TrailingRun(ticks, Green) % 3)
  {
    if ticks != [] {
      var prefix, t := ticks[..|ticks| - 1], ticks[|ticks| - 1];
      StreaksCountRuns(prefix, tip);
      var n := TrailingRun(prefix, t.color);
      ThirdOfRun(n);
      var after := StreakStep(Run(prefix, tip).streaks, t.color).0;
      assert Run(ticks, tip).streaks == after;
      match t.color
      case Red =>
        assert after == Streaks((n + 1) % 3, 0);
        assert TrailingRun(ticks, Red) == n + 1 && TrailingRun(ticks, Green) == 0;
      case Green =>
        assert after == Streaks(0, (n + 1) % 3);
        assert TrailingRun(ticks, Green) == n + 1 && TrailingRun(ticks, Red) == 0;
      case Yellow =>
        assert after == NoStreak;
        assert TrailingRun(ticks, Red) == 0 && TrailingRun(ticks, Green) == 0;
    }
  }

  /**
   * A tick adds at most one interjection. It adds a form warning exactly when
   * it is RED and completes a RED run whose length is a multiple of three, and
   * encouragement exactly when it is GREEN and does the same for GREEN.
   */
  lemma InterjectionsOnThirds(ticks: seq<Tick>, t: Tick, tip: string)
    ensures var before, after := Run(ticks, tip).coaching, Run(ticks + [t], tip).coaching;
      && (after == before || after == before + [after[|before|]])
      && (after != before && after[|before|].FormWarning? <==> t.color == Red && TrailingRun(ticks + [t], Red) % 3 == 0)
      && (after != before && after[|before|].Encouragement? <==> t.color == Green && TrailingRun(ticks + [t], Green) % 3 == 0)
  {
    var st := Run(ticks, tip);
    var before, after := st.coaching, Run(ticks + [t], tip).coaching;
    RunSnoc(ticks, t, tip);
    StreaksCountRuns(ticks, tip);
    TrailingRunSnoc(ticks, t, t.color);
    var n := TrailingRun(ticks, t.color);
    ThirdOfRun(n);
    var signal := StreakStep(st.streaks, t.color).1;
    if t.color == Yellow {
      assert after == before;
    } else if n % 3 == 2 {
      assert TrailingRun(ticks + [t], t.color) % 3 == 0;
      if t.color == Red {
        assert signal == Warn;
        assert after == before + [FormWarning(if WantsTip(t.answer) then Some(tip) else None)];
      } else {
        assert signal == Praise;
        assert after == before + [Encouragement];
      }
    } else {
      assert TrailingRun(ticks + [t], t.color) % 3 != 0;
      assert signal == Calm;
      assert after == before;
    }
  }

  /** A run of `n + 1` is a multiple of three exactly when `n` leaves remainder two. */
  lemma ThirdOfRun(n: nat)
    ensures n % 3 == 2 <==> (n + 1) % 3 == 0
    ensures (n % 3 + 1) % 3 == (n + 1) % 3
  {
    assert n == 3 * (n / 3) + n % 3;
  }

  /** One more tick extends the trailing run of its own colour and ends every other. */
  lemma TrailingRunSnoc(ticks: seq<Tick>, t: Tick, c: Color)
    ensures TrailingRun(ticks + [t], c) == if t.color == c then TrailingRun(ticks, c) + 1 else 0
  {
    assert (ticks + [t])[..|ticks|] == ticks;
  }

  /** Running one more tick is one more `Step`. */
  lemma RunSnoc(ticks: seq<Tick>, t: Tick, tip: string)
    ensures Run(ticks + [t], tip) == Step(Run(ticks, tip), t, tip)
  {
    assert (ticks + [t])[..|ticks|] == ticks;
  }

  /** A non-interjecting tick leaves the interjections as they were. */
  lemma QuietTick(ticks: seq<Tick>, t: Tick, tip: string)
    requires StreakStep(Run(ticks, tip).streaks, t.color).1 == Calm
    ensures Run(ticks + [t], tip).coaching == Run(ticks, tip).coaching
    ensures Run(ticks + [t], tip).streaks == StreakStep(Run(ticks, tip).streaks, t.color).0
  {
    RunSnoc(ticks, t, tip);
  }

  /**
   * RED, RED, RED after a tick that was not RED (or at the start of a session)
   * gives exactly one form warning and leaves both counters at zero, whatever
   * the user answers to the tip offer.
   */
  lemma ThreeRedsWarnOnce(ticks: seq<Tick>, a: Tick, b: Tick, c: Tick, tip: string)
    requires Run(ticks, tip).streaks.red == 0
    requires a.color == Red && b.color == Red && c.color == Red
    ensures Run(ticks + [a, b, c], tip).coaching
      == Run(ticks, tip).coaching + [FormWarning(if WantsTip(c.answer) then Some(tip) else None)]
    ensures Run(ticks + [a, b, c], tip).streaks == NoStreak
  {
    var s1 := ticks + [a];
    var s2 := s1 + [b];
    QuietTick(ticks, a, tip);
    QuietTick(s1, b, tip);
    RunSnoc(s2, c, tip);
    assert s2 + [c] == ticks + [a, b, c];
  }

  /** RED, YELLOW, RED, RED in the same situation gives no interjection: YELLOW breaks the run. */
  lemma BrokenRedRunIsQuiet(ticks: seq<Tick>, a: Tick, b: Tick, c: Tick, d: Tick, tip: string)
    requires Run(ticks, tip).streaks.red == 0
    requires a.color == Red && b.color == Yellow && c.color == Red && d.color == Red
    ensures Run(ticks + [a, b, c, d], tip).coaching == Run(ticks, tip).coaching
    ensures Run(ticks + [a, b, c, d], tip).streaks == Streaks(2, 0)
  {
    var s1 := ticks + [a];
    var s2 := s1 + [b];
    var s3 := s2 + [c];
    QuietTick(ticks, a, tip);
    QuietTick(s1, b, tip);
    QuietTick(s2, c, tip);
    QuietTick(s3, d, tip);
    assert s3 + [d] == ticks + [a, b, c, d];
  }

  /** The tick whose drain first sees "end workout", if any. */
  function FirstEnd(ticks: seq<Tick>): (r: Option<nat>)
    ensures r.Some? ==> r.value < |ticks| && EndsAt(ticks[r.value])
    ensures r.Some? ==> forall i :: 0 <= i < r.value ==> !EndsAt(ticks[i])
    ensures r.None? ==> forall i :: 0 <= i < |ticks| ==> !EndsAt(ticks[i])
  {
    if ticks == [] then None
    else if EndsAt(ticks[0]) then Some(0)
    else
      match FirstEnd(ticks[1..])
      case None => None
      case Some(i) =>
        assert ticks[1..][i] == ticks[i + 1];
        Some(i + 1)
  }

  /** Extending the ticks by one changes `FirstEnd` only if no earlier tick ended the session. */
  lemma FirstEndExtend(ticks: seq<Tick>, i: nat)
    requires i < |ticks|
    ensures FirstEnd(ticks[..i + 1]) ==
      if FirstEnd(ticks[..i]).Some? then FirstEnd(ticks[..i])
      else if EndsAt(ticks[i]) then Some(i) else None
  {
    var p, q := ticks[..i], ticks[..i + 1];
    assert forall k :: 0 <= k < i ==> q[k] == p[k];
  }

  /** Once a prefix holds an end command, the whole sequence ends there too. */
  lemma FirstEndPrefix(ticks: seq<Tick>, i: nat)
    requires i <= |ticks| && FirstEnd(ticks[..i]).Some?
    ensures FirstEnd(ticks) == FirstEnd(ticks[..i])
  {
    var p := ticks[..i];
    assert forall k :: 0 <= k < i ==> ticks[k] == p[k];
  }

  /**
   * The colour branch of the loop body: updates `red_streak` and
   * `green_streak` for one sample and says which interjection, if any, fires.
   */
  method FeedStreaks(red: nat, green: nat, color: Color) returns (red': nat, green': nat, signal: Signal)
    ensures (Streaks(red', green'), signal) == StreakStep(Streaks(red, green), color)
  {
    red', green', signal := red, green, Calm;
    if color == Red {
      red' := red' + 1;
      green' := 0;
      if red' == 3 {
        signal := Warn;
        red' := 0;
      }
    } else if color == Green {
      green' := green' + 1;
      red' := 0;
      if green' == 3 {
        signal := Praise;
        green' := 0;
      }
    } else {
      red', green' := 0, 0;
    }
  }

  /**
   * Drains one tick's queued lines in arrival order and reports whether one of
   * them is the end command; lines after it are never looked at.
   */
  method Drain(queued: seq<string>) returns (ended: bool)
    ensures ended == HasEndCommand(queued)
  {
    ended := false;
    var j := 0;
    while j < |queued| && !ended
      invariant 0 <= j <= |queued|
      invariant ended ==> HasEndCommand(queued)
      invariant !ended ==> HasEndCommand(queued) == HasEndCommand(queued[j..])
    {
      assert queued[j..][1..] == queued[j + 1..];
      var command := Normalize(queued[j]);
      if command == EndCommand {
        ended := true;
      }
      j := j + 1;
    }
  }

  /**
   * The loop body of the monitor before its drain: advance the heart rate,
   * record the sample, feed the streak counters and speak any interjection.
   */
  method Advance(heartRate: int, redStreak: nat, greenStreak: nat, samples: seq<Sample>,
                 coaching: seq<Coaching>, t: Tick, tip: string)
    returns (heartRate': int, redStreak': nat, greenStreak': nat, samples': seq<Sample>, coaching': seq<Coaching>)
    ensures MonitorState(heartRate', Streaks(redStreak', greenStreak'), samples', coaching')
      == Step(MonitorState(heartRate, Streaks(redStreak, greenStreak), samples, coaching), t, tip)
  {
    var minutes, seconds := t.elapsed / 60, t.elapsed % 60;
    heartRate' := heartRate + t.step;
    heartRate' := if heartRate' < MaxHeartRate then heartRate' else MaxHeartRate;
    heartRate' := if heartRate' > MinHeartRate then heartRate' else MinHeartRate;
    samples' := samples + [Sample(minutes, seconds, heartRate', t.color)];

    var signal;
    redStreak', greenStreak', signal := FeedStreaks(redStreak, greenStreak, t.color);
    coaching' := coaching;
    if signal == Warn {
      var spoken := if WantsTip(t.answer) then Some(tip) else None;
      coaching' := coaching' + [FormWarning(spoken)];
    } else if signal == Praise {
      coaching' := coaching' + [Encouragement];
    }
    assert heartRate' == NextHeartRate(heartRate, t.step);
    assert (minutes, seconds) == SplitElapsed(t.elapsed);
  }

  /**
   * The session loop. It stops after the first tick whose drained commands
   * contain "end workout", or when the supplied ticks run out (the source
   * would keep waiting); its locals are then those `Run` gives for the ticks
   * it went through.
   */
  method MonitorSession(ticks: seq<Tick>, tip: string)
    returns (heartRate: int, samples: seq<Sample>, coaching: seq<Coaching>, ended: bool)
    ensures ended == FirstEnd(ticks).Some?
    ensures |samples| == if ended then FirstEnd(ticks).value + 1 else |ticks|
    ensures heartRate == Run(ticks[..|samples|], tip).heartRate
    ensures samples == Run(ticks[..|samples|], tip).samples
    ensures coaching == Run(ticks[..|samples|], tip).coaching
  {
    var redStreak: nat, greenStreak: nat := 0, 0;
    heartRate := StartHeartRate;
    samples, coaching := [], [];
    ended := false;
    var i := 0;
    while i < |ticks| && !ended
      invariant 0 <= i <= |ticks|
      invariant Run(ticks[..i], tip) == MonitorState(heartRate, Streaks(redStreak, greenStreak), samples, coaching)
      invariant FirstEnd(ticks[..i]) == if ended then Some(i - 1) else None
    {
      var t := ticks[i];
      heartRate, redStreak, greenStreak, samples, coaching :=
        Advance(heartRate, redStreak, greenStreak, samples, coaching, t, tip);
      assert ticks[..i + 1] == ticks[..i] + [t];
      RunSnoc(ticks[..i], t, tip);

      ended := Drain(t.queued);
      FirstEndExtend(ticks, i);
      i := i + 1;
    }
    if ended {
      FirstEndPrefix(ticks, i);
    } else {
      assert ticks[..i] == ticks;
    }
  }
}
