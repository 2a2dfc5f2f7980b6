/**
 * The progress analyzer run after every session: an overload trend from the
 * first and last logged weights and a strength status from the last two
 * sessions, written over the record's previous progress summary.
 */
module ProgressAnalyzer {
  import opened Wrappers
  import opened Records

  /**
   * `((last - first) / first) * 100` when the first weight is positive, else "N/A".
   * The percentage is exact here; the source formats it to two decimals.
   */
  function Overload(first: SessionLog, last: SessionLog): (t: Trend)
    ensures t.NotApplicable? <==> first.weight <= 0
    ensures t.Percent? ==> (t.value > 0.0 <==> last.weight > first.weight)
    ensures t.Percent? ==> (t.value == 0.0 <==> last.weight == first.weight)
    ensures t.Percent? ==> (t.value < 0.0 <==> last.weight < first.weight)
    ensures t.Percent? ==> t.value * first.weight as real == (last.weight - first.weight) as real * 100.0
  {
    if first.weight > 0 then
      Percent((last.weight - first.weight) as real / first.weight as real * 100.0)
    else
      NotApplicable
  }

  /** Compares the last session with the one before it. */
  function Classify(prev: SessionLog, last: SessionLog): (s: Strength)
    ensures s == Improving <==> last.weight > prev.weight
    ensures s == HoldingSteady <==> last.weight == prev.weight && last.reps > prev.reps
    ensures s == NeedsPush <==> last.weight < prev.weight || (last.weight == prev.weight && last.reps <= prev.reps)
  {
    if last.weight > prev.weight then Improving
    else if last.weight == prev.weight && last.reps > prev.reps then HoldingSteady
    else NeedsPush
  }

  /** The summary for a history, or nothing when there are fewer than two sessions. */
  function Analyze(history: seq<SessionLog>): (p: Option<Progress>)
    ensures p.None? <==> |history| < 2
    ensures p.Some? ==> p.value.overloadTrend == Overload(history[0], history[|history| - 1])
    ensures p.Some? ==> p.value.strengthStatus == Classify(history[|history| - 2], history[|history| - 1])
  {
    if |history| < 2 then None
    else
      var first, prev, last := history[0], history[|history| - 2], history[|history| - 1];
      Some(Progress(Overload(first, last), Classify(prev, last)))
  }

  /**
   * The record after `update_progress`: with fewer than two sessions it is
   * returned untouched; otherwise only its `progress` entry is replaced.
   */
  function Progressed(r: WorkoutRecord): (r': WorkoutRecord)
    ensures |HistoryOf(r)| < 2 ==> r' == r
    ensures |HistoryOf(r)| >= 2 ==> r' == r.(progress := Analyze(HistoryOf(r)))
  {
    match Analyze(HistoryOf(r))
    case None => r
    case Some(p) => r.(progress := Some(p))
  }

  /** Examples: 100 kg then 110 kg is +10%; a first weight of 0 gives "N/A". */
  lemma OverloadExamples(a: SessionLog, b: SessionLog)
    requires a.weight == 100 && b.weight == 110
    ensures Overload(a, b) == Percent(10.0)
    ensures Overload(a.(weight := 0), b.(weight := 10)) == NotApplicable
  {
  }

  /** Examples of the three statuses. */
  lemma ClassifyExamples(a: SessionLog, b: SessionLog)
    requires a.weight == 50 && a.reps == 8
    ensures Classify(a, b.(weight := 50, reps := 10)) == HoldingSteady
    ensures Classify(a, b.(weight := 45)) == NeedsPush
    ensures Classify(a, b.(weight := 55)) == Improving
  {
  }
}
