/**
 * The entries of the coach's memory document: one record per named workout
 * under a body part, each with its own session history and progress summary.
 */
module Records {
  import opened Wrappers
  import opened Text

  /** One finished session, appended to a workout's `history`; weights and reps are whole numbers. */
  datatype SessionLog = SessionLog(
    date: string,
    weight: int,
    reps: int,
    sets: int,
    duration: string,
    caloriesBurned: real)

  /** The `overload_trend` of a progress summary: a signed percentage, or "N/A". */
  datatype Trend = NotApplicable | Percent(value: real)

  /** The `strength_status` of a progress summary. */
  datatype Strength = Improving | HoldingSteady | NeedsPush

  datatype Progress = Progress(overloadTrend: Trend, strengthStatus: Strength)

  /**
   * A workout record. `tip`, `history` and `progress` may be missing from a
   * stored record (the source reads them with `dict.get`), hence the options.
   */
  datatype WorkoutRecord = WorkoutRecord(
    muscleGroups: string,
    description: string,
    timesDone: int,
    tip: Option<string>,
    history: Option<seq<SessionLog>>,
    progress: Option<Progress>)

  /** Tip given to a new workout registered without one. */
  const NewWorkoutTip := "Focus on controlled motion. Think about the muscles in your head to have mind-muscle connection."

  /** Tip spoken after a form warning when the record has no `tip` entry. */
  const FallbackTip := "Focus on controlled motion."

  /** `record.get("history", [])` */
  function HistoryOf(r: WorkoutRecord): seq<SessionLog> {
    r.history.GetOr([])
  }

  /** `record.get("tip", "Focus on controlled motion.")` */
  function FormTip(r: WorkoutRecord): (tip: string)
    ensures r.tip.Some? ==> tip == r.tip.value
    ensures r.tip.None? ==> tip == FallbackTip
  {
    r.tip.GetOr(FallbackTip)
  }

  /**
   * The record a newly described workout starts with: every answer stripped,
   * counted as done once, the default tip when the tip answer is blank, and
   * neither a history nor a progress entry.
   */
  function NewRecord(muscles: string, description: string, tip: string): (r: WorkoutRecord)
    ensures r.timesDone == 1
    ensures r.muscleGroups == Strip(muscles) && r.description == Strip(description)
    ensures r.tip.Some? && r.tip.value != []
    ensures Strip(tip) != [] ==> r.tip.value == Strip(tip)
    ensures Strip(tip) == [] ==> r.tip.value == NewWorkoutTip
    ensures r.history.None? && r.progress.None?
  {
    var t := Strip(tip);
    WorkoutRecord(Strip(muscles), Strip(description), 1, Some(if t != [] then t else NewWorkoutTip), None, None)
  }

  /** Whether starting this workout speaks its description (`times_done == 0` on entry). */
  predicate NarratesDescription(r: WorkoutRecord) {
    r.timesDone == 0
  }

  /** Starting a known workout counts it once; nothing else in the record changes. */
  function Started(r: WorkoutRecord): (r': WorkoutRecord)
    ensures r'.timesDone == r.timesDone + 1
    ensures r' == r.(timesDone := r'.timesDone)
  {
    r.(timesDone := r.timesDone + 1)
  }

  /** `Started` applied `n` times. */
  function StartedTimes(r: WorkoutRecord, n: nat): WorkoutRecord {
    if n == 0 then r else Started(StartedTimes(r, n - 1))
  }

  /** Each start adds exactly one to `times_done`. */
  lemma {:induction false} StartedTimesCount(r: WorkoutRecord, n: nat)
    ensures StartedTimes(r, n).timesDone == r.timesDone + n
  {
    if n > 0 {
      StartedTimesCount(r, n - 1);
    }
  }

  /**
   * A workout registered through the coach starts at `times_done == 1`, so no
   * later start of it ever speaks its description.
   */
  lemma RegisteredNeverNarrates(muscles: string, description: string, tip: string, n: nat)
    ensures !NarratesDescription(StartedTimes(NewRecord(muscles, description, tip), n))
  {
    var r := NewRecord(muscles, description, tip);
    StartedTimesCount(r, n);
  }
}
