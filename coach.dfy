/**
 * The coach's memory document and the operations of `spot_code.py` that
 * change it in place: loading (with the "History" backfill), the session run
 * with its history append and progress update, and the known-workout lookup
 * and registration of `run`.
 */
module Coach {
  import opened Wrappers
  import opened Text
  import opened Duration
  import opened Records
  import opened ProgressAnalyzer
  import opened Monitor

  /** The six body parts, in the order the source lists them. */
  const BodyParts: seq<string> := ["Arms", "Legs", "Chest", "Back", "Core", "Cardio"]

  /** Body part -> workout name -> record. */
  type Workouts = map<string, map<string, WorkoutRecord>>

  /** The top-level "History" entry: body part -> list (never appended to by the core). */
  type PartHistory = map<string, seq<SessionLog>>

  /**
   * A document as read from the memory file, split in two: `workouts` holds
   * every top-level key except "History" (the body parts), and `history` the
   * "History" entry if present. The source keeps both in one dictionary, so a
   * stored document never has a body part named "History".
   */
  datatype StoredDocument = StoredDocument(workouts: Workouts, history: Option<PartHistory>)

  /** Every body part with an empty workout map: the template used when there is no memory file. */
  function FreshWorkouts(): (ws: Workouts)
    ensures forall p :: p in ws <==> p in BodyParts
    ensures forall p :: p in ws ==> ws[p] == map[]
  {
    map p | p in BodyParts :: map[]
  }

  /**
   * The "History" entry after loading: the stored lists kept as they are,
   * and an empty list added for each body part that has none.
   */
  function BackfilledHistory(h: Option<PartHistory>): (r: PartHistory)
    ensures forall p :: p in BodyParts ==> p in r
    ensures h.Some? ==> forall k :: k in h.value ==> k in r && r[k] == h.value[k]
    ensures forall k :: k in r ==> (h.Some? && k in h.value) || (k in BodyParts && r[k] == [])
  {
    var stored := h.GetOr(map[]);
    map k | k in stored.Keys + (set p | p in BodyParts) :: if k in stored then stored[k] else []
  }

  /** Two "History" maps are equal when they have the same keys and the same lists. */
  lemma HistoryExtensional(a: PartHistory, b: PartHistory)
    requires forall k :: k in a <==> k in b
    requires forall k :: k in a ==> a[k] == b[k]
    ensures a == b
  {
  }

  /**
   * The "History" step of `load_memory`: a missing entry becomes a map of
   * empty lists; a present one gets an empty list for each missing body part.
   */
  method Backfill(stored: Option<PartHistory>) returns (h: PartHistory)
    ensures h == BackfilledHistory(stored)
  {
    ghost var target := BackfilledHistory(stored);
    if stored.None? {
      h := map p | p in BodyParts :: [];
      HistoryExtensional(h, target);
    } else {
      h := stored.value;
      ghost var original := h;
      for i := 0 to |BodyParts|
        invariant forall k :: k in h <==> k in original || k in BodyParts[..i]
        invariant forall k :: k in h ==> h[k] == if k in original then original[k] else []
      {
        if BodyParts[i] !in h {
          h := h[BodyParts[i] := []];
        }
        assert BodyParts[..i + 1] == BodyParts[..i] + [BodyParts[i]];
      }
      assert BodyParts[..|BodyParts|] == BodyParts;
      HistoryExtensional(h, target);
    }
  }

  /**
   * A record after a session ends with `entry`: the entry appended to its
   * history (the history created if absent), then the progress analyzer run.
   */
  function Logged(r: WorkoutRecord, entry: SessionLog): (r': WorkoutRecord)
    ensures r'.history.Some? && HistoryOf(r') == HistoryOf(r) + [entry]
    ensures r'.muscleGroups == r.muscleGroups && r'.description == r.description
    ensures r'.timesDone == r.timesDone && r'.tip == r.tip
    ensures |HistoryOf(r)| == 0 ==> r'.progress == r.progress
    ensures |HistoryOf(r)| >= 1 ==> r'.progress == Analyze(HistoryOf(r) + [entry])
  {
    Progressed(r.(history := Some(HistoryOf(r) + [entry])))
  }

  /** What the user and the clock supply once the session ends. */
  datatype Ending = Ending(
    elapsed: nat,     // whole seconds from the start to the end command
    date: string,     // today's date, "%Y-%m-%d"
    weight: int,      // the three answers, already parsed as integers
    reps: int,
    sets: int,
    calories: real)   // the calorie total, already rounded to two decimals

  /** The session log appended at the end of a session. */
  function LogOf(e: Ending): (entry: SessionLog)
    ensures entry.date == e.date && entry.weight == e.weight && entry.reps == e.reps && entry.sets == e.sets
    ensures entry.caloriesBurned == e.calories
    ensures entry.duration == FormatDuration(e.elapsed)
    ensures ParseDuration(entry.duration) == Some(e.elapsed)
  {
    DurationRoundTrip(e.elapsed);
    SessionLog(e.date, e.weight, e.reps, e.sets, FormatDuration(e.elapsed), e.calories)
  }

  /**
   * The dictionary `{k.strip().lower(): k for k in workouts}` looked up with
   * the normalised spoken name: some stored name that matches, if any does.
   */
  method FindWorkout(workouts: map<string, WorkoutRecord>, spoken: string) returns (matched: Option<string>)
    ensures matched.Some? <==> exists k :: k in workouts && Normalize(k) == Normalize(spoken)
    ensures matched.Some? ==> matched.value in workouts && Normalize(matched.value) == Normalize(spoken)
  {
    var wanted := Normalize(spoken);
    var remaining := workouts.Keys;
    matched := None;
    while remaining != {}
      invariant remaining <= workouts.Keys
      invariant matched.Some? ==> matched.value in workouts && Normalize(matched.value) == wanted
      invariant matched.None? ==> forall k :: k in workouts && k !in remaining ==> Normalize(k) != wanted
      decreases remaining
    {
      var k :| k in remaining;
      // A later key with the same normal form replaces an earlier one, as in the comprehension.
      if Normalize(k) == wanted {
        matched := Some(k);
      }
      remaining := remaining - {k};
    }
  }

  /** The in-memory document: the body-part maps and the top-level "History" entry. */
  class Memory {
    var workouts: Workouts
    var history: PartHistory

    /** `load_memory`: the stored document with "History" backfilled, or the fresh template. */
    constructor Load(stored: Option<StoredDocument>)
      ensures stored.None? ==> workouts == FreshWorkouts()
      ensures stored.Some? ==> workouts == stored.value.workouts
      ensures history == BackfilledHistory(if stored.Some? then stored.value.history else None)
    {
      var h := Backfill(if stored.Some? then stored.value.history else None);
      workouts := if stored.Some? then stored.value.workouts else FreshWorkouts();
      history := h;
    }

    /** `update_progress`: recompute the record's progress summary from its history. */
    method UpdateProgress(part: string, name: string)
      requires part in workouts && name in workouts[part]
      modifies this
      ensures history == old(history)
      ensures workouts == old(workouts)[part := old(workouts)[part][name := Progressed(old(workouts)[part][name])]]
    {
      var record := workouts[part][name];
      var h := HistoryOf(record);
      if |h| < 2 {
        assert workouts[part][name := record] == workouts[part];
        assert workouts[part := workouts[part]] == workouts;
        return;
      }
      var first, last := h[0], h[|h| - 1];
      var trend;
      if first.weight > 0 {
        trend := Percent((last.weight - first.weight) as real / first.weight as real * 100.0);
      } else {
        trend := NotApplicable;
      }
      var prev := h[|h| - 2];
      var strength;
      if last.weight > prev.weight {
        strength := Improving;
      } else if last.weight == prev.weight && last.reps > prev.reps {
        strength := HoldingSteady;
      } else {
        strength := NeedsPush;
      }
      assert trend == Overload(first, last) && strength == Classify(prev, last);
      workouts := workouts[part := workouts[part][name := record.(progress := Some(Progress(trend, strength)))]];
    }

    /** The end of a session: append the log to the record's history, then update its progress. */
    method RecordSession(part: string, name: string, entry: SessionLog)
      requires part in workouts && name in workouts[part]
      modifies this
      ensures history == old(history)
      ensures workouts == old(workouts)[part := old(workouts)[part][name := Logged(old(workouts)[part][name], entry)]]
    {
      var record := workouts[part][name];
      var h := if record.history.Some? then record.history.value else [];
      record := record.(history := Some(h + [entry]));
      var appended := workouts[part := workouts[part][name := record]];
      workouts := appended;
      UpdateProgress(part, name);
      assert appended[part][name := Progressed(record)] == old(workouts)[part][name := Progressed(record)];
    }

    /**
     * `simulate_form_feedback`: run the monitor with the record's tip; if the
     * session ended, append its log and update progress. A session that has
     * not ended changes nothing.
     */
    method SimulateFormFeedback(part: string, name: string, ticks: seq<Tick>, ending: Ending)
      returns (heartRate: int, samples: seq<Sample>, coaching: seq<Coaching>, ended: bool)
      requires part in workouts && name in workouts[part]
      modifies this
      ensures history == old(history)
      ensures ended == FirstEnd(ticks).Some?
      ensures |samples| == if ended then FirstEnd(ticks).value + 1 else |ticks|
      ensures Run(ticks[..|samples|], FormTip(old(workouts)[part][name])).samples == samples
      ensures Run(ticks[..|samples|], FormTip(old(workouts)[part][name])).coaching == coaching
      ensures Run(ticks[..|samples|], FormTip(old(workouts)[part][name])).heartRate == heartRate
      ensures ended ==> workouts == old(workouts)[part := old(workouts)[part][name := Logged(old(workouts)[part][name], LogOf(ending))]]
      ensures !ended ==> workouts == old(workouts)
    {
      var tip := FormTip(workouts[part][name]);
      heartRate, samples, coaching, ended := MonitorSession(ticks, tip);
      if ended {
        RecordSession(part, name, LogOf(ending));
      }
    }

    /**
     * The known-workout branch of `run`: look the spoken name up
     * case-insensitively; on a match, say whether the description is spoken
     * (`times_done == 0` on entry) and count the workout once more.
     */
    method StartKnownWorkout(part: string, spoken: string) returns (matched: Option<string>, narrate: bool)
      requires part in workouts
      modifies this
      ensures history == old(history)
      ensures matched.Some? <==> exists k :: k in old(workouts)[part] && Normalize(k) == Normalize(spoken)
      ensures matched.Some? ==> matched.value in old(workouts)[part] && Normalize(matched.value) == Normalize(spoken)
      ensures matched.Some? ==> narrate == NarratesDescription(old(workouts)[part][matched.value])
      ensures matched.Some? ==> workouts == old(workouts)[part := old(workouts)[part][matched.value := Started(old(workouts)[part][matched.value])]]
      ensures matched.None? ==> !narrate && workouts == old(workouts)
    {
      matched := FindWorkout(workouts[part], spoken);
      narrate := false;
      if matched.Some? {
        var key := matched.value;
        var info := workouts[part][key];
        narrate := info.timesDone == 0;
        info := info.(timesDone := info.timesDone + 1);
        workouts := workouts[part := workouts[part][key := info]];
      }
    }

    /**
     * The new-workout branch of `run`: store the described workout under its
     * stripped name, replacing any record already stored under that exact name.
     */
    method RegisterWorkout(part: string, name: string, muscles: string, description: string, tip: string)
      requires part in workouts
      modifies this
      ensures history == old(history)
      ensures workouts == old(workouts)[part := old(workouts)[part][Strip(name) := NewRecord(muscles, description, tip)]]
    {
      workouts := workouts[part := workouts[part][Strip(name) := NewRecord(muscles, description, tip)]];
    }
  }
}
