# Spot workout coach: a Dafny model of its session logic

Spot is a voice-guided workout coach (`spot_code.py`). It keeps a memory document of
workouts per body part (Arms, Legs, Chest, Back, Core, Cardio). It looks a spoken workout
name up case-insensitively and counts how often each workout was done. During a session
it shows simulated telemetry every tick: elapsed time, a heart rate on a clamped random
walk, and a GREEN/YELLOW/RED form signal. Three REDs in a row offer a tip; three GREENs in
a row give praise. When the user types "end workout", the session is logged in the
workout's history and a progress summary is recomputed. That summary holds an overload
trend and a strength status.

This project models that decision logic and proves its properties. Voice, LLM, file and
threading plumbing are abstracted away.

| file | module | what it models |
|---|---|---|
| `wrappers.dfy` | `Wrappers` | `Option`, standing for a dictionary entry that may be missing |
| `text.dfy` | `Text` | `str.strip()` and `str.lower()` (ASCII), used for every typed name, command and answer |
| `duration.dfy` | `Duration` | splitting elapsed seconds into minutes and seconds, and the stored `"MM:SS"` string |
| `records.dfy` | `Records` | session logs, workout records, progress summaries; new-record shape; `times_done` |
| `progress.dfy` | `ProgressAnalyzer` | `update_progress`: overload trend, strength status, the fewer-than-two no-op |
| `telemetry.dfy` | `Telemetry` | one heart-rate step; one step of the RED/GREEN streak counters |
| `monitor.dfy` | `Monitor` | the tick loop of `simulate_form_feedback`, as a method proved against a fold (`Run`) |
| `coach.dfy` | `Coach` | class `Memory`: `load_memory`, `update_progress`'s write, the session-end append, the lookup and registration in `run` |

Randomness, the clock and console input are inputs. Each loop iteration receives a `Tick`
holding the elapsed seconds, the heart-rate step, the colour, the reply to the tip offer and
the commands queued since the last drain. The session end receives an `Ending` holding the
elapsed seconds, the date, the weight/reps/sets answers and the rounded calorie total.
Typed lines enter the model as typed. The end-command test and the tip-offer test strip and
lower-case them (`Text.Normalize`) before comparing, as the source does when it reads them
(spot_code.py:181, 212).

The memory document is a `Memory` object. Its field `workouts` maps body part to workout
name to record. Its field `history` is the top-level `"History"` entry, kept apart from the
body-part keys. Methods update both in place, as the source updates its dictionary.

Notes on the source (not defects the model corrects):
- `load_memory` backfills only the `"History"` entry. A stored document missing a body-part
  map keeps missing it; only the fresh template (spot_code.py:49-55) has all six.
- A workout registered by the coach starts at `times_done == 1`, and the description is
  spoken only when `times_done == 0`. So the coach never speaks the description of a
  workout it registered itself (`Records.RegisteredNeverNarrates`).
- Two different fallback tips exist. A new workout without a tip gets the long one
  (spot_code.py:136). A record without a `tip` entry offers the short one after a form
  warning (spot_code.py:214).
- Registering a new workout under a name already stored under that exact name replaces
  that record, history included (spot_code.py:311, 316).

## Model

| member | source | states |
|---|---|---|
| `Text.StripStartShape` | spot_code.py:292 | `strip` removes exactly a leading run of whitespace: the result is a suffix of the input, starts with non-space, and everything cut was whitespace |
| `Text.StripEndShape` | spot_code.py:292 | likewise for the trailing run: the result is a prefix and everything cut was whitespace |
| `Text.LowerAt` | spot_code.py:292-293 | `lower` maps each character by itself and keeps the length |
| `Text.StripLower` | spot_code.py:292-293 | stripping and lower-casing commute |
| `Text.NormalizeIdempotent` | spot_code.py:292-293 | normalising a name twice equals normalising it once, so the normalised input matches its own key |
| `Duration.SplitElapsed` | spot_code.py:190-192 | `minutes * 60 + seconds == elapsed` with `0 <= seconds < 60` |
| `Duration.DurationRoundTrip` | spot_code.py:254 | the stored `"MM:SS"` duration reads back as exactly the elapsed seconds it was made from |
| `Duration.FormatDurationInjective` | spot_code.py:254 | different elapsed times give different duration strings |
| `Records.FormTip` | spot_code.py:214 | the record's tip if present, else the short fallback tip |
| `Records.NewRecord` | spot_code.py:125-137 | a new record has stripped fields, `times_done == 1`, a non-empty tip (the default when the answer is blank), no history and no progress |
| `Records.Started` | spot_code.py:303 | starting a workout adds exactly one to `times_done` and changes nothing else |
| `Records.StartedTimesCount` | spot_code.py:303 | after `n` starts, `times_done` has grown by exactly `n` |
| `Records.RegisteredNeverNarrates` | spot_code.py:135 | a workout registered by the coach never has its description spoken, however often it is started |
| `ProgressAnalyzer.Overload` | spot_code.py:147-151 | "N/A" iff the first weight is not positive; otherwise `pct * first == (last - first) * 100`, and the sign of `pct` is the sign of `last - first` |
| `ProgressAnalyzer.Classify` | spot_code.py:153-159 | Improving iff the last weight is higher; Holding steady iff the weights are equal and the reps higher; Needs push iff the weight fell, or it held and the reps did not rise |
| `ProgressAnalyzer.Analyze` | spot_code.py:140-159 | no summary iff fewer than two sessions; otherwise the trend uses the first and last sessions and the status uses the last two |
| `ProgressAnalyzer.Progressed` | spot_code.py:139-164 | with fewer than two sessions the record is unchanged; otherwise only `progress` is replaced, by the analysis |
| `ProgressAnalyzer.OverloadExamples` | spot_code.py:147-151 | 100 then 110 gives +10%; a first weight of 0 gives "N/A" |
| `ProgressAnalyzer.ClassifyExamples` | spot_code.py:153-159 | 50x8 then 50x10 holds steady; 50 then 45 needs a push; 50 then 55 improves |
| `Telemetry.NextHeartRate` | spot_code.py:194-195 | the new heart rate is in [60, 180]; it is the raised value when that is in range, else the bound it crossed |
| `Telemetry.StreakStep` | spot_code.py:207-226 | valid counters stay valid (both at most 2, at most one non-zero); YELLOW clears both silently; a warning fires iff RED follows two REDs; praise iff GREEN follows two GREENs; each colour clears the other counter |
| `Monitor.Run` | spot_code.py:189-226 | after any ticks: one sample per tick, valid streak counters, heart rate in [60, 180] |
| `Monitor.HeartRateDrift` | spot_code.py:174-195 | with steps in [-2, 3], after `n` ticks the heart rate is in [60, 180] and in [90 - 2n, 90 + 3n] |
| `Monitor.StreaksCountRuns` | spot_code.py:207-226 | each counter equals the length of the trailing run of its colour, modulo 3 |
| `Monitor.InterjectionsOnThirds` | spot_code.py:207-223 | a tick adds at most one interjection: a form warning iff it is RED and ends a RED run whose length is a multiple of 3, praise likewise for GREEN |
| `Monitor.ThreeRedsWarnOnce` | spot_code.py:207-216 | RED, RED, RED with no RED run before gives exactly one warning (with the tip iff the reply, stripped and lower-cased, is "yes") and leaves both counters at 0 |
| `Monitor.BrokenRedRunIsQuiet` | spot_code.py:207-226 | RED, YELLOW, RED, RED with no RED run before gives no interjection |
| `Monitor.EndCommandTolerant` | spot_code.py:181-183 | "end workout" typed in any case and with any whitespace around it is the end command |
| `Monitor.EndCommandExample` | spot_code.py:181-183 | " End Workout", typed with a leading space and capitals, ends the session |
| `Monitor.FirstEnd` | spot_code.py:228-230 | the first tick whose queued lines include one that normalises to "end workout"; no earlier tick has one; none means no tick has one |
| `Monitor.FeedStreaks` | spot_code.py:207-226 | the colour branch of the loop body computes exactly `StreakStep` |
| `Monitor.Drain` | spot_code.py:228-230 | draining a tick's queue reports whether one of its lines, stripped and lower-cased, is "end workout" |
| `Monitor.Advance` | spot_code.py:190-226 | one pass of the loop body before the drain moves the heart rate, samples, counters and interjections exactly as one `Step` of the session |
| `Monitor.MonitorSession` | spot_code.py:189-230 | the loop ends iff some tick's drain sees "end workout", right after that tick; the heart rate, samples and interjections are those `Run` gives for the ticks it went through |
| `Coach.FreshWorkouts` | spot_code.py:49-55 | the template has exactly the six body parts, each with an empty workout map |
| `Coach.BackfilledHistory` | spot_code.py:38-44 | after loading, "History" has all six body parts; stored lists are unchanged; every added key is a body part with an empty list |
| `Coach.Backfill` | spot_code.py:38-44 | the loading step computes exactly `BackfilledHistory` |
| `Coach.Logged` | spot_code.py:249-258 | a session end appends exactly one entry to the history (creating it if absent) and keeps earlier entries and the other fields; progress is recomputed iff there was already a session |
| `Coach.LogOf` | spot_code.py:248-256 | the log carries the date, weight, reps, sets and calories given, and the zero-padded `"MM:SS"` duration, which reads back as the elapsed seconds |
| `Coach.FindWorkout` | spot_code.py:292-296 | a workout is found iff some stored name normalises to the normalised input, and the found name does |
| `Coach.Memory.Load` | spot_code.py:33-64 | the fresh template when nothing is stored; otherwise the stored workouts, with "History" backfilled |
| `Coach.Memory.UpdateProgress` | spot_code.py:139-164 | only the named record changes, and it becomes `Progressed` of itself |
| `Coach.Memory.RecordSession` | spot_code.py:249-258 | only the named record changes, and it becomes `Logged` with the new entry; all other workouts and body parts are unchanged |
| `Coach.Memory.SimulateFormFeedback` | spot_code.py:167-273 | runs the monitor with the record's tip, returning the heart rate, samples and interjections `Run` gives for the ticks it went through; an ended session logs exactly one entry in the named record; otherwise nothing changes |
| `Coach.Memory.StartKnownWorkout` | spot_code.py:291-306 | a match exists iff some stored name normalises like the input; on a match, the description is spoken iff `times_done` was 0, and `times_done` grows by one; otherwise nothing changes |
| `Coach.Memory.RegisterWorkout` | spot_code.py:308-318 | the described workout is stored under its stripped name as `NewRecord` |

## Left out

- Voice output, console printing and the summaries spoken at the session end (spot_code.py:26-29, 237-245, 260-271): foreign side effects. Interjections appear as the `Coaching` log instead.
- Speech recognition, the GPT4All chat and `gpt4all_test.py`: wrappers over external models and microphones.
- JSON file persistence (`load_memory`'s file read, `save_memory` and its calls): file I/O. The stored document is a constructor argument.
- The race between the listener and the tip prompt (spot_code.py:181, 212): both call `input()` on the same console, so a reply to "Want a tip?" can be taken by the listener and queued as an ignored command. The model assumes the prompt receives the reply (`Tick.answer`) and that no typed line reaches both readers.
- The background listener thread and its queue (spot_code.py:177-187): concurrency. Each tick receives the commands queued since the last drain as a plain sequence. The listener's stop after "end workout" is not modelled, since nothing after that command is ever drained.
- `random`, `time.time`, `time.sleep` and `datetime.now`: these are fields of `Tick` and `Ending`. The clock is assumed not to run backwards, so elapsed time is a `nat`.
- Calorie accumulation (spot_code.py:175, 196): float arithmetic with rounding. The rounded total is an input of the session end.
- Monitor.MonitorSession: stops when the supplied ticks run out without an end command, where the source keeps looping.
- ProgressAnalyzer.Overload: the percentage is an exact `real`. The source's float division and its `+.2f` formatting are not modelled; the value and its sign are.
- Text.Normalize: ASCII only; Python's Unicode whitespace and case mapping are not modelled.
- Body-part selection, the yes/no question "a workout I know?" and the new-workout prompts (spot_code.py:110-123, 125-131): console I/O. Their answers are method arguments.
- `int(input(...))` parse failures (spot_code.py:251-253): console I/O. The source calls `setdefault` before reading the answers, so a failed parse can leave behind an empty `history` list; that path is not modelled.
- Ties in the case-insensitive lookup: when two stored names normalise alike, the source picks the later one in insertion order. `Coach.FindWorkout` picks some matching name.
- The `"History"` key shows up as a choice in body-part selection, because `list(memory.keys())` includes it. Selection is not modelled, so the model's body parts never include it.
