# Bot-likeness scorer: a Dafny model of its decision logic

The scorer reads one recorded browser session and returns a bot-likeness score. A
session holds pointer movements, clicks and mouse presses, each with a position and an
ISO-8601 timestamp. The scorer also reads an action script: the click targets the
session was supposed to hit. A feature engineer first turns the raw event lists into a
feature record:

- movement kinematics (velocity spread and mean, pixels per movement, movement count,
  heading spread);
- a press/move corroboration flag;
- inter-click path rows for the checkbox challenge;
- the session duration;
- the raw click list, echoed.

The heuristic analyzers then turn that record into a table of `{score, weight}` entries:

1. a click-compliance gate;
2. a movement floor;
3. velocity, movement-count and checkbox-path scores.

Finally the table is averaged and exported as `1 − average`.

The code lives in three near-duplicate packages: the main line (`rt_hb_score`), a
word-challenge variant (`rt_wc_score`) and an authentication variant (`rt_au_score`).
Where they differ, the model has one function per variant.

The model is written with immutable datatypes and pure functions:

- Coordinates are integers.
- A timestamp is an integer count of microseconds, or absent when it does not parse.
- A JSON `null` entry in an event list is a `None` record.
- A Python exception caught by the code is an `Option`, a `Dropped` outcome or the
  fallback value of the `except` branch, at the point where the code catches it.
- Euclidean distance, the turning angle, the heading spread and the standard deviation
  are fields of a `Geometry` parameter, each with only the laws a proof needs (for
  example `dist(p, q) >= 0`, zero exactly when `p == q`).
- The shared piecewise-linear scoring function and its clamp are fields of a `Scorer`
  parameter, with no assumed shape or range.

Modules follow the program:

| module | models |
|---|---|
| `Records` | events, parsing |
| `Sorting` | Python's stable sort |
| `Geometry` | the geometry parameter |
| `Scoring` | the scoring parameter |
| `Features` | feature-record values |
| `ClickMatch` | first-within-tolerance matching |
| `ArgCompare` | the compliance check |
| `Paths` | interval windows and turning angles |
| `CheckboxEventsHb` | checkbox processor, main line |
| `CheckboxEventsWc` | checkbox processor, word-challenge variant |
| `MouseDownUp` | press/move corroboration |
| `MouseMovement` | movement processor |
| `Session` | session duration |
| `FeatureEngineer` | the merge into the feature record |
| `MovementCount` | movement-count analyzers |
| `CheckboxPath` | checkbox-path analyzers |
| `ScoreTable` | score tables as insertion-ordered dictionaries |
| `MouseEvents` | mouse-event analyzers |
| `Heuristic` | the final aggregation |

The compliance check's warning "Click {index} was clicked but in wrong order"
(`src/rt_hb_score/heuristics/mouse_events/compare/main.py:51`) suggests that script
order is enforced, and a reader might expect a matched click to be used up. Neither
happens. Each target takes the first time-sorted recorded click inside its tolerance
box, and nothing is consumed, so one click may serve several targets. The re-check at
lines 48-52 tests each matched click against the very target it was chosen for, so it
can never fail. `ArgCompare.OneClickServesTwoTargets`, `ArgCompare.ScriptOrderNotEnforced`
and `ClickMatch.RecheckCannotFail` state these consequences.

## Model

| member | source | states |
|---|---|---|
| Sorting.SortBy | src/rt_hb_score/preprocessing/feature_engineer/mouse_events/_mouse_movement.py:104-106 | the sorted list is ordered by the key and is a permutation of the input |
| Sorting.SortByStable | src/rt_hb_score/preprocessing/feature_engineer/checkboxes/_checkbox_events.py:155 | the sort is stable: for every key, the elements carrying it appear in their input order (the raw-timestamp ties of the checkbox matcher) |
| Records.NonNull | src/rt_hb_score/preprocessing/feature_engineer/mouse_events/_mouse_movement.py:100 | the null filter keeps every present record and nothing else, and is the identity on a list without nulls |
| Records.NonNullAppend | src/rt_hb_score/preprocessing/feature_engineer/mouse_events/_mouse_movement.py:100 | the null filter keeps order: filtering a concatenation concatenates the filtered parts |
| ClickMatch.TargetsAppend | src/rt_hb_score/heuristics/mouse_events/compare/main.py:27-31 | target selection is an order-preserving filter: the targets of a concatenated script are the concatenated targets |
| ClickMatch.OtherTypesIgnored | src/rt_hb_score/heuristics/mouse_events/compare/main.py:27-31 | actions of another type never yield a target |
| ClickMatch.TargetsCount | src/rt_hb_score/heuristics/mouse_events/compare/main.py:27-31 | at most one target per action, and one per action exactly when every action has the target type |
| ClickMatch.FirstIndex | src/rt_hb_score/heuristics/mouse_events/compare/main.py:34-41 | the search position is the first click inside the box: every earlier click lies outside it, and the position is past the end when none lies inside |
| ClickMatch.FirstWithin | src/rt_hb_score/heuristics/mouse_events/compare/main.py:34-41 | the `next(...)` search finds a click exactly when some click lies in the inclusive box, and what it finds lies in the box |
| ClickMatch.FirstWithinLeast | src/rt_hb_score/heuristics/mouse_events/compare/main.py:26-41 | over a time-sorted list the match found is the earliest click in the box |
| ClickMatch.Within | src/rt_hb_score/heuristics/mouse_events/compare/main.py:32-43 | the matched list has one click per matched target; it has one per target exactly when every target has a click in its box, and then entry i is target i's first match |
| ClickMatch.RecheckCannotFail | src/rt_hb_score/heuristics/mouse_events/compare/main.py:47-55 | once every target is matched, the per-index "wrong order" re-check passes for every index |
| ClickMatch.HasWithinPermutation | src/rt_hb_score/heuristics/mouse_events/compare/main.py:26-43 | whether a target has a match does not depend on the order of the clicks |
| ArgCompare.SortedMatchIffRecorded | src/rt_hb_score/heuristics/mouse_events/compare/main.py:26-43 | a target matches in the sorted clicks exactly when some recorded click lies in its box |
| ArgCompare.CheckClicks | src/rt_hb_score/heuristics/mouse_events/compare/main.py:14-57 | the verdict is `None`, 0 or 1; `None` exactly for readable clicks and a script without targets; 1 exactly for readable clicks, at least one target and every target covered; an unreadable click gives 0 |
| ArgCompare.Compare | src/rt_hb_score/heuristics/mouse_events/compare/main.py:14-26 | the clicks are read with default `[]`; an event list is checked as is; a number under the clicks key makes the sort raise, giving 0 |
| ArgCompare.NoClicksFails | src/rt_hb_score/heuristics/mouse_events/compare/main.py:24-45 | with at least one target, a missing or empty click list gives 0 |
| ArgCompare.OrderIndependent | src/rt_hb_score/heuristics/mouse_events/compare/main.py:26-57 | permuting the recorded clicks never changes the verdict |
| ArgCompare.OneClickServesTwoTargets | src/rt_hb_score/heuristics/mouse_events/compare/main.py:33-43 | a single click inside two overlapping boxes satisfies both targets (clicks are not consumed) |
| ArgCompare.ScriptOrderNotEnforced | src/rt_hb_score/heuristics/mouse_events/compare/main.py:47-57 | clicking two targets in the reverse of script order gives 1 |
| Geometry.PathLengthZeroIffStatic | src/rt_hb_score/preprocessing/feature_engineer/mouse_events/_mouse_movement.py:153-164 | the summed step distance is never negative, and is 0 exactly for a static trace |
| Geometry.ChordAtMostPath | src/rt_hb_score/preprocessing/feature_engineer/checkboxes/_checkbox_events.py:78-92 | the chord from first to last point is at most the summed segment length |
| Paths.Between | src/rt_hb_score/preprocessing/feature_engineer/checkboxes/_checkbox_events.py:125-127 | the window keeps only movements with `t1 <= t <= t2` (bounds inclusive) and every recorded movement in that range; `BetweenCount` adds multiplicities |
| Paths.Window | src/rt_hb_score/preprocessing/feature_engineer/checkboxes/_checkbox_events.py:125-131 | the sorted window is ordered by time and is a permutation of the in-interval movements, so each repeated movement is kept as many times as it was recorded |
| Paths.BetweenCount | src/rt_hb_score/preprocessing/feature_engineer/checkboxes/_checkbox_events.py:125-127 | a movement in the interval occurs in the window exactly as often as in the recording; one outside it does not occur at all |
| Paths.BetweenAppend | src/rt_hb_score/preprocessing/feature_engineer/checkboxes/_checkbox_events.py:125-127 | the filter distributes over concatenation, so it keeps the recorded order |
| Paths.WindowCount | src/rt_hb_score/preprocessing/feature_engineer/checkboxes/_checkbox_events.py:125-131 | sorting keeps every in-interval movement as often as it was recorded and drops every other movement |
| Paths.ReversedWindowEmpty | src/rt_hb_score/preprocessing/feature_engineer/checkboxes/_checkbox_events.py:125-127 | an interval with `t1 > t2` has no movements |
| Paths.ProperTurns | src/rt_hb_score/preprocessing/feature_engineer/checkboxes/_checkbox_events.py:56-73 | a turn with a zero-length segment is skipped, so a path of n points yields at most n−2 angles |
| Paths.AllTurns | src/rt_wc_score/modules/preprocessing/feature_engineer/checkboxes/_checkbox_events.py:51-70 | every turn yields an angle (1.0 for a degenerate one), so a path of n ≥ 2 points yields exactly n−2 |
| Paths.ProperTurnsEmptyIff | src/rt_hb_score/preprocessing/feature_engineer/checkboxes/_checkbox_events.py:56-75 | the angle list is empty exactly when no interior point has two non-degenerate segments |
| Paths.ProperTurnsInRange | src/rt_hb_score/preprocessing/feature_engineer/checkboxes/_checkbox_events.py:65-73 | every kept angle is an arc-cosine in [0, π] |
| Paths.AllTurnsInRange | src/rt_wc_score/modules/preprocessing/feature_engineer/checkboxes/_checkbox_events.py:59-70 | every angle, the degenerate default 1.0 included, is in [0, π] |
| Paths.IntervalRows | src/rt_hb_score/preprocessing/feature_engineer/checkboxes/_checkbox_events.py:118-150 | n sorted timestamps give n−1 rows, row i from the window between timestamps i and i+1, and the whole result fails exactly when one window fails |
| Paths.StraightnessInRange | src/rt_hb_score/preprocessing/feature_engineer/checkboxes/_checkbox_events.py:87-94 | for a path whose ends differ, straightness (chord over summed segments) lies in (0, 1] |
| Paths.MeanTurnNormalised | src/rt_wc_score/modules/preprocessing/feature_engineer/checkboxes/_checkbox_events.py:90-92 | mean angle over π and one minus it both lie in [0, 1] |
| CheckboxEventsHb.MatchedClicks | src/rt_hb_score/preprocessing/feature_engineer/checkboxes/_checkbox_events.py:153-175 | succeeds exactly when every target has a click in its box; then one click per target, each in its target's box, each with the least raw timestamp string among that box's clicks |
| CheckboxEventsHb.ReachedIffSorted | src/rt_hb_score/preprocessing/feature_engineer/checkboxes/_checkbox_events.py:155-173 | sorting the clicks by raw timestamp does not change which targets can be matched |
| CheckboxEventsHb.Instants | src/rt_hb_score/preprocessing/feature_engineer/checkboxes/_checkbox_events.py:120-123 | the matched timestamps parse exactly when each does, and then in order |
| CheckboxEventsHb.Linearity | src/rt_hb_score/preprocessing/feature_engineer/checkboxes/_checkbox_events.py:43-96 | fewer than 5 points or a closed path gives (1, 1, 1); an open path of 5 or more points without a proper turn raises; otherwise the angle spread is the heading spread, straightness is in (0, 1] and consistency in [0, 1] |
| CheckboxEventsHb.IntervalRow | src/rt_hb_score/preprocessing/feature_engineer/checkboxes/_checkbox_events.py:125-140 | an interval without movements gets the row (1.0, 1.0, 1.0) |
| CheckboxEventsHb.Segment | src/rt_hb_score/preprocessing/feature_engineer/checkboxes/_checkbox_events.py:114-151 | fewer than 2 timestamps give an invalid empty result; otherwise n−1 rows; `is_valid` exactly when a row exists; an unreadable movement drops the result |
| CheckboxEventsHb.ProcessSequence | src/rt_hb_score/preprocessing/feature_engineer/checkboxes/_checkbox_events.py:98-151 | an unmatched target gives `{is_valid: False, between_path: []}`; a valid result has one row fewer than the script has actions, and every action is a click |
| CheckboxEventsHb.Checkbox | src/rt_hb_score/preprocessing/feature_engineer/checkboxes/_checkbox_events.py:21-41 | an empty click list or a null click gives `{}`; a valid result has one row fewer than the script has actions |
| CheckboxEventsHb.UnmatchedTargetInvalid | src/rt_hb_score/preprocessing/feature_engineer/checkboxes/_checkbox_events.py:109-112 | a target with no click in its box makes the result invalid and empty |
| CheckboxEventsHb.OtherActionInvalidates | src/rt_hb_score/preprocessing/feature_engineer/checkboxes/_checkbox_events.py:114-116 | a script with a non-click action never yields a valid result |
| CheckboxEventsHb.SingleTargetInvalid | src/rt_hb_score/preprocessing/feature_engineer/checkboxes/_checkbox_events.py:109-118 | a script with fewer than two click targets yields an invalid empty result |
| CheckboxEventsHb.UnassignedConsistency | src/rt_hb_score/preprocessing/feature_engineer/checkboxes/_checkbox_events.py:56-85 | an open five-point path whose turns are all degenerate leaves the consistency unassigned, and the lookup raises |
| CheckboxEventsWc.Linearity | src/rt_wc_score/modules/preprocessing/feature_engineer/checkboxes/_checkbox_events.py:42-110 | fewer than 5 points or a closed path return a pair, which fails to unpack; otherwise consistency + average angle = 1, average angle is the mean turn over π, straightness in (0, 1] |
| CheckboxEventsWc.IntervalRow | src/rt_wc_score/modules/preprocessing/feature_engineer/checkboxes/_checkbox_events.py:135-151 | an empty window gets (1.0, 1.0, 0.0); the row fails exactly when the window is non-empty and short or closed |
| CheckboxEventsWc.ProcessSequence | src/rt_wc_score/modules/preprocessing/feature_engineer/checkboxes/_checkbox_events.py:112-163 | unreadable clicks raise; fewer than 3 clicks give an invalid empty result; an unreadable movement drops the result; a valid result has one row per consecutive pair of all recorded clicks, none matched against the script |
| CheckboxEventsWc.Checkbox | src/rt_wc_score/modules/preprocessing/feature_engineer/checkboxes/_checkbox_events.py:21-41 | an empty click list gives `{}`; otherwise the sequence result |
| CheckboxEventsWc.ShortWindowDrops | src/rt_wc_score/modules/preprocessing/feature_engineer/checkboxes/_checkbox_events.py:135-145 | one window with 1 to 4 movements turns the whole result into `{}` |
| CheckboxEventsWc.RowsComplementary | src/rt_wc_score/modules/preprocessing/feature_engineer/checkboxes/_checkbox_events.py:90-95 | in every row, angle consistency plus average angle is 1 |
| MouseDownUp.WithinRangeIsBox | src/rt_au_score/preprocessing/feature_engineer/mouse_events/_mouse_down_up.py:59-67 | the range test is the inclusive per-axis box of half-width `tolerance` around the press |
| MouseDownUp.BisectLeft | src/rt_au_score/preprocessing/feature_engineer/mouse_events/_mouse_down_up.py:74 | the binary search returns a position inside the searched range (its split property is `MouseDownUp.BisectLeftSplits`) |
| MouseDownUp.BisectLeftSplits | src/rt_au_score/preprocessing/feature_engineer/mouse_events/_mouse_down_up.py:74 | on a sorted list, `bisect_left` splits it into times below the press and times at or after it |
| MouseDownUp.PyIndex | src/rt_au_score/preprocessing/feature_engineer/mouse_events/_mouse_down_up.py:76 | Python indexing: a negative index counts from the end |
| MouseDownUp.PairIndexIsLastBefore | src/rt_au_score/preprocessing/feature_engineer/mouse_events/_mouse_down_up.py:72-77 | each press is paired with the last movement strictly before it, or with the latest movement when none precedes it |
| MouseDownUp.Mismatches | src/rt_au_score/preprocessing/feature_engineer/mouse_events/_mouse_down_up.py:70-81 | the mismatch count is at most the number of presses, and 0 exactly when every press is corroborated |
| MouseDownUp.MismatchRatio | src/rt_au_score/preprocessing/feature_engineer/mouse_events/_mouse_down_up.py:69-83 | no presses or no movements raise; otherwise the ratio is in [0, 1] and 0 exactly when every press is corroborated |
| MouseDownUp.Flag | src/rt_au_score/preprocessing/feature_engineer/mouse_events/_mouse_down_up.py:20-57 | the output flag is 0 or 1 |
| MouseDownUp.FlagZeroIff | src/rt_au_score/preprocessing/feature_engineer/mouse_events/_mouse_down_up.py:20-57 | the flag is 0 exactly when both lists are non-empty and readable and every press's paired movement is in range |
| MouseDownUp.PressOrderIndependent | src/rt_au_score/preprocessing/feature_engineer/mouse_events/_mouse_down_up.py:24-45 | the flag does not depend on the order the presses were recorded in |
| MouseDownUp.EarlyPressWrapsToLatest | src/rt_au_score/preprocessing/feature_engineer/mouse_events/_mouse_down_up.py:74-76 | a press before every movement is paired with the latest movement (index −1) |
| Session.Duration | src/rt_hb_score/preprocessing/feature_engineer/checkboxes/session.py:30-50 | the duration is never negative, and is 0 for an empty or single-sample list and for an unreadable entry |
| Session.DurationIsSpan | src/rt_hb_score/preprocessing/feature_engineer/checkboxes/session.py:38-45 | for readable movements the duration is (latest − earliest) in seconds |
| Session.OrderIndependent | src/rt_au_score/modules/preprocessing/feature_engineer/checkboxes/session.py:38-48 | the duration does not depend on the order of the movements |
| MouseMovement.StepVelocity | src/rt_hb_score/preprocessing/feature_engineer/mouse_events/_mouse_movement.py:129-138 | a step's velocity is 0 when Δt = 0, otherwise velocity × Δt equals the distance, and it is non-negative for increasing time |
| MouseMovement.Velocities | src/rt_hb_score/preprocessing/feature_engineer/mouse_events/_mouse_movement.py:129-140 | one velocity per consecutive pair of samples, entry i from samples i and i+1 |
| MouseMovement.VelocitiesNonNegative | src/rt_hb_score/preprocessing/feature_engineer/mouse_events/_mouse_movement.py:129-140 | over a time-sorted trace every velocity is non-negative |
| MouseMovement.ComputeVelocity | src/rt_hb_score/preprocessing/feature_engineer/mouse_events/_mouse_movement.py:92-144 | `None` exactly for an empty list or fewer non-null samples than the floor; `[]` when a timestamp does not parse; otherwise one velocity per consecutive pair of non-null samples, all non-negative |
| MouseMovement.VelocityAvg | src/rt_hb_score/preprocessing/feature_engineer/mouse_events/_mouse_movement.py:30 | the average is 0 without velocities and non-negative over non-negative velocities |
| MouseMovement.Density | src/rt_hb_score/preprocessing/feature_engineer/mouse_events/_mouse_movement.py:188-214 | 0 for no movements or at least as many clicks as movements; otherwise a null or unreadable movement raises, and the result is non-negative |
| MouseMovement.StaticTraceDensityZero | src/rt_hb_score/preprocessing/feature_engineer/mouse_events/_mouse_movement.py:153-214 | a trace that stays at one point has density 0 |
| MouseMovement.AngleStd | src/rt_hb_score/preprocessing/feature_engineer/mouse_events/_mouse_movement.py:63-90 | the heading spread is 0 for an empty list, for fewer non-null samples than the floor, and when a timestamp does not parse |
| MouseMovement.Movement | src/rt_hb_score/preprocessing/feature_engineer/mouse_events/_mouse_movement.py:22-51 | the error path (a density that raises) returns four zeros and no angle key; otherwise the count is the raw list length, velocities are 0 below the floor, density is 0 without movements or with too many clicks, and everything is non-negative |
| FeatureEngineer.MovementPart | src/rt_hb_score/preprocessing/feature_engineer/mouse_events/_mouse_movement.py:33-51 | the movement dictionary always has the four kinematic keys, at most the angle key besides, and its count is the movement-list length, or 0 on the error path |
| FeatureEngineer.DownUpPart | src/rt_au_score/preprocessing/feature_engineer/mouse_events/_mouse_down_up.py:49-57 | the press/move dictionary has exactly the output key, holding 0 or 1 |
| FeatureEngineer.CheckboxPart | src/rt_hb_score/preprocessing/feature_engineer/checkboxes/_checkbox_events.py:30-41 | the checkbox dictionary is empty or holds exactly the validity and path keys, and is empty for a missing or empty click list |
| FeatureEngineer.SessionPart | src/rt_hb_score/preprocessing/feature_engineer/checkboxes/session.py:30-50 | the session dictionary has exactly the duration key |
| FeatureEngineer.Merge | src/rt_hb_score/preprocessing/feature_engineer/_main.py:58-69 | the merged keys are the union of the parts' keys; each key holds the value of the last part that has it |
| FeatureEngineer.Engineer | src/rt_hb_score/preprocessing/feature_engineer/_main.py:45-69 | the record's keys are the movement, press/move, checkbox and session keys plus the click key, and the click key holds the raw click list (default `[]`) |
| FeatureEngineer.KeysOfDefault | src/rt_hb_score/preprocessing/feature_engineer/_main.py:58-69 | with the shipped names the record has the seven fixed keys, and only the angle and checkbox keys besides (no keyboard feature) |
| FeatureEngineer.NoClicksNoCheckboxPair | src/rt_hb_score/preprocessing/feature_engineer/_main.py:55-69 | without clicks the record has no validity or path key, and echoes an empty click list |
| FeatureEngineer.DownUpFlagKept | src/rt_hb_score/preprocessing/feature_engineer/_main.py:56-69 | the press/move flag reaches the record as 0 or 1 when no later part reuses its key |
| FeatureEngineer.SessionTimeKept | src/rt_hb_score/preprocessing/feature_engineer/_main.py:57-69 | the session duration reaches the record unless the click key reuses its name |
| MovementCount.Below | src/rt_hb_score/heuristics/mouse_events/movement_count/_main.py:27-30 | the `<` comparison raises on a non-number, and is otherwise the numeric test |
| MovementCount.Or | src/rt_hb_score/heuristics/mouse_events/movement_count/_main.py:27-31 | Python's short-circuit `or`: a true left operand skips the right one, and a raise propagates |
| MovementCount.MovementCountHb | src/rt_hb_score/heuristics/mouse_events/movement_count/_main.py:20-75 | the gate gives all three keys 1; a raising comparison gives only two keys, both 1; past the gate the three keys, each the scoring function of its own feature with its fixed rule (density, count, heading spread), a key repeated in the literal keeping the later score |
| MovementCount.TooLowHbIff | src/rt_hb_score/heuristics/mouse_events/movement_count/_main.py:24-31 | the gate stays shut exactly when all three features (default 0) are numbers at or above their floors |
| MovementCount.MissingPixelGatesHb | src/rt_hb_score/heuristics/mouse_events/movement_count/_main.py:24-36 | a missing density reads as 0, below its floor, so all three scores are 1 |
| MovementCount.OwnFeatureOnlyHb | src/rt_hb_score/heuristics/mouse_events/movement_count/_main.py:37-69 | past the gate each of the three scores depends on its own feature alone: two records agreeing on a feature get the same score for it |
| MovementCount.ShortCircuitHb | src/rt_hb_score/heuristics/mouse_events/movement_count/_main.py:27-36 | a low density short-circuits the test before a non-numeric count can raise |
| MovementCount.MovementCountAu | src/rt_au_score/heuristics/mouse_events/movement_count/_main.py:20-62 | always exactly the two keys; the gate or an exception sets both to 1; otherwise each feature is scored with its fixed rule |
| MovementCount.GateIffAu | src/rt_au_score/heuristics/mouse_events/movement_count/_main.py:24-33 | the fallback is taken exactly when either feature is not a number or is below its floor |
| CheckboxPath.Scan | src/rt_hb_score/heuristics/mouse_events/checkbox_path/checkbox_sequence.py:18-54 | the running maximum is non-negative, bounds every analyzed row's pair score and is 0 or attained; the count is 0 exactly when no row is analyzed |
| CheckboxPath.ScanPermutation | src/rt_hb_score/heuristics/mouse_events/checkbox_path/checkbox_sequence.py:21-54 | the maximum and whether any row was analyzed do not depend on row order |
| CheckboxPath.PathScoreHb | src/rt_hb_score/heuristics/mouse_events/checkbox_path/checkbox_sequence.py:16-65 | a missing or falsy validity flag gives 1.0; the score is in [0, 1]. Past the flag: a missing path key, a number or a flag under it raises, giving 0.0; a list of events gives 0.0 exactly when one is null and 1.0 otherwise; a list of rows with none analyzed gives 1.0, and otherwise the score bounds every capped pair score |
| CheckboxPath.PathScoreHbAttained | src/rt_hb_score/heuristics/mouse_events/checkbox_path/checkbox_sequence.py:53-59 | when some row is analyzed the score is 0 or the capped pair score of one of them |
| CheckboxPath.RowOrderIndependent | src/rt_hb_score/heuristics/mouse_events/checkbox_path/checkbox_sequence.py:21-59 | the path score does not depend on the order of the interval rows |
| CheckboxPath.SentinelRowIgnored | src/rt_hb_score/heuristics/mouse_events/checkbox_path/checkbox_sequence.py:27-33 | a row carrying a sentinel value changes neither the maximum nor the count |
| CheckboxPath.PathScoreWc | src/rt_wc_score/modules/heuristics/mouse_events/checkbox_path/checkbox_sequence.py:16-64 | the result is 0.0 or 1.0; a falsy flag and every list of rows give 1.0; 0.0 exactly when the flag is set and the rows are missing, a number, or contain a null |
| ScoreTable.Put | src/rt_hb_score/heuristics/mouse_events/_main.py:85-90 | after the assignment the name maps to the new entry and every other name to what it did; an existing name keeps its position, a new one is appended |
| ScoreTable.PutKeepsDistinct | src/rt_hb_score/heuristics/mouse_events/_main.py:85-90 | assignment never repeats a name |
| ScoreTable.BuildNames | src/rt_hb_score/heuristics/mouse_events/_main.py:53-84 | a dictionary literal holds exactly the names of its entries |
| ScoreTable.BuildDistinct | src/rt_hb_score/heuristics/mouse_events/_main.py:53-84 | a literal without repeated names is the list of its entries, in order |
| ScoreTable.LookupDistinct | src/rt_hb_score/heuristics/mouse_events/_main.py:53-90 | in a table without repeated names, `table[name]` of an entry's name is that entry |
| MouseEvents.SixEntriesHb | src/rt_hb_score/heuristics/mouse_events/_main.py:53-84 | the literal lists the six configured names in order |
| MouseEvents.MouseEventsHb | src/rt_hb_score/heuristics/mouse_events/_main.py:31-97 | a compliance verdict of 0 gives the single `bot_behavior` entry; a missing or non-numeric count gives the single `error_score` entry; a count below the floor gives `bot_behavior`; every gate that fires returns one of those two tables |
| MouseEvents.FullTableHb | src/rt_hb_score/heuristics/mouse_events/_main.py:52-91 | past the gates, with distinct names, the table is the six entries in order, plus the mouse-down entry exactly when that feature (default 1) is positive |
| MouseEvents.EntriesHb | src/rt_hb_score/heuristics/mouse_events/_main.py:52-90 | past the gates, with distinct names, each of the six entries scores its analyzer's value under its name (1.0 when absent) with its configured weight; the mouse-down entry is `{score 1, weight 1.0}` when that feature (default 1) is positive and absent otherwise |
| MouseEvents.CheckboxEntryHb | src/rt_hb_score/heuristics/mouse_events/_main.py:50-77 | fed the checkbox-path analyzer's map, the checkbox entry carries `PathScoreHb`'s value with its weight, so it is in [0, 1] and is 1 without a valid click pair |
| MouseEvents.SixNamesPresentHb | src/rt_hb_score/heuristics/mouse_events/_main.py:53-90 | past the gates every one of the six names is in the table, even when configured names collide |
| MouseEvents.AngleDefaultsAfterCountFailure | src/rt_hb_score/heuristics/mouse_events/_main.py:78-83 | when the movement-count analyzer fails and returns two keys, the angle entry defaults to score 1.0 with its configured weight |
| MouseEvents.NoTargetsPassesGate | src/rt_hb_score/heuristics/mouse_events/_main.py:34-52 | a `None` verdict (no click targets) passes the compliance gate: with a sufficient count and no mouse-down feature the full seven-entry table comes back |
| MouseEvents.MouseEventsWc | src/rt_wc_score/modules/heuristics/mouse_events/_main.py:31-84 | a verdict of 0 or a missing `checkbox` feature gives the single `bot_behavior` entry; otherwise the mouse-down entry is always present with the raw feature (default 1) and the checkbox score defaults to 1.0 |
| MouseEvents.FullTableWc | src/rt_wc_score/modules/heuristics/mouse_events/_main.py:51-84 | with a `checkbox` feature and distinct names the table has exactly the six names in order, with no movement floor |
| MouseEvents.EntriesWc | src/rt_wc_score/modules/heuristics/mouse_events/_main.py:51-79 | with a `checkbox` feature and distinct names, the velocity, distance, count and checkbox entries score their analyzer's value under their name (1.0 when absent) with their configured weights |
| Heuristic.WeightOf | src/rt_hb_score/heuristics/_main.py:60-63 | an entry counts with its weight (absent reads as 0), except that an entry scoring 0 counts with weight 0.5 whatever its weight |
| Heuristic.FinalScore | src/rt_hb_score/heuristics/_main.py:47-72 | a total weight of 0 gives 0; otherwise the average times the total weight is the weighted sum, each entry scoring 0 counting with weight 0.5 (`Heuristic.WeightOf`) |
| Heuristic.Export | src/rt_hb_score/heuristics/_main.py:33-38 | the exported score is 1 for an empty or zero-weight table, and lies in [0, 1] when scores are in [0, 1] and weights non-negative |
| Heuristic.SumsBounded | src/rt_hb_score/heuristics/_main.py:57-65 | with scores in [0, 1] and non-negative weights, 0 ≤ Σ score·weight ≤ Σ weight |
| Heuristic.FinalScoreInUnit | src/rt_hb_score/heuristics/_main.py:57-72 | with scores in [0, 1] and non-negative weights the average lies in [0, 1] |
| Heuristic.ZeroTotalHasNoZeroScore | src/rt_hb_score/heuristics/_main.py:60-68 | a total weight of 0 means no entry scored 0, since such an entry weighs 0.5 |
| Heuristic.SumOfPermutation | src/rt_hb_score/heuristics/_main.py:57-65 | the weight and product sums do not depend on the order of the entries |
| Heuristic.FinalScoreOrderIndependent | src/rt_hb_score/heuristics/_main.py:57-72 | the average does not depend on the order of the entries |
| Heuristic.SingleEntryExportsZero | src/rt_hb_score/heuristics/_main.py:33-38 | a single-entry short-circuit table `{score 1, weight 1}` exports 0 |
| Heuristic.NonCompliantExportsZero | src/rt_hb_score/heuristics/mouse_events/_main.py:34-39 | end to end, a compliance verdict of 0 exports 0 whatever else the feature record holds |

## Left out

- The scoring function and its clamp (`scoring_function`, `clamp_score_zero_to_one`) are not part of this model. They are the opaque `Scorer` parameter, and their shape and range are not assumed.
- Floating-point geometry is not modelled. This covers the square root and norms, `arctan2`, `arccos`, `std`, `nanstd` and `mean` of the heading spread, and the NaN checks. These are `Geometry` fields with the laws the proofs need. The 1e-10 thresholds are stated on integer points: a chord below 1e-10 means the first and last points coincide, and a positive norm product means both segments are non-degenerate.
- Timestamp parsing is not modelled. The three parsers (`dateutil.parse`, `fromisoformat`, and `fromisoformat` after stripping `Z`) are assumed to agree. A timestamp is an integer or unparseable. The raw-string sort of the main line's checkbox matcher uses a separate integer rank of the raw string.
- Missing `x`, `y` or `timestamp` keys in an event are not modelled. A `null` event is.
- A feature value is a number, a boolean, a list of path rows or a list of events. A JSON `null` or a string stored under a feature key is not modelled. Such a value would make a numeric comparison raise, like the non-numeric values the model does have.
- Rounding the exported score to five places is left out, and so is logging.
- The in-place sort of `load_mouse_data` is modelled as a pure sort.
- Pydantic configuration is not modelled. Names, floors and weights are parameters, with the shipped values as constants. Several attributes read by the code are not declared by the shown configurations; these are parameters, and in Python each lookup would raise into the local handler:
  - the checkbox row keys `output_angle_std` and `output_angular_consistency`;
  - `mouse_movements_very_low`;
  - `overall_session_angle_std` and its weight;
  - the movement processor's angle key.
- The main line's movement-processor configuration and its press/move processor are not part of the available source. The feature engineer uses the authentication variant's press/move processor, and the word-challenge configuration's field names.
- The velocity analyzer wraps code not part of this model, so its result map is a parameter of `MouseEvents.MouseEventsHb`.
- The checkbox-path analyzer of the authentication variant (src/rt_au_score/modules/heuristics/mouse_events/checkbox_path/_main.py:20-40) returns two keys. One holds the sequence score, which `CheckboxPath.PathScoreHb` models. The other holds a session-time score from `SessionTimeAnalyze`, which is not part of this model.
- `MouseEvents.MouseEventsHb` takes the checkbox-path result map as a parameter and does not itself call `CheckboxPath.PathScoreHb`. `MouseEvents.CheckboxEntryHb` makes the link: it feeds in a map whose checkbox key holds `PathScoreHb`'s value. The main line's own checkbox-path analyzer file is not part of this model.
- The word-challenge analyzer's compliance verdict and its three analyzers are also parameters of `MouseEvents.MouseEventsWc`. Its `error_score` path is therefore unreachable in the model.
- The authentication variant's pipeline orchestrator, the example CLI, file I/O and the package re-exports are left out.
- The word-challenge point-to-line distances are left out. They are computed but never reach the returned triple.
- Heuristic.Export: the aggregation takes a real-valued table. The exception path (score 0.0 with an error string) is not modelled. That path is taken when a non-numeric score reaches the loop, for example a word-challenge mouse-down entry copied from a list-valued feature.
- FeatureEngineer.Engineer: its own handler (returning `{}`) is not modelled, since every processor catches its own exceptions. A value in the raw input that is not a list is not modelled either.
- MouseMovement.VelocityStd, CheckboxPath.PairScore and ClickMatch.Targets are helpers without contracts of their own. Their behaviour is stated through `MouseMovement.Movement`, `CheckboxPath.Scan` and the `ClickMatch.Targets*` lemmas.
- MouseMovement.Movement: the heading spread is `Geometry.headingStd` of the sorted positions; the spread itself is not computed.
