# Trigger engine of Adaptive-Self-Tuning, in Dafny

This project models the core of `main.py`: the trigger engine that runs a
network of per-station decision makers over seismic traces. The model
covers these parts:

- **Clock loop of `run`.** The clock starts at sample `int(start*sr)`. When
  the step size is not zero, each step first moves the clock to the
  first detection of the current window, if there is one. The clock then
  advances by `int(time_step*sr)` samples. The loop stops at `int((start+duration)*sr)`
  or at the length of the first trace.
- **Debounce filter (`removeDetections`).** A candidate is deleted when its
  station's last detection is closer than the reset duration. Deleting a
  candidate forces that station's trigger flag to 0. Every candidate, kept
  or deleted, moves its station's last-detection entry to its time.
- **Aggregation gate.** Each surviving candidate is stamped with `nDef`, the
  number of surviving candidates in the step. The whole step's batch is
  appended to the arrivals only when `nDef >= minStaAgree`.
- **Decision makers.** `initDecisionMakers` applies its all-or-nothing
  warm-start rule, `updateActions` collects one answer per station, and the
  end levels come from each decision maker's last action.
- **Log line (`printActions`).** The step's sample time, then each
  station's action, separated by commas.

The following are collaborators, not part of the model:

- the STA/LTA levels and the detection window (`seismic.getDetections`);
- the first-detection search (`seismic.findFirstDetect`);
- the decision makers themselves (`MajorityRules`).

They are the functions of an `Engine.Collaborators` value. The type
parameter `D` stands for a decision maker's state.

Modules and files:

- `common.dfy` holds the shared records and Python's `int()` on a float.
- `debounce.dfy` holds the filter, specified per candidate index by
  `Table`, `Passes`, `Kept` and `Suppressed`.
- `aggregation.dfy` holds the stamping and the gate.
- `decision_makers.dfy` holds the decision-maker setup, the per-step
  answers and the end levels.
- `trigger_log.dfy` holds the log line and how it reads back.
- `spacing.dfy` carries the debounce guarantee across the steps of a run.
- `engine.dfy` holds one step (`Step`), the loop (`RunFrom`) and the whole
  run (`Simulate`), with `RunStep` and `Run` as the imperative code proved
  against them.

The dictionaries and lists that `main.py` updates in place are passed in
as values, and their new contents are returned.

Three behaviours of the source are kept as written:

- **Sentinel units.** The last-detection table starts every station at
  `-(reset_duration + 2)`, a value in seconds. It is compared against
  `reset_duration * sr`, a value in samples. So a station's first
  candidate is deleted whenever its sample index is below
  `reset_duration*sr - reset_duration - 2` (`Engine.SentinelSuppressesEarly`).
- **`nDef` counts candidates.** `nDef` is the length of the candidate list,
  not the number of distinct stations. The docstring (main.py:97) calls
  `minStaAgree` a minimum number of stations, but two candidates from one
  station count twice (`Aggregation.OneStationCountsTwice`).
- **Warm start only on an exact count.** Warm-start levels are used only
  when there are exactly as many of them as stations:
  - with an extra entry, all of them are ignored;
  - with the same count but a missing station, the run fails.

## Model

| member | source | states |
|---|---|---|
| Common.Trunc | main.py:123-124 | `int()` of a float truncates toward zero: the result is the integer part, within 1 of the argument and on its side of zero |
| Debounce.RemoveDetections | main.py:166-184 | the in-place deletion loop leaves exactly the candidates that pass the reset check, in order. The table is moved to every candidate's time. Every station with a deleted candidate has its flag set to 0. The returned flag is true iff something was deleted |
| Debounce.Table | main.py:182 | seeing candidates only adds or moves table entries, never removes one |
| Debounce.Kept | main.py:172-181 | the filter never lengthens the candidate list |
| Debounce.DeletedIffShorter | main.py:169-184 | DELETED is true exactly when fewer candidates come out than went in |
| Debounce.SuppressedIff | main.py:175-177 | a station's trigger flag is forced to 0 iff one of its candidates fails the reset check |
| Debounce.TableLastOccurrence | main.py:182 | after the filter, each station's entry is the time of its last candidate, whether that candidate was kept or deleted |
| Debounce.TableUntouched | main.py:172-183 | a station without candidates keeps its entry |
| Debounce.TablePrefix | main.py:172-183 | the table after a prefix of the candidates depends only on that prefix |
| Debounce.TableConcat | main.py:166-184 | filtering two lists one after the other moves the table as filtering their concatenation does |
| Debounce.KeptPrefix | main.py:172-181 | what is kept from a prefix depends only on that prefix |
| Debounce.KeptConcat | main.py:166-184 | two consecutive calls, the second starting from the table the first leaves, keep what one call over the concatenated list keeps |
| Debounce.TableDominates | main.py:182 | with non-decreasing times per station, a station's entry is at least the time of any of its candidates seen so far |
| Debounce.KeptFrom | main.py:172-181 | every kept candidate is one of the input candidates, and one that passed the reset check |
| Debounce.KeptSpaced | main.py:175-183 | with non-decreasing times per station, any two kept candidates of one station are at least the reset duration apart |
| Debounce.SpacedAcrossCalls | main.py:166-184 | the same spacing holds across two consecutive steps of a run |
| Aggregation.Aggregate | main.py:152-157 | the stamping loop gives every candidate nDef equal to the batch length and keeps the candidates unchanged. The arrivals grow by the stamped batch iff its length reaches minStaAgree, and are unchanged otherwise |
| Aggregation.StampShape | main.py:152-154 | stamping keeps the length, turns each candidate into the arrival at the same place and gives every element the same nDef |
| Aggregation.UnstampStamp | main.py:153-154 | stamping changes nothing but the added nDef key |
| Aggregation.GateKeepsBatches | main.py:156-157 | the gate only appends, and keeps the arrivals a sequence of whole step batches, each of n arrivals stamped n with n >= 1 and n >= minStaAgree |
| Aggregation.BatchesAppend | main.py:157 | concatenating whole-batch sequences gives a whole-batch sequence |
| Aggregation.BatchesAgree | main.py:156 | every arrival in a whole-batch sequence has nDef >= minStaAgree |
| Aggregation.OneStationCountsTwice | main.py:152-157 | two candidates of one station meet minStaAgree = 2 and are both appended with nDef 2 |
| DecisionMakers.InitialLevels | main.py:249-256 | the starting levels are None iff the warm-start count equals the station count but a station is missing. Otherwise every station gets the warm-start level (counts equal) or the initial value (counts differ) |
| DecisionMakers.InitDecisionMakers | main.py:243-259 | the loop builds one decision maker per station from its station, starting level, neighbours, step size and decay rate. On failure it names a station that the warm-start levels lack |
| DecisionMakers.WarmStartAllOrNothing | main.py:249-256 | the starting levels are either all the initial value, or all warm-start levels whose stations are exactly those of the neighbourhood list |
| DecisionMakers.ExtraWarmEntryIgnored | main.py:250-251 | warm-start levels covering every station plus one more are ignored entirely |
| DecisionMakers.UpdateActions | main.py:206-210 | every decision maker, and only those, answers the step's flags and its own station's average SNR. The new states and actions are collected per station, so the station order does not matter |
| DecisionMakers.EndLevels | main.py:161-164 | each decision maker reports its last action, for exactly the decision makers' stations |
| TriggerLog.NatToStringDigits | main.py:224 | `str()` of a non-negative integer is a non-empty digit string whose value is that integer |
| TriggerLog.ParseIntToString | main.py:224 | the time written by `str()` parses back to the same integer, negative values included |
| TriggerLog.IntToStringNoComma | main.py:224 | the time field never contains the separator |
| TriggerLog.SplitJoin | main.py:224-226 | splitting at the separator undoes joining when no field contains it |
| TriggerLog.ActionTexts | main.py:225-226 | one action text per listed station, in the listed order, each being `str()` of that station's action |
| TriggerLog.PrintActions | main.py:224-228 | given the dictionary's iteration order (each station exactly once), the line is the time, then a comma and each station's action in that order, then a newline |
| TriggerLog.LogLineReadsBack | main.py:224-228 | when no action text holds a comma, the line without its trailing newline splits into one field per station plus one. The first parses back to the step's time, the rest are the stations' action texts in iteration order, and every station has exactly one field holding its action text |
| TriggerLog.OrderSize | main.py:225 | an iteration order that lists every key exactly once has as many entries as there are keys |
| Engine.Step | main.py:124-159 | a successful step keeps the decision makers' stations. It sets the clock to the window start plus `int(time_step*sr)`, and only appends to the arrivals and the log. With a zero step size the decision makers and the log are unchanged |
| Engine.RunStep | main.py:124-159 | the loop body calls findFirstDetect, removeDetections, updateActions, printActions and the gate, and has exactly the effect `Step` describes, including its lookup failures |
| Engine.Run | main.py:103-164 | the whole run returns the result `Simulate` describes: the arrivals, each decision maker's end level and the log lines, or the lookup failure that stops it |
| Engine.RunFromFacts | main.py:122-160 | a run keeps the decision makers' stations and only appends arrivals and log lines. It keeps the arrivals whole gated batches, never moves the clock back, and ends with the clock outside the window |
| Engine.FixedWithoutAdaptation | main.py:132-159 | with a zero step size the decision makers never change, nothing is logged, `int(time_step*sr)` is at least 1 and the clock moves on a grid of that many samples |
| Engine.SimulateFacts | main.py:103-164 | a successful run reports an end level for every station of the neighbourhood list. Every arrival belongs to a whole batch with nDef >= minStaAgree. With a zero step size the end levels are the starting decision makers' actions and the log is empty |
| Engine.StepAdvances | main.py:132-159 | each successful step moves the clock forward |
| Spacing.SimulateSpaced | main.py:122-160 | when each station's candidate times never decrease over all the windows of the run, any two arrivals of one station that the run returns are at least `reset_duration*sr` samples apart, whichever steps they come from |
| Spacing.RunDebounced | main.py:122-160 | the loop keeps the table equal to the table after every candidate seen so far, keeps every arrival one of those candidates, and keeps the arrivals spaced per station |
| Spacing.StepDebounced | main.py:124-159 | one step keeps that invariant, with its window's candidates added to those seen |
| Spacing.GateDebounced | main.py:152-157 | the gate appends only candidates the filter kept, so the arrivals stay spaced and each stays one of the candidates seen |
| Spacing.KeptAfterSeen | main.py:175-182 | a candidate kept in a later step comes at least the reset duration after every earlier arrival of its station, because the table that step starts from dominates every earlier candidate time |
| Spacing.SpacedAppend | main.py:157 | spaced arrivals followed by a spaced batch that comes after all of them are spaced |
| Spacing.SeenInConcat | main.py:157 | appending arrivals keeps each one a candidate seen |
| Spacing.KeptSeenIn | main.py:172-181 | an arrival stamped from a kept candidate is one of the step's candidates |
| Spacing.StampSeenIn | main.py:152-154 | a stamped arrival has the station and time of the candidate it came from |
| Engine.SentinelSuppressesEarly | main.py:118-120 | a station's first candidate is deleted iff its sample time is below `reset_duration*sr - reset_duration - 2` |

## Left out

- STA/LTA computation (`seismic.getStaLtaValues`), detection windows (`seismic.getDetections`), the first-detection search (`seismic.findFirstDetect`) and the `MajorityRules` decision makers: these are outside this model and appear as the functions of `Engine.Collaborators`. Their arguments that never change during a run (levels, sampling rate, window lengths) are folded into those functions.
- File and screen output: the log header (main.py:112-116), reading the neighbourhood list and the warm-start file (main.py:106, 244-247), and `run_with_config`, the scorers and the command-line entry point. The warm-start levels arrive as a map, and the log lines are returned as a sequence instead of written.
- The column order of the log header (main.py:114-115) follows the traces in `stations`, while each data line (main.py:225) follows the actions dictionary; the header is not modelled, so nothing here relates the two orders.
- The screen branch of `printActions` (main.py:229-230): `run` always passes the open log file.
- The log condition at main.py:149: the file is opened unconditionally at main.py:112, so a run that reaches the loop always has a log file and the condition always holds. The model therefore logs on every step with a non-zero step size.
- Engine.Run: requires that every step ends past the clock it started from, for every clock and every decision makers: the window start plus `int(time_step*sr)` exceeds the clock (`Advancing`). Without this the source can loop forever, which a terminating model cannot express. Collaborators that stall only at some clocks, or only for some decision makers, are not covered.
- Spacing.SimulateSpaced: requires each station's candidate times to be non-decreasing over the concatenated candidate lists of all steps. Overlapping windows that report an earlier candidate again are not covered.
- In-place updates and aliasing: the dictionaries and lists that the source changes in place (trigger flags, candidate list, last-detection table, decision makers, arrivals) are values going in and out. The decision makers that `getAction` mutates are returned as new states.
- Lookup failures (KeyError) end the run as a `RunError`: a candidate from a station missing from the table, a decision maker without an average SNR, or a missing warm-start level. Debounce.RemoveDetections and DecisionMakers.UpdateActions require the lookups to succeed, and `Engine.RunStep` checks this before calling them.
- Dictionary iteration order: the order of the log line is the parameter `order` (each station once). The order of the other loops over dictionaries does not affect their results.
- Floating point: seconds, rates and SNRs are exact reals, and `str()` of a float is the function `show`. The rounding of `start*sr`, `time_step*sr` and `reset_duration*sr` is not modelled, but the truncation by `int()` is.
- Unused values: `HAPPENED`, the result of `removeDetections` in `run`, and the parameter `reset_level`.
- TriggerLog.LogLineReadsBack: assumes that no action text contains a comma, which `str()` of a float never produces.
