# K8sQuest progression engine in Dafny

A model of the parts of K8sQuest that decide how a player moves through
the game, with proofs of what they guarantee:

- the progress record and `progress.json`, loaded with its defaults and
  saved whole, keys the engine does not use included (`load_progress`, `save_progress`, the name setup, "start
  from the beginning", "play a specific level");
- one level session, `play_level`, as a step machine over the player's
  answers: the hint tier, the attempt counter, the XP and completion
  credit, the milestone celebrations, and the three ways a session ends
  (`True`, `False`, the program exits);
- `show_progressive_hints` as a function from the hint files present, the
  tier and `show_all` to the lines printed and the value returned;
- `natural_sort_key`, the natural order it induces and the sort of a
  world's level directories;
- the resume point of `play_world`, the save before each level, the early
  stop, and the world loop of `main`;
- the summary `get_resource_status` builds from the `kubectl get` results;
- the progress report of `tools/progress_tracker.py`: its world table, the
  available and completed counts, each world's status and bar, the
  overall percentage and the "Next Steps" line.

Layout, one module per file:

| file | module | what it holds |
|---|---|---|
| wrappers.dfy | `Wrappers` | `Option`, `Result` |
| text.dfy | `Text` | the Python string operations the code relies on (`strip`, `split`, `split()`, `join`, `*`, `<`) |
| progress.dfy | `Progress` | the record (its five fields and the file's other keys), the saved file, loading and encoding |
| catalog.dfy | `Catalog` | mission metadata, the `worlds/` listing, the five world names |
| hints.dfy | `Hints` | `show_progressive_hints` |
| natural_sort.dfy | `NaturalSort`, `LevelOrder` | the key, its order, the sorted level listing |
| session.dfy | `Session` | `play_level` as a step machine and its lemmas |
| campaign.dfy | `Campaign` | `play_world` and `main` as functions over the session, and their lemmas |
| engine.dfy | `Engine` | class `Quest`: the engine's state and its methods, each proved equal to the functions above |
| resource_status.dfy | `ResourceStatus` | `get_resource_status` |
| tracker.dfy | `Tracker` | `tools/progress_tracker.py` |

The player's side is input. Every prompt of a session (the action menu,
"Try again?", "Ready for the next challenge?", "Skip this level?") is
folded into one `Session.Step`, and the validator's exit code rides on the
`validate` step. All sessions read one stream of steps, as they read one
standard input; a session that runs out of steps ends `Waiting`, where the
program would block. The contents of `worlds/` are a map from world name
to its directory items. `kubectl` results are the `ResourceStatus.Probe`
values. `save_progress` appends the whole record to `Quest.saves`.

The world loops in `Campaign` are stated for any `Player` that uses no
more input than it is given. `Campaign.SessionOf(retro)` is the engine's
own session, and `Campaign.SessionBehaves` proves the two facts the lemmas
about saves need of it.

Behaviour of the code a reader might not expect, which the model keeps:
XP is added on every pass, also of a level already completed; an explicit
`hints` request raises the tier with no cap; milestones fire on an exact
count, so passing a completed level again at ten completions celebrates
again; a session ends as `Crashed` where `play_level` raises before its
action loop: a missing `mission.yaml`, a `mission.yaml` without one of the
keys the briefing indexes, or, with the retro interface, a level name
holding `level-` whose second `-`-field is not a number.

## Model

| member | source | states |
|---|---|---|
| Progress.LoadProgress | engine/engine.py:74-89 | no file gives the fresh record (0 XP, nothing completed, `world-1-basics`, no level, "Padawan"); a file that is not JSON is an error; an object loads exactly when its fields have their JSON shapes; each of the five fields takes its stored value (`current_level` a string or null, `current_world` a string), a missing `current_level` reads as null and a missing `current_world` as `world-1-basics`; every other key of the file is kept with its value |
| Progress.LoadAfterSave | engine/engine.py:74-94 | loading what `save_progress` wrote gives back the same record, the keys the engine does not use included |
| Progress.MissingLevelIsNull | engine/engine.py:79-81 | an object without `current_level` loads exactly as one holding null |
| Engine.Quest.constructor | engine/engine.py:69-72 | the game starts from the loaded record with nothing saved yet |
| Engine.Quest.SaveProgress | engine/engine.py:91-94 | the whole record is written and nothing changes |
| Engine.Quest.SelectLevel | engine/engine.py:955-962 | a level is selected exactly when the index is in range; then that level and its world become current and the record is saved, and otherwise nothing changes |
| Campaign.NameSetup | engine/engine.py:1073-1076 | a placeholder name is replaced by the name asked for and saved once; any other name is kept and nothing is saved |
| Engine.Quest.SetUpPlayer | engine/engine.py:1073-1076 | the record and the saves are those of the name setup |
| Campaign.Restarted | engine/engine.py:1141-1144 | no current level, nothing completed, no XP; world and name kept |
| Engine.Quest.StartOver | engine/engine.py:1141-1144 | the record becomes the restarted one and is saved |
| Session.Credit | engine/engine.py:804-820 | XP grows by the mission's XP; the level is listed afterwards, the old list is a prefix and at most one entry is added; no duplicate is introduced; the other fields and keys are kept |
| Session.MilestoneAt | engine/engine.py:829-839 | a milestone exactly when the new count is 10, 25, 49 or 50 |
| Session.Celebrations | engine/engine.py:829-839 | at most one celebration, and one exactly when the retro interface is on and the count is a milestone |
| Engine.Quest.RecordPass | engine/engine.py:804-839 | the credited record is saved and the celebrations of the new count are returned |
| Session.Take | engine/engine.py:769-874 | one answer of the loop: it saves exactly on a pass, which credits the level and returns the confirm answer; only `hints` and failures move the tier; only `validate` counts an attempt; the session ends exactly on a pass, `quit`, a declined retry or a confirmed skip, and exits exactly on `quit` |
| Engine.Quest.Act | engine/engine.py:769-874 | one pass of the loop changes the tier, attempts, record, saves and notices as `Take` says |
| Session.RunFrom | engine/engine.py:731-874 | the loop never crashes, uses at least one step when it ends and all of them when it waits, and only appends to the saves and notices |
| Session.Play | engine/engine.py:663-874 | a session crashes, before reading any input and saving nothing, exactly when `mission.yaml` is missing, lacks `name`, `description`, `objective` or `xp`, or the retro start screen cannot number the level (commands that fail to launch are not modelled); it waits only after using all input |
| Session.RetroNumberMissing | engine/engine.py:669 | with the retro interface, `level-` followed by a word or by nothing (`level-intro`, `level-`) makes the level number raise |
| Session.RetroNumberMisplaced | engine/engine.py:669 | a name like `my-level-1` raises too: the second `-`-field is `level` |
| Session.RetroNumberParses | engine/engine.py:669 | `level-<digits>-<rest>` is numbered without raising |
| Engine.Quest.PlayLevel | engine/engine.py:663-874 | the crash check and the loop's resolution, input used, notices, final record and saves are those of `Play` |
| Session.PassiveKeepsProgress | engine/engine.py:769-868 | display actions, declined skips and retried failures keep the record, save nothing and wait |
| Session.HintDisplays | engine/engine.py:778-787 | `n` hint requests from tier `t` show tiers `t+1` .. `t+n` in turn |
| Session.HintRequestShows | engine/engine.py:778-787 | a `hints` request raises the tier by one and shows `show_progressive_hints` of the level's hint files for the new tier: the hint at that position, "All hints have been unlocked!" past the last, "No hints available" without hint files |
| Session.FailureLowersTier | engine/engine.py:848-850 | a failure after more than three `hints` requests lowers the tier to 3 |
| Session.HintRequestsUncapped | engine/engine.py:778-787 | each `hints` request adds exactly one to the tier with no cap and shows the newest hint of the new tier |
| Session.FailuresCapTier | engine/engine.py:848-862 | from a tier `t` of at most 3, `n` retried failures leave the tier at `min(t+n, 3)` and `n` more attempts, keep the record and save nothing |
| Session.FailuresEncourage | engine/engine.py:848-859 | each retried failure shows one encouragement, chosen by the new attempt count |
| Session.EncouragementsCycle | engine/engine.py:851-859 | the encouragement after attempt `a` is message `a mod 4` |
| Session.RetriedFailure | engine/engine.py:848-862 | a retried failure: tier `min(t+1, 3)`, one more attempt, one encouragement, and the loop goes on |
| Session.TierStaysLow | engine/engine.py:726-862 | without `hints` requests the tier never passes 3, whatever else happens |
| Session.SkipReturnsTrue | engine/engine.py:864-868 | a confirmed skip returns `True` at once with no XP, no completion and no save |
| Session.PassThenDecline | engine/engine.py:801-847 | a pass followed by declining to continue credits the level, saves the credited record once and returns `False` |
| Session.FailThenDecline | engine/engine.py:848-862 | a failure followed by declining "Try again?" returns `False` with nothing credited or saved |
| Session.QuitExits | engine/engine.py:870-874 | `quit` exits with no further save and the record unchanged |
| Session.AtMostOneCredit | engine/engine.py:797-847 | the loop either keeps the record and saves nothing, or returns after crediting the level and saving that one record |
| Session.SessionEffect | engine/engine.py:726-874 | a whole session, started at tier 0 with no attempts, either keeps the record and saves nothing, or returns after crediting the level and saving that one record |
| Session.RePassRecredits | engine/engine.py:804-821 | passing a completed level again adds its XP again and leaves the list unchanged |
| Session.CreditTwice | engine/engine.py:804-821 | crediting twice adds the XP twice and lists the level once |
| Session.MilestoneRefires | engine/engine.py:829-834 | at ten completions, passing a completed level celebrates "world complete" again |
| Hints.AvailableHints | engine/engine.py:216-221 | the hint files present, in file-number order, at most three, each with its text |
| Hints.ShowProgressiveHints | engine/engine.py:216-281 | no hint files: the "no hints" line and no value; otherwise the value `min(hint_level, k)` for `k` files, within 1..k, and the header with it |
| Hints.NewestHintView | engine/engine.py:250-279 | the newest-hint view shows the hint at position `hint_level`, earlier ones as unlocked and later ones as locked, and past the last hint only "All hints have been unlocked!" |
| Hints.ShowAllView | engine/engine.py:235-249 | the `show_all` view has one line per file, shown when its number is at most `hint_level` and locked otherwise |
| Hints.GapShiftsNumbering | engine/engine.py:235-256 | with only hint files 2 and 3, the newest-hint view labels `hint-2.txt` as hint 1, and the `show_all` view labels it 2 |
| NaturalSort.SplitDigitsConcat | engine/engine.py:1013-1016 | joining the pieces of `re.split(r"(\d+)", name)` gives back the name |
| NaturalSort.SplitDigitsAlternates | engine/engine.py:1013-1016 | the split has odd length, digit-free text at even positions and non-empty digit runs at odd ones |
| NaturalSort.KeyAlternates | engine/engine.py:1013-1016 | the key holds strings at even positions and integers at odd ones, so two keys always compare element by element of the same kind |
| NaturalSort.KeyLessIrreflexive | engine/engine.py:1018-1020 | no key sorts before itself |
| NaturalSort.KeyLessTransitive | engine/engine.py:1018-1020 | the key order is transitive |
| NaturalSort.KeyLessTotal | engine/engine.py:1018-1020 | any two different keys are ordered |
| NaturalSort.NumberDecides | engine/engine.py:1013-1020 | names alike but for a digit run sort by the run's value, whatever text follows |
| NaturalSort.NaturalOrderExample | engine/engine.py:1010-1016 | `level-1-z` < `level-2-x` < `level-10-y` |
| NaturalSort.PlainOrderDiffers | engine/engine.py:1010-1016 | string order would put `level-10-y` before `level-2-x` |
| Catalog.DirsSelects | engine/engine.py:1019 | the listing holds only directories of the world, and every one of them |
| Catalog.DirsConcat | engine/engine.py:1019 | the listing of two runs of items is the listing of the first followed by that of the second: order and repetitions are kept |
| Catalog.DirsOne | engine/engine.py:1019 | one item lists as itself when it is a directory and as nothing otherwise |
| LevelOrder.SortSorts | engine/engine.py:1018-1020 | the sort puts the levels in key order |
| LevelOrder.SortPermutes | engine/engine.py:1018-1020 | the sort keeps exactly the levels given, as a multiset |
| LevelOrder.SortStable | engine/engine.py:1018-1020 | the sort is stable: the pairs of any one key come out in the order they went in |
| LevelOrder.LevelsStable | engine/engine.py:1018-1020 | directories whose names share a natural key (`level-1`, `level-01`) are walked in listing order; with `LevelsInOrder` and `LevelsAreTheDirs` this fixes the walk completely |
| LevelOrder.LevelsInOrder | engine/engine.py:1018-1020 | `play_world` walks a world's directories in natural order |
| LevelOrder.LevelsAreTheDirs | engine/engine.py:1018-1020 | it walks exactly the world's directories, each as many times as the listing holds it (the same multiset) |
| Campaign.ResumeAt | engine/engine.py:1022-1036 | start 0 when `current_level` is unset or names no level; at the first level of that name if it is not completed, just after it if it is; never past the end |
| Engine.ResumeIndex | engine/engine.py:1022-1036 | the search loop with its `break` computes that index |
| Campaign.ResumeAfterCompleted | engine/engine.py:1027-1033 | resuming at a completed level skips exactly the levels up to and including it |
| Campaign.SessionBehaves | engine/engine.py:804-874 | a session saves only records positioned where it started, and saves nothing and changes nothing when it exits |
| Campaign.PositionedAt | engine/engine.py:1042-1045 | before a level, `current_level` and `current_world` name it and nothing else changes, the other keys included |
| Campaign.LevelsFromShape | engine/engine.py:1038-1048 | levels are played in order while each returns `True`; the run ends `True` only after all, `False` right after the first `False`, and halts with the session that ended the program |
| Campaign.SavesNameLevel | engine/engine.py:1038-1045 | each level is saved as the current one before it is played, and every save of the run names the world and a level it played |
| Campaign.ExitKeepsResumePoint | engine/engine.py:1038-1048 | when a session quits, the last save is the final record, positioned at that level |
| Campaign.PlayWorld | engine/engine.py:1002-1066 | a missing world returns `False` at once with nothing saved; a run uses only the input left |
| Campaign.MissingWorldFails | engine/engine.py:1006-1008 | a world directory that does not exist returns `False` |
| Campaign.WorldTrueIffAllLevels | engine/engine.py:1038-1066 | `play_world` returns `True` exactly when every level from the resume point returned `True` |
| Engine.Quest.PlayPositioned | engine/engine.py:1042-1048 | the level is made current, saved, and played; state and result are those of the session on the positioned record |
| Engine.Quest.PlayWorld | engine/engine.py:1002-1066 | the method's end, input used, record and saves are those of `Campaign.PlayWorld` |
| Engine.Quest.PlayLevelsFrom | engine/engine.py:1038-1048 | the level loop's end, input used, record and saves are those of `LevelsFrom` |
| Engine.Quest.LevelIteration | engine/engine.py:1038-1048 | one pass of the level loop is one step of `LevelsFrom` |
| Engine.Quest.PlayLevelAt | engine/engine.py:1038-1048 | one level played from its position is the first step of `LevelsFrom` |
| Campaign.StartWorld | engine/engine.py:1124-1129 | the index of `current_world` among the five worlds, 0 when it is none of them |
| Engine.StartWorldIndex | engine/engine.py:1124-1129 | the search loop with its `break` computes that index |
| Campaign.WorldsFromShape | engine/engine.py:1131-1134 | worlds are played in order while each returns `True`; the loop stops at the first that does not |
| Engine.Quest.PlayWorlds | engine/engine.py:1131-1134 | the world loop's input used, record and saves are those of `WorldsFrom` |
| Engine.Quest.WorldIteration | engine/engine.py:1131-1134 | one pass of the world loop is one step of `WorldsFrom` |
| Campaign.MainRun | engine/engine.py:1069-1159 | `main` after loading uses only the input it is given |
| Campaign.ResumeStartsAtCurrentWorld | engine/engine.py:1073-1134 | after the name setup and its save, "continue" runs the world loop from the current world, or the first when it is none of the five |
| Campaign.StartOverResets | engine/engine.py:1073-1149 | "start from the beginning" saves the reset record right after the name setup's save, before any world, with no XP, nothing completed, no level and the set-up name, and plays all worlds from it |
| Text.Strip | engine/engine.py:398-399 | `strip()` cuts only whitespace, from both ends, and is empty exactly for all-whitespace text |
| Text.SplitOn | engine/engine.py:399 | `split("\n")` gives at least one part, none holding the separator, and joining them gives back the text |
| Text.Tokens | engine/engine.py:402 | `split()` gives non-empty runs without whitespace, and none exactly for blank text |
| Text.TokensOfWord | engine/engine.py:402 | `split()` of one word is that word |
| Text.TokensJoin | engine/engine.py:402 | the words of a text followed by text that starts with whitespace are the words of the first followed by those of the second |
| Text.TokensSplitAtSpace | engine/engine.py:402 | `split()` cuts at every whitespace character, keeping the words on either side in order; with `TokensOfWord` this fixes the result for every text |
| Text.SplitAtFirst | engine/engine.py:669 | `split("-")` of text whose first `-` ends `a` gives `a`, then the parts of the rest |
| ResourceStatus.FirstRows | engine/engine.py:398-401 | a listing with output gives one or two rows |
| ResourceStatus.RowEntries | engine/engine.py:401-423 | at most one entry per row |
| ResourceStatus.EntriesFromRows | engine/engine.py:401-423 | every entry comes from a row with at least two tokens, named by its first token |
| ResourceStatus.Contribution | engine/engine.py:398-423 | one resource type adds at most two entries, and only when it returned 0 with output |
| ResourceStatus.AppendRows | engine/engine.py:401-423 | the row loop appends exactly the rows' entries |
| ResourceStatus.GetResourceStatus | engine/engine.py:376-437 | the method returns the summary of the scan |
| ResourceStatus.ScanBound | engine/engine.py:424-425 | at most four entries are ever collected |
| ResourceStatus.SummaryShape | engine/engine.py:427-437 | the summary joins at most three entries with " \| ", is "No resources found" with none, "Timeout" on a timeout and "Checking..." on any other failure |
| ResourceStatus.FirstTimeout | engine/engine.py:432-433 | a timeout on the first listing gives "Timeout" |
| ResourceStatus.StopsAfterThree | engine/engine.py:424-425 | once the types up to any one of them have run and given three or more entries between them, the results of the later types make no difference, timeouts included |
| ResourceStatus.ScanAgrees | engine/engine.py:390-428 | with fewer than three entries collected, two scans that see the same listings up to a type by which three are reached end alike |
| ResourceStatus.ScanStops | engine/engine.py:424-428 | two listings giving three or more entries decide the scan |
| Tracker.WorldTable | tools/progress_tracker.py:14-45 | five worlds in campaign order, ten levels each; level numbers 1..50 without gap or overlap, 50 in all, XP adding up to the header's 11,500 |
| Tracker.Range | tools/progress_tracker.py:17 | `range(lo, hi)`: `hi - lo` numbers from `lo` up, none when `hi <= lo` |
| Tracker.CountAvailableLevels | tools/progress_tracker.py:55-66 | the counter loop counts the directories holding `mission.yaml`, and a missing world counts 0 |
| Tracker.MissionDirsOfDirs | tools/progress_tracker.py:61-66 | the count is at most the number of directories, equal exactly when none lacks `mission.yaml`, and 0 exactly when no item qualifies |
| Tracker.AvailableWithinLevels | tools/progress_tracker.py:55-66 | the count never exceeds the levels `play_world` would walk, and equals it exactly when every directory has `mission.yaml` |
| Tracker.CompletedIn | tools/progress_tracker.py:92-95 | the per-world completed count is at most the number of completed entries |
| Tracker.CompletedCountedOnce | tools/progress_tracker.py:92-95 | no entry counts for two worlds, so the per-world counts add up to at most the completed count |
| Tracker.StatusOfWorld | tools/progress_tracker.py:97-109 | "Blueprint Only" exactly when the world is missing or has no level; "Complete" exactly at ten levels; "In Progress" otherwise, more than ten included |
| Tracker.FilledIsFloor | tools/progress_tracker.py:121-122 | the full cells are the completed share of 40 rounded down |
| Tracker.FilledWhenComplete | tools/progress_tracker.py:116-123 | with no more completed than available the bar is full exactly when all are completed; with more it is full or more |
| Tracker.BarCells | tools/progress_tracker.py:121-123 | the bar is the full cells then empty ones, 40 cells long unless more are full |
| Text.Repeat | tools/progress_tracker.py:123 | `c * n`: `n` copies of `c`, and nothing when `n <= 0` |
| Tracker.OverallPercent | tools/progress_tracker.py:131-132 | 0 when no level is available; otherwise the completed share in percent, never dividing by zero |
| Tracker.TotalAvailable | tools/progress_tracker.py:131 | the sum of the worlds' available counts |
| Tracker.NextStep | tools/progress_tracker.py:141-150 | the first-match loop reports the first short world when fewer than 50 levels exist, and nothing otherwise |
| Tracker.ShortfallFirst | tools/progress_tracker.py:144-150 | the world reported is the first short one in table order, with `total - available` levels missing, at least one |
| Tracker.ShortfallNone | tools/progress_tracker.py:144-150 | nothing is reported exactly when no world is short |
| Tracker.NextStepShown | tools/progress_tracker.py:141-150 | with fewer than 50 levels a world is always named; with 50 or more none is |
| Tracker.TrackerLoad | tools/progress_tracker.py:47-73 | no file gives no completions and no XP; a file that is not JSON is an error; an object loads exactly when `completed` (if present) is a list of strings and `total_xp` (if present) an integer; each key present gives its value, each absent key its default, one key at a time |
| Tracker.EngineFileShowsNoCompletions | tools/progress_tracker.py:72-73 | the report reads `completed` while the engine writes `completed_levels`: on any file the engine saved, the engine's completions make no difference to the report, which shows the engine's XP; the only completions it shows are those of a `completed` key the engine carried along unread, and none when there is no such key |

## Left out

- Rendering: panels, colours, tables, `console.clear`, `time.sleep`, the welcome screen with its progress bars, and what the tracker prints around the values it computes. None of it affects the state or the flow.
- `monitor_status` and its ten-second timed loop: wall-clock behaviour. The `check` action is modelled as a display action.
- The `kubectl`, `setup.sh` and `validate.sh` subprocesses. Only their results are inputs: a `kubectl` result, or the validator's exit code on each `validate` step. Neither the setup nor the validation call has a timeout in the source, and the model adds none. A launch failure, such as a missing `kubectl` or `sh` binary that makes `subprocess.run` raise in `deploy_mission` or `validate_mission` and end the program, is not modelled either: `Session.Play` assumes every launch succeeds.
- File I/O: `progress.json` is a `SavedFile` value and each save appends to `Quest.saves`. `mission.yaml` and the hint files are fields of the directory entries.
- The optional-module import probes and the safety environment switch. Whether the retro interface is on is the `retroUi` parameter.
- The static content views: `show_debrief`, `show_solution_file`, `show_step_by_step_guide` and the deprecated `show_hints`.
- The retro start screen's "press any key" `input()`. It consumes no step of the model.
- `play_specific_level`: its recursive menu re-entry, its message on a non-number, and the level it plays. `SelectLevel` models its index check and the save. In `main`, that menu branch ends the modelled run.
- `main`'s `KeyboardInterrupt` handler: interruption is not an input of the model.
- Progress.LoadProgress: accepts fewer files than the source. It rejects at load an object whose `total_xp` is not an integer, whose `completed_levels` is not a list of strings, whose `player_name` is not a string, or that lacks one of these; it also rejects a `current_world` that is not a string and a `current_level` that is neither a string nor null. The source loads any JSON object and keeps going: a float or boolean `total_xp` is added to and saved, a `completed_levels` holding numbers is searched, appended to and saved, and a missing key raises only when it is first read. A missing `current_world` takes its default, as `main` reads it with one. A `current_world` that is not a string matches none of the five worlds, so `main` starts at the first; a `current_level` that is not a string counts as progress when it is truthy and matches no level, so `play_world` starts at the first level.
- Tracker.TrackerLoad: accepts fewer files than the source. It requires `completed` to be a list of strings and `total_xp` an integer. The source formats a float `total_xp` and iterates a string `completed` character by character. It raises only on values its operations reject, such as a number for `completed` or a string for `total_xp`.
- Session.Play: a `mission.yaml` is modelled by which of `name`, `description`, `objective` and `xp` it holds. Values of the wrong type are not modelled: a non-integer `xp`, a non-string `difficulty`, a `concepts` that is not a list of strings, or a file that is not a mapping. Each of these can make the source raise at the briefing or at the first pass.
- Tracker.FilledIsFloor: `filled` is computed on exact fractions. The source's floating-point product could round across an integer for some counts.
- The tracker's per-world percentage and the implementation percentage: floating-point display text. `Tracker.OverallPercent` models the overall percentage as an exact real.
- Text.IsDigit: `\d`, `str.isdigit` and `int()` accept only ASCII digits here. Python also accepts other Unicode digits.
- `engine/certificate.py` and `tools/generate_level.py` are not part of this model. The first is presentation text about the current date, and the second writes files.
