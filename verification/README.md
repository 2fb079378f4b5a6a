# ClassroomCTRL timer and readiness checklist, in Dafny

The ClassroomCTRL page (`script.js`) is a classroom timer. It cycles through
three modes:

- **ready**: no time on the clock;
- **session**: a countdown of the configured session length;
- **break**: a countdown of the configured break length.

Before a session can start, a sequential checklist walk asks the teacher to
confirm each unfinished readiness item in a modal prompt. Other controls:

- teacher overrides: extend the time, end the segment early, skip the checklist;
- a settings panel: change the two durations, add or delete checklist items.

The configuration is kept in local storage. When it is loaded it is merged
with built-in defaults.

The model is a pure state machine. `Timer.State` holds the page's
module-level variables:

- `currentMode` and `timeLeft`;
- whether an interval is live;
- `isPaused` and `checklistInProgress`;
- the visible prompt;
- `appSettings`.

Each UI event is one function from state to state. The generic modal has a
single slot. Showing a prompt replaces the one before, callback included. So
the visible prompt is an `Option<Prompt>`, and `Timer.RunCallback` gives each
prompt kind the continuation its confirm button runs.

`Timer.Step` dispatches the events as the page wires them and `Timer.Run`
folds a sequence of them. `Timer.StepIntended` and `Timer.RunIntended` do the
same with the two corrections of "## Findings" applied.

Modules:

- `Wrappers`: the `Option` type.
- `Clock`: `formatTime` and a reader that inverts it.
- `Checklist`: items, the `findIndex` search for the next incomplete item, the list edits.
- `Settings`: defaults, the store/load merge with message backfill, duration validation.
- `Timer`: the state machine.
- `Walk`: the checklist walk over many confirmations.
- `Countdown`: the interval over many ticks.
- `Controls`: how the teacher controls compose.
- `TimerInvariant`: an invariant that every event keeps.
- `Findings`: the two defects and their corrections.

The model follows what `script.js` does, including where it departs from
what the page's own comments and prompts announce:

- `resetTimer` leaves `isPaused` set. It calls `setMode('ready')`, which ends in `pauseTimer`.
- The return from break to ready does not clear the checklist. Only reset, loading and a settings save made in ready clear it.
- `extendTime` adds time in every mode, ready included.
- Start in ready with a complete checklist, or while a walk is under way, starts an interval in ready rather than a session.
- A segment of `n` seconds raises its end prompt on tick `n + 1`. The next mode begins only when that prompt is confirmed.
- Reset does not close a visible prompt.
- The "Checklist Complete!" prompt is raised but closed at once (Finding 1).

## Model

| member | source | states |
|---|---|---|
| Clock.FormatTime | script.js:58-62 | for a non-negative count of seconds the text ends in a colon and two digits whose value is the seconds modulo 60, with only digits before the colon |
| Clock.FormatTimeRoundTrip | script.js:58-62 | reading back the rendered text gives the number of seconds rendered, for every non-negative input |
| Clock.FormatTimeLength | script.js:58-62 | the minutes field has as many characters as the minutes have digits, and two when they have one, so no extra leading zeros; the rendering is exactly `MM:SS` (five characters) if and only if the time is under 100 minutes |
| Checklist.DefaultMessage | script.js:73-77 | the generated confirmation message is the fixed prefix `Please confirm you have completed "**`, then the item text, then the fixed suffix `**".`, and so is never empty |
| Checklist.AllCompleted | script.js:125-127 | every item is completed, which holds of the empty list and holds exactly when the walk's search from index 0 finds nothing |
| Checklist.FirstIncompleteFrom | script.js:156-159 | the found index is at or after the start, holds an incomplete item, and every item between the start and it is complete; none is found exactly when every item from the start on is complete |
| Checklist.FindIndexIncomplete | script.js:156-159 | the whole-list `findIndex` scan returns -1 exactly when no incomplete item is at or after the start, and otherwise the first such index |
| Checklist.MarkCompleted | script.js:168 | confirming an item sets the completion flag of exactly that item and leaves every other item as it was |
| Checklist.SetAllCompleted | script.js:272 | the completion flag of every item is set to the given value and nothing else about any item changes |
| Checklist.NewItem | script.js:393-398 | a new item carries the given id and text, is unconfirmed and has the generated message |
| Checklist.RemoveId | script.js:415 | the filter keeps exactly the items whose id differs from the deleted one |
| Checklist.RemoveIdAppend | script.js:415 | filtering a concatenation filters each part in place, so the kept items stay in their original relative order |
| Checklist.RemoveAbsentId | script.js:415 | deleting an id no item carries leaves the list unchanged |
| Checklist.RemoveIdKeepsUnique | script.js:415 | after a deletion no item carries the deleted id, and distinct ids stay distinct |
| Checklist.AddThenRemove | script.js:390-422 | deleting an item just appended under a fresh id gives back the list as it was |
| Settings.LoadItem | script.js:73-77 | a loaded item keeps its id and text, is unconfirmed, keeps a non-empty stored message and otherwise gets the generated one |
| Settings.Merge | script.js:68-77 | each stored duration wins over its default and an absent one falls back to it; a stored item list is loaded item by item, with every message present and every item unconfirmed |
| Settings.LoadSettings | script.js:65-84 | loaded durations are the stored ones or the defaults, and every loaded item starts unconfirmed |
| Settings.LoadWithNothingStored | script.js:3-13 | with nothing stored, loading yields 25 and 5 minutes and the four default items in order |
| Settings.LoadMergesStored | script.js:65-84 | with a stored record, the stored list, or the default list when there is none, comes through item by item |
| Settings.LoadedMessagesPresent | script.js:73-77 | every loaded item has a non-empty confirmation message |
| Settings.Store | script.js:85-88 | the record written carries both durations and, in order, every item's id, text, completion flag and message |
| Settings.LoadAfterStore | script.js:85-88 | saving a configuration and loading it again gives it back with every item unconfirmed |
| Settings.LoadIsIdempotent | script.js:65-88 | a loaded configuration that is saved and loaded again comes back unchanged |
| Settings.ValidateDurations | script.js:356-360 | new durations are accepted if and only if both parse and are positive |
| Settings.DefaultsWellFormed | script.js:3-13 | the defaults have positive durations, distinct ids and a message on every item |
| Timer.Init | script.js:518-523 | the app starts in ready, with no countdown, no walk, no prompt, the settings `loadSettings` gives for what is stored, and every item unconfirmed |
| Timer.TriggerNext | script.js:146-196 | the walk prompts for the first incomplete item at or after the start index, skipping only completed ones; when there is none it ends the walk and raises the single completion prompt; nothing else changes |
| Timer.Start | script.js:215-227 | in ready with an unfinished checklist and no walk, start prompts for the first incomplete item, starts no countdown and leaves the pause flag, time and settings alone; otherwise it runs the countdown from the time left, whatever the mode |
| Timer.Pause | script.js:259-264 | pause stops the countdown and keeps the time, mode, prompt and settings |
| Timer.SetMode | script.js:283-300 | session and break load their configured length and run; ready zeroes and stops the countdown and leaves it marked paused |
| Timer.Tick | script.js:229-255 | a tick with time left only decrements it; the tick at zero stops the interval and raises the end prompt of the mode, none in ready; the countdown never goes negative |
| Timer.Reset | script.js:266-281 | from any state, reset gives ready, zero time, no countdown, no walk and every item unconfirmed, with the list and any visible prompt otherwise kept |
| Timer.SwitchTo | script.js:428-450 | the switch buttons enter the mode with its configured length, running, and close any prompt and abandon any walk |
| Timer.ExtendTime | script.js:303-312 | a positive number of minutes adds that many minutes in any mode; anything else changes only the prompt |
| Timer.EndCurrentSegment | script.js:314-337 | the countdown stops and the early-end prompt of the mode shows; the mode does not change yet |
| Timer.RequestOverride | script.js:462-485 | outside ready nothing changes; in ready only the prompt changes, and confirming it enters the configured session, running, with every item completed, no walk and no prompt |
| Timer.SaveSettings | script.js:352-375 | valid durations replace the old ones, and the items, mode, countdown, pause flag and walk flag are untouched; invalid input changes only the prompt |
| Timer.AddItem | script.js:390-407 | non-empty text appends exactly one unconfirmed item with the fresh id and generated message, keeps the earlier items, and leaves the durations, mode, countdown, pause flag and walk flag alone; empty text changes only the prompt |
| Timer.DeleteItem | script.js:409-422 | only the prompt changes until it is confirmed; the confirmation keeps exactly the items with another id, in order, and leaves durations, mode and countdown alone |
| Timer.RunCallback | script.js:167-481 | the continuations passed to the modal (script.js lines 167-173, 184-192, 239-241, 248-250, 320-322, 329-331, 367-374, 414-419, 467-481): each mode-changing continuation enters its destination mode with that mode's configured length, running outside ready; the others keep mode and countdown |
| Timer.Confirm | script.js:503-514 | the page's confirm handler leaves no prompt showing whenever no walk is under way afterwards |
| Timer.ConfirmIntended | script.js:503-514 | the corrected handler keeps a prompt raised by the continuation on screen |
| Timer.StartIntended | script.js:215-221 | the corrected start enters the session directly when the checklist is already complete |
| Timer.Step | script.js:425-514 | of all the page's events, only the settings save changes the durations; only an addition or a confirmation changes the number of items; only reset, the switch buttons and a confirmation change the mode; the countdown grows only by an extension or a segment entry; a tick with no interval changes nothing |
| Walk.WalkStep | script.js:167-173 | confirming a walk prompt marks exactly the prompted item and moves to a strictly later incomplete item, skipping only completed ones, or ends the walk |
| Walk.WalkRuns | script.js:146-196 | exactly one confirmation per incomplete item completes the list from the current item on and ends the walk; the page leaves nothing showing, and the corrected handler leaves the completion prompt |
| Walk.WalkFromStart | script.js:215-221 | start plus one confirmation per incomplete item completes every item and, as wired, is still in ready with no prompt; with the corrections, one more confirmation starts the configured session |
| Countdown.CountsDown | script.js:229-231 | while time is left, `k` ticks take exactly `k` seconds off and change nothing else |
| Countdown.SegmentEnds | script.js:229-255 | a running segment with `n` seconds left ends on tick `n + 1` with its end prompt, and later ticks change nothing |
| Countdown.SessionRunsIntoBreak | script.js:235-243 | a full session followed by confirming its end prompt starts the configured break, running |
| Countdown.BreakRunsIntoReady | script.js:244-252 | a full break followed by confirming its end prompt returns to ready with no time, and the checklist is left as it was |
| Countdown.ExtensionPostponesEnd | script.js:303-308 | extending a running segment by `m` minutes postpones its end prompt by exactly `60 * m` ticks |
| Controls.PauseThenResume | script.js:215-264 | pausing a session or break and pressing start again resumes the same countdown with the same mode, prompt and settings |
| Controls.ResetForgetsTimer | script.js:266-281 | reset ignores where the timer stood, and resetting twice is resetting once |
| Controls.ExtensionsAdd | script.js:303-312 | two extensions leave the state the single extension by their sum would, apart from the message |
| Controls.EndEarlyThenConfirm | script.js:314-337 | ending a session early and confirming starts the break, ending a break early returns to ready, and in ready the confirmation only closes the prompt |
| Controls.OverrideThenConfirm | script.js:462-485 | a confirmed override in ready starts the configured session with every item done and no walk |
| Controls.SaveThenUse | script.js:352-375 | a valid save leaves the running countdown alone but sets the length of every later segment, and confirming it in ready clears the checklist |
| Controls.AddThenDelete | script.js:390-422 | adding an item and then confirming its deletion restores the checklist |
| Controls.DeleteThenConfirm | script.js:409-422 | a confirmed deletion keeps exactly the items with another id, in order |
| TimerInvariant.InitInv | script.js:518-523 | starting from the defaults, or from a stored record with positive durations and distinct ids, satisfies the invariant |
| TimerInvariant.ConfirmInv | script.js:503-514 | confirming any prompt keeps the invariant under both the page's and the corrected handler |
| TimerInvariant.StepInv | script.js:425-514 | every event keeps the invariant when any new item id is fresh: non-negative time, positive durations, distinct ids, a message on every item, a walk only in ready, and a pending item prompt only for an existing incomplete item |
| TimerInvariant.RunInv | script.js:425-514 | every admissible sequence of events keeps the invariant |
| TimerInvariant.ReachableInv | script.js:425-523 | every state reachable from a valid start satisfies the invariant |
| Findings.ChecklistCompleteSwallowed | script.js:503-514 | as wired: after the walk every item is done, but the app sits in ready with no prompt, and further confirmations do nothing |
| Findings.StartWithChecklistDoneIdles | script.js:215-256 | as wired: start in ready with a complete checklist runs a countdown in ready that stops silently, with no session and no prompt |
| Findings.IntendedFlowReachesSession | script.js:146-221 | corrected: from ready, start plus one confirmation per incomplete item and one for the completion prompt enters the configured session with every item done |
| Findings.DefaultChecklistScenario | script.js:3-13 | on the default checklist, start and four confirmations leave the app in ready with nothing showing; the corrected handlers reach the 25-minute session after a fifth |

## Left out

- Clock.FormatTime: the page's numbers are doubles and the model's are unbounded integers. The model is faithful for safe integers, below 2^53. It does not model `toString`'s exponent form from 10^21 on. It also does not model fractional values, which a hand-edited stored duration could produce.
- Timer.Tick: from 2^53 seconds on, a double `timeLeft--` is no longer exact, and from 2^54 on it leaves the value unchanged. The model's countdown always decreases, so it assumes the time stays below 2^53.
- Timer.ExtendTime: `parseInt` of a very long digit string gives Infinity, which passes the page's positivity check. The model takes the parsed minutes as an integer and does not model Infinity or `NaN` beyond "no number".
- `loadSettings` (script.js:65-84) never checks a stored record. A stored duration of zero or less, or a repeated stored id, is loaded unchanged. This is why `TimerInvariant.InitInv` assumes `TimerInvariant.StoredWellFormed`: positive stored durations and distinct stored ids.

- Rendering: the DOM, the button labels and visibility, the checklist display, the settings panel's open and close, and the hiding of page sections during the walk. These change no modelled state.
- Local storage: it is a parameter. `Settings.LoadSettings` takes the parsed record, or nothing, and `Settings.Store` gives the record written. A record that fails to parse is not modelled.
- `JSON.parse` of malformed stored items is not modelled. A stored item is assumed to carry an id, a text and a completion flag.
- `parseInt` is left out. Its result arrives as an `Option<int>`: None stands for NaN.
- Trimming of the new item's text is left out. The text arrives trimmed.
- `Date.now()` for new item ids is a parameter. The invariant's admissibility condition asks only that the id is not already in use.
- The interval timer is modelled as a `running` flag plus an explicit tick event. Real time is not modelled, and neither is the order of a tick against a click within one second.
- `console.log` is left out.
- The checkbox change listener is left out: its body is empty.
- Timer.TriggerNext: the page's item continuation holds the item object, not its index. The model records the index. The two agree because every list edit shows a prompt of its own, which replaces any pending item prompt.

## Findings

| source | as written | input that shows it | evidently intended | confidence | as-written member | corrected member |
|---|---|---|---|---|---|---|
| script.js:503-514 | after running the continuation, the confirm handler hides the modal whenever no walk is under way. The last item's continuation ends the walk and shows "Checklist Complete!", so that prompt is hidden at once, and so is the "Item Deleted" notice. On the page it is worse: the walk hides the status display and the start, mode and override controls (script.js:148-151), and only the swallowed continuation shows them again, so they stay hidden | default settings: start, then confirm four times; the app is in ready with no prompt and no countdown | the prompt raised by the continuation stays visible, and confirming it starts the session | high (not executed) | Findings.ChecklistCompleteSwallowed | Findings.IntendedFlowReachesSession |
| script.js:215-256 | start in ready with every item complete passes the checklist guard and runs the countdown in ready; it stops at the next tick and nothing else happens | every item deleted, then start; or the override confirmed, the session and the break run out and confirmed, then start | the session starts when the checklist is already complete | medium (not executed) | Findings.StartWithChecklistDoneIdles | Findings.IntendedFlowReachesSession |
