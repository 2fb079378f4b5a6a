/** The timer and mode state machine, the sequential checklist walk, the
    teacher overrides and the settings edits, as pure transitions over one
    state record. Each UI event of the page is one function from state to
    state; the one-second interval is the `Tick` event. */
module Timer {
  import opened Wrappers
  import opened Checklist
  import opened Settings

  /** `currentMode`. */
  datatype Mode = Ready | Session | Break

  /** What the generic message modal is showing. The prompt determines the
      continuation (`messageModalCallback`) that its confirm button runs. */
  datatype Prompt =
    | ItemTask(index: nat)        // "Pre-Session Task": confirm the item at `index`, then walk on
    | ChecklistComplete           // confirm enters the session
    | SessionEnded                // raised by the tick: confirm starts the break
    | BreakEnded                  // raised by the tick: confirm returns to ready
    | SessionEndedEarly           // confirm starts the break
    | BreakEndedEarly             // confirm returns to ready
    | NoActiveSegment
    | TimeExtended(minutes: int)
    | InvalidExtension
    | InvalidSettings
    | SettingsSaved               // confirm clears the checklist when in ready
    | ItemAdded(text: string)
    | InputRequired
    | ConfirmDeletion(id: string) // confirm removes the items with that id
    | ItemDeleted
    | OverrideChecklist           // confirm marks every item done and enters the session

  /** The page's module-level variables. `running` stands for a live
      `timerInterval`; `modal` is the visible prompt, None when hidden. */
  datatype State = State(
    mode: Mode,
    timeLeft: int,
    running: bool,
    isPaused: bool,
    checklistInProgress: bool,
    modal: Option<Prompt>,
    settings: Settings)

  /** The prompts whose continuation changes the mode. */
  predicate ChangesMode(p: Prompt) {
    p.ChecklistComplete? || p.SessionEnded? || p.BreakEnded? || p.SessionEndedEarly? || p.BreakEndedEarly?
  }

  /** The continuations that themselves call `showMessageModal`. */
  predicate RaisesPrompt(p: Prompt) {
    p.ItemTask? || p.ConfirmDeletion?
  }

  function DurationOf(settings: Settings, m: Mode): int {
    match m
    case Session => settings.sessionMins * 60
    case Break => settings.breakMins * 60
    case Ready => 0
  }

  function WithItems(s: State, items: seq<Item>): State {
    s.(settings := s.settings.(items := items))
  }

  /** `initializeApp`: settings loaded, ready, no countdown, no prompt. */
  function Init(stored: Option<Stored>): (r: State)
    ensures r.mode == Ready && r.timeLeft == 0 && !r.running && !r.isPaused
    ensures !r.checklistInProgress && r.modal.None?
    ensures forall i :: 0 <= i < |r.settings.items| ==> !r.settings.items[i].completed
    ensures r.settings == LoadSettings(stored)
  {
    State(Ready, 0, false, false, false, None, LoadSettings(stored))
  }

  /** `pauseTimer`: clears the interval and sets `isPaused`, whatever the
      mode; the remaining time is kept. */
  function Pause(s: State): (r: State)
    ensures !r.running && r.isPaused
    ensures r.timeLeft == s.timeLeft && r.mode == s.mode && r.modal == s.modal
    ensures r.settings == s.settings && r.checklistInProgress == s.checklistInProgress
  {
    s.(running := false, isPaused := true)
  }

  /** The part of `startTimer` after its checklist guard: any old interval
      is replaced by a fresh one, and the pause flag is cleared. */
  function RunCountdown(s: State): (r: State)
    ensures r.running && !r.isPaused
    ensures r.timeLeft == s.timeLeft && r.mode == s.mode && r.modal == s.modal
    ensures r.settings == s.settings && r.checklistInProgress == s.checklistInProgress
  {
    s.(running := true, isPaused := false)
  }

  /** `triggerNextChecklistItemModal(start)`: prompts for the first
      incomplete item at or after `start`, or, when there is none, ends the
      walk and raises the single "Checklist Complete!" prompt. Nothing else
      in the state changes. */
  function TriggerNext(s: State, start: nat): (r: State)
    ensures r.mode == s.mode && r.timeLeft == s.timeLeft && r.running == s.running
    ensures r.isPaused == s.isPaused && r.settings == s.settings
    ensures r.modal.Some?
    ensures r.modal.value.ItemTask? ==>
      var i := r.modal.value.index;
      && r.checklistInProgress
      && start <= i < |s.settings.items|
      && !s.settings.items[i].completed
      && CompletedBetween(s.settings.items, start, i)
    ensures !r.modal.value.ItemTask? ==>
      && r.modal.value == ChecklistComplete
      && !r.checklistInProgress
      && CompletedBetween(s.settings.items, start, |s.settings.items|)
  {
    var t := s.(checklistInProgress := true);
    match FirstIncompleteFrom(s.settings.items, start)
    case Some(i) => t.(modal := Some(ItemTask(i)))
    // With nothing left the walk ends: `hideMessageModal` closes the item
    // prompt, then "Checklist Complete!" opens in its place.
    case None => t.(checklistInProgress := false, modal := None).(modal := Some(ChecklistComplete))
  }

  /** `startTimer`: in ready with an unfinished checklist and no walk under
      way it begins the walk and starts no countdown; in every other case it
      (re)starts the interval, even in ready. */
  function Start(s: State): (r: State)
    ensures s.mode == Ready && !AllCompleted(s.settings.items) && !s.checklistInProgress ==>
      && r.modal.Some? && r.modal.value.ItemTask?
      && r.checklistInProgress
      && r.running == s.running && r.isPaused == s.isPaused
      && r.timeLeft == s.timeLeft && r.mode == Ready
      && r.settings == s.settings
      && FirstIncompleteFrom(s.settings.items, 0) == Some(r.modal.value.index)
    ensures !(s.mode == Ready && !AllCompleted(s.settings.items) && !s.checklistInProgress) ==>
      && r.running && !r.isPaused
      && r.mode == s.mode && r.timeLeft == s.timeLeft && r.modal == s.modal
      && r.settings == s.settings && r.checklistInProgress == s.checklistInProgress
  {
    if s.mode == Ready && !AllCompleted(s.settings.items) && !s.checklistInProgress then
      TriggerNext(s, 0)
    else
      RunCountdown(s)
  }

  /** `setMode`: session and break load the countdown from the configured
      minutes and start it (through `startTimer`, whose guard cannot fire
      outside ready); ready zeroes it and stops it through `pauseTimer`, so
      it leaves `isPaused` set. */
  function SetMode(s: State, m: Mode): (r: State)
    ensures r.mode == m
    ensures r.settings == s.settings && r.modal == s.modal
    ensures r.checklistInProgress == s.checklistInProgress
    ensures m == Session ==> r.timeLeft == 60 * s.settings.sessionMins && r.running && !r.isPaused
    ensures m == Break ==> r.timeLeft == 60 * s.settings.breakMins && r.running && !r.isPaused
    ensures m == Ready ==> r.timeLeft == 0 && !r.running && r.isPaused
  {
    var t := s.(mode := m, isPaused := false);
    match m
    case Session => Start(t.(timeLeft := t.settings.sessionMins * 60))
    case Break => Start(t.(timeLeft := t.settings.breakMins * 60))
    case Ready => Pause(t.(timeLeft := 0))
  }

  /** The body of the one-second interval. While time is left it only
      decrements it. The tick that finds no time left clears the interval
      and raises the end-of-segment prompt of the mode (none in ready). A
      tick with no interval does not happen. */
  function Tick(s: State): (r: State)
    ensures !s.running ==> r == s
    ensures r.mode == s.mode && r.settings == s.settings && r.isPaused == s.isPaused
    ensures r.checklistInProgress == s.checklistInProgress
    ensures s.running && s.timeLeft > 0 ==>
      r.running && r.timeLeft == s.timeLeft - 1 && r.modal == s.modal
    ensures s.running && s.timeLeft <= 0 ==>
      && !r.running && r.timeLeft == s.timeLeft
      && (s.mode == Session ==> r.modal == Some(SessionEnded))
      && (s.mode == Break ==> r.modal == Some(BreakEnded))
      && (s.mode == Ready ==> r.modal == s.modal)
    ensures s.timeLeft >= 0 ==> r.timeLeft >= 0
  {
    if !s.running then s
    else if s.timeLeft > 0 then s.(timeLeft := s.timeLeft - 1)
    else
      var t := s.(running := false);
      match s.mode
      case Session => t.(modal := Some(SessionEnded))
      case Break => t.(modal := Some(BreakEnded))
      case Ready => t
  }

  /** `resetTimer`: from any state, ready with no time left, no countdown,
      no walk, and every item unconfirmed; the item list is otherwise kept,
      and so is a visible prompt. `isPaused` ends up set, as `setMode`
      leaves it. */
  function Reset(s: State): (r: State)
    ensures r.mode == Ready && r.timeLeft == 0 && !r.running && r.isPaused
    ensures !r.checklistInProgress
    ensures r.modal == s.modal
    ensures r.settings.sessionMins == s.settings.sessionMins
    ensures r.settings.breakMins == s.settings.breakMins
    ensures |r.settings.items| == |s.settings.items|
    ensures forall i :: 0 <= i < |s.settings.items| ==>
      r.settings.items[i] == s.settings.items[i].(completed := false)
  {
    var t := SetMode(Pause(s), Ready).(timeLeft := 0);
    WithItems(t, SetAllCompleted(t.settings.items, false)).(checklistInProgress := false)
  }

  /** The manual "Switch to Session" / "Switch to Break" buttons: enter the
      mode directly, close any prompt and abandon any walk, without touching
      the checklist. */
  function SwitchTo(s: State, m: Mode): (r: State)
    requires m != Ready
    ensures r.mode == m && r.timeLeft == DurationOf(s.settings, m)
    ensures r.running && !r.isPaused
    ensures r.modal.None? && !r.checklistInProgress
    ensures r.settings == s.settings
  {
    SetMode(s, m).(modal := None).(checklistInProgress := false)
  }

  /** `extendTime`: a parsed positive number of minutes is added to the
      remaining time in whatever mode; anything else only raises the error
      prompt. Either way the prompt replaces whatever was showing. */
  function ExtendTime(s: State, minutes: Option<int>): (r: State)
    ensures ValidDuration(minutes) ==>
      && r.timeLeft == s.timeLeft + 60 * minutes.value
      && r.modal == Some(TimeExtended(minutes.value))
    ensures !ValidDuration(minutes) ==> r == s.(modal := Some(InvalidExtension))
    ensures r.mode == s.mode && r.running == s.running && r.isPaused == s.isPaused
    ensures r.settings == s.settings && r.checklistInProgress == s.checklistInProgress
  {
    if minutes.Some? && minutes.value > 0 then
      s.(timeLeft := s.timeLeft + minutes.value * 60, modal := Some(TimeExtended(minutes.value)))
    else
      s.(modal := Some(InvalidExtension))
  }

  /** `endCurrentSegment`: stops the countdown and asks for confirmation of
      the early end (the mode changes only on confirm); in ready there is
      nothing to end. */
  function EndCurrentSegment(s: State): (r: State)
    ensures !r.running && r.isPaused && r.timeLeft == s.timeLeft && r.mode == s.mode
    ensures r.settings == s.settings && r.checklistInProgress == s.checklistInProgress
    ensures s.mode == Session ==> r.modal == Some(SessionEndedEarly)
    ensures s.mode == Break ==> r.modal == Some(BreakEndedEarly)
    ensures s.mode == Ready ==> r.modal == Some(NoActiveSegment)
  {
    var t := Pause(s);
    match s.mode
    case Session => t.(modal := Some(SessionEndedEarly))
    case Break => t.(modal := Some(BreakEndedEarly))
    case Ready => t.(modal := Some(NoActiveSegment))
  }

  /** The checklist-override button: outside ready it does nothing; in
      ready it only raises its prompt, whose confirmation enters the
      configured session with every item marked done and no walk. */
  function RequestOverride(s: State): (r: State)
    ensures s.mode != Ready ==> r == s
    ensures r.(modal := s.modal) == s
    ensures s.mode == Ready ==>
      var c := Confirm(r);
      && c.mode == Session && c.timeLeft == 60 * s.settings.sessionMins
      && c.running && !c.isPaused && c.modal.None? && !c.checklistInProgress
      && c.settings.items == SetAllCompleted(s.settings.items, true)
      && AllCompleted(c.settings.items)
  {
    if s.mode == Ready then s.(modal := Some(OverrideChecklist)) else s
  }

  /** `saveCurrentSettings`: both durations must parse as positive numbers;
      otherwise neither changes and the error prompt shows. */
  function SaveSettings(s: State, session: Option<int>, brk: Option<int>): (r: State)
    ensures ValidDuration(session) && ValidDuration(brk) ==>
      && r.settings == s.settings.(sessionMins := session.value, breakMins := brk.value)
      && r.modal == Some(SettingsSaved)
    ensures !(ValidDuration(session) && ValidDuration(brk)) ==>
      r == s.(modal := Some(InvalidSettings))
    ensures r.settings.items == s.settings.items
    ensures r.mode == s.mode && r.timeLeft == s.timeLeft && r.running == s.running
    ensures r.isPaused == s.isPaused && r.checklistInProgress == s.checklistInProgress
  {
    match ValidateDurations(session, brk)
    case None => s.(modal := Some(InvalidSettings))
    case Some(d) => s.(settings := s.settings.(sessionMins := d.0, breakMins := d.1), modal := Some(SettingsSaved))
  }

  /** `addChecklistItem` on already trimmed text, with the generated id
      passed in: non-empty text appends exactly one unconfirmed item carrying
      the generated message; empty text changes nothing but the prompt. */
  function AddItem(s: State, text: string, freshId: string): (r: State)
    ensures text != "" ==>
      && |r.settings.items| == |s.settings.items| + 1
      && r.settings.items[..|s.settings.items|] == s.settings.items
      && var added := r.settings.items[|s.settings.items|];
         added.id == freshId && added.text == text && !added.completed
         && added.modalMessage == DefaultMessage(text)
    ensures text != "" ==> r.modal == Some(ItemAdded(text))
    ensures text == "" ==> r == s.(modal := Some(InputRequired))
    ensures r.settings.sessionMins == s.settings.sessionMins && r.settings.breakMins == s.settings.breakMins
    ensures r.mode == s.mode && r.timeLeft == s.timeLeft && r.running == s.running
    ensures r.isPaused == s.isPaused && r.checklistInProgress == s.checklistInProgress
  {
    if text != "" then
      WithItems(s, s.settings.items + [NewItem(freshId, text)]).(modal := Some(ItemAdded(text)))
    else
      s.(modal := Some(InputRequired))
  }

  /** `deleteChecklistItem`: nothing is removed until the prompt is
      confirmed; the confirmation keeps exactly the items with another id, in
      order, and changes nothing else but the prompt. */
  function DeleteItem(s: State, id: string): (r: State)
    ensures r.settings == s.settings && r.modal == Some(ConfirmDeletion(id))
    ensures r.(modal := s.modal) == s
    ensures var c := Confirm(r);
      && c.settings.items == RemoveId(s.settings.items, id)
      && c.settings.sessionMins == s.settings.sessionMins
      && c.settings.breakMins == s.settings.breakMins
      && c.mode == s.mode && c.timeLeft == s.timeLeft && c.running == s.running
  {
    s.(modal := Some(ConfirmDeletion(id)))
  }

  /** The mode a prompt's continuation enters, if it enters one. */
  function Destination(p: Prompt): Option<Mode> {
    match p
    case ChecklistComplete => Some(Session)
    case OverrideChecklist => Some(Session)
    case SessionEnded => Some(Break)
    case SessionEndedEarly => Some(Break)
    case BreakEnded => Some(Ready)
    case BreakEndedEarly => Some(Ready)
    case _ => None
  }

  /** The continuation of each prompt, run by the modal's confirm button.
      A mode-entering continuation loads the countdown for the new mode
      (running outside ready); every other one leaves mode and countdown as
      they were. */
  function RunCallback(s: State, p: Prompt): (r: State)
    ensures Destination(p).Some? ==>
      && r.mode == Destination(p).value
      && r.timeLeft == DurationOf(s.settings, r.mode)
      && (r.running <==> r.mode != Ready)
    ensures Destination(p).None? ==>
      r.mode == s.mode && r.timeLeft == s.timeLeft && r.running == s.running && r.isPaused == s.isPaused
    ensures r.settings.sessionMins == s.settings.sessionMins && r.settings.breakMins == s.settings.breakMins
  {
    match p
    case ItemTask(i) =>
      TriggerNext(WithItems(s, MarkCompleted(s.settings.items, i)), i + 1)
    case ChecklistComplete => SetMode(s, Session)
    case SessionEnded => SetMode(s, Break)
    case SessionEndedEarly => SetMode(s, Break)
    case BreakEnded => SetMode(s, Ready)
    case BreakEndedEarly => SetMode(s, Ready)
    case SettingsSaved =>
      if s.mode == Ready then WithItems(s, SetAllCompleted(s.settings.items, false)) else s
    case ConfirmDeletion(id) =>
      WithItems(s, RemoveId(s.settings.items, id)).(modal := Some(ItemDeleted))
    case OverrideChecklist =>
      var t := SetMode(s.(modal := None), Session);
      WithItems(t, SetAllCompleted(t.settings.items, true)).(checklistInProgress := false)
    case _ => s
  }

  /** The modal's confirm button as the page wires it: run the continuation,
      then hide the modal unless a checklist walk is under way. The hiding
      also closes any prompt the continuation has just raised. */
  function Confirm(s: State): (r: State)
    ensures s.modal.None? ==> r == s
    ensures !r.checklistInProgress ==> r.modal.None?
    ensures s.modal.Some? && Destination(s.modal.value).Some? ==>
      r.mode == Destination(s.modal.value).value && r.timeLeft == DurationOf(s.settings, r.mode)
  {
    match s.modal
    case None => s
    case Some(p) =>
      var t := RunCallback(s, p);
      if t.checklistInProgress then t else t.(modal := None)
  }

  /** The confirm button as its own comment describes it: the modal is hidden
      only when the continuation raised no prompt of its own and no walk is
      under way. */
  function ConfirmIntended(s: State): (r: State)
    ensures s.modal.None? ==> r == s
    ensures s.modal.Some? && RaisesPrompt(s.modal.value) ==> r.modal.Some?
    ensures s.modal.Some? && !RaisesPrompt(s.modal.value) && !r.checklistInProgress ==> r.modal.None?
    ensures s.modal.Some? && Destination(s.modal.value).Some? ==>
      r.mode == Destination(s.modal.value).value && r.timeLeft == DurationOf(s.settings, r.mode)
  {
    match s.modal
    case None => s
    case Some(p) =>
      var t := RunCallback(s, p);
      if t.checklistInProgress || RaisesPrompt(p) then t else t.(modal := None)
  }

  /** The start button as its label promises: in ready with the checklist
      already complete it enters the session instead of running an empty
      countdown in ready. */
  function StartIntended(s: State): (r: State)
    ensures s.mode == Ready && AllCompleted(s.settings.items) && !s.checklistInProgress ==>
      && r.mode == Session && r.timeLeft == 60 * s.settings.sessionMins
      && r.running && !r.isPaused && r.modal == s.modal && r.settings == s.settings
    ensures !(s.mode == Ready && AllCompleted(s.settings.items) && !s.checklistInProgress) ==>
      r == Start(s)
  {
    if s.mode == Ready && AllCompleted(s.settings.items) && !s.checklistInProgress then
      SetMode(s, Session)
    else
      Start(s)
  }

  /** The UI events: the buttons, the modal's confirm button, the settings
      edits and the one-second interval. Parsed numbers and trimmed text
      arrive already converted; the new item's id is generated outside. */
  datatype Event =
    | StartClicked
    | PauseClicked
    | ResetClicked
    | SwitchToSessionClicked
    | SwitchToBreakClicked
    | ExtendClicked(minutes: Option<int>)
    | EndSegmentClicked
    | OverrideClicked
    | ConfirmClicked
    | SaveSettingsClicked(session: Option<int>, brk: Option<int>)
    | AddItemClicked(text: string, freshId: string)
    | DeleteItemClicked(id: string)
    | IntervalTick

  /** One event, handled as the page handles it. Only the settings save
      changes the durations; only an addition or a confirmation changes the
      number of items; only reset, the switch buttons and a confirmation
      change the mode; the countdown grows only by an extension or by
      entering a segment; a tick with no interval changes nothing. */
  function Step(s: State, e: Event): (r: State)
    ensures !e.SaveSettingsClicked? ==>
      r.settings.sessionMins == s.settings.sessionMins && r.settings.breakMins == s.settings.breakMins
    ensures !(e.AddItemClicked? || e.ConfirmClicked?) ==> |r.settings.items| == |s.settings.items|
    ensures r.mode != s.mode ==>
      e.ResetClicked? || e.SwitchToSessionClicked? || e.SwitchToBreakClicked? || e.ConfirmClicked?
    ensures s.timeLeft >= 0 && r.timeLeft > s.timeLeft ==>
      e.ExtendClicked? || e.SwitchToSessionClicked? || e.SwitchToBreakClicked? || e.ConfirmClicked?
    ensures e.IntervalTick? && !s.running ==> r == s
  {
    match e
    case StartClicked => Start(s)
    case PauseClicked => Pause(s)
    case ResetClicked => Reset(s)
    case SwitchToSessionClicked => SwitchTo(s, Session)
    case SwitchToBreakClicked => SwitchTo(s, Break)
    case ExtendClicked(n) => ExtendTime(s, n)
    case EndSegmentClicked => EndCurrentSegment(s)
    case OverrideClicked => RequestOverride(s)
    case ConfirmClicked => Confirm(s)
    case SaveSettingsClicked(a, b) => SaveSettings(s, a, b)
    case AddItemClicked(text, id) => AddItem(s, text, id)
    case DeleteItemClicked(id) => DeleteItem(s, id)
    case IntervalTick => Tick(s)
  }

  /** One event with the two corrections of `ConfirmIntended` and
      `StartIntended` applied. */
  function StepIntended(s: State, e: Event): State {
    match e
    case StartClicked => StartIntended(s)
    case ConfirmClicked => ConfirmIntended(s)
    case _ => Step(s, e)
  }

  /** A sequence of events from a state. */
  function Run(s: State, events: seq<Event>): State
    decreases |events|
  {
    if events == [] then s else Run(Step(s, events[0]), events[1..])
  }

  function RunIntended(s: State, events: seq<Event>): State
    decreases |events|
  {
    if events == [] then s else RunIntended(StepIntended(s, events[0]), events[1..])
  }
}
