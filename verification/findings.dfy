/** Two defects of the page as wired, each shown on the as-written model
    and paired with the corrected behaviour proved of `ConfirmIntended` and
    `StartIntended`.

    1. The confirm handler hides the modal after running the continuation
       whenever no walk is under way. The continuation of the last item
       prompt ends the walk and raises "Checklist Complete!", so that prompt
       is closed the moment it opens and the session never begins on its
       own; the "Item deleted" notice is closed the same way.
    2. Pressing start in ready with the checklist already complete (an empty
       list, or a list completed by an override and kept through break and
       back to ready; a list completed by a walk reaches this point only
       once the first defect is corrected) passes the checklist guard and
       runs the countdown in ready, which stops silently: no session
       begins. */
module Findings {
  import opened Wrappers
  import opened Checklist
  import opened Settings
  import opened Timer
  import opened Walk
  import opened Countdown

  /** `n` presses of the modal's confirm button, as events. */
  function Confirms(n: nat): (r: seq<Event>)
    ensures |r| == n && forall k :: 0 <= k < n ==> r[k] == ConfirmClicked
  {
    seq(n, _ => ConfirmClicked)
  }

  lemma {:induction false} RunConfirms(s: State, n: nat)
    ensures Run(s, Confirms(n)) == ConfirmN(s, n)
    ensures RunIntended(s, Confirms(n)) == ConfirmIntendedN(s, n)
    decreases n
  {
    if n > 0 {
      assert Confirms(n)[1..] == Confirms(n - 1);
      RunConfirms(Confirm(s), n - 1);
      RunConfirms(ConfirmIntended(s), n - 1);
    }
  }

  lemma RunCons(s: State, e: Event, rest: seq<Event>)
    ensures Run(s, [e] + rest) == Run(Step(s, e), rest)
    ensures RunIntended(s, [e] + rest) == RunIntended(StepIntended(s, e), rest)
  {
    assert ([e] + rest)[1..] == rest;
  }

  /** Finding 1, as written: start in ready with an unfinished checklist,
      then confirm each item prompt. After the last one every item is done,
      but the app sits in ready with no prompt and no countdown, and further
      confirmations do nothing: the announced session never begins. */
  lemma ChecklistCompleteSwallowed(s: State, more: nat)
    requires s.mode == Ready && !s.checklistInProgress && !AllCompleted(s.settings.items)
    ensures var n := CountIncompleteFrom(s.settings.items, 0);
      var r := Run(s, [StartClicked] + Confirms(n));
      && r.mode == Ready && r.modal.None? && !r.checklistInProgress
      && AllCompleted(r.settings.items)
      && r.running == s.running && r.timeLeft == s.timeLeft
      && Run(r, Confirms(more)) == r
  {
    var n := CountIncompleteFrom(s.settings.items, 0);
    RunCons(s, StartClicked, Confirms(n));
    RunConfirms(Start(s), n);
    WalkFromStart(s);
    var r := ConfirmN(Start(s), n);
    RunConfirms(r, more);
    NothingToConfirm(r, more);
  }

  lemma {:induction false} NothingToConfirm(s: State, n: nat)
    requires s.modal.None?
    ensures ConfirmN(s, n) == s
    decreases n
  {
    if n > 0 {
      NothingToConfirm(Confirm(s), n - 1);
    }
  }

  /** Finding 2, as written: with the checklist complete, start in ready
      runs the countdown in ready; however long it runs, the app stays in
      ready, the countdown stops, and no prompt appears. */
  lemma StartWithChecklistDoneIdles(s: State, later: nat)
    requires s.mode == Ready && AllCompleted(s.settings.items) && !s.checklistInProgress
    requires s.timeLeft >= 0
    ensures var r := TickN(Start(s), s.timeLeft + 1 + later);
      && r.mode == Ready && !r.running && r.timeLeft == 0
      && r.modal == s.modal && r.settings == s.settings
  {
    var t := Start(s);
    SegmentEnds(t, later);
    TickNSplit(t, s.timeLeft + 1, later);
  }

  /** The number of confirmations the corrected flow needs after start: one
      per incomplete item and one for "Checklist Complete!", or none when the
      checklist is already complete. */
  function ConfirmsToSession(items: seq<Item>): nat {
    if AllCompleted(items) then 0 else CountIncompleteFrom(items, 0) + 1
  }

  /** The state the corrected flow reaches: the session, freshly loaded,
      with every item done. */
  predicate InSessionReady(r: State, s: State) {
    && r.mode == Session && r.timeLeft == 60 * s.settings.sessionMins
    && r.running && !r.isPaused && !r.checklistInProgress
    && AllCompleted(r.settings.items)
    && r.settings.sessionMins == s.settings.sessionMins
  }

  lemma IntendedWalkReachesSession(s: State)
    requires s.mode == Ready && !s.checklistInProgress && !AllCompleted(s.settings.items)
    ensures InSessionReady(ConfirmIntendedN(StartIntended(s), CountIncompleteFrom(s.settings.items, 0) + 1), s)
  {
    WalkFromStart(s);
  }

  lemma IntendedStartReachesSession(s: State)
    requires s.mode == Ready && !s.checklistInProgress && AllCompleted(s.settings.items)
    ensures InSessionReady(ConfirmIntendedN(StartIntended(s), 0), s)
  {
  }

  /** Both findings corrected: from ready with no walk under way, start
      followed by one confirmation per incomplete item and one for
      "Checklist Complete!" enters the session with the configured length and
      every item done, whatever the checklist held. */
  lemma IntendedFlowReachesSession(s: State)
    requires s.mode == Ready && !s.checklistInProgress
    ensures InSessionReady(RunIntended(s, [StartClicked] + Confirms(ConfirmsToSession(s.settings.items))), s)
  {
    var n := ConfirmsToSession(s.settings.items);
    RunCons(s, StartClicked, Confirms(n));
    RunConfirms(StartIntended(s), n);
    if !AllCompleted(s.settings.items) {
      IntendedWalkReachesSession(s);
    } else {
      IntendedStartReachesSession(s);
    }
  }

  /** Finding 1 on the default checklist: start and four confirmations
      complete the four default items and leave the app in ready with
      nothing showing, where the corrected handler reaches a 25-minute
      session after one more confirmation. */
  lemma DefaultChecklistScenario()
    ensures var r := Run(Init(None), [StartClicked] + Confirms(4));
      && r.mode == Ready && r.modal.None? && !r.running
      && AllCompleted(r.settings.items)
    ensures var r := RunIntended(Init(None), [StartClicked] + Confirms(5));
      && r.mode == Session && r.timeLeft == 1500 && r.running
  {
    var s := Init(None);
    LoadWithNothingStored();
    var items := s.settings.items;
    assert !items[0].completed && !items[1].completed && !items[2].completed && !items[3].completed;
    assert CountIncompleteFrom(items, 4) == 0;
    assert CountIncompleteFrom(items, 0) == 4;
    ChecklistCompleteSwallowed(s, 0);
    IntendedFlowReachesSession(s);
  }
}
