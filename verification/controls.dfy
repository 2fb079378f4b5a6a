/** How the teacher's controls relate to one another: pause and resume,
    reset from any state, repeated extensions, the early end, the checklist
    override, the settings save, and adding then deleting an item. */
module Controls {
  import opened Wrappers
  import opened Checklist
  import opened Settings
  import opened Timer

  /** Pausing a session or break and pressing start again resumes the same
      countdown: the remaining time, mode, prompt and settings are those at
      the pause. */
  lemma PauseThenResume(s: State)
    requires s.mode != Ready
    ensures Start(Pause(s)) == s.(running := true, isPaused := false)
  {
  }

  /** Reset does not depend on where the timer stood: two states with the
      same settings and prompt reset to the same state, so reset is
      idempotent. */
  lemma ResetForgetsTimer(s: State, u: State)
    requires s.settings == u.settings && s.modal == u.modal
    ensures Reset(s) == Reset(u)
    ensures Reset(Reset(s)) == Reset(s)
  {
  }

  /** Two valid extensions add up: they leave the state the single extension
      by their sum would, except that the prompt reports the second. */
  lemma ExtensionsAdd(s: State, a: int, b: int)
    requires a > 0 && b > 0
    ensures ExtendTime(ExtendTime(s, Some(a)), Some(b))
      == ExtendTime(s, Some(a + b)).(modal := Some(TimeExtended(b)))
  {
  }

  /** Ending a session early and confirming starts the break; ending a break
      early and confirming returns to ready; in ready the confirmation only
      closes the prompt, and the countdown stays stopped. */
  lemma EndEarlyThenConfirm(s: State)
    requires !s.checklistInProgress
    ensures var r := Confirm(EndCurrentSegment(s));
      && (s.mode == Session ==>
            r.mode == Break && r.timeLeft == 60 * s.settings.breakMins && r.running)
      && (s.mode == Break ==> r.mode == Ready && r.timeLeft == 0 && !r.running)
      && (s.mode == Ready ==> r == Pause(s).(modal := None))
      && r.modal.None? && r.settings == s.settings
  {
  }

  /** The override, confirmed in ready, enters the session with every item
      marked done and no walk, and closes the prompt; outside ready the
      button does nothing. */
  lemma OverrideThenConfirm(s: State)
    ensures s.mode != Ready ==> RequestOverride(s) == s
    ensures s.mode == Ready ==>
      var r := Confirm(RequestOverride(s));
      && r.mode == Session && r.timeLeft == 60 * s.settings.sessionMins
      && r.running && !r.isPaused && r.modal.None? && !r.checklistInProgress
      && r.settings.items == SetAllCompleted(s.settings.items, true)
      && AllCompleted(r.settings.items)
  {
  }

  /** A valid save changes the durations used by every later segment but
      not the running countdown; confirming it in ready clears the
      checklist. An invalid save changes nothing but the prompt. */
  lemma SaveThenUse(s: State, a: Option<int>, b: Option<int>)
    ensures var r := SaveSettings(s, a, b);
      && r.timeLeft == s.timeLeft
      && (ValidDuration(a) && ValidDuration(b) ==>
            && SwitchTo(r, Session).timeLeft == 60 * a.value
            && SwitchTo(r, Break).timeLeft == 60 * b.value)
      && (!(ValidDuration(a) && ValidDuration(b)) ==>
            r.settings == s.settings && r.modal == Some(InvalidSettings))
    ensures ValidDuration(a) && ValidDuration(b) && s.mode == Ready ==>
      var c := Confirm(SaveSettings(s, a, b));
      && c.settings.items == SetAllCompleted(s.settings.items, false)
      && c.settings.sessionMins == a.value && c.settings.breakMins == b.value
  {
  }

  /** Adding an item under a fresh id and then confirming its deletion gives
      back the checklist as it was. */
  lemma AddThenDelete(s: State, text: string, id: string)
    requires text != "" && !HasId(s.settings.items, id)
    ensures Confirm(DeleteItem(AddItem(s, text, id), id)).settings.items == s.settings.items
  {
    AddThenRemove(s.settings.items, id, text);
  }

  /** Confirming a deletion keeps exactly the items with another id, in
      order; a delete that is not confirmed changes no item. */
  lemma DeleteThenConfirm(s: State, id: string)
    ensures DeleteItem(s, id).settings == s.settings
    ensures var items := Confirm(DeleteItem(s, id)).settings.items;
      && items == RemoveId(s.settings.items, id)
      && forall x :: x in items <==> x in s.settings.items && x.id != id
  {
  }
}
