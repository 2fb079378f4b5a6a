/** The invariant every reachable state keeps: a non-negative countdown, a
    well-formed configuration, a walk only in ready, a pending item prompt
    only for an incomplete item that exists, and a mode-changing prompt only
    outside a walk. Every event preserves it, under both the page's and the
    intended handlers. */
module TimerInvariant {
  import opened Wrappers
  import opened Checklist
  import opened Settings
  import opened Timer

  predicate Inv(s: State) {
    && s.timeLeft >= 0
    && WellFormed(s.settings)
    && (s.mode != Ready ==> !s.checklistInProgress)
    && (s.modal.Some? && s.modal.value.ItemTask? ==>
          && s.mode == Ready
          && s.modal.value.index < |s.settings.items|
          && !s.settings.items[s.modal.value.index].completed)
    && (s.modal.Some? && ChangesMode(s.modal.value) ==> !s.checklistInProgress)
  }

  /** The only thing the page relies on from outside: a generated item id is
      not already in use. */
  predicate Admissible(s: State, e: Event) {
    e.AddItemClicked? ==> !HasId(s.settings.items, e.freshId)
  }

  /** A stored record whose durations, where present, are positive and whose
      item ids, where present, are distinct. */
  predicate StoredWellFormed(stored: Option<Stored>) {
    stored.Some? ==>
      && (stored.value.sessionMins.Some? ==> stored.value.sessionMins.value > 0)
      && (stored.value.breakMins.Some? ==> stored.value.breakMins.value > 0)
      && (stored.value.items.Some? ==>
            forall i, j :: 0 <= i < j < |stored.value.items.value| ==>
              stored.value.items.value[i].id != stored.value.items.value[j].id)
  }

  /** Two lists with the same ids and messages in the same places. */
  predicate SameEntries(a: seq<Item>, b: seq<Item>) {
    |a| == |b| && forall k :: 0 <= k < |a| ==> a[k].id == b[k].id && a[k].modalMessage == b[k].modalMessage
  }

  lemma SameEntriesWellFormed(s: Settings, items: seq<Item>)
    requires WellFormed(s) && SameEntries(s.items, items)
    ensures WellFormed(s.(items := items))
  {
  }

  lemma {:induction false} LoadedIdsUnique(stored: Option<Stored>)
    requires StoredWellFormed(stored)
    ensures UniqueIds(LoadSettings(stored).items)
  {
    LoadedMessagesPresent(stored);
    if stored.None? {
      DefaultsWellFormed();
    } else if stored.value.items.None? {
      DefaultsWellFormed();
      assert LoadSettings(stored).items == DefaultItems();
    } else {
      var src := stored.value.items.value;
      assert LoadSettings(stored).items == LoadItems(src);
    }
  }

  /** The app starts in the invariant from the defaults or from any stored
      record with positive durations and distinct ids. */
  lemma InitInv(stored: Option<Stored>)
    requires StoredWellFormed(stored)
    ensures Inv(Init(stored))
  {
    LoadedIdsUnique(stored);
    LoadedMessagesPresent(stored);
  }

  lemma AppendKeepsWellFormed(s: Settings, text: string, id: string)
    requires WellFormed(s) && !HasId(s.items, id)
    ensures WellFormed(s.(items := s.items + [NewItem(id, text)]))
  {
    var r := s.items + [NewItem(id, text)];
    forall i, j | 0 <= i < j < |r| ensures r[i].id != r[j].id {
      if j == |s.items| {
        assert r[i] == s.items[i];
      }
    }
  }

  lemma StartInv(s: State)
    requires Inv(s)
    ensures Inv(Start(s)) && Inv(StartIntended(s))
  {
    if s.mode == Ready && !AllCompleted(s.settings.items) && !s.checklistInProgress {
      assert Start(s) == TriggerNext(s, 0);
    }
  }

  lemma ResetInv(s: State)
    requires Inv(s)
    ensures Inv(Reset(s))
  {
    SameEntriesWellFormed(s.settings, Reset(s).settings.items);
  }

  lemma ConfirmItemTaskInv(s: State, i: nat)
    requires Inv(s) && s.modal == Some(ItemTask(i))
    ensures Inv(Confirm(s)) && Inv(ConfirmIntended(s))
  {
    var marked := MarkCompleted(s.settings.items, i);
    SameEntriesWellFormed(s.settings, marked);
    assert RunCallback(s, ItemTask(i)) == TriggerNext(WithItems(s, marked), i + 1);
  }

  lemma ConfirmModeChangeInv(s: State, p: Prompt)
    requires Inv(s) && s.modal == Some(p) && Destination(p).Some?
    ensures Inv(Confirm(s)) && Inv(ConfirmIntended(s))
  {
    if p == OverrideChecklist {
      SameEntriesWellFormed(s.settings, SetAllCompleted(s.settings.items, true));
    }
  }

  lemma ConfirmEditInv(s: State, p: Prompt)
    requires Inv(s) && s.modal == Some(p) && (p.SettingsSaved? || p.ConfirmDeletion?)
    ensures Inv(Confirm(s)) && Inv(ConfirmIntended(s))
  {
    var items := s.settings.items;
    if p.SettingsSaved? {
      if s.mode == Ready {
        SameEntriesWellFormed(s.settings, SetAllCompleted(items, false));
      }
    } else {
      RemoveIdKeepsUnique(items, p.id);
      RemoveIdKeepsMessages(items, p.id);
    }
  }

  /** The confirm button, under either wiring, keeps the invariant whatever
      prompt it confirms. */
  lemma ConfirmInv(s: State)
    requires Inv(s)
    ensures Inv(Confirm(s)) && Inv(ConfirmIntended(s))
  {
    if s.modal.Some? {
      var p := s.modal.value;
      if p.ItemTask? {
        ConfirmItemTaskInv(s, p.index);
      } else if Destination(p).Some? {
        ConfirmModeChangeInv(s, p);
      } else if p.SettingsSaved? || p.ConfirmDeletion? {
        ConfirmEditInv(s, p);
      } else {
        assert RunCallback(s, p) == s;
      }
    }
  }

  /** Every admissible event keeps the invariant. */
  lemma StepInv(s: State, e: Event)
    requires Inv(s) && Admissible(s, e)
    ensures Inv(Step(s, e))
    ensures Inv(StepIntended(s, e))
  {
    match e {
      case StartClicked => StartInv(s);
      case ResetClicked => ResetInv(s);
      case ConfirmClicked => ConfirmInv(s);
      case AddItemClicked(text, id) =>
        if text != "" {
          AppendKeepsWellFormed(s.settings, text, id);
        }
      case _ =>
    }
  }

  /** Every event of the sequence is admissible in the state it meets. */
  predicate AdmissibleRun(s: State, events: seq<Event>)
    decreases |events|
  {
    events == [] || (Admissible(s, events[0]) && AdmissibleRun(Step(s, events[0]), events[1..]))
  }

  predicate AdmissibleRunIntended(s: State, events: seq<Event>)
    decreases |events|
  {
    events == [] || (Admissible(s, events[0]) && AdmissibleRunIntended(StepIntended(s, events[0]), events[1..]))
  }

  /** Any admissible sequence of events keeps the invariant; in particular the
      countdown is never negative and a pending item prompt always names an
      existing, incomplete item. */
  lemma {:induction false} RunInv(s: State, events: seq<Event>)
    requires Inv(s) && AdmissibleRun(s, events)
    ensures Inv(Run(s, events))
    decreases |events|
  {
    if events != [] {
      StepInv(s, events[0]);
      RunInv(Step(s, events[0]), events[1..]);
    }
  }

  lemma {:induction false} RunIntendedInv(s: State, events: seq<Event>)
    requires Inv(s) && AdmissibleRunIntended(s, events)
    ensures Inv(RunIntended(s, events))
    decreases |events|
  {
    if events != [] {
      StepInv(s, events[0]);
      RunIntendedInv(StepIntended(s, events[0]), events[1..]);
    }
  }

  /** From a valid start, whatever the teacher does, the state stays in the
      invariant. */
  lemma ReachableInv(stored: Option<Stored>, events: seq<Event>)
    requires StoredWellFormed(stored) && AdmissibleRun(Init(stored), events)
    ensures Inv(Run(Init(stored), events))
  {
    InitInv(stored);
    RunInv(Init(stored), events);
  }
}
