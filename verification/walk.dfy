/** The sequential checklist walk driven by repeated confirmations: each
    confirmation marks exactly the prompted item and moves to the next
    incomplete one further down, and the walk ends after one confirmation
    per incomplete item. */
module Walk {
  import opened Wrappers
  import opened Checklist
  import opened Settings
  import opened Timer

  /** A walk is under way and prompting for the incomplete item `i`. */
  predicate Walking(s: State, i: nat) {
    && s.checklistInProgress
    && s.modal == Some(ItemTask(i))
    && i < |s.settings.items|
    && !s.settings.items[i].completed
  }

  /** The number of incomplete items at or after index `k`. */
  function CountIncompleteFrom(items: seq<Item>, k: nat): nat
    decreases |items| - k
  {
    if k >= |items| then 0
    else (if items[k].completed then 0 else 1) + CountIncompleteFrom(items, k + 1)
  }

  /** The list with every item from index `i` on marked completed. */
  function CompleteFrom(items: seq<Item>, i: nat): (r: seq<Item>)
    ensures |r| == |items|
    ensures forall k :: 0 <= k < |items| ==> r[k] == if k >= i then items[k].(completed := true) else items[k]
  {
    seq(|items|, k requires 0 <= k < |items| => if k >= i then items[k].(completed := true) else items[k])
  }

  /** `n` presses of the modal's confirm button. */
  function ConfirmN(s: State, n: nat): State
    decreases n
  {
    if n == 0 then s else ConfirmN(Confirm(s), n - 1)
  }

  function ConfirmIntendedN(s: State, n: nat): State
    decreases n
  {
    if n == 0 then s else ConfirmIntendedN(ConfirmIntended(s), n - 1)
  }

  /** The count only looks at indices from `k` on. */
  lemma {:induction false} CountFrame(a: seq<Item>, b: seq<Item>, k: nat)
    requires |a| == |b|
    requires forall t :: k <= t < |a| ==> a[t].completed == b[t].completed
    ensures CountIncompleteFrom(a, k) == CountIncompleteFrom(b, k)
    decreases |a| - k
  {
    if k < |a| {
      CountFrame(a, b, k + 1);
    }
  }

  /** Completed items contribute nothing: skipping a completed stretch keeps
      the count. */
  lemma {:induction false} CountSkipCompleted(items: seq<Item>, lo: nat, hi: nat)
    requires lo <= hi <= |items|
    requires CompletedBetween(items, lo, hi)
    ensures CountIncompleteFrom(items, lo) == CountIncompleteFrom(items, hi)
    decreases hi - lo
  {
    if lo < hi {
      CountSkipCompleted(items, lo + 1, hi);
    }
  }

  /** One confirmation during a walk marks exactly the prompted item, and
      either prompts for a strictly later incomplete item, skipping only
      completed ones, or ends the walk. The page's handler then closes the
      modal, so the "Checklist Complete!" prompt the walk raised is gone;
      `ConfirmIntended` keeps it. */
  lemma WalkStep(s: State, i: nat)
    requires Walking(s, i)
    ensures var r := Confirm(s);
      && r == WithItems(s, MarkCompleted(s.settings.items, i)).(checklistInProgress := r.checklistInProgress, modal := r.modal)
      && (r.checklistInProgress <==> !CompletedBetween(s.settings.items, i + 1, |s.settings.items|))
      && (r.checklistInProgress ==>
            && r.modal.Some? && r.modal.value.ItemTask?
            && i < r.modal.value.index
            && Walking(r, r.modal.value.index)
            && CompletedBetween(s.settings.items, i + 1, r.modal.value.index))
      && (!r.checklistInProgress ==> r.modal.None?)
    ensures ConfirmIntended(s) ==
      if Confirm(s).checklistInProgress then Confirm(s)
      else Confirm(s).(modal := Some(ChecklistComplete))
  {
    var items := s.settings.items;
    var marked := MarkCompleted(items, i);
    var t := RunCallback(s, ItemTask(i));
    assert t == TriggerNext(WithItems(s, marked), i + 1);
    assert CompletedBetween(marked, i + 1, |items|) <==> CompletedBetween(items, i + 1, |items|);
    if t.checklistInProgress {
      var j := t.modal.value.index;
      assert CompletedBetween(marked, i + 1, j) ==> CompletedBetween(items, i + 1, j);
    }
  }

  /** Where a walk standing at item `i` ends: every item from `i` on
      completed, no walk, no prompt, and nothing else changed. */
  function WalkEnd(s: State, i: nat): (r: State)
    ensures r.mode == s.mode && r.timeLeft == s.timeLeft && r.running == s.running
    ensures r.modal.None? && !r.checklistInProgress
    ensures r.settings.items == CompleteFrom(s.settings.items, i)
  {
    WithItems(s, CompleteFrom(s.settings.items, i)).(modal := None, checklistInProgress := false)
  }

  /** Confirming the prompts of a walk that stands at item `i`, once per
      incomplete item from `i` on, completes every item from `i` on, leaves
      the rest of the list, the mode and the countdown alone, and ends with
      no walk and, as the page is wired, no prompt. With the intended
      handler the same presses end on the "Checklist Complete!" prompt. */
  lemma {:induction false} WalkRuns(s: State, i: nat)
    requires Walking(s, i)
    ensures CountIncompleteFrom(s.settings.items, i) >= 1
    ensures ConfirmN(s, CountIncompleteFrom(s.settings.items, i)) == WalkEnd(s, i)
    ensures ConfirmIntendedN(s, CountIncompleteFrom(s.settings.items, i))
      == WalkEnd(s, i).(modal := Some(ChecklistComplete))
    decreases |s.settings.items| - i
  {
    var items := s.settings.items;
    var n := CountIncompleteFrom(items, i);
    var t := Confirm(s);
    WalkStep(s, i);
    if t.checklistInProgress {
      var j := t.modal.value.index;
      WalkCount(items, i, j);
      WalkRuns(t, j);
      assert WalkEnd(t, j) == WalkEnd(s, i);
      assert ConfirmN(s, n) == ConfirmN(t, n - 1);
      assert ConfirmIntendedN(s, n) == ConfirmIntendedN(t, n - 1);
    } else {
      WalkCount(items, i, |items|);
      assert t == WalkEnd(s, i);
      assert ConfirmN(s, 1) == ConfirmN(t, 0);
      assert ConfirmIntendedN(s, 1) == ConfirmIntendedN(ConfirmIntended(s), 0);
    }
  }

  /** The bookkeeping of one walk step from item `i` to the next incomplete
      item `j` (or to the end): the count drops by one and completing from
      `j` after marking `i` is completing from `i`. */
  lemma WalkCount(items: seq<Item>, i: nat, j: nat)
    requires i < j <= |items| && !items[i].completed
    requires CompletedBetween(items, i + 1, j)
    ensures var marked := MarkCompleted(items, i);
      && CountIncompleteFrom(items, i) == 1 + CountIncompleteFrom(marked, j)
      && CompleteFrom(marked, j) == CompleteFrom(items, i)
  {
    var marked := MarkCompleted(items, i);
    CountFrame(items, marked, i + 1);
    CountSkipCompleted(marked, i + 1, j);
    assert CompleteFrom(marked, j) == CompleteFrom(items, i);
  }

  /** The start button in ready with an unfinished checklist opens the walk
      at the first incomplete item, and exactly one confirmation per
      incomplete item later every item is completed and the app is back in
      ready with no prompt showing: the session does not start on its own.
      With the intended handler one more confirmation, of the
      "Checklist Complete!" prompt, enters the session. */
  lemma WalkFromStart(s: State)
    requires s.mode == Ready && !s.checklistInProgress && !AllCompleted(s.settings.items)
    ensures var n := CountIncompleteFrom(s.settings.items, 0);
      var r := ConfirmN(Start(s), n);
      && n >= 1
      && r.mode == Ready && r.modal.None? && !r.checklistInProgress
      && r.settings.items == SetAllCompleted(s.settings.items, true)
      && r.timeLeft == s.timeLeft && r.running == s.running
    ensures var n := CountIncompleteFrom(s.settings.items, 0);
      var r := ConfirmIntendedN(StartIntended(s), n + 1);
      && r.mode == Session && r.timeLeft == 60 * s.settings.sessionMins
      && r.running && !r.isPaused && r.modal.None? && !r.checklistInProgress
      && r.settings == s.settings.(items := SetAllCompleted(s.settings.items, true))
  {
    var items := s.settings.items;
    var t := Start(s);
    assert t == TriggerNext(s, 0);
    var j := t.modal.value.index;
    assert Walking(t, j);
    CountSkipCompleted(items, 0, j);
    WalkRuns(t, j);
    assert CompleteFrom(items, j) == SetAllCompleted(items, true);
    var n := CountIncompleteFrom(items, 0);
    var w := ConfirmIntendedN(t, n);
    assert StartIntended(s) == t;
    assert ConfirmIntendedN(t, n + 1) == ConfirmIntendedN(ConfirmIntended(t), n);
    ConfirmIntendedNShift(t, n);
  }

  lemma {:induction false} ConfirmIntendedNShift(s: State, n: nat)
    ensures ConfirmIntendedN(s, n + 1) == ConfirmIntended(ConfirmIntendedN(s, n))
    decreases n
  {
    if n > 0 {
      ConfirmIntendedNShift(ConfirmIntended(s), n - 1);
    }
  }
}
