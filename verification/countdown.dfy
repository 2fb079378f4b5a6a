/** The one-second interval over many ticks: a running countdown of `n`
    seconds decrements once per tick, the tick after it reaches zero stops
    the interval and raises the end-of-segment prompt exactly once, and the
    confirmation of that prompt moves session to break and break to ready. */
module Countdown {
  import opened Wrappers
  import opened Checklist
  import opened Settings
  import opened Timer

  /** `n` firings of the interval. */
  function TickN(s: State, n: nat): State
    decreases n
  {
    if n == 0 then s else TickN(Tick(s), n - 1)
  }

  /** The prompt the interval raises when a segment of mode `m` runs out. */
  function EndPrompt(m: Mode): Option<Prompt> {
    match m
    case Session => Some(SessionEnded)
    case Break => Some(BreakEnded)
    case Ready => None
  }

  lemma {:induction false} TickNSplit(s: State, a: nat, b: nat)
    ensures TickN(s, a + b) == TickN(TickN(s, a), b)
    decreases a
  {
    if a > 0 {
      TickNSplit(Tick(s), a - 1, b);
    }
  }

  /** With no interval, ticks change nothing. */
  lemma {:induction false} StoppedStaysStopped(s: State, k: nat)
    requires !s.running
    ensures TickN(s, k) == s
    decreases k
  {
    if k > 0 {
      StoppedStaysStopped(Tick(s), k - 1);
    }
  }

  /** For as long as time is left, `k` ticks take exactly `k` seconds off and
      touch nothing else: no prompt appears early. */
  lemma {:induction false} CountsDown(s: State, k: nat)
    requires s.running && k <= s.timeLeft
    ensures TickN(s, k) == s.(timeLeft := s.timeLeft - k)
    decreases k
  {
    if k > 0 {
      CountsDown(Tick(s), k - 1);
    }
  }

  /** A running segment with `n` seconds left ends on tick `n + 1`: the
      interval stops at zero and the end prompt of the mode replaces
      whatever was showing (nothing is raised in ready). Every later tick
      changes nothing, so the prompt is raised exactly once. */
  lemma SegmentEnds(s: State, later: nat)
    requires s.running && s.timeLeft >= 0
    ensures var e := TickN(s, s.timeLeft + 1);
      && e == s.(timeLeft := 0, running := false,
                 modal := if s.mode == Ready then s.modal else EndPrompt(s.mode))
      && TickN(e, later) == e
  {
    CountsDown(s, s.timeLeft);
    TickNSplit(s, s.timeLeft, 1);
    var e := TickN(s, s.timeLeft + 1);
    assert TickN(s.(timeLeft := 0), 1) == Tick(s.(timeLeft := 0));
    StoppedStaysStopped(e, later);
  }

  /** A full session followed by the confirmation of its end prompt starts
      the break, with the configured break length, running, and no prompt. */
  lemma SessionRunsIntoBreak(s: State)
    requires s.mode == Session && s.running && s.timeLeft >= 0 && !s.checklistInProgress
    ensures var r := Confirm(TickN(s, s.timeLeft + 1));
      && r.mode == Break && r.timeLeft == 60 * s.settings.breakMins
      && r.running && !r.isPaused && r.modal.None?
      && r.settings == s.settings
  {
    SegmentEnds(s, 0);
  }

  /** A full break followed by the confirmation of its end prompt returns to
      ready with no time on the clock and no prompt; the checklist is left
      as it was, not cleared. */
  lemma BreakRunsIntoReady(s: State)
    requires s.mode == Break && s.running && s.timeLeft >= 0 && !s.checklistInProgress
    ensures var r := Confirm(TickN(s, s.timeLeft + 1));
      && r.mode == Ready && r.timeLeft == 0
      && !r.running && r.isPaused && r.modal.None?
      && r.settings == s.settings
  {
    SegmentEnds(s, 0);
  }

  /** Extending a running segment by `m` minutes postpones its end prompt by
      exactly `60 * m` ticks. */
  lemma ExtensionPostponesEnd(s: State, m: int)
    requires s.running && s.timeLeft >= 0 && s.mode != Ready && m > 0
    ensures var x := ExtendTime(s, Some(m));
      && TickN(x, s.timeLeft + 60 * m).modal == Some(TimeExtended(m))
      && TickN(x, s.timeLeft + 60 * m + 1).modal == EndPrompt(s.mode)
  {
    var x := ExtendTime(s, Some(m));
    CountsDown(x, x.timeLeft);
    SegmentEnds(x, 0);
  }
}
