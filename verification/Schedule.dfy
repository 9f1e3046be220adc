/** Monotonic time and the rate at which one health check is started. */
module Schedule {

  datatype Timespec = Timespec(sec: int, nsec: int)

  predicate Normal(t: Timespec) {
    0 <= t.nsec < 1_000_000_000
  }

  function Nanos(t: Timespec): int {
    1_000_000_000 * t.sec + t.nsec
  }

  /** Conversion of a long to a 32-bit int. */
  function ToInt(x: int): (r: int)
    ensures -0x8000_0000 <= r < 0x8000_0000
    ensures -0x8000_0000 <= x < 0x8000_0000 ==> r == x
    ensures 0 <= x && 0 <= r ==> r <= x
  {
    (x + 0x8000_0000) % 0x1_0000_0000 - 0x8000_0000
  }

  /** The difference of two times in whole milliseconds, rounded down. */
  function DiffMs(a: Timespec, b: Timespec): int {
    (Nanos(a) - Nanos(b)) / 1_000_000
  }

  /** timespec_diff_ms: with its borrow, it is the rounded-down difference, cut to an int. */
  method TimespecDiffMs(a: Timespec, b: Timespec) returns (ms: int)
    requires Normal(a) && Normal(b)
    ensures ms == ToInt(DiffMs(a, b))
  {
    var diffSec := a.sec - b.sec;
    var diffNsec := a.nsec - b.nsec;
    if diffNsec < 0 {
      diffSec := diffSec - 1;
      diffNsec := diffNsec + 1_000_000_000;
    }
    assert Nanos(a) - Nanos(b) == 1_000_000 * (1000 * diffSec) + diffNsec;
    var diffMsec := diffSec * 1000 + diffNsec / 1_000_000;
    ms := ToInt(diffMsec);
  }

  // ----- one check --------------------------------------------------------------------------

  /** `period` is the interval plus the extra delay, in milliseconds. */
  datatype Timer = Timer(lastChecked: Timespec, running: bool, period: int)

  predicate MayStart(t: Timer, now: Timespec) {
    !t.running && ToInt(DiffMs(now, t.lastChecked)) >= t.period
  }

  /** The nanoseconds that fit into a 32-bit number of milliseconds, almost 25 days. */
  const INT_SPAN := 1_000_000 * 0x8000_0000

  /** As long as the last start is less than 25 days ago, a check may start exactly if it is not running
      and its period has passed.  For the next 25 days after that the difference is negative as an
      int, and no check with a period starts. */
  lemma StartsWhenDue(t: Timer, now: Timespec)
    ensures var d := Nanos(now) - Nanos(t.lastChecked);
      && (0 <= d < INT_SPAN ==> (MayStart(t, now) <==> !t.running && d >= 1_000_000 * t.period))
      && (INT_SPAN <= d < 2 * INT_SPAN && t.period >= 0 ==> !MayStart(t, now))
  {
    var d, ms := Nanos(now) - Nanos(t.lastChecked), DiffMs(now, t.lastChecked);
    assert 1_000_000 * ms <= d < 1_000_000 * (ms + 1);
    if INT_SPAN <= d < 2 * INT_SPAN {
      assert 0x8000_0000 <= ms < 0x1_0000_0000;
      assert ToInt(ms) == ms - 0x1_0000_0000 by { WrapsOnce(ms); }
    }
  }

  lemma WrapsOnce(ms: int)
    requires 0x8000_0000 <= ms < 0x1_0000_0000
    ensures ToInt(ms) == ms - 0x1_0000_0000
  {
  }

  class CheckTimer {
    var lastChecked: Timespec
    var isRunning: bool
    const checkInterval: int
    const extraDelay: nat

    constructor (now: Timespec, checkInterval: int, extraDelay: nat)
      ensures View() == Timer(now, false, checkInterval * 1000 + extraDelay)
    {
      lastChecked, isRunning := now, false;
      this.checkInterval, this.extraDelay := checkInterval, extraDelay;
    }

    ghost function View(): Timer
      reads this
    {
      Timer(lastChecked, isRunning, checkInterval * 1000 + extraDelay)
    }

    /** schedule_healthcheck: whether the check may start now. */
    method ScheduleHealthcheck(now: Timespec) returns (started: bool)
      requires Normal(now) && Normal(lastChecked)
      modifies this
      ensures started == MayStart(old(View()), now)
      ensures View() == Attempt(old(View()), now)
      ensures var d := Nanos(now) - Nanos(old(lastChecked));
        0 <= d < INT_SPAN ==>
          (started <==> !old(isRunning) && d >= 1_000_000 * (checkInterval * 1000 + extraDelay))
    {
      StartsWhenDue(View(), now);
      if isRunning {
        return false;
      }
      var elapsed := TimespecDiffMs(now, lastChecked);
      if elapsed < checkInterval * 1000 + extraDelay {
        return false;
      }
      lastChecked := now;
      isRunning := true;
      started := true;
    }
  }

  function Attempt(t: Timer, now: Timespec): Timer {
    if MayStart(t, now) then t.(lastChecked := now, running := true) else t
  }

  // ----- runs ---------------------------------------------------------------------------------

  datatype Tick = Try(now: Timespec) | End(now: Timespec)
  datatype Entry = Started(at: Timespec) | Ended(at: Timespec)

  function Step(t: Timer, e: Tick): Timer {
    match e
    case Try(now) => Attempt(t, now)
    case End(_) => t.(running := false)
  }

  /** What becomes visible of a step. */
  function Shown(t: Timer, e: Tick): seq<Entry> {
    match e
    case Try(now) => if MayStart(t, now) then [Started(now)] else []
    case End(now) => if t.running then [Ended(now)] else []
  }

  function Log(t: Timer, es: seq<Tick>): seq<Entry>
    decreases |es|
  {
    if es == [] then [] else Shown(t, es[0]) + Log(Step(t, es[0]), es[1..])
  }

  /** The clock is monotonic: nothing happens before `from` or before what happened earlier. */
  predicate Monotonic(from: Timespec, es: seq<Tick>)
    decreases |es|
  {
    es == [] || (Nanos(from) <= Nanos(es[0].now) && Monotonic(es[0].now, es[1..]))
  }

  lemma MonotonicFrom(early: Timespec, late: Timespec, es: seq<Tick>)
    requires Nanos(early) <= Nanos(late) && Monotonic(late, es)
    ensures Monotonic(early, es)
  {
  }

  /** Starts and ends alternate, beginning with a start unless `running`, and every start lies at
      least a period after the previous one (after `last` for the first). */
  ghost predicate Paced(log: seq<Entry>, running: bool, last: Timespec, period: int)
    decreases |log|
  {
    log == [] || match log[0]
      case Started(at) => !running && Nanos(at) - Nanos(last) >= 1_000_000 * period && Paced(log[1..], true, at, period)
      case Ended(_) => running && Paced(log[1..], false, last, period)
  }

  lemma EnoughTime(t: Timer, now: Timespec)
    requires MayStart(t, now) && Nanos(t.lastChecked) <= Nanos(now)
    ensures Nanos(now) - Nanos(t.lastChecked) >= 1_000_000 * t.period
  {
    var d := DiffMs(now, t.lastChecked);
    assert d >= t.period;
    assert Nanos(now) - Nanos(t.lastChecked) >= 1_000_000 * d;
  }

  /** In every run, whatever attempts and ends come, starts and ends of a check are paced. */
  lemma {:induction false} RunsArePaced(t: Timer, es: seq<Tick>)
    requires Monotonic(t.lastChecked, es)
    ensures Paced(Log(t, es), t.running, t.lastChecked, t.period)
    decreases |es|
  {
    if es != [] {
      var t', rest := Step(t, es[0]), es[1..];
      MonotonicFrom(t.lastChecked, es[0].now, rest);
      if es[0].Try? && MayStart(t, es[0].now) {
        EnoughTime(t, es[0].now);
      }
      RunsArePaced(t', rest);
      var shown := Shown(t, es[0]);
      assert shown != [] ==> (shown + Log(t', rest))[1..] == Log(t', rest);
      assert shown == [] ==> shown + Log(t', rest) == Log(t', rest);
    }
  }

  function StartsIn(log: seq<Entry>): seq<Timespec> {
    if log == [] then []
    else (if log[0].Started? then [log[0].at] else []) + StartsIn(log[1..])
  }

  lemma {:induction false} PacedSpan(log: seq<Entry>, running: bool, last: Timespec, period: int, i: nat)
    requires Paced(log, running, last, period) && i < |StartsIn(log)|
    ensures Nanos(StartsIn(log)[i]) - Nanos(last) >= 1_000_000 * ((i + 1) * period)
    decreases |log|
  {
    var starts := StartsIn(log);
    if log[0].Started? {
      var at := log[0].at;
      assert starts == [at] + StartsIn(log[1..]);
      if i > 0 {
        PacedSpan(log[1..], true, at, period, i - 1);
        assert (i + 1) * period == i * period + period;
      } else {
        assert (i + 1) * period == period;
      }
    } else {
      assert starts == [] + StartsIn(log[1..]);
      PacedSpan(log[1..], false, last, period, i);
    }
  }

  lemma {:induction false} PacedBetween(log: seq<Entry>, running: bool, last: Timespec, period: int, i: nat, j: nat)
    requires Paced(log, running, last, period) && i <= j < |StartsIn(log)|
    ensures Nanos(StartsIn(log)[j]) - Nanos(StartsIn(log)[i]) >= 1_000_000 * ((j - i) * period)
    decreases |log|
  {
    if log[0].Started? {
      assert StartsIn(log) == [log[0].at] + StartsIn(log[1..]);
      if i > 0 {
        PacedBetween(log[1..], true, log[0].at, period, i - 1, j - 1);
      } else if j > 0 {
        PacedSpan(log[1..], true, log[0].at, period, j - 1);
      }
    } else {
      assert StartsIn(log) == [] + StartsIn(log[1..]);
      PacedBetween(log[1..], false, last, period, i, j);
    }
  }

  /** In every run, the starts number i and j of a check are at least j - i periods apart, and the
      first one comes at least a period after the check was created. */
  lemma StartRate(t: Timer, es: seq<Tick>, i: nat, j: nat)
    requires Monotonic(t.lastChecked, es) && i <= j < |StartsIn(Log(t, es))|
    ensures
      var starts := StartsIn(Log(t, es));
      && Nanos(starts[j]) - Nanos(starts[i]) >= 1_000_000 * ((j - i) * t.period)
      && Nanos(starts[i]) - Nanos(t.lastChecked) >= 1_000_000 * ((i + 1) * t.period)
  {
    RunsArePaced(t, es);
    PacedBetween(Log(t, es), t.running, t.lastChecked, t.period, i, j);
    PacedSpan(Log(t, es), t.running, t.lastChecked, t.period, i);
  }

  // ----- not too late -------------------------------------------------------------------------

  /** An attempt makes the check start, and the log say so, exactly if it is due. */
  lemma DueStarts(t: Timer, now: Timespec, rest: seq<Tick>)
    requires 0 <= Nanos(now) - Nanos(t.lastChecked) < INT_SPAN
    ensures var log := Log(t, [Try(now)] + rest);
      if !t.running && Nanos(now) - Nanos(t.lastChecked) >= 1_000_000 * t.period
      then log == [Started(now)] + Log(Timer(now, true, t.period), rest)
      else log == Log(t, rest)
  {
    StartsWhenDue(t, now);
    assert ([Try(now)] + rest)[1..] == rest;
  }

  /** No attempt comes more than `gap` nanoseconds after the previous one, the first one after `tried`,
      and none 25 days or more after the check was last started. */
  predicate Dense(t: Timer, tried: Timespec, es: seq<Tick>, gap: int)
    decreases |es|
  {
    es == [] || match es[0]
      case Try(now) =>
        && Nanos(now) - Nanos(tried) <= gap && Nanos(now) - Nanos(t.lastChecked) < INT_SPAN
        && Dense(Step(t, es[0]), now, es[1..], gap)
      case End(_) => Dense(Step(t, es[0]), tried, es[1..], gap)
  }

  /** When the check is due again, last started at `last` and ended at `ended`. */
  function DueAt(last: Timespec, ended: Timespec, period: int): int {
    if Nanos(last) + 1_000_000 * period >= Nanos(ended) then Nanos(last) + 1_000_000 * period else Nanos(ended)
  }

  /** Every start lies at most `gap` after the period since the previous start has passed and the check
      has ended. */
  ghost predicate Prompt(log: seq<Entry>, last: Timespec, ended: Timespec, period: int, gap: int)
    decreases |log|
  {
    log == [] || match log[0]
      case Started(at) => Nanos(at) <= DueAt(last, ended, period) + gap && Prompt(log[1..], at, ended, period, gap)
      case Ended(at) => Prompt(log[1..], last, at, period, gap)
  }

  /** In every run in which attempts come at most `gap` apart: no start is late by more than that.  With
      RunsArePaced, the time between two starts of a check lies between its period and `gap` more
      than its period or, if that takes longer, than the time until it ended. */
  lemma {:induction false} RunsArePrompt(t: Timer, tried: Timespec, ended: Timespec, es: seq<Tick>, gap: int)
    requires Monotonic(t.lastChecked, es) && Monotonic(tried, es) && Dense(t, tried, es, gap)
    requires !t.running ==> Nanos(tried) <= DueAt(t.lastChecked, ended, t.period)
    ensures Prompt(Log(t, es), t.lastChecked, ended, t.period, gap)
    decreases |es|
  {
    if es != [] {
      var t', rest, now := Step(t, es[0]), es[1..], es[0].now;
      var shown := Shown(t, es[0]);
      MonotonicFrom(t.lastChecked, now, rest);
      MonotonicFrom(tried, now, rest);
      if es[0].Try? {
        StartsWhenDue(t, now);
        RunsArePrompt(t', now, ended, rest, gap);
      } else {
        RunsArePrompt(t', tried, if t.running then now else ended, rest, gap);
      }
      assert shown != [] ==> (shown + Log(t', rest))[1..] == Log(t', rest);
      assert shown == [] ==> shown + Log(t', rest) == Log(t', rest);
    }
  }
}
