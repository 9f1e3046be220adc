/** What a health check's hard state says about the whole history of its results. */
module Hysteresis {
  import opened Domain
  import opened NodeRules

  /** The check after the results `rs`, oldest first. */
  function After(c: CheckV, rs: seq<CheckResult>): CheckV
    decreases |rs|
  {
    if rs == [] then c else HandleResult(After(c, rs[..|rs| - 1]), rs[|rs| - 1])
  }

  function SinceLastPass(rs: seq<CheckResult>): seq<CheckResult>
    decreases |rs|
  {
    if rs == [] || rs[|rs| - 1].Pass? then []
    else SinceLastPass(rs[..|rs| - 1]) + [rs[|rs| - 1]]
  }

  /** The `n` failures that bring a check down; the 16-bit counter never reaches more than 65535. */
  predicate Trips(maxFailed: int, n: nat) {
    n >= 1 && n >= maxFailed && maxFailed <= 0xFFFF
  }

  /** What the results since the last PASS amount to: the first DRAIN decides if fewer failures
      than needed came before it, otherwise the failures decide. */
  ghost predicate Verdict(maxFailed: int, since: seq<CheckResult>, hard: CheckState) {
    match hard
    case CheckUp => (forall k | 0 <= k < |since| :: since[k].Fail?) && !Trips(maxFailed, |since|)
    case CheckDrain =>
      exists d | 0 <= d < |since| ::
        since[d].Drain? && (forall k | 0 <= k < d :: since[k].Fail?) && !Trips(maxFailed, d)
    case CheckDown =>
      exists d | 0 < d <= |since| ::
        (forall k | 0 <= k < d :: since[k].Fail?) && Trips(maxFailed, d)
  }

  /** The three verdicts exclude each other and cover every history, so a verdict is a definition
      of the hard state that does not mention how it is computed. */
  lemma {:induction false} OneVerdict(maxFailed: int, since: seq<CheckResult>) returns (hard: CheckState)
    requires forall r | r in since :: !r.Pass?
    ensures forall h :: Verdict(maxFailed, since, h) <==> h == hard
    decreases |since|
  {
    if since == [] {
      hard := CheckUp;
    } else {
      var n := |since| - 1;
      var before, r := since[..n], since[n];
      assert forall k | 0 <= k < n :: before[k] == since[k];
      var h := OneVerdict(maxFailed, before);
      if !h.CheckUp? {
        hard := h;
        assert Verdict(maxFailed, before, h);
        VerdictStays(maxFailed, before, r, h);
        assert before + [r] == since;
        VerdictUnique(maxFailed, since, h);
      } else {
        assert Verdict(maxFailed, before, CheckUp);
        hard := if r.Drain? then CheckDrain else if Trips(maxFailed, |since|) then CheckDown else CheckUp;
        VerdictNext(maxFailed, before, r);
        assert before + [r] == since;
        VerdictUnique(maxFailed, since, hard);
      }
    }
  }

  /** A trip is final: more failures trip as well. */
  lemma VerdictStays(maxFailed: int, before: seq<CheckResult>, r: CheckResult, h: CheckState)
    requires Verdict(maxFailed, before, h) && !h.CheckUp?
    ensures Verdict(maxFailed, before + [r], h)
  {
    var since := before + [r];
    assert forall k | 0 <= k < |before| :: since[k] == before[k];
    if h.CheckDrain? {
      var d :| 0 <= d < |before| && before[d].Drain? && (forall k | 0 <= k < d :: before[k].Fail?)
          && !Trips(maxFailed, d);
      assert since[d].Drain?;
    } else {
      var d :| 0 < d <= |before| && (forall k | 0 <= k < d :: before[k].Fail?) && Trips(maxFailed, d);
      assert forall k | 0 <= k < d :: since[k].Fail?;
    }
  }

  lemma VerdictNext(maxFailed: int, before: seq<CheckResult>, r: CheckResult)
    requires Verdict(maxFailed, before, CheckUp) && !r.Pass?
    ensures Verdict(maxFailed, before + [r],
              if r.Drain? then CheckDrain else if Trips(maxFailed, |before| + 1) then CheckDown else CheckUp)
  {
    var since := before + [r];
    assert forall k | 0 <= k < |before| :: since[k] == before[k];
    assert since[|before|] == r;
  }

  lemma VerdictUnique(maxFailed: int, since: seq<CheckResult>, h: CheckState)
    requires Verdict(maxFailed, since, h)
    ensures forall h' :: Verdict(maxFailed, since, h') ==> h' == h
  {
  }

  lemma {:induction false} NoPassSince(rs: seq<CheckResult>)
    ensures forall r | r in SinceLastPass(rs) :: !r.Pass?
    decreases |rs|
  {
    if rs != [] && !rs[|rs| - 1].Pass? {
      NoPassSince(rs[..|rs| - 1]);
    }
  }

  predicate EverUp(c: CheckV, rs: seq<CheckResult>) {
    c.hard.CheckUp? || exists k | 0 <= k < |rs| :: rs[k].Pass?
  }

  /** For every threshold and every history of results: once a check starts up or has passed, its
      hard state is the verdict on the results since the last PASS; before that it stays down.
      While it is up, the counter is the number of failures since then, modulo 65536, and it
      has not wrapped around for any threshold that 16 bits can hold.  The last state is that of the
      last result. */
  lemma {:induction false} HardState(c: CheckV, rs: seq<CheckResult>)
    requires Created(c)
    ensures After(c, rs).maxFailed == c.maxFailed
    ensures EverUp(c, rs) ==> Verdict(c.maxFailed, SinceLastPass(rs), After(c, rs).hard)
    ensures !EverUp(c, rs) ==> After(c, rs).hard.CheckDown?
    ensures After(c, rs).hard.CheckUp? ==> After(c, rs).failures == |SinceLastPass(rs)| % 0x1_0000
    ensures After(c, rs).hard.CheckUp? && c.maxFailed <= 0xFFFF ==> After(c, rs).failures == |SinceLastPass(rs)|
    ensures rs != [] ==> After(c, rs).ran
    ensures rs != [] ==>
      match rs[|rs| - 1]
      case Pass => After(c, rs).last == CheckUp
      case Fail => After(c, rs).last == CheckDown
      case Drain => After(c, rs).last == CheckDrain
    decreases |rs|
  {
    if rs != [] {
      var n := |rs| - 1;
      var before, r := rs[..n], rs[n];
      HardState(c, before);
      assert EverUp(c, rs) <==> EverUp(c, before) || r.Pass? by {
        assert forall k | 0 <= k < n :: before[k] == rs[k];
      }
      var b := After(c, before);
      if !r.Pass? && EverUp(c, before) {
        if b.hard.CheckUp? {
          VerdictNext(c.maxFailed, SinceLastPass(before), r);
          Counted(c.maxFailed, b.failures, |SinceLastPass(before)|);
        } else {
          VerdictStays(c.maxFailed, SinceLastPass(before), r, b.hard);
        }
      }
    }
  }

  lemma Counted(maxFailed: int, failures: int, n: nat)
    requires failures == n % 0x1_0000 && (maxFailed <= 0xFFFF ==> failures == n) && !Trips(maxFailed, n)
    ensures Bump(failures) >= maxFailed <==> Trips(maxFailed, n + 1)
    ensures Bump(failures) == (n + 1) % 0x1_0000
    ensures maxFailed <= 0xFFFF && !Trips(maxFailed, n + 1) ==> Bump(failures) == n + 1
  {
  }

  /** A threshold above 65535 disables the check: no number of failures brings it down. */
  lemma UnreachableThreshold(c: CheckV, rs: seq<CheckResult>)
    requires c.hard.CheckUp? && c.failures == 0 && c.maxFailed > 0xFFFF
    ensures !After(c, rs).hard.CheckDown?
  {
    HardState(c, rs);
  }
}
