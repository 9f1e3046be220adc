/** Matching ICMP echo replies to ping checks through 16-bit sequence numbers (RFC 792). */
module Ping {
  import opened Domain

  const SEQS := 0x1_0000

  /** `H` is the type of references to ping checks.  `sent` counts all requests without bound and
      `request` tells for each check the number of its latest one; the program itself only has
      16-bit remainders of these: the next sequence number, and `my` for each check. */
  datatype Pings<H> = Pings(slots: map<int, H>, my: map<H, int>, running: set<H>, sent: nat, request: map<H, nat>)

  datatype Event<H> = Request(h: H) | Reply(q: int) | Timeout(h: H)

  /** A finished check: the request it was about, and whether a reply came. */
  datatype Result<H> = Result(h: H, number: nat, pass: bool)

  // ----- steps --------------------------------------------------------------------------------

  function Requested<H(==)>(s: Pings<H>, h: H): Pings<H> {
    var n := s.sent + 1;
    Pings(s.slots[n % SEQS := h], s.my[h := n % SEQS], s.running + {h}, n, s.request[h := n])
  }

  /** The check that a reply with sequence number `q` is taken to answer. */
  function Match<H>(s: Pings<H>, q: int): Option<H> {
    if q in s.slots && s.slots[q] in s.my && s.my[s.slots[q]] == q then Some(s.slots[q]) else None
  }

  function Ended<H(==)>(s: Pings<H>, h: H): Pings<H>
    requires h in s.my
  {
    s.(slots := s.slots - {s.my[h]}, running := s.running - {h})
  }

  function Replied<H(==)>(s: Pings<H>, q: int): Pings<H> {
    match Match(s, q)
    case Some(h) => Ended(s, h)
    case None => s
  }

  /** The check forgets its sequence number before it ends, so slot 0 is cleared, not its own. */
  function TimedOut<H(==)>(s: Pings<H>, h: H): Pings<H> {
    Ended(s.(my := s.my[h := 0]), h)
  }

  predicate CanHappen<H(==)>(s: Pings<H>, e: Event<H>) {
    match e
    case Request(h) => h !in s.running
    case Reply(q) => 0 <= q < SEQS
    case Timeout(h) => h in s.running
  }

  function Next<H(==)>(s: Pings<H>, e: Event<H>): Pings<H> {
    if !CanHappen(s, e) then s
    else match e
      case Request(h) => Requested(s, h)
      case Reply(q) => Replied(s, q)
      case Timeout(h) => TimedOut(s, h)
  }

  function Finished<H(==)>(s: Pings<H>, e: Event<H>): seq<Result<H>> {
    if !CanHappen(s, e) then []
    else match e
      case Request(h) => []
      case Reply(q) =>
        var m := Match(s, q);
        if m.Some? && m.value in s.request then [Result(m.value, s.request[m.value], true)] else []
      case Timeout(h) => if h in s.request then [Result(h, s.request[h], false)] else []
  }

  function Start<H>(): Pings<H> {
    Pings(map[], map[], {}, 0, map[])
  }

  function Run<H(==)>(es: seq<Event<H>>): Pings<H>
    decreases |es|
  {
    if es == [] then Start() else Next(Run(es[..|es| - 1]), es[|es| - 1])
  }

  /** All results of a run, in order. */
  function Results<H(==)>(es: seq<Event<H>>): seq<Result<H>>
    decreases |es|
  {
    if es == [] then []
    else Results(es[..|es| - 1]) + Finished(Run(es[..|es| - 1]), es[|es| - 1])
  }

  // ----- invariant -------------------------------------------------------------------------------

  /** What a running check knows about its request. */
  ghost predicate RunningOk<H>(s: Pings<H>, h: H) {
    && h in s.my && h in s.request
    && 1 <= s.request[h] <= s.sent
    && s.my[h] == s.request[h] % SEQS
    && (s.my[h] != 0 && s.sent - s.request[h] < SEQS ==> s.my[h] in s.slots && s.slots[s.my[h]] == h)
  }

  /** A slot that its check still recognises belongs to that check's current request, which is the
      latest request with this sequence number. */
  ghost predicate SlotOk<H>(s: Pings<H>, q: int) {
    Match(s, q).Some? ==>
      s.slots[q] in s.running && s.slots[q] in s.request && s.sent - SEQS < s.request[s.slots[q]]
  }

  ghost predicate Inv<H>(s: Pings<H>) {
    && (forall h | h in s.running :: RunningOk(s, h))
    && (forall q | q in s.slots :: Match(s, q).Some? ==> s.slots[q] in s.running)
    && (forall q | q in s.slots :: SlotOk(s, q))
    && (forall g, h | g in s.running && h in s.running && g != h && g in s.request && h in s.request ::
          s.request[g] != s.request[h])
  }

  lemma CongruentApart(a: int, b: int)
    requires a % SEQS == b % SEQS && a < b
    ensures b - a >= SEQS
  {
  }

  lemma RequestedInv<H>(s: Pings<H>, h: H)
    requires Inv(s) && h !in s.running
    ensures Inv(Requested(s, h))
  {
    var r := Requested(s, h);
    var n := r.sent;
    forall g | g in r.running
      ensures RunningOk(r, g)
    {
      if g != h {
        assert RunningOk(s, g);
        if r.sent - r.request[g] < SEQS && r.my[g] == n % SEQS {
          CongruentApart(r.request[g], n);
        }
      }
    }
    forall q | q in r.slots
      ensures SlotOk(r, q) && (Match(r, q).Some? ==> r.slots[q] in r.running)
    {
      if q != n % SEQS {
        assert q in s.slots && SlotOk(s, q);
        if Match(r, q).Some? && r.slots[q] != h {
          var g := r.slots[q];
          assert Match(s, q).Some? && RunningOk(s, g);
          assert r.request[g] % SEQS != n % SEQS;
        }
      }
    }
  }

  lemma RepliedInv<H>(s: Pings<H>, q: int)
    requires Inv(s)
    ensures Inv(Replied(s, q))
  {
    var m := Match(s, q);
    if m.Some? {
      var r := Replied(s, q);
      forall g | g in r.running
        ensures RunningOk(r, g)
      {
        assert RunningOk(s, g) && SlotOk(s, q);
      }
      forall k | k in r.slots
        ensures SlotOk(r, k) && (Match(r, k).Some? ==> r.slots[k] in r.running)
      {
        assert SlotOk(s, k);
        assert Match(r, k) == Match(s, k);
      }
    }
  }

  lemma TimedOutInv<H>(s: Pings<H>, h: H)
    requires Inv(s) && h in s.running
    ensures Inv(TimedOut(s, h))
  {
    var r := TimedOut(s, h);
    forall g | g in r.running
      ensures RunningOk(r, g)
    {
      assert RunningOk(s, g);
    }
    forall k | k in r.slots
      ensures SlotOk(r, k) && (Match(r, k).Some? ==> r.slots[k] in r.running)
    {
      assert SlotOk(s, k);
      assert k != 0;
    }
  }

  lemma {:induction false} RunInv<H>(es: seq<Event<H>>)
    ensures Inv(Run(es))
    decreases |es|
  {
    hide Inv;
    if es == [] {
      StartInv<H>();
    } else {
      var s, e := Run(es[..|es| - 1]), es[|es| - 1];
      RunInv(es[..|es| - 1]);
      if CanHappen(s, e) {
        match e
        case Request(h) => RequestedInv(s, h);
        case Reply(q) => RepliedInv(s, q);
        case Timeout(h) => TimedOutInv(s, h);
      }
    }
  }

  lemma StartInv<H>()
    ensures Inv(Start<H>())
  {
  }

  // ----- results -----------------------------------------------------------------------------------

  /** In every run: a reply completes only a check that is running, and if `u` is the number of a
      request it may answer (any earlier request with the same 16 bits), then that is the check's
      current request, unless 65536 or more requests were sent in between. */
  lemma ReplyIsCurrent<H>(es: seq<Event<H>>, q: int, u: nat)
    requires Match(Run(es), q).Some? && u <= Run(es).sent && u % SEQS == q
    ensures var s, h := Run(es), Match(Run(es), q).value;
      && h in s.running && h in s.request
      && (u == s.request[h] || s.request[h] - u >= SEQS)
  {
    RunInv(es);
    var s := Run(es);
    var h := s.slots[q];
    assert SlotOk(s, q) && RunningOk(s, h);
    if u < s.request[h] {
      CongruentApart(u, s.request[h]);
    } else if u > s.request[h] {
      CongruentApart(s.request[h], u);
    }
  }

  /** The reply to the request of a running check completes that check, if the sequence number is not
      0, exactly as long as fewer than 65536 requests were sent since; with number 0 that is
      necessary. */
  lemma ReplyInTime<H>(es: seq<Event<H>>, h: H)
    requires h in Run(es).running
    ensures var s := Run(es);
      && h in s.my && h in s.request && s.my[h] == s.request[h] % SEQS
      && (s.my[h] != 0 ==> (Match(s, s.my[h]) == Some(h) <==> s.sent - s.request[h] < SEQS))
      && (Match(s, s.my[h]) == Some(h) ==> s.sent - s.request[h] < SEQS)
  {
    RunInv(es);
    var s := Run(es);
    assert RunningOk(s, h);
    if Match(s, s.my[h]) == Some(h) {
      assert SlotOk(s, s.my[h]);
    }
  }

  // ----- sequence number 0 ---------------------------------------------------------------------------

  /** Some check times out during `more`, after `es`. */
  ghost predicate TimeoutIn<H>(es: seq<Event<H>>, more: seq<Event<H>>) {
    exists k | 0 <= k < |more| :: more[k].Timeout? && CanHappen(Run(es + more[..k]), more[k])
  }

  lemma TimeoutInMore<H>(es: seq<Event<H>>, more: seq<Event<H>>, e: Event<H>)
    ensures TimeoutIn(es, more + [e]) <==> TimeoutIn(es, more) || (e.Timeout? && CanHappen(Run(es + more), e))
  {
    var all := more + [e];
    assert forall k | 0 <= k < |more| :: all[..k] == more[..k] && all[k] == more[k];
    assert all[..|more|] == more && all[|more|] == e;
  }

  /** Check `h` is still running the request with number `n`, which has sequence number 0. */
  ghost predicate WaitsAtZero<H>(s: Pings<H>, h: H, n: nat) {
    h in s.running && h in s.request && s.request[h] == n && n % SEQS == 0
  }

  /** Slot 0 holds `h`. */
  ghost predicate HoldsZero<H>(s: Pings<H>, h: H) {
    0 in s.slots && s.slots[0] == h
  }

  lemma WaitedBefore<H>(s: Pings<H>, e: Event<H>, h: H, n: nat)
    requires Inv(s) && WaitsAtZero(Next(s, e), h, n) && n <= s.sent
    ensures WaitsAtZero(s, h, n)
  {
    if CanHappen(s, e) && e.Reply? && Match(s, e.q).Some? {
      assert SlotOk(s, e.q);
    }
  }

  /** One event, as long as the check waits: the slot is lost by a timeout and by the 65536th
      request after its own, and by nothing else; and it does not come back. */
  lemma ZeroStep<H>(s: Pings<H>, e: Event<H>, h: H, n: nat)
    requires Inv(s) && WaitsAtZero(s, h, n) && WaitsAtZero(Next(s, e), h, n)
    ensures HoldsZero(Next(s, e), h) && Next(s, e).sent - n < SEQS
       <==> HoldsZero(s, h) && s.sent - n < SEQS && !(e.Timeout? && CanHappen(s, e)) && Next(s, e).sent - n < SEQS
  {
    assert RunningOk(s, h);
    if CanHappen(s, e) {
      match e
      case Request(g) =>
        if (s.sent + 1) % SEQS == 0 && s.sent + 1 - n < SEQS {
          CongruentApart(n, s.sent + 1);
        }
      case Reply(q) =>
        if Match(s, q).Some? {
          assert SlotOk(s, q) && RunningOk(s, s.slots[q]);
        }
      case Timeout(g) =>
    }
  }

  lemma SentGrows<H>(s: Pings<H>, e: Event<H>)
    ensures s.sent <= Next(s, e).sent
  {
  }

  lemma RunNext<H>(es: seq<Event<H>>, e: Event<H>)
    ensures Run(es + [e]) == Next(Run(es), e)
  {
    assert (es + [e])[..|es|] == es;
  }

  lemma {:induction false} ZeroHistory<H>(es: seq<Event<H>>, more: seq<Event<H>>, h: H, n: nat)
    requires WaitsAtZero(Run(es), h, n) && Run(es).sent == n && HoldsZero(Run(es), h)
    requires WaitsAtZero(Run(es + more), h, n)
    ensures Run(es + more).sent >= n
    ensures HoldsZero(Run(es + more), h) && Run(es + more).sent - n < SEQS
       <==> !TimeoutIn(es, more) && Run(es + more).sent - n < SEQS
    decreases |more|
  {
    hide Inv, Next, CanHappen, WaitsAtZero, HoldsZero, TimeoutIn;
    if more == [] {
      assert es + more == es;
      NoTimeoutYet(es);
    } else {
      var before, e := more[..|more| - 1], more[|more| - 1];
      assert es + more == es + before + [e] && more == before + [e];
      RunNext(es + before, e);
      RunInv(es + before);
      SentUp(es, before);
      WaitedBefore(Run(es + before), e, h, n);
      ZeroHistory(es, before, h, n);
      ZeroStep(Run(es + before), e, h, n);
      TimeoutInMore(es, before, e);
      SentGrows(Run(es + before), e);
    }
  }

  lemma NoTimeoutYet<H>(es: seq<Event<H>>)
    ensures !TimeoutIn(es, [])
  {
  }

  lemma {:induction false} SentUp<H>(es: seq<Event<H>>, more: seq<Event<H>>)
    ensures Run(es).sent <= Run(es + more).sent
    decreases |more|
  {
    hide Next;
    if more == [] {
      assert es + more == es;
    } else {
      var before, e := more[..|more| - 1], more[|more| - 1];
      assert es + more == es + before + [e];
      RunNext(es + before, e);
      SentUp(es, before);
      SentGrows(Run(es + before), e);
    }
  }

  /** Let check `h` send a request that gets sequence number 0, and let `more` happen
      while that request goes on running.  Its reply completes the check exactly if no check at all
      has timed out since and fewer than 65536 requests were sent since. */
  lemma ZeroIsAccepted<H>(es: seq<Event<H>>, h: H, more: seq<Event<H>>)
    requires CanHappen(Run(es), Request(h)) && (Run(es).sent + 1) % SEQS == 0
    requires var s := Run(es + [Request(h)] + more);
      h in s.running && h in s.request && s.request[h] == Run(es).sent + 1
    ensures var s := Run(es + [Request(h)] + more);
      Match(s, 0) == Some(h) <==> !TimeoutIn(es + [Request(h)], more) && s.sent - s.request[h] < SEQS
  {
    hide TimeoutIn;
    RunNext(es, Request(h));
    ZeroHistory(es + [Request(h)], more, h, Run(es).sent + 1);
    ReplyInTime(es + [Request(h)] + more, h);
  }

  /** The event in which a running check sent its current request. */
  lemma {:induction false} RequestAt<H>(es: seq<Event<H>>, h: H) returns (k: nat)
    requires h in Run(es).running
    ensures k < |es| && es[k] == Request(h) && CanHappen(Run(es[..k]), es[k])
    ensures h in Run(es).request && Run(es).request[h] == Run(es[..k]).sent + 1
    decreases |es|
  {
    var before, e := es[..|es| - 1], es[|es| - 1];
    RunInv(before);
    if e == Request(h) && CanHappen(Run(before), e) {
      k := |es| - 1;
    } else {
      assert h in Run(before).running;
      k := RequestAt(before, h);
      assert before[..k] == es[..k];
    }
  }

  /** In every run, for every running check: with `k` the event that sent its current request, the
      reply to it completes the check exactly if fewer than 65536 requests were sent since and,
      should its sequence number be 0, no check has timed out since. */
  lemma ReplyIsAccepted<H>(es: seq<Event<H>>, h: H) returns (k: nat)
    requires h in Run(es).running
    ensures k < |es| && es[k] == Request(h) && CanHappen(Run(es[..k]), es[k])
    ensures var s := Run(es);
      && h in s.my && h in s.request && s.request[h] == Run(es[..k]).sent + 1 && s.my[h] == s.request[h] % SEQS
      && (Match(s, s.my[h]) == Some(h) <==>
            s.sent - s.request[h] < SEQS && (s.my[h] != 0 || !TimeoutIn(es[..k + 1], es[k + 1..])))
  {
    hide Run, TimeoutIn;
    k := RequestAt(es, h);
    ReplyInTime(es, h);
    var before, more := es[..k], es[k + 1..];
    assert es[..k + 1] == before + [Request(h)];
    assert es == before + [Request(h)] + more;
    if Run(es).my[h] == 0 {
      ZeroIsAccepted(before, h, more);
    }
  }

  /** Any timeout clears slot 0, so a running check with sequence number 0 loses its reply to the
      timeout of an unrelated check. */
  lemma TimeoutLosesSlotZero<H>(es: seq<Event<H>>, g: H, h: H)
    requires g != h && g in Run(es).running && h in Run(es).running && h in Run(es).my && Run(es).my[h] == 0
    ensures var s := Next(Run(es), Timeout(g));
      h in s.running && Match(s, 0).None? && Replied(s, 0) == s
  {
  }

  /** Checks 1 to `n`, each sending one request. */
  function AllRequest(n: nat): seq<Event<nat>> {
    seq(n, i requires 0 <= i < n => Request(i + 1))
  }

  lemma {:induction false} AllWaiting(n: nat)
    ensures var s := Run(AllRequest(n));
      && s.sent == n
      && (forall h: nat :: h in s.running <==> 1 <= h <= n)
      && (forall h: nat | 1 <= h <= n :: h in s.my && s.my[h] == h % SEQS)
      && (n > 0 ==> n % SEQS in s.slots && s.slots[n % SEQS] == n)
  {
    if n > 0 {
      AllWaiting(n - 1);
      assert AllRequest(n) == AllRequest(n - 1) + [Request(n)];
      RunNext(AllRequest(n - 1), Request(n));
    }
  }

  /** It does happen: when 65536 checks, or any multiple, have sent their requests, the last one has
      number 0 and could still be answered; once the first one times out its reply goes unnoticed. */
  lemma LostReply(n: nat)
    requires n > 0 && n % SEQS == 0
    ensures var es := AllRequest(n);
      && 1 in Run(es).running && n in Run(es).running && n in Run(es).my && Run(es).my[n] == 0
      && Match(Run(es), 0) == Some(n)
    ensures var s := Run(AllRequest(n) + [Timeout(1)]);
      n in s.running && Match(s, 0).None? && Replied(s, 0) == s
  {
    hide Run;
    AllWaiting(n);
    TimeoutLosesSlotZero(AllRequest(n), 1, n);
    RunNext(AllRequest(n), Timeout(1));
  }

  /** Request `u` is the current one of a running check. */
  ghost predicate Waits<H>(s: Pings<H>, u: nat) {
    exists h | h in s.running && h in s.request :: s.request[h] == u
  }

  /** Some result is about request `u`. */
  ghost predicate Answered<H>(rs: seq<Result<H>>, u: nat) {
    exists k | 0 <= k < |rs| :: rs[k].number == u
  }

  /** Every request so far either still waits or has a result, and not both; no result is about a
      request yet to come, and no two are about the same request. */
  ghost predicate Accounted<H>(s: Pings<H>, rs: seq<Result<H>>) {
    && (forall u: nat | 1 <= u <= s.sent :: Waits(s, u) <==> !Answered(rs, u))
    && (forall k | 0 <= k < |rs| :: 1 <= rs[k].number <= s.sent)
    && (forall j, k | 0 <= j < k < |rs| :: rs[j].number != rs[k].number)
  }

  /** What an event finishes: nothing by a request; by a reply the check it matches, which passes; by a
      timeout its check, which fails. */
  lemma FinishedMeaning<H>(s: Pings<H>, e: Event<H>)
    requires Inv(s) && CanHappen(s, e)
    ensures match e
      case Request(_) => Finished(s, e) == []
      case Reply(q) =>
        if Match(s, q).None? then Finished(s, e) == []
        else
          var h := s.slots[q];
          h in s.running && h in s.request && Finished(s, e) == [Result(h, s.request[h], true)]
      case Timeout(h) => h in s.request && Finished(s, e) == [Result(h, s.request[h], false)]
  {
    match e
    case Request(_) =>
    case Reply(q) => assert q in s.slots ==> SlotOk(s, q);
    case Timeout(h) => assert RunningOk(s, h);
  }

  lemma AccountedRequest<H>(s: Pings<H>, rs: seq<Result<H>>, h: H)
    requires Inv(s) && Accounted(s, rs) && h !in s.running
    ensures Accounted(Requested(s, h), rs)
  {
    var r := Requested(s, h);
    forall u: nat | 1 <= u <= r.sent
      ensures Waits(r, u) <==> !Answered(rs, u)
    {
      if u == r.sent {
        assert r.request[h] == u && h in r.running;
      } else if g :| g in s.running && g in s.request && s.request[g] == u {
        assert g in r.running && r.request[g] == u;
      }
    }
  }

  lemma AccountedEnd<H>(s: Pings<H>, rs: seq<Result<H>>, h: H, r: Pings<H>, pass: bool)
    requires Inv(s) && Accounted(s, rs) && h in s.running && h in s.request
    requires r.running == s.running - {h} && r.request == s.request && r.sent == s.sent
    ensures Accounted(r, rs + [Result(h, s.request[h], pass)])
  {
    var n, rs' := s.request[h], rs + [Result(h, s.request[h], pass)];
    assert RunningOk(s, h);
    assert Waits(s, n) && !Answered(rs, n);
    assert forall k | 0 <= k < |rs| :: rs'[k] == rs[k];
    assert rs'[|rs|].number == n;
    forall u: nat | 1 <= u <= r.sent
      ensures Waits(r, u) <==> !Answered(rs', u)
    {
      if u == n {
        assert Answered(rs', n);
        forall g | g in r.running && g in r.request
          ensures r.request[g] != n
        {
          assert g in s.running && g != h;
        }
        assert !Waits(r, n);
      } else {
        assert Waits(s, u) <==> !Answered(rs, u);
        if Answered(rs, u) {
          var k :| 0 <= k < |rs| && rs[k].number == u;
          assert rs'[k].number == u;
        }
        if Answered(rs', u) {
          var k :| 0 <= k < |rs'| && rs'[k].number == u;
          assert k < |rs| && rs[k].number == u;
        }
        if Waits(s, u) {
          var g :| g in s.running && g in s.request && s.request[g] == u;
          assert g in r.running && r.request[g] == u;
        }
        assert Waits(r, u) ==> Waits(s, u);
      }
    }
  }

  lemma AccountedStep<H>(s: Pings<H>, rs: seq<Result<H>>, e: Event<H>)
    requires Inv(s) && Accounted(s, rs)
    ensures Accounted(Next(s, e), rs + Finished(s, e))
  {
    hide Accounted, Finished;
    if !CanHappen(s, e) {
      NothingFinished(s, e);
      assert rs + [] == rs;
    } else {
      FinishedMeaning(s, e);
      match e
      case Request(h) =>
        assert rs + [] == rs;
        AccountedRequest(s, rs, h);
      case Reply(q) =>
        if Match(s, q).Some? {
          AccountedEnd(s, rs, s.slots[q], Next(s, e), true);
        } else {
          assert rs + [] == rs;
        }
      case Timeout(h) =>
        AccountedEnd(s, rs, h, Next(s, e), false);
    }
  }

  lemma NothingFinished<H>(s: Pings<H>, e: Event<H>)
    requires !CanHappen(s, e)
    ensures Finished(s, e) == []
  {
  }

  /** In every run requests and results balance: every request so far is either that of a running check
      or has exactly one result. */
  lemma {:induction false} OneResultEach<H>(es: seq<Event<H>>)
    ensures forall u: nat | 1 <= u <= Run(es).sent :: Waits(Run(es), u) <==> !Answered(Results(es), u)
    ensures forall j, k | 0 <= j < k < |Results(es)| :: Results(es)[j].number != Results(es)[k].number
    ensures Accounted(Run(es), Results(es))
    decreases |es|
  {
    hide Inv, Finished, Next;
    if es != [] {
      OneResultEach(es[..|es| - 1]);
      RunInv(es[..|es| - 1]);
      AccountedStep(Run(es[..|es| - 1]), Results(es[..|es| - 1]), es[|es| - 1]);
    }
  }

  /** In every run: a request brings no result; a reply that matches a check brings one, a pass, for the
      current request of that check; the timeout of a running check brings one, a failure. */
  lemma EventResults<H>(es: seq<Event<H>>, e: Event<H>)
    requires CanHappen(Run(es), e)
    ensures var s, more := Run(es), Results(es + [e]);
      match e
      case Request(_) => more == Results(es)
      case Reply(q) =>
        if Match(s, q).None? then more == Results(es)
        else
          var h := s.slots[q];
          h in s.running && h in s.request && more == Results(es) + [Result(h, s.request[h], true)]
      case Timeout(h) => h in s.request && more == Results(es) + [Result(h, s.request[h], false)]
  {
    hide Inv, Finished;
    RunInv(es);
    FinishedMeaning(Run(es), e);
    assert (es + [e])[..|es|] == es;
  }

  // ----- the objects ---------------------------------------------------------------------------------

  class PingCheck {
    var mySeq: int
    var isRunning: bool
    /** The outcome that the check last ended with. */
    var passed: bool

    constructor ()
      ensures !isRunning
    {
      mySeq, isRunning, passed := 0, false, false;
    }
  }

  /** The variables that all ping checks share. */
  class Pinger {
    const seqMap: array<PingCheck?>
    var globalSeq: int
    ghost var checks: set<PingCheck>
    ghost var view: Pings<PingCheck>
    /** The results so far. */
    ghost var results: seq<Result<PingCheck>>

    constructor ()
      ensures Valid() && fresh(seqMap) && checks == {} && view == Start() && results == []
      ensures seqMap.Length == 65536
    {
      seqMap := new PingCheck?[SEQS](_ => null);
      globalSeq := 0;
      checks, view, results := {}, Start(), [];
    }

    /** The objects agree with the view. */
    ghost predicate Slotted()
      reads this, seqMap, checks
    {
      && seqMap.Length == SEQS && globalSeq == view.sent % SEQS
      && view.running <= view.my.Keys && view.my.Keys <= checks
      && (forall q | 0 <= q < SEQS :: seqMap[q] != null <==> q in view.slots)
      && (forall q | q in view.slots :: 0 <= q < SEQS && seqMap[q] == view.slots[q] && view.slots[q] in view.my)
      && (forall h | h in view.my :: h.mySeq == view.my[h] && 0 <= view.my[h] < SEQS)
      && (forall h | h in checks :: h.isRunning == (h in view.running))
    }

    ghost predicate Valid()
      reads this, seqMap, checks
    {
      Slotted() && Inv(view)
    }

    method NewCheck() returns (h: PingCheck)
      requires Valid()
      modifies `checks
      ensures Valid() && fresh(h) && checks == old(checks) + {h} && view == old(view)
    {
      h := new PingCheck();
      checks := checks + {h};
    }

    /** The next number, and the slot that goes with it. */
    method TakeNumber(h: PingCheck)
      requires Slotted() && h in checks && !h.isRunning
      modifies `globalSeq, `view, seqMap, h`mySeq, h`isRunning
      ensures Slotted() && checks == old(checks)
      ensures view == Requested(old(view), h)
    {
      h.isRunning := true;
      globalSeq := (globalSeq + 1) % SEQS;
      h.mySeq := globalSeq;
      seqMap[h.mySeq] := h;
      view := Requested(view, h);
    }

    /** schedule_healthcheck, once the check may start. */
    method Schedule(h: PingCheck)
      requires Valid() && h in checks && !h.isRunning
      modifies `globalSeq, `view, seqMap, h`mySeq, h`isRunning
      ensures Valid() && checks == old(checks)
      ensures view == Requested(old(view), h) && results == old(results) + Finished(old(view), Request(h))
    {
      hide Inv;
      RequestedInv(view, h);
      TakeNumber(h);
    }

    /** end_check: the slot of the check's current number is cleared. */
    method EndCheck(h: PingCheck, pass: bool)
      requires Slotted() && h in view.my
      modifies `view, seqMap, h`isRunning, h`passed
      ensures Slotted() && checks == old(checks)
      ensures view == Ended(old(view), h) && h.passed == pass
    {
      seqMap[h.mySeq] := null;
      h.isRunning := false;
      h.passed := pass;
      view := Ended(view, h);
    }

    /** callback, for an echo reply with our id: the check that is completed, if any, has passed. */
    method Callback(recvdSeq: int) returns (done: PingCheck?)
      requires Valid() && 0 <= recvdSeq < SEQS
      modifies `view, `results, seqMap, checks`isRunning, checks`passed
      ensures Valid() && checks == old(checks)
      ensures view == Replied(old(view), recvdSeq) && results == old(results) + Finished(old(view), Reply(recvdSeq))
      ensures done == null <==> Match(old(view), recvdSeq).None?
      ensures done != null ==> Match(old(view), recvdSeq) == Some(done) && !done.isRunning && done.passed
    {
      hide Inv, Finished;
      RepliedInv(view, recvdSeq);
      results := results + Finished(view, Reply(recvdSeq));
      done := seqMap[recvdSeq];
      if done != null && done.mySeq == recvdSeq {
        EndCheck(done, true);
      } else {
        done := null;
      }
    }

    /** finalize, for a check whose time is over: it fails if it is still running. */
    method Finalize(h: PingCheck)
      requires Valid() && h in checks
      modifies `view, `results, seqMap, h
      ensures Valid() && checks == old(checks)
      ensures view == if old(h.isRunning) then TimedOut(old(view), h) else old(view)
      ensures results == old(results) + Finished(old(view), Timeout(h))
      ensures if old(h.isRunning) then !h.passed else h.passed == old(h.passed)
    {
      hide Inv, Finished;
      results := results + Finished(view, Timeout(h));
      if !h.isRunning {
        NothingFinished(view, Timeout(h));
        return;
      }
      TimedOutInv(view, h);
      h.mySeq := 0;
      view := view.(my := view.my[h := 0]);
      EndCheck(h, false);
    }
  }
}
