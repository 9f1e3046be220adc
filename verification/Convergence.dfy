/** Coming into sync: when the worker keeps up and every pool that is behind hears from a node or from
    the timer once, all pools are in sync and their tables are right. */
module Convergence {
  import opened Domain
  import opened Selection
  import opened Wire
  import opened Fleet
  import opened Invariants
  import opened Runs
  import opened Guarantees
  import opened Stability

  // ----- a worker that keeps up ---------------------------------------------------------------

  /** One turn of the worker in which it empties the queue without a failure. */
  ghost predicate Drains(turn: seq<Outcome>) {
    |turn| >= QUEUE_LEN && forall o | o in turn :: o.Synced?
  }

  /** The worker empties the queue before each of the next `k` messages. */
  ghost predicate Ready(net: Net, k: nat) {
    |net.queue| <= QUEUE_LEN && |net.turns| >= k && forall t | t in net.turns :: Drains(t)
  }

  function Times(n: nat, each: nat): nat {
    if n == 0 then 0 else each + Times(n - 1, each)
  }

  /** How many messages a call of pool_logic can send at most, with `width` pools to walk over and
      `height` pools above. */
  function Sends(width: nat, height: nat): nat {
    1 + if height == 0 then 0 else Times(width, Sends(width, height - 1))
  }

  lemma {:induction false} TimesMore(n: nat, a: nat, b: nat)
    requires a <= b
    ensures Times(n, a) <= Times(n, b)
  {
    if n > 0 {
      TimesMore(n - 1, a, b);
    }
  }

  lemma {:induction false} SendsMore(width: nat, a: nat, b: nat)
    requires a <= b
    ensures Sends(width, a) <= Sends(width, b)
  {
    if a > 0 {
      SendsMore(width, a - 1, b - 1);
      TimesMore(width, Sends(width, a - 1), Sends(width, b - 1));
    }
  }

  // ----- what is not lost on the way ------------------------------------------------------------

  /** Pool `p` is not in sync by mistake: either it knows that it is behind, or its table is heading for
      what its latest message says. */
  ghost predicate Sure<N>(c: Config<N>, s: State<N>, p: string)
    requires Shaped(c, s) && p in c.pools
  {
    s.pools[p].synced ==> Known(s.net, c.pools[p].pfName)
  }

  /** From `s` to `r` no pool but those in `but` falls out of sync, and none is mistaken that was not. */
  ghost predicate Progress<N>(c: Config<N>, s: State<N>, r: State<N>, but: set<string>)
    requires Shaped(c, s) && Shaped(c, r)
  {
    forall q | q in c.pools ::
      && (s.pools[q].synced && q !in but ==> r.pools[q].synced)
      && (Sure(c, s, q) ==> Sure(c, r, q))
  }

  lemma ProgressChain<N>(c: Config<N>, s: State<N>, t: State<N>, r: State<N>, but: set<string>)
    requires Shaped(c, s) && Shaped(c, t) && Shaped(c, r)
    requires Progress(c, s, t, but) && Progress(c, t, r, {})
    ensures forall q | q in c.pools ::
      (s.pools[q].synced && q !in but ==> r.pools[q].synced) && (Sure(c, s, q) ==> Sure(c, r, q))
    ensures Progress(c, s, r, but)
  {
    hide Sure;
  }

  lemma {:induction false} DeliverAllKnown(net: Net, os: seq<Outcome>, t: string)
    requires Known(net, t) && forall o | o in os :: o.Synced?
    ensures Known(DeliverAll(net, os), t)
    decreases |os|
  {
    if os != [] && net.queue != [] {
      var net' := Deliver(net, os[0]);
      if t in net'.stale {
        var m :| m in net.queue && m.table == t;
        assert m in net.queue[1..];
      }
      DeliverAllKnown(net', os[1..], t);
    }
  }

  lemma TurnReady(net: Net, k: nat)
    requires Ready(net, k + 1)
    ensures WorkerTurn(net).queue == [] && |WorkerTurn(net).turns| >= k
    ensures forall t | t in WorkerTurn(net).turns :: Drains(t)
  {
    assert Drains(net.turns[0]);
    DeliverAllHeading(net, net.turns[0], "");
  }

  lemma TurnKnown(net: Net, k: nat, t: string)
    requires Ready(net, k + 1) && Known(net, t)
    ensures Known(WorkerTurn(net), t)
  {
    assert Drains(net.turns[0]);
    DeliverAllKnown(net, net.turns[0], t);
  }

  /** Sending with a worker that keeps up brings the pool into sync. */
  lemma SendSyncs<N>(c: Config<N>, s: State<N>, p: string, k: nat)
    requires Shaped(c, s) && p in c.pools && |c.pools[p].ids| <= MAX_NODES && Ready(s.net, k + 1)
    ensures var r := Send(c, s, p); Ready(r.net, k) && r.pools[p].synced && Progress(c, s, r, {})
  {
    hide WorkerTurn, Snapshot, Known, Drains;
    var r := Send(c, s, p);
    if !s.pools[p].synced {
      TurnReady(s.net, k);
      var net := WorkerTurn(s.net);
      var msg := Msg(p, c.pools[p].pfName, Snapshot(c, s, c.pools[p].ids, s.pools[p].up));
      forall q | q in c.pools && Sure(c, s, q)
        ensures Sure(c, r, q)
      {
        if q == p {
          EnqueuedKnown(net, msg);
        } else if s.pools[q].synced {
          TurnKnown(s.net, k, c.pools[q].pfName);
          EnqueueKnown(net, msg, c.pools[q].pfName);
        }
      }
    }
  }

  lemma EnqueuedKnown(net: Net, m: Msg)
    ensures Known(Enqueue(net, m), m.table)
  {
    assert m in Enqueue(net, m).queue;
  }

  lemma EnqueueKnown(net: Net, m: Msg, t: string)
    requires Known(net, t)
    ensures Known(Enqueue(net, m), t)
  {
    assert forall x | x in net.queue :: x in Enqueue(net, m).queue;
  }

  lemma RecomputeProgress<N>(c: Config<N>, s: State<N>, p: string, last: Option<N>)
    requires Shaped(c, s) && p in c.pools
    ensures Recompute(c, s, p, last).net == s.net && Progress(c, s, Recompute(c, s, p, last), {p})
  {
    hide ChoiceFor, SetFlags, Known;
  }

  // ----- the cascade ----------------------------------------------------------------------------

  /** What the walk for pool `p` may need for each pool it comes to. */
  ghost function PerPool<N>(c: Config<N>, p: string): nat
    requires p in c.pools
  {
    if Above(c, p) == {} then 0 else Sends(|c.order|, |Above(c, p)| - 1)
  }

  lemma PerPoolIs<N>(c: Config<N>, p: string)
    requires p in c.pools
    ensures Sends(|c.order|, |Above(c, p)|) >= 1 + Times(|c.order|, PerPool(c, p))
  {
    if Above(c, p) == {} {
      TimesZero(|c.order|);
    }
  }

  lemma {:induction false} TimesZero(n: nat)
    ensures Times(n, 0) == 0
  {
    if n > 0 {
      TimesZero(n - 1);
    }
  }

  lemma PerPoolEnough<N>(c: Config<N>, p: string, q: string)
    requires p in c.pools && q in c.pools && Above(c, q) < Above(c, p)
    ensures Sends(|c.order|, |Above(c, q)|) <= PerPool(c, p)
  {
    hide Above;
    SubsetSize(Above(c, q), Above(c, p));
    SendsMore(|c.order|, |Above(c, q)|, |Above(c, p)| - 1);
  }

  lemma ReadyLess(net: Net, k: nat, j: nat)
    requires Ready(net, k) && j <= k
    ensures Ready(net, j)
  {
  }

  /** With a worker that keeps up, pool_logic leaves its pool in sync and no pool out of sync that was
      in sync before. */
  lemma {:induction false} PoolLogicSyncs<N>(c: Config<N>, s: State<N>, p: string, last: Option<N>, k: nat)
    requires Configured(c) && Shaped(c, s) && p in c.pools && Ready(s.net, k + Sends(|c.order|, |Above(c, p)|))
    ensures var r := PoolLogic(c, s, p, last); Ready(r.net, k) && r.pools[p].synced && Progress(c, s, r, {})
    decreases Above(c, p), |c.order| + 2
  {
    hide Recompute, UpdatePfctl, Ready, Sends, Progress, Configured;
    if Gate(s, last) {
      var s1 := Recompute(c, s, p, last);
      RecomputeProgress(c, s, p, last);
      UpdatePfctlSyncs(c, s1, p, k);
      ProgressBut(c, s, s1, UpdatePfctl(c, s1, p), p);
    } else {
      UpdatePfctlSyncs(c, s, p, k);
    }
  }

  lemma ProgressBut<N>(c: Config<N>, s: State<N>, t: State<N>, r: State<N>, p: string)
    requires Shaped(c, s) && Shaped(c, t) && Shaped(c, r) && p in c.pools
    requires Progress(c, s, t, {p}) && Progress(c, t, r, {}) && r.pools[p].synced
    ensures Progress(c, s, r, {})
  {
    hide Sure;
    ProgressChain(c, s, t, r, {p});
  }

  lemma {:induction false} UpdatePfctlSyncs<N>(c: Config<N>, s: State<N>, p: string, k: nat)
    requires Configured(c) && Shaped(c, s) && p in c.pools && Ready(s.net, k + Sends(|c.order|, |Above(c, p)|))
    ensures var r := UpdatePfctl(c, s, p); Ready(r.net, k) && r.pools[p].synced && Progress(c, s, r, {})
    decreases Above(c, p), |c.order| + 1
  {
    hide Send, Dependents, Ready, Sends, Times, PerPool, Progress;
    assert PoolConfigured(c, p);
    hide Configured, PoolConfigured;
    PerPoolIs(c, p);
    var more := k + Times(|c.order|, PerPool(c, p));
    ReadyLess(s.net, k + Sends(|c.order|, |Above(c, p)|), more + 1);
    var s1 := Send(c, s, p);
    SendSyncs(c, s, p, more);
    DependentsSyncs(c, s1, p, 0, k);
    ProgressChain(c, s, s1, Dependents(c, s1, p, 0), {});
    StillSynced(c, s1, Dependents(c, s1, p, 0), p);
  }

  lemma StillSynced<N>(c: Config<N>, s: State<N>, r: State<N>, p: string)
    requires Shaped(c, s) && Shaped(c, r) && p in c.pools && Progress(c, s, r, {}) && s.pools[p].synced
    ensures r.pools[p].synced
  {
  }

  lemma NoProgress<N>(c: Config<N>, s: State<N>)
    requires Shaped(c, s)
    ensures Progress(c, s, s, {})
  {
  }

  lemma {:induction false} DependentsSyncs<N>(c: Config<N>, s: State<N>, p: string, i: nat, k: nat)
    requires Configured(c) && Shaped(c, s) && p in c.pools && i <= |c.order|
    requires Ready(s.net, k + Times(|c.order| - i, PerPool(c, p)))
    ensures var r := Dependents(c, s, p, i); Ready(r.net, k) && Progress(c, s, r, {})
    decreases Above(c, p), |c.order| - i
  {
    hide PoolLogic, Ready, Sends, PerPool, Progress, Above, Configured;
    if i == |c.order| {
      NoProgress(c, s);
    } else {
      var q := c.order[i];
      var rest := k + Times(|c.order| - (i + 1), PerPool(c, p));
      BorrowerRank(c, s, p, q);
      if Borrows(c, s, q, p) {
        PerPoolEnough(c, p, q);
        ReadyLess(s.net, k + Times(|c.order| - i, PerPool(c, p)), rest + Sends(|c.order|, |Above(c, q)|));
        PoolLogicSyncs(c, s, q, None, rest);
        var s1 := PoolLogic(c, s, q, None);
        DependentsSyncs(c, s1, p, i + 1, k);
        ProgressChain(c, s, s1, Dependents(c, s1, p, i + 1), {});
      } else {
        ReadyLess(s.net, k + Times(|c.order| - i, PerPool(c, p)), rest);
        DependentsSyncs(c, s, p, i + 1, k);
      }
    }
  }

  // ----- events ---------------------------------------------------------------------------------

  /** An event during which the worker keeps up and no command fails; no pool is loaded. */
  ghost predicate Calm<N>(c: Config<N>, e: Event<N>) {
    match e
    case WorkerReceives(o) => o.Synced?
    case TablesFound(_) => true
    case PoolLoaded(_, _, _, _, _, _) => false
    case CheckEnds(_, _, _, turns) => Keeps(c, turns)
    case DowntimeRead(_, _, turns) => Keeps(c, turns)
    case SyncTimer(_, turns) => Keeps(c, turns)
  }

  ghost predicate Keeps<N>(c: Config<N>, turns: seq<seq<Outcome>>) {
    |turns| >= Sends(|c.order|, |c.pools|) && forall t | t in turns :: Drains(t)
  }

  /** The event makes pool `p` try to send: a check of one of its nodes ends, or the timer for pools
      without checks comes to it. */
  ghost predicate Calls<N>(w: World<N>, e: Event<N>, p: string)
    requires Shaped(w.c, w.s) && p in w.c.pools
  {
    match e
    case CheckEnds(n, _, _, _) => CanHappen(w, e) && w.c.nodes[n].parent == p
    case SyncTimer(q, _) => q == p && !w.c.pools[p].hasHcs
    case _ => false
  }

  lemma KeepsReady<N>(w: World<N>, turns: seq<seq<Outcome>>, p: string)
    requires Inv(w) && p in w.c.pools && Keeps(w.c, turns)
    ensures Ready(WithTurns(w.s, turns).net, Sends(|w.c.order|, |Above(w.c, p)|))
  {
    hide Good, LinksBut, Configured, Sends, Drains;
    InvPool(w, p);
    assert |w.c.pools| == |w.c.pools.Keys|;
    SubsetSize(Above(w.c, p), w.c.pools.Keys);
    SendsMore(|w.c.order|, |Above(w.c, p)|, |w.c.pools|);
  }

  lemma ChangedProgress<N>(w: World<N>, e: Event<N>)
    requires Shaped(w.c, w.s) && CanHappen(w, e) && (e.CheckEnds? || e.DowntimeRead?)
    ensures Shaped(w.c, Changed(w, e)) && Progress(w.c, w.s, Changed(w, e), {})
    ensures Changed(w, e).net == WithTurns(w.s, e.turns).net
  {
    hide NodeAfter, Configured;
    TurnsProgress(w.c, w.s, e.turns);
  }

  lemma TurnsProgress<N>(c: Config<N>, s: State<N>, turns: seq<seq<Outcome>>)
    requires Shaped(c, s)
    ensures Progress(c, s, WithTurns(s, turns), {})
  {
  }

  lemma NodeSyncs<N>(w: World<N>, e: Event<N>)
    requires Inv(w) && CanHappen(w, e) && (e.CheckEnds? || e.DowntimeRead?) && Calm(w.c, e)
    ensures w.c.nodes[e.n].parent in w.c.pools
    ensures Next(w, e).c == w.c && Shaped(w.c, Next(w, e).s)
    ensures Progress(w.c, w.s, Next(w, e).s, {}) && Next(w, e).s.pools[w.c.nodes[e.n].parent].synced
  {
    hide Inv, Configured, Next, PoolLogic, Progress, Ready, Keeps, Sends, Changed, Above, Gate;
    InvParts(w);
    NextNode(w, e);
    var p := w.c.nodes[e.n].parent;
    ChangedProgress(w, e);
    KeepsReady(w, e.turns, p);
    PoolLogicSyncs(w.c, Changed(w, e), p, Some(e.n), 0);
    ProgressChain(w.c, w.s, Changed(w, e), Next(w, e).s, {});
  }

  lemma TimerSyncs<N>(w: World<N>, e: Event<N>)
    requires Inv(w) && CanHappen(w, e) && e.SyncTimer? && Calm(w.c, e)
    ensures Next(w, e).c == w.c && Shaped(w.c, Next(w, e).s)
    ensures Progress(w.c, w.s, Next(w, e).s, {}) && Next(w, e).s.pools[e.p].synced
  {
    hide Good, LinksBut, Configured, UpdatePfctl, Progress, Ready, Keeps, Sends;
    InvParts(w);
    var s := WithTurns(w.s, e.turns);
    TurnsProgress(w.c, w.s, e.turns);
    KeepsReady(w, e.turns, e.p);
    UpdatePfctlSyncs(w.c, s, e.p, 0);
    ProgressChain(w.c, w.s, s, UpdatePfctl(w.c, s, e.p), {});
  }

  lemma WorkerProgress<N>(w: World<N>, e: Event<N>)
    requires Inv(w) && CanHappen(w, e) && e.WorkerReceives? && Calm(w.c, e)
    ensures Next(w, e).c == w.c && Shaped(w.c, Next(w, e).s) && Progress(w.c, w.s, Next(w, e).s, {})
  {
    hide Good, LinksBut, Configured, Known;
    InvParts(w);
    forall q | q in w.c.pools && Known(w.s.net, w.c.pools[q].pfName)
      ensures Known(Deliver(w.s.net, e.outcome), w.c.pools[q].pfName)
    {
      DeliverAllKnown(w.s.net, [e.outcome], w.c.pools[q].pfName);
      DeliverOne(w.s.net, e.outcome);
    }
  }

  lemma FoundProgress<N>(w: World<N>, e: Event<N>)
    requires Inv(w) && CanHappen(w, e) && e.TablesFound?
    ensures Next(w, e).c == w.c && Shaped(w.c, Next(w, e).s) && Progress(w.c, w.s, Next(w, e).s, {})
  {
    hide Good, LinksBut, Configured;
    InvParts(w);
  }

  lemma DeliverOne(net: Net, o: Outcome)
    requires net.queue != []
    ensures DeliverAll(net, [o]) == Deliver(net, o)
  {
    assert [o][1..] == [];
    assert DeliverAll(net, [o]) == DeliverAll(Deliver(net, o), []);
  }

  lemma CalmStep<N>(w: World<N>, e: Event<N>)
    requires Inv(w) && Calm(w.c, e)
    ensures Next(w, e).c == w.c && Shaped(w.c, Next(w, e).s) && Progress(w.c, w.s, Next(w, e).s, {})
    ensures forall p | p in w.c.pools && Calls(w, e, p) :: Next(w, e).s.pools[p].synced
  {
    hide Good, LinksBut, Configured, Progress, Keeps, Happen;
    InvParts(w);
    if !CanHappen(w, e) {
      NoProgress(w.c, w.s);
    } else if e.SyncTimer? {
      TimerSyncs(w, e);
    } else if e.WorkerReceives? {
      WorkerProgress(w, e);
    } else if e.TablesFound? {
      FoundProgress(w, e);
    } else {
      NodeSyncs(w, e);
    }
  }

  // ----- runs -------------------------------------------------------------------------------------

  /** After `es`, during `more`, pool `p` gets to send. */
  ghost predicate Called<N>(es: seq<Event<N>>, more: seq<Event<N>>, p: string) {
    exists k | 0 <= k < |more| :: p in Reached(es + more[..k]).c.pools && Calls(Reached(es + more[..k]), more[k], p)
  }

  lemma CalledMore<N>(es: seq<Event<N>>, more: seq<Event<N>>, e: Event<N>, p: string)
    requires Called(es, more + [e], p) && p in Reached(es + more).c.pools
    ensures Called(es, more, p) || Calls(Reached(es + more), e, p)
  {
    hide Reached, Calls;
    var all := more + [e];
    var k :| 0 <= k < |all| && p in Reached(es + all[..k]).c.pools && Calls(Reached(es + all[..k]), all[k], p);
    if k < |more| {
      assert all[..k] == more[..k] && all[k] == more[k];
    } else {
      assert all[..k] == more;
    }
  }

  lemma {:induction false} CalmRun<N>(es: seq<Event<N>>, more: seq<Event<N>>)
    requires forall e | e in more :: Calm(Reached(es).c, e)
    ensures Reached(es + more).c == Reached(es).c
    ensures Progress(Reached(es).c, Reached(es).s, Reached(es + more).s, {})
    ensures forall p | p in Reached(es).c.pools && Called(es, more, p) :: Reached(es + more).s.pools[p].synced
    decreases |more|
  {
    hide Inv, Next, Reached, Progress, Calm, Called, Calls;
    if more == [] {
      assert es + more == es;
      NoProgress(Reached(es).c, Reached(es).s);
      NobodyCalled(es);
    } else {
      var before, e := more[..|more| - 1], more[|more| - 1];
      assert es + more == es + before + [e] && more == before + [e];
      CalmRun(es, before);
      var c, s, w := Reached(es).c, Reached(es).s, Reached(es + before);
      ReachedNext(es + before, e);
      ReachedInv(es + before);
      CalmStep(w, e);
      ProgressChain(c, s, w.s, Reached(es + more).s, {});
      forall p | p in c.pools && Called(es, more, p)
        ensures Reached(es + more).s.pools[p].synced
      {
        CalledMore(es, before, e, p);
        if Called(es, before, p) {
          StillSynced(c, w.s, Reached(es + more).s, p);
        }
      }
    }
  }

  lemma NobodyCalled<N>(es: seq<Event<N>>)
    ensures forall p :: !Called(es, [], p)
  {
  }

  /** From every reached state: let the worker keep up without a failure, and let every pool that is
      not in sync be called once.  Then all pools are in sync, and when the queue is empty the table of
      every pool that does not borrow holds exactly the addresses of the nodes it serves, unless it
      was mistaken about its table to begin with. */
  lemma Converges<N>(es: seq<Event<N>>, more: seq<Event<N>>, os: seq<Outcome>)
    requires forall e | e in more :: Calm(Reached(es).c, e)
    requires forall p | p in Reached(es).c.pools && !Reached(es).s.pools[p].synced :: Called(es, more, p)
    requires |os| >= |Reached(es + more).s.net.queue| && forall o | o in os :: o.Synced?
    ensures var w, w' := Reached(es), Reached(es + more);
      && w'.c == w.c
      && (forall p | p in w.c.pools :: w'.s.pools[p].synced)
      && (forall p | p in w.c.pools && Sure(w.c, w.s, p) && !w'.s.pools[p].active ::
            TableOf(DeliverAll(w'.s.net, os), w.c.pools[p].pfName) == AddressesOf(w.c, w'.s.pools[p].up))
  {
    hide Reached, Progress, Calm, Called, Known, TableOf, DeliverAll, AddressesOf;
    CalmRun(es, more);
    var w, w' := Reached(es), Reached(es + more);
    forall p | p in w.c.pools
      ensures w'.s.pools[p].synced
      ensures Sure(w.c, w.s, p) && !w'.s.pools[p].active ==>
        TableOf(DeliverAll(w'.s.net, os), w.c.pools[p].pfName) == AddressesOf(w.c, w'.s.pools[p].up)
    {
      ProgressAt(w.c, w.s, w'.s, p);
      TablesArrive(es + more, p, os);
    }
  }

  lemma ProgressAt<N>(c: Config<N>, s: State<N>, r: State<N>, p: string)
    requires Shaped(c, s) && Shaped(c, r) && p in c.pools && Progress(c, s, r, {})
    ensures s.pools[p].synced ==> r.pools[p].synced
    ensures Sure(c, s, p) ==> Sure(c, r, p)
  {
    hide Sure;
  }

  // ----- runs without a failure ---------------------------------------------------------------------

  ghost predicate AllSynced(turns: seq<seq<Outcome>>) {
    forall t | t in turns :: forall o | o in t :: o.Synced?
  }

  /** No command of pf has failed so far, nor will one during the turns that are planned. */
  ghost predicate Unfailed(net: Net) {
    net.stale == {} && AllSynced(net.turns)
  }

  /** During the event no command fails. */
  ghost predicate Spotless<N>(e: Event<N>) {
    match e
    case WorkerReceives(o) => o.Synced?
    case TablesFound(_) => true
    case PoolLoaded(_, _, _, _, _, turns) => AllSynced(turns)
    case CheckEnds(_, _, _, turns) => AllSynced(turns)
    case DowntimeRead(_, _, turns) => AllSynced(turns)
    case SyncTimer(_, turns) => AllSynced(turns)
  }

  lemma {:induction false} DeliverAllUnfailed(net: Net, os: seq<Outcome>)
    requires net.stale == {} && forall o | o in os :: o.Synced?
    ensures DeliverAll(net, os).stale == {}
    decreases |os|
  {
    if os != [] && net.queue != [] {
      DeliverAllUnfailed(Deliver(net, os[0]), os[1..]);
    }
  }

  lemma SendUnfailed<N>(c: Config<N>, s: State<N>, p: string)
    requires Shaped(c, s) && p in c.pools && |c.pools[p].ids| <= MAX_NODES && Unfailed(s.net)
    ensures Unfailed(Send(c, s, p).net)
  {
    hide Snapshot, Unfailed, WorkerTurn;
    TurnUnfailed(s.net);
    if !s.pools[p].synced {
      var msg := Msg(p, c.pools[p].pfName, Snapshot(c, s, c.pools[p].ids, s.pools[p].up));
      EnqueueUnfailed(WorkerTurn(s.net), msg);
    }
  }

  lemma TurnUnfailed(net: Net)
    requires Unfailed(net)
    ensures Unfailed(WorkerTurn(net))
  {
    if net.turns != [] {
      assert net.turns[0] in net.turns;
      DeliverAllUnfailed(net, net.turns[0]);
      assert forall t | t in net.turns[1..] :: t in net.turns;
    }
  }

  lemma EnqueueUnfailed(net: Net, m: Msg)
    requires Unfailed(net)
    ensures Unfailed(Enqueue(net, m))
  {
  }

  lemma RecomputeNet<N>(c: Config<N>, s: State<N>, p: string, last: Option<N>)
    requires Shaped(c, s) && p in c.pools
    ensures Recompute(c, s, p, last).net == s.net
  {
    hide ChoiceFor, SetFlags;
  }

  lemma {:induction false} PoolLogicUnfailed<N>(c: Config<N>, s: State<N>, p: string, last: Option<N>)
    requires Configured(c) && Shaped(c, s) && p in c.pools && Unfailed(s.net)
    ensures Unfailed(PoolLogic(c, s, p, last).net)
    decreases Above(c, p), |c.order| + 2
  {
    hide Recompute, UpdatePfctl, Configured, Unfailed;
    RecomputeNet(c, s, p, last);
    UpdatePfctlUnfailed(c, if Gate(s, last) then Recompute(c, s, p, last) else s, p);
  }

  lemma {:induction false} UpdatePfctlUnfailed<N>(c: Config<N>, s: State<N>, p: string)
    requires Configured(c) && Shaped(c, s) && p in c.pools && Unfailed(s.net)
    ensures Unfailed(UpdatePfctl(c, s, p).net)
    decreases Above(c, p), |c.order| + 1
  {
    hide Send, Dependents, Unfailed;
    assert PoolConfigured(c, p);
    SendUnfailed(c, s, p);
    DependentsUnfailed(c, Send(c, s, p), p, 0);
  }

  lemma {:induction false} DependentsUnfailed<N>(c: Config<N>, s: State<N>, p: string, i: nat)
    requires Configured(c) && Shaped(c, s) && p in c.pools && i <= |c.order| && Unfailed(s.net)
    ensures Unfailed(Dependents(c, s, p, i).net)
    decreases Above(c, p), |c.order| - i
  {
    hide PoolLogic, Unfailed, Above, Configured;
    if i < |c.order| {
      var q := c.order[i];
      BorrowerRank(c, s, p, q);
      if Borrows(c, s, q, p) {
        PoolLogicUnfailed(c, s, q, None);
        DependentsUnfailed(c, PoolLogic(c, s, q, None), p, i + 1);
      } else {
        DependentsUnfailed(c, s, p, i + 1);
      }
    }
  }

  lemma NextUnfailed<N>(w: World<N>, e: Event<N>)
    requires Inv(w) && Unfailed(w.s.net) && Spotless(e)
    ensures Unfailed(Next(w, e).s.net)
  {
    hide Good, LinksBut, Configured, PoolLogic, UpdatePfctl, NodeAfter, AllSynced;
    InvParts(w);
    if CanHappen(w, e) {
      match e
      case CheckEnds(_, _, _, _) => NodeUnfailed(w, e);
      case DowntimeRead(_, _, _) => NodeUnfailed(w, e);
      case SyncTimer(p, turns) => UpdatePfctlUnfailed(w.c, WithTurns(w.s, turns), p);
      case WorkerReceives(_) =>
      case TablesFound(_) =>
      case PoolLoaded(p, cfg, at, nodeCfgs, nodes, turns) =>
        NewPool(w, e);
        PoolLogicUnfailed(Extend(w.c, p, cfg, at, nodeCfgs), WithPool(WithTurns(w.s, turns), p, nodes), p, None);
    }
  }

  lemma NodeUnfailed<N>(w: World<N>, e: Event<N>)
    requires Configured(w.c) && Shaped(w.c, w.s) && CanHappen(w, e) && (e.CheckEnds? || e.DowntimeRead?)
    requires Unfailed(w.s.net) && Spotless(e)
    ensures Unfailed(Next(w, e).s.net)
  {
    hide Configured, PoolLogic, NodeAfter, AllSynced, Next;
    NextNode(w, e);
    PoolLogicUnfailed(w.c, Changed(w, e), w.c.nodes[e.n].parent, Some(e.n));
  }

  lemma {:induction false} RunUnfailed<N>(es: seq<Event<N>>)
    requires forall e | e in es :: Spotless(e)
    ensures Unfailed(Reached(es).s.net)
    decreases |es|
  {
    hide Inv, Next, Spotless;
    if es != [] {
      var before, e := es[..|es| - 1], es[|es| - 1];
      assert es == before + [e];
      RunUnfailed(before);
      ReachedNext(before, e);
      ReachedInv(before);
      NextUnfailed(Reached(before), e);
    }
  }

  /** Whatever pf's tables hold when the process starts, and whatever happens then: as long as no command
      of pf fails, the table of every pool that is in sync ends up, once the queue is empty, with
      exactly the addresses of its own served nodes.  Nothing is left over from before. */
  lemma RestartCleans<N>(tables: map<string, set<string>>, es: seq<Event<N>>, p: string, os: seq<Outcome>)
    requires forall e | e in es :: Spotless(e)
    requires p in Reached([TablesFound(tables)] + es).c.pools
    requires Reached([TablesFound(tables)] + es).s.pools[p].synced
    requires |os| >= |Reached([TablesFound(tables)] + es).s.net.queue| && forall o | o in os :: o.Synced?
    ensures var w := Reached([TablesFound(tables)] + es);
      TableOf(DeliverAll(w.s.net, os), w.c.pools[p].pfName)
        == if w.s.pools[p].active then {} else AddressesOf(w.c, w.s.pools[p].up)
  {
    hide Reached, TableOf, DeliverAll, AddressesOf;
    var all := [TablesFound(tables)] + es;
    RunUnfailed(all);
    TablesArrive(all, p, os);
  }
}
