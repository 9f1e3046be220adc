/** What holds in every reachable state: who serves, how many, through which backups, and
    where the pf tables are heading. */
module Guarantees {
  import opened Domain
  import opened Selection
  import opened Wire
  import opened Fleet
  import opened Invariants
  import opened Runs

  /** The system after the events `es`, starting with nothing loaded. */
  ghost function Reached<N>(es: seq<Event<N>>): (w: World<N>)
    ensures Shaped(w.c, w.s)
  {
    assert Shaped(Run(Empty<N>(), es).c, Run(Empty<N>(), es).s) by {
      EmptyInv<N>();
      RunInv(Empty<N>(), es);
    }
    Run(Empty(), es)
  }

  lemma ReachedInv<N>(es: seq<Event<N>>)
    ensures Inv(Reached(es))
  {
    hide Inv;
    EmptyInv<N>();
    RunInv(Empty<N>(), es);
  }

  // ----- backup chains ----------------------------------------------------------------------

  /** The pool whose own nodes `p` is serving, at the end of the chain of active backups. */
  ghost function Lender<N>(w: World<N>, p: string): string
    requires Inv(w) && p in w.c.pools
    decreases w.c.pools[p].rank
  {
    if w.s.pools[p].active then
      assert Link(w.c, w.s, p) && PoolConfigured(w.c, p);
      Lender(w, w.c.pools[p].backup)
    else p
  }

  lemma {:induction false} LenderFacts<N>(w: World<N>, p: string)
    requires Inv(w) && p in w.c.pools
    ensures var l := Lender(w, p);
      && l in w.c.pools && !w.s.pools[l].active
      && w.c.pools[l].rank <= w.c.pools[p].rank
      && w.s.pools[p].up == w.s.pools[l].up
    decreases w.c.pools[p].rank
  {
    hide Good, Configured;
    if w.s.pools[p].active {
      assert Link(w.c, w.s, p) && PoolConfigured(w.c, p) && MayBorrow(w.c.pools[p]) by { InvPool(w, p); }
      LenderFacts(w, w.c.pools[p].backup);
    }
  }

  lemma InvPool<N>(w: World<N>, p: string)
    requires Inv(w) && p in w.c.pools
    ensures Link(w.c, w.s, p) && PoolConfigured(w.c, p)
    ensures Settled(w.c.pools[p], w.s.nodes, w.s.pools[p])
    ensures Owned(w.c, p, w.s.pools[p])
    ensures InSync(w.c, w.s.net, p, w.s.pools[p])
    ensures w.s.pools[p].active ==> MayBorrow(w.c.pools[p])
    ensures |w.s.net.queue| <= QUEUE_LEN && Honest(w.s.net)
  {
  }

  /** In every run, a pool with an active backup may borrow, serves exactly what its backup serves,
      and, through the chain, the own nodes of a pool whose backup is not active. */
  lemma BackupsAgree<N>(es: seq<Event<N>>, p: string)
    requires p in Reached(es).c.pools
    ensures Inv(Reached(es))
    ensures var w := Reached(es);
      w.s.pools[p].active ==>
        && MayBorrow(w.c.pools[p]) && w.c.pools[p].backup in w.c.pools
        && w.s.pools[p].up == w.s.pools[w.c.pools[p].backup].up
    ensures var w := Reached(es);
      var l := Lender(w, p);
      && l in w.c.pools && !w.s.pools[l].active
      && w.s.pools[p].up == w.s.pools[l].up
      && (forall n | n in w.s.pools[p].up :: n in w.c.pools[l].ids)
  {
    hide Inv, Reached, Owned, Settled, InSync;
    ReachedInv(es);
    var w := Reached(es);
    InvPool(w, p);
    LenderFacts(w, p);
    InvPool(w, Lender(w, p));
    ServedIds(w, Lender(w, p));
  }

  lemma ServedIds<N>(w: World<N>, p: string)
    requires Inv(w) && p in w.c.pools && !w.s.pools[p].active
    ensures OwnUp(w.c.pools[p].ids, w.s.pools[p].up) == w.s.pools[p].up
    ensures forall n | n in w.s.pools[p].up :: n in w.c.pools[p].ids
  {
    hide Settled, LinksBut, AllInSync;
    assert Owned(w.c, p, w.s.pools[p]);
    forall n | n in w.s.pools[p].up
      ensures n in w.c.pools[p].ids
    {
      assert OwnedBy(w.c, p, false, n);
    }
  }

  // ----- registering a pool before or after its first pool_logic ------------------------------

  /** When a pool is constructed nobody borrows from it yet, and it does not borrow from itself. */
  lemma NobodyBorrowsYet<N>(es: seq<Event<N>>, e: Event<N>, q: string)
    requires e.PoolLoaded? && CanHappen(Reached(es), e) && q in Reached(es).c.pools
    ensures !(Reached(es).s.pools[q].active && Reached(es).c.pools[q].backup == e.p)
    ensures MayBorrow(e.cfg) ==> e.cfg.backup != e.p
  {
    hide Inv, Reached, Settled, Owned, InSync;
    ReachedInv(es);
    InvPool(Reached(es), q);
    var c := Extend(Reached(es).c, e.p, e.cfg, e.at, e.nodeCfgs);
    assert PoolConfigured(c, e.p);
  }

  /** Loading a pool from which nobody borrows: it looks for its backup among the pools loaded before
      it, and sends. */
  ghost function LoadedAlone<N>(w: World<N>, e: Event<N>): (r: World<N>)
    requires Shaped(w.c, w.s) && e.PoolLoaded? && e.p !in w.c.pools && e.at <= |w.c.order|
    requires e.nodes.Keys == e.nodeCfgs.Keys && |e.cfg.ids| <= MAX_NODES
    ensures r.c == Extend(w.c, e.p, e.cfg, e.at, e.nodeCfgs) && Shaped(r.c, r.s)
  {
    var c := Extend(w.c, e.p, e.cfg, e.at, e.nodeCfgs);
    var s := WithPool(WithTurns(w.s, e.turns), e.p, e.nodes);
    var b := if e.cfg.backup in w.c.pools then Some(w.s.pools[e.cfg.backup].up) else None;
    World(c, Send(c, Adopt(s, e.p, Choose(e.cfg, s.nodes, None, b)), e.p))
  }

  /** What a pool that is loaded chooses. */
  ghost function FirstChoice<N>(w: World<N>, e: Event<N>): Choice<N>
    requires Shaped(w.c, w.s) && e.PoolLoaded?
  {
    Choose(e.cfg, w.s.nodes + e.nodes, None,
           if e.cfg.backup in w.c.pools then Some(w.s.pools[e.cfg.backup].up) else None)
  }

  lemma LoadedEffect<N>(w: World<N>, e: Event<N>)
    requires Shaped(w.c, w.s) && e.PoolLoaded? && e.p !in w.c.pools && e.at <= |w.c.order|
    requires e.nodes.Keys == e.nodeCfgs.Keys && |e.cfg.ids| <= MAX_NODES
    ensures var s, ch := LoadedAlone(w, e).s, FirstChoice(w, e);
      && s.pools[e.p].up == ch.served && s.pools[e.p].active == ch.active
      && s.pools[e.p].synced == Accepts(WorkerTurn(w.s.net.(turns := e.turns)))
      && (s.pools[e.p].synced ==> Known(s.net, e.cfg.pfName))
      && s.nodes == SetFlags(w.s.nodes + e.nodes, ch.kept, ch.forced)
      && forall q | q in w.c.pools :: s.pools[q] == w.s.pools[q]
  {
    hide Choose, Snapshot, WorkerTurn, SetFlags;
  }

  /** The walk of update_pfctl over the map as it is while pool `p` is still missing from it. */
  ghost function WalkWithout<N>(c: Config<N>, s: State<N>, p: string, order: seq<string>): (r: State<N>)
    requires Configured(c) && Shaped(c, s) && p in c.pools && forall q | q in order :: q in c.pools
    ensures Shaped(c, r)
    decreases |order|
  {
    if order == [] then s
    else WalkWithout(c, if Borrows(c, s, order[0], p) then PoolLogic(c, s, order[0], None) else s, p, order[1..])
  }

  /** The constructor's order: the new pool looks for its backup in the map without itself, sends,
      walks that map, and only then is entered. */
  ghost function LoadedLate<N>(w: World<N>, e: Event<N>): World<N>
    requires Configured(w.c) && Shaped(w.c, w.s) && e.PoolLoaded? && CanHappen(w, e)
  {
    assert PoolConfigured(Extend(w.c, e.p, e.cfg, e.at, e.nodeCfgs), e.p);
    var r := LoadedAlone(w, e);
    r.(s := WalkWithout(r.c, r.s, e.p, w.c.order))
  }

  lemma {:induction false} WalkNobody<N>(c: Config<N>, s: State<N>, p: string, order: seq<string>)
    requires Configured(c) && Shaped(c, s) && p in c.pools && forall q | q in order :: q in c.pools
    requires forall q | q in c.pools :: !Borrows(c, s, q, p)
    ensures WalkWithout(c, s, p, order) == s
    decreases |order|
  {
    hide Configured, PoolLogic;
    if order != [] {
      WalkNobody(c, s, p, order[1..]);
    }
  }

  lemma {:induction false} DependentsNobody<N>(c: Config<N>, s: State<N>, p: string, i: nat)
    requires Configured(c) && Shaped(c, s) && p in c.pools && i <= |c.order|
    requires forall q | q in c.pools :: !Borrows(c, s, q, p)
    ensures Dependents(c, s, p, i) == s
    decreases |c.order| - i
  {
    hide PoolLogic;
    if i < |c.order| {
      DependentsNobody(c, s, p, i + 1);
    }
  }

  lemma SendKeepsActive<N>(c: Config<N>, s: State<N>, p: string, ch: Choice<N>, q: string)
    requires Shaped(c, s) && p in c.pools && |c.pools[p].ids| <= MAX_NODES && q in c.pools && q != p
    ensures Send(c, Adopt(s, p, ch), p).pools[q].active == s.pools[q].active
  {
    hide Snapshot, WorkerTurn;
  }

  /** In every run: entering a pool into the map before its first pool_logic, as the event does, and
      after it, as the constructor and its caller do, come to the same, and touch no other pool. */
  lemma LoadedEitherWay<N>(es: seq<Event<N>>, e: Event<N>)
    requires e.PoolLoaded? && CanHappen(Reached(es), e)
    ensures Configured(Reached(es).c) && |e.cfg.ids| <= MAX_NODES
    ensures Next(Reached(es), e) == LoadedLate(Reached(es), e) == LoadedAlone(Reached(es), e)
  {
    hide Inv, Reached, PoolLogic, Dependents, WalkWithout, Choose, Configured, Send, Adopt;
    ReachedInv(es);
    var w := Reached(es);
    InvParts(w);
    var c := Extend(w.c, e.p, e.cfg, e.at, e.nodeCfgs);
    var s := WithPool(WithTurns(w.s, e.turns), e.p, e.nodes);
    NewPool(w, e);
    var ch := ChoiceFor(c, s, e.p, None);
    var s1 := Send(c, Adopt(s, e.p, ch), e.p);
    forall q | q in c.pools
      ensures !Borrows(c, s1, q, e.p)
    {
      if q != e.p {
        NobodyBorrowsYet(es, e, q);
        SendKeepsActive(c, s, e.p, ch, q);
      }
    }
    WalkNobody(c, s1, e.p, w.c.order);
    DependentsNobody(c, s1, e.p, 0);
    LoadedStep(w, e);
  }

  lemma NewPool<N>(w: World<N>, e: Event<N>)
    requires Configured(w.c) && Shaped(w.c, w.s) && e.PoolLoaded? && CanHappen(w, e)
    ensures var c := Extend(w.c, e.p, e.cfg, e.at, e.nodeCfgs);
      && Shaped(c, WithPool(WithTurns(w.s, e.turns), e.p, e.nodes)) && PoolConfigured(c, e.p)
      && (forall q | q in w.c.order :: q in c.pools)
      && ChoiceFor(c, WithPool(WithTurns(w.s, e.turns), e.p, e.nodes), e.p, None) == FirstChoice(w, e)
  {
    hide Choose;
    var c, s := Extend(w.c, e.p, e.cfg, e.at, e.nodeCfgs), WithPool(WithTurns(w.s, e.turns), e.p, e.nodes);
    assert PoolConfigured(c, e.p);
    if !MayBorrow(e.cfg) {
      NeverBorrows(e.cfg, s.nodes, None, BackupUp(c, s, e.p),
                   if e.cfg.backup in w.c.pools then Some(w.s.pools[e.cfg.backup].up) else None);
    }
  }

  lemma NeverBorrows<N>(cfg: PoolCfg<N>, m: map<N, NodeV>, last: Option<N>, b: Option<set<N>>, b': Option<set<N>>)
    requires !MayBorrow(cfg)
    ensures Choose(cfg, m, last, b) == Choose(cfg, m, last, b')
  {
    hide WithinMax, ForceUpChoice;
  }

  lemma LoadedStep<N>(w: World<N>, e: Event<N>)
    requires Configured(w.c) && Shaped(w.c, w.s) && e.PoolLoaded? && CanHappen(w, e)
    ensures var c := Extend(w.c, e.p, e.cfg, e.at, e.nodeCfgs);
      var s := WithPool(WithTurns(w.s, e.turns), e.p, e.nodes);
      && Shaped(c, s) && PoolConfigured(c, e.p)
      && Next(w, e) == World(c, Dependents(c, Send(c, Recompute(c, s, e.p, None), e.p), e.p, 0))
  {
    hide Recompute, Send, Dependents, PoolLogic, Configured;
    NewPool(w, e);
    PoolLogicFresh(Extend(w.c, e.p, e.cfg, e.at, e.nodeCfgs), WithPool(WithTurns(w.s, e.turns), e.p, e.nodes), e.p);
  }

  lemma PoolLogicFresh<N>(c: Config<N>, s: State<N>, p: string)
    requires Configured(c) && Shaped(c, s) && p in c.pools
    ensures PoolConfigured(c, p)
    ensures PoolLogic(c, s, p, None) == Dependents(c, Send(c, Recompute(c, s, p, None), p), p, 0)
  {
    hide Recompute, Send, Dependents;
    assert PoolConfigured(c, p);
    var s1 := Recompute(c, s, p, None);
    assert PoolLogic(c, s, p, None) == UpdatePfctl(c, s1, p);
    assert UpdatePfctl(c, s1, p) == Dependents(c, Send(c, s1, p), p, 0);
  }

  // ----- safety -------------------------------------------------------------------------------

  lemma ServedEnabledIn<N>(w: World<N>, p: string)
    requires Inv(w) && p in w.c.pools
    ensures forall n | n in w.s.pools[p].up :: n in w.s.nodes && w.s.nodes[n].admin.Enabled?
  {
    hide Inv, Settled, Owned, InSync;
    LenderFacts(w, p);
    var l := Lender(w, p);
    InvPool(w, l);
    InvParts(w);
    ServedIds(w, l);
    OwnUpEnabled(w.c, w.s, l);
  }

  /** In every run, every served node of every pool, borrowed ones included, is enabled, and no
      message that was ever queued, nor one sent now, asks for a node that the worker's own check of
      the admin state would drop. */
  lemma ServedAreEnabled<N>(es: seq<Event<N>>, p: string)
    requires p in Reached(es).c.pools
    ensures var w := Reached(es);
      && (forall n | n in w.s.pools[p].up :: n in w.s.nodes && w.s.nodes[n].admin.Enabled?)
      && |w.c.pools[p].ids| <= MAX_NODES
      && (forall slot | slot in Snapshot(w.c, w.s, w.c.pools[p].ids, w.s.pools[p].up) ::
            slot.wanted.NodeUp? ==> slot.admin.Enabled?)
    ensures var net := Reached(es).s.net;
      forall m, slot | (m in net.queue || m in net.taken) && slot in m.slots ::
        slot.wanted.NodeUp? ==> slot.admin.Enabled?
  {
    hide Inv, Reached, Settled, Owned, InSync;
    ReachedInv(es);
    var w := Reached(es);
    InvPool(w, p);
    InvParts(w);
    ServedEnabledIn(w, p);
  }

  /** A node under an administrative downtime is served by no pool. */
  lemma DowntimedNotServed<N>(es: seq<Event<N>>, p: string, n: N)
    requires p in Reached(es).c.pools && n in Reached(es).s.nodes
    requires !Reached(es).s.nodes[n].admin.Enabled?
    ensures n !in Reached(es).s.pools[p].up
  {
    ServedAreEnabled(es, p);
  }

  // ----- exact size -----------------------------------------------------------------------------

  /** In every run the number of served nodes of a pool whose backup is not active follows from
      the up and enabled counts and the limits, and stays within a positive max_nodes. */
  lemma ServedCount<N>(es: seq<Event<N>>, p: string)
    requires p in Reached(es).c.pools
    ensures var w := Reached(es);
      var cfg := w.c.pools[p];
      var up := set n | n in cfg.ids && n in w.s.nodes && w.s.nodes[n].admin.Enabled? && w.s.nodes[n].state.NodeUp?;
      var enabled := set n | n in cfg.ids && n in w.s.nodes && w.s.nodes[n].admin.Enabled?;
      var f := if cfg.maxNodes == 0 || |up| <= cfg.maxNodes then |up| else cfg.maxNodes;
      !w.s.pools[p].active ==>
        && |w.s.pools[p].up| == (
             if cfg.minNodes == 0 || f >= cfg.minNodes then f
             else match cfg.policy
               case ForceDown => 0
               case ForceUp => if |enabled| <= cfg.minNodes then |enabled| else cfg.minNodes
               case BackupPool => f)
        && (cfg.maxNodes > 0 ==> |w.s.pools[p].up| <= cfg.maxNodes)
        && w.s.pools[p].serving == (w.s.pools[p].up != {})
  {
    hide Inv, Reached, Owned, InSync, KeptOf, ForcedOf;
    ReachedInv(es);
    var w := Reached(es);
    InvPool(w, p);
    var cfg, m := w.c.pools[p], w.s.nodes;
    assert UpOf(cfg.ids, m) == set n | n in cfg.ids && n in m && m[n].admin.Enabled? && m[n].state.NodeUp?;
    assert EnabledOf(cfg.ids, m) == set n | n in cfg.ids && n in m && m[n].admin.Enabled?;
  }

  /** In every run kept nodes are up, within max_nodes, and as many as max_nodes allows. */
  lemma KeptFlags<N>(es: seq<Event<N>>, p: string)
    requires p in Reached(es).c.pools
    ensures var w := Reached(es);
      var cfg := w.c.pools[p];
      && KeptOf(cfg.ids, w.s.nodes) <= UpOf(cfg.ids, w.s.nodes)
      && |KeptOf(cfg.ids, w.s.nodes)| == Capped(|UpOf(cfg.ids, w.s.nodes)|, cfg.maxNodes)
  {
    hide Inv, Reached, Owned, InSync;
    ReachedInv(es);
    InvPool(Reached(es), p);
  }

  // ----- tables -----------------------------------------------------------------------------------

  ghost predicate Known(net: Net, t: string) {
    t in net.stale ==> exists m | m in net.queue :: m.table == t
  }

  lemma {:induction false} FinalKnown(queue: seq<Msg>, current: Option<set<string>>, t: string)
    requires current.Some? || exists m | m in queue :: m.table == t
    ensures Final(queue, current, t).Some?
    decreases |queue|
  {
    if queue != [] {
      assert forall m | m in queue :: m == queue[0] || m in queue[1..];
      FinalKnown(queue[1..], if queue[0].table == t then Some(Wants(queue[0].slots)) else current, t);
    }
  }

  /** In every run the queue respects its bound, and once the worker has processed what is
      queued, the table of a pool that counts as in sync holds the addresses of the pool's own
      served nodes, of both families.  That is the served set exactly when no backup is active (or
      nothing addressable is borrowed): with an active backup the table ends up empty. */
  lemma TablesArrive<N>(es: seq<Event<N>>, p: string, os: seq<Outcome>)
    requires p in Reached(es).c.pools
    requires |os| >= |Reached(es).s.net.queue| && forall o | o in os :: o.Synced?
    ensures |Reached(es).s.net.queue| <= QUEUE_LEN
    ensures var w := Reached(es);
      var t := w.c.pools[p].pfName;
      var after := TableOf(DeliverAll(w.s.net, os), t);
      w.s.pools[p].synced && Known(w.s.net, t) ==>
        && (!w.s.pools[p].active ==>
              && after == AddressesOf(w.c, w.s.pools[p].up)
              && (forall a :: a in after <==>
                    a != "" && exists n | n in w.s.pools[p].up && n in w.c.nodes ::
                      a == w.c.nodes[n].ip4 || a == w.c.nodes[n].ip6))
        && (w.s.pools[p].active ==> after == {})
        && ((after == AddressesOf(w.c, w.s.pools[p].up))
            <==> (!w.s.pools[p].active || AddressesOf(w.c, w.s.pools[p].up) == {}))
  {
    hide Inv, Reached, Owned, Settled;
    ReachedInv(es);
    var w := Reached(es);
    InvPool(w, p);
    InvParts(w);
    var t := w.c.pools[p].pfName;
    if w.s.pools[p].synced && Known(w.s.net, t) {
      FinalKnown(w.s.net.queue, if t in w.s.net.stale then None else Some(TableOf(w.s.net, t)), t);
      DrainArrives(w.s.net, os, t);
      OwnUpEnabled(w.c, w.s, p);
      AddressesMeaning(w.c, w.s.pools[p].up);
      if !w.s.pools[p].active {
        ServedIds(w, p);
      } else {
        assert AddressesOf(w.c, {}) == {};
      }
    }
  }

  /** The worker reports nothing back: whatever becomes of a message, the pool goes on counting
      as in sync, and a failure of the last message for its table is lost. */
  lemma FailureGoesUnnoticed<N>(es: seq<Event<N>>, p: string, o: Outcome)
    requires p in Reached(es).c.pools && Reached(es).s.net.queue != []
    ensures var w, w' := Reached(es), Reached(es + [WorkerReceives(o)]);
      var t := w.s.net.queue[0].table;
      && w'.s.pools == w.s.pools && w'.c == w.c
      && Known(w'.s.net, t) == (o.Synced? || exists m | m in w.s.net.queue[1..] :: m.table == t)
      && (o.Broken? ==> TableOf(w'.s.net, t) == o.left)
  {
    hide Inv, Configured;
    ReachedInv(es);
    var w := Reached(es);
    InvParts(w);
    var es' := es + [WorkerReceives(o)];
    assert es'[..|es'| - 1] == es;
    assert Reached(es') == Next(w, WorkerReceives(o));
  }
}
