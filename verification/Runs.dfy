/** The whole system as a state machine: every event of the main process and of the worker,
    runs from an empty system, and the invariant that holds after every step of every run. */
module Runs {
  import opened Domain
  import opened Selection
  import opened NodeRules
  import opened Wire
  import opened Fleet
  import opened Invariants

  datatype World<N> = World(c: Config<N>, s: State<N>)

  /** `turns` schedules the worker between the messages that one event sends.  Pf and its tables outlive
      the process: `TablesFound` tells what they hold when it starts.  The nodes of a loaded pool come
      with any state, be it what those tables say or not. */
  datatype Event<N> =
    | TablesFound(tables: map<string, set<string>>)
    | CheckEnds(n: N, k: nat, result: CheckResult, turns: seq<seq<Outcome>>)
    | DowntimeRead(n: N, setting: string, turns: seq<seq<Outcome>>)
    | SyncTimer(p: string, turns: seq<seq<Outcome>>)
    | WorkerReceives(outcome: Outcome)
    | PoolLoaded(p: string, cfg: PoolCfg<N>, at: nat, nodeCfgs: map<N, NodeCfg>, nodes: map<N, NodeV>,
                 turns: seq<seq<Outcome>>)

  // ----- steps ----------------------------------------------------------------------------

  function WithTurns<N>(s: State<N>, turns: seq<seq<Outcome>>): State<N> {
    s.(net := s.net.(turns := turns))
  }

  function WithNode<N(==)>(s: State<N>, n: N, v: NodeV): (r: State<N>)
    ensures r.pools == s.pools && (n in s.nodes ==> r.nodes.Keys == s.nodes.Keys)
  {
    s.(nodes := s.nodes[n := v])
  }

  function Extend<N(==)>(c: Config<N>, p: string, cfg: PoolCfg<N>, at: nat, nodeCfgs: map<N, NodeCfg>): Config<N>
    requires at <= |c.order|
  {
    Config(c.pools[p := cfg], c.order[..at] + [p] + c.order[at..], c.nodes + nodeCfgs)
  }

  function WithPool<N(==)>(s: State<N>, p: string, nodes: map<N, NodeV>): State<N> {
    s.(pools := s.pools[p := PoolV({}, false, false, false)], nodes := s.nodes + nodes)
  }

  ghost predicate CanHappen<N>(w: World<N>, e: Event<N>)
    requires Shaped(w.c, w.s)
  {
    match e
    case CheckEnds(n, k, _, _) => n in w.s.nodes && k < |w.s.nodes[n].checks|
    case DowntimeRead(n, setting, _) => n in w.s.nodes && AdminFromConfig(setting) != w.s.nodes[n].admin
    case SyncTimer(p, _) => p in w.c.pools && !w.c.pools[p].hasHcs && !w.s.pools[p].synced
    case WorkerReceives(_) => w.s.net.queue != []
    case TablesFound(_) => w.c.pools == map[] && w.s.net.queue == []
    case PoolLoaded(p, cfg, at, nodeCfgs, nodes, _) =>
      && p !in w.c.pools && at <= |w.c.order|
      && nodeCfgs.Keys !! w.c.nodes.Keys && nodes.Keys == nodeCfgs.Keys
      && (forall n | n in nodes :: FreshNode(nodes[n]))
      && Configured(Extend(w.c, p, cfg, at, nodeCfgs))
  }

  ghost function Happen<N>(w: World<N>, e: Event<N>): World<N>
    requires Configured(w.c) && Shaped(w.c, w.s) && CanHappen(w, e)
  {
    match e
    case CheckEnds(n, k, result, turns) =>
      var s := WithNode(WithTurns(w.s, turns), n, EndCheck(w.s.nodes[n], k, result));
      w.(s := PoolLogic(w.c, s, w.c.nodes[n].parent, Some(n)))
    case DowntimeRead(n, setting, turns) =>
      var s := WithNode(WithTurns(w.s, turns), n, ChangeDowntime(w.s.nodes[n], AdminFromConfig(setting)));
      w.(s := PoolLogic(w.c, s, w.c.nodes[n].parent, Some(n)))
    case SyncTimer(p, turns) =>
      w.(s := UpdatePfctl(w.c, WithTurns(w.s, turns), p))
    case WorkerReceives(outcome) =>
      w.(s := w.s.(net := Deliver(w.s.net, outcome)))
    case TablesFound(tables) =>
      w.(s := w.s.(net := w.s.net.(tables := tables)))
    case PoolLoaded(p, cfg, at, nodeCfgs, nodes, turns) =>
      var c := Extend(w.c, p, cfg, at, nodeCfgs);
      World(c, PoolLogic(c, WithPool(WithTurns(w.s, turns), p, nodes), p, None))
  }

  /** An event that cannot happen leaves the system as it is. */
  ghost function Next<N>(w: World<N>, e: Event<N>): World<N> {
    if Configured(w.c) && Shaped(w.c, w.s) && CanHappen(w, e) then Happen(w, e) else w
  }

  /** Node events, written with the state they start the pool in. */
  lemma CheckStep<N>(c: Config<N>, s: State<N>, n: N, k: nat, result: CheckResult)
    requires Configured(c) && Shaped(c, s) && n in s.nodes && k < |s.nodes[n].checks|
    ensures Next(World(c, s), CheckEnds(n, k, result, s.net.turns)).s
         == PoolLogic(c, WithNode(s, n, EndCheck(s.nodes[n], k, result)), c.nodes[n].parent, Some(n))
  {
    hide PoolLogic, EndCheck, Configured;
  }

  lemma DowntimeStep<N>(c: Config<N>, s: State<N>, n: N, setting: string)
    requires Configured(c) && Shaped(c, s) && n in s.nodes
    ensures Next(World(c, s), DowntimeRead(n, setting, s.net.turns)).s
         == if AdminFromConfig(setting) == s.nodes[n].admin then s
            else PoolLogic(c, WithNode(s, n, ChangeDowntime(s.nodes[n], AdminFromConfig(setting))),
                           c.nodes[n].parent, Some(n))
  {
    hide PoolLogic, ChangeDowntime, AdminFromConfig, Configured;
  }

  /** Nothing is loaded yet, and pf has these tables. */
  function Started<N>(tables: map<string, set<string>>): World<N> {
    World(Config(map[], [], map[]), State(map[], map[], Net([], tables, {}, {}, [])))
  }

  function Empty<N>(): World<N> {
    Started(map[])
  }

  ghost function Run<N>(w: World<N>, es: seq<Event<N>>): World<N>
    decreases |es|
  {
    if es == [] then w else Next(Run(w, es[..|es| - 1]), es[|es| - 1])
  }

  // ----- the invariant --------------------------------------------------------------------

  ghost predicate Inv<N>(w: World<N>) {
    && Configured(w.c) && Shaped(w.c, w.s)
    && Good(w.c, w.s, {}) && LinksBut(w.c, w.s, {})
  }

  lemma WithTurnsGood<N>(c: Config<N>, s: State<N>, turns: seq<seq<Outcome>>)
    requires Shaped(c, s) && Good(c, s, {}) && LinksBut(c, s, {})
    ensures Good(c, WithTurns(s, turns), {}) && LinksBut(c, WithTurns(s, turns), {})
  {
    var r := WithTurns(s, turns);
    forall p | p in c.pools
      ensures InSync(c, r.net, p, r.pools[p])
    {
      assert InSync(c, s.net, p, s.pools[p]);
      assert Heading(r.net, c.pools[p].pfName) == Heading(s.net, c.pools[p].pfName);
    }
    MarkFrame(c, s, r, {});
  }

  /** A changed node leaves its pool tidy, and settled unless the change is announced. */
  lemma NodeChangeOwn<N>(cfg: PoolCfg<N>, m: map<N, NodeV>, n: N, v: NodeV, pool: PoolV<N>)
    requires n in m && Announced(m[n], v) && NodesOk(m)
    requires forall x | x in cfg.ids :: x in m
    requires Settled(cfg, m, pool)
    ensures Tidy(cfg, m[n := v], pool)
    ensures !v.stateChanged || n !in cfg.ids ==> Settled(cfg, m[n := v], pool)
  {
    var m' := m[n := v];
    if !v.stateChanged || n !in cfg.ids {
      SettledFrame(cfg, m, m', pool);
    }
    assert KeptOf(cfg.ids, m') <= KeptOf(cfg.ids, m);
    SubsetSize(KeptOf(cfg.ids, m'), KeptOf(cfg.ids, m));
    assert KeptOf(cfg.ids, m') <= UpOf(cfg.ids, m');
  }

  lemma NodeChangeSettled<N>(c: Config<N>, s: State<N>, n: N, v: NodeV)
    requires Configured(c) && Shaped(c, s) && NodesOk(s.nodes) && AllSettled(c, s, {})
    requires n in s.nodes && Announced(s.nodes[n], v)
    ensures AllSettled(c, WithNode(s, n, v), if v.stateChanged then {c.nodes[n].parent} else {})
  {
    hide Settled, Tidy, NodesOk;
    var r := WithNode(s, n, v);
    forall p | p in c.pools
      ensures Tidy(c.pools[p], r.nodes, r.pools[p])
      ensures !v.stateChanged || p != c.nodes[n].parent ==> Settled(c.pools[p], r.nodes, r.pools[p])
    {
      assert PoolConfigured(c, p);
      NodeChangeOwn(c.pools[p], s.nodes, n, v, s.pools[p]);
    }
  }

  lemma NodeChangeGood<N>(c: Config<N>, s: State<N>, n: N, v: NodeV)
    requires Configured(c) && Shaped(c, s) && Good(c, s, {}) && LinksBut(c, s, {})
    requires n in s.nodes && Announced(s.nodes[n], v)
    ensures Good(c, WithNode(s, n, v), if v.stateChanged then {c.nodes[n].parent} else {})
    ensures LinksBut(c, WithNode(s, n, v), {})
  {
    hide InSync, Owned, AllSettled, NodeOk, Configured;
    NodeChangeSettled(c, s, n, v);
    var r := WithNode(s, n, v);
    forall p | p in c.pools
      ensures Link(c, r, p)
    {
      assert Link(c, s, p);
    }
  }

  lemma NodeEventInv<N>(w: World<N>, n: N, v: NodeV, turns: seq<seq<Outcome>>)
    requires Inv(w) && n in w.s.nodes && Announced(w.s.nodes[n], v)
    ensures Inv(w.(s := PoolLogic(w.c, WithNode(WithTurns(w.s, turns), n, v), w.c.nodes[n].parent, Some(n))))
  {
    hide Good, LinksBut, PoolLogic;
    var s := WithTurns(w.s, turns);
    WithTurnsGood(w.c, w.s, turns);
    NodeChangeGood(w.c, s, n, v);
    assert PoolConfigured(w.c, w.c.nodes[n].parent);
    PoolLogicGood(w.c, WithNode(s, n, v), w.c.nodes[n].parent, Some(n),
                  if v.stateChanged then {w.c.nodes[n].parent} else {}, {});
    assert {} - {w.c.nodes[n].parent} == {};
  }

  lemma SyncTimerInv<N>(w: World<N>, p: string, turns: seq<seq<Outcome>>)
    requires Inv(w) && p in w.c.pools
    ensures Inv(w.(s := UpdatePfctl(w.c, WithTurns(w.s, turns), p)))
  {
    hide Good, UpdatePfctl;
    WithTurnsGood(w.c, w.s, turns);
    UpdatePfctlGood(w.c, WithTurns(w.s, turns), p, {});
  }

  lemma WorkerInv<N>(w: World<N>, o: Outcome)
    requires Inv(w) && w.s.net.queue != []
    ensures Inv(w.(s := w.s.(net := Deliver(w.s.net, o))))
  {
    var r := w.s.(net := Deliver(w.s.net, o));
    forall p | p in w.c.pools
      ensures InSync(w.c, r.net, p, r.pools[p])
    {
      assert InSync(w.c, w.s.net, p, w.s.pools[p]);
      DeliverHeading(w.s.net, o, w.c.pools[p].pfName);
    }
    MarkFrame(w.c, w.s, r, {});
  }

  lemma FoundInv<N>(w: World<N>, tables: map<string, set<string>>)
    requires Inv(w) && w.c.pools == map[]
    ensures Inv(w.(s := w.s.(net := w.s.net.(tables := tables))))
  {
  }

  // ----- a new pool among the others ------------------------------------------------------

  /** What a new pool must bring along to fit into a configuration. */
  ghost predicate Fits<N>(c: Config<N>, p: string, cfg: PoolCfg<N>, nodeCfgs: map<N, NodeCfg>) {
    && p !in c.pools && nodeCfgs.Keys !! c.nodes.Keys
    && Normalised(cfg) && |cfg.ids| < MAX_NODES && (MayBorrow(cfg) ==> cfg.backup != p)
    && (forall n | n in cfg.ids :: n in nodeCfgs)
    && (forall n | n in nodeCfgs :: n in cfg.ids && nodeCfgs[n].parent == p)
    && (MayBorrow(cfg) && cfg.backup in c.pools ==> c.pools[cfg.backup].rank < cfg.rank)
    && (forall q | q in c.pools ::
          && c.pools[q].pfName != cfg.pfName
          && (MayBorrow(c.pools[q]) && c.pools[q].backup == p ==> cfg.rank < c.pools[q].rank))
  }

  lemma FitsIn<N>(c: Config<N>, p: string, cfg: PoolCfg<N>, at: nat, nodeCfgs: map<N, NodeCfg>)
    requires Configured(c) && at <= |c.order| && Fits(c, p, cfg, nodeCfgs)
    ensures Configured(Extend(c, p, cfg, at, nodeCfgs))
  {
    var c' := Extend(c, p, cfg, at, nodeCfgs);
    forall q | q in c'.pools
      ensures PoolConfigured(c', q)
    {
      FitsOne(c, p, cfg, at, nodeCfgs, q);
    }
    assert forall q | q in c.order :: q in c.order[..at] || q in c.order[at..];
    hide PoolConfigured;
  }

  lemma FitsOne<N>(c: Config<N>, p: string, cfg: PoolCfg<N>, at: nat, nodeCfgs: map<N, NodeCfg>, q: string)
    requires Configured(c) && at <= |c.order| && Fits(c, p, cfg, nodeCfgs) && q in Extend(c, p, cfg, at, nodeCfgs).pools
    ensures PoolConfigured(Extend(c, p, cfg, at, nodeCfgs), q)
  {
    assert q != p ==> PoolConfigured(c, q);
  }

  lemma FitHappens<N>(w: World<N>, e: Event<N>)
    requires Configured(w.c) && Shaped(w.c, w.s) && e.PoolLoaded? && e.at <= |w.c.order|
    requires Fits(w.c, e.p, e.cfg, e.nodeCfgs)
    requires e.nodes.Keys == e.nodeCfgs.Keys && forall n | n in e.nodes :: FreshNode(e.nodes[n])
    ensures CanHappen(w, e)
  {
    hide Configured;
    FitsIn(w.c, e.p, e.cfg, e.at, e.nodeCfgs);
  }

  // ----- loading a pool -------------------------------------------------------------------

  lemma ExtendOld<N>(c: Config<N>, p: string, cfg: PoolCfg<N>, at: nat, nodeCfgs: map<N, NodeCfg>, q: string,
                     v: PoolV<N>)
    requires Configured(c) && p !in c.pools && at <= |c.order| && nodeCfgs.Keys !! c.nodes.Keys
    requires q in c.pools && Owned(c, q, v)
    ensures Owned(Extend(c, p, cfg, at, nodeCfgs), q, v)
    ensures AddressesOf(Extend(c, p, cfg, at, nodeCfgs), OwnUp(c.pools[q].ids, v.up))
        == AddressesOf(c, OwnUp(c.pools[q].ids, v.up))
  {
    var c' := Extend(c, p, cfg, at, nodeCfgs);
    forall n | n in v.up
      ensures OwnedBy(c', q, v.active, n)
      ensures n in c.nodes && c'.nodes[n] == c.nodes[n]
    {
      assert OwnedBy(c, q, v.active, n);
    }
  }

  lemma FreshTidy<N>(cfg: PoolCfg<N>, m: map<N, NodeV>)
    requires forall n | n in cfg.ids :: n in m && FreshNode(m[n])
    ensures Tidy(cfg, m, PoolV({}, false, false, false))
  {
    assert KeptOf(cfg.ids, m) == {};
  }

  lemma LoadedIds<N>(c: Config<N>, p: string, cfg: PoolCfg<N>, at: nat, nodeCfgs: map<N, NodeCfg>)
    requires Configured(c) && p !in c.pools && at <= |c.order| && nodeCfgs.Keys !! c.nodes.Keys
    requires Configured(Extend(c, p, cfg, at, nodeCfgs))
    ensures forall n | n in cfg.ids :: n in nodeCfgs
  {
    assert PoolConfigured(Extend(c, p, cfg, at, nodeCfgs), p);
  }

  lemma LoadedOld<N>(c: Config<N>, s: State<N>, q: string, nodes: map<N, NodeV>)
    requires Configured(c) && Shaped(c, s) && q in c.pools && nodes.Keys !! s.nodes.Keys
    requires Settled(c.pools[q], s.nodes, s.pools[q])
    ensures Settled(c.pools[q], s.nodes + nodes, s.pools[q]) && Tidy(c.pools[q], s.nodes + nodes, s.pools[q])
  {
    hide Settled, Tidy;
    assert PoolConfigured(c, q);
    SettledFrame(c.pools[q], s.nodes, s.nodes + nodes, s.pools[q]);
  }

  lemma LoadedSettled<N>(c: Config<N>, s: State<N>, p: string, cfg: PoolCfg<N>, at: nat, nodeCfgs: map<N, NodeCfg>,
                         nodes: map<N, NodeV>)
    requires Configured(c) && Shaped(c, s) && AllSettled(c, s, {})
    requires p !in c.pools && at <= |c.order| && nodeCfgs.Keys !! c.nodes.Keys && nodes.Keys == nodeCfgs.Keys
    requires Configured(Extend(c, p, cfg, at, nodeCfgs))
    requires forall n | n in nodes :: FreshNode(nodes[n])
    ensures Shaped(Extend(c, p, cfg, at, nodeCfgs), WithPool(s, p, nodes))
    ensures AllSettled(Extend(c, p, cfg, at, nodeCfgs), WithPool(s, p, nodes), {p})
  {
    hide Settled, Tidy, Configured, FreshNode;
    var c', r := Extend(c, p, cfg, at, nodeCfgs), WithPool(s, p, nodes);
    forall q | q in c.pools
      ensures Settled(c.pools[q], r.nodes, r.pools[q]) && Tidy(c.pools[q], r.nodes, r.pools[q])
    {
      LoadedOld(c, s, q, nodes);
    }
    LoadedIds(c, p, cfg, at, nodeCfgs);
    FreshTidy(cfg, r.nodes);
  }

  lemma LoadedGood<N>(c: Config<N>, s: State<N>, p: string, cfg: PoolCfg<N>, at: nat, nodeCfgs: map<N, NodeCfg>,
                      nodes: map<N, NodeV>)
    requires Configured(c) && Shaped(c, s) && Good(c, s, {}) && LinksBut(c, s, {})
    requires p !in c.pools && at <= |c.order| && nodeCfgs.Keys !! c.nodes.Keys && nodes.Keys == nodeCfgs.Keys
    requires Configured(Extend(c, p, cfg, at, nodeCfgs))
    requires forall n | n in nodes :: FreshNode(nodes[n])
    ensures Shaped(Extend(c, p, cfg, at, nodeCfgs), WithPool(s, p, nodes))
    ensures Good(Extend(c, p, cfg, at, nodeCfgs), WithPool(s, p, nodes), {p})
    ensures LinksBut(Extend(c, p, cfg, at, nodeCfgs), WithPool(s, p, nodes), {})
  {
    hide AllSettled, Owned, Configured, OwnUp, AddressesOf;
    LoadedSettled(c, s, p, cfg, at, nodeCfgs, nodes);
    var c', r := Extend(c, p, cfg, at, nodeCfgs), WithPool(s, p, nodes);
    forall q | q in c'.pools
      ensures Owned(c', q, r.pools[q])
      ensures InSync(c', r.net, q, r.pools[q])
      ensures Link(c', r, q)
    {
      if q != p {
        assert Owned(c, q, s.pools[q]) && InSync(c, s.net, q, s.pools[q]) && Link(c, s, q);
        ExtendOld(c, p, cfg, at, nodeCfgs, q, s.pools[q]);
      } else {
        NothingOwned(c', p);
      }
    }
  }

  lemma NothingOwned<N>(c: Config<N>, p: string)
    requires p in c.pools
    ensures Owned(c, p, PoolV({}, false, false, false))
  {
  }

  lemma LoadInv<N>(w: World<N>, e: Event<N>)
    requires Inv(w) && e.PoolLoaded? && CanHappen(w, e)
    ensures Inv(Happen(w, e))
  {
    hide Good, LinksBut, PoolLogic;
    var PoolLoaded(p, cfg, at, nodeCfgs, nodes, turns) := e;
    var s := WithTurns(w.s, turns);
    WithTurnsGood(w.c, w.s, turns);
    LoadedGood(w.c, s, p, cfg, at, nodeCfgs, nodes);
    PoolLogicGood(Extend(w.c, p, cfg, at, nodeCfgs), WithPool(s, p, nodes), p, None, {p}, {});
    assert {} - {p} == {};
  }

  // ----- every step, every run --------------------------------------------------------------

  lemma NextInv<N>(w: World<N>, e: Event<N>)
    requires Inv(w)
    ensures Inv(Next(w, e))
  {
    hide Good, LinksBut, PoolLogic, UpdatePfctl, Inv, NodeOk, Announced;
    assert Configured(w.c) && Shaped(w.c, w.s) && NodesOk(w.s.nodes) by { InvParts(w); }
    if CanHappen(w, e) {
      match e
      case CheckEnds(n, k, result, turns) =>
        EndCheckAnnounced(w.s.nodes[n], k, result);
        NodeEventInv(w, n, EndCheck(w.s.nodes[n], k, result), turns);
      case DowntimeRead(n, setting, turns) =>
        ChangeDowntimeAnnounced(w.s.nodes[n], setting);
        NodeEventInv(w, n, ChangeDowntime(w.s.nodes[n], AdminFromConfig(setting)), turns);
      case SyncTimer(p, turns) =>
        SyncTimerInv(w, p, turns);
      case WorkerReceives(outcome) =>
        WorkerInv(w, outcome);
      case TablesFound(tables) =>
        FoundInv(w, tables);
      case PoolLoaded(_, _, _, _, _, _) =>
        LoadInv(w, e);
    }
  }

  lemma InvParts<N>(w: World<N>)
    requires Inv(w)
    ensures Configured(w.c) && Shaped(w.c, w.s) && NodesOk(w.s.nodes)
  {
  }

  /** The invariant holds after every run, from any state that satisfies it. */
  lemma {:induction false} RunInv<N>(w: World<N>, es: seq<Event<N>>)
    requires Inv(w)
    ensures Inv(Run(w, es))
    decreases |es|
  {
    hide Inv, Next;
    if es != [] {
      RunInv(w, es[..|es| - 1]);
      NextInv(Run(w, es[..|es| - 1]), es[|es| - 1]);
    }
  }

  lemma EmptyInv<N>()
    ensures Inv(Empty<N>())
  {
  }

  /** A run may begin with any tables. */
  lemma StartedIs<N>(tables: map<string, set<string>>)
    ensures Next(Empty<N>(), TablesFound(tables)) == Started(tables)
  {
    EmptyInv<N>();
  }
}
