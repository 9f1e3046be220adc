/** How the served sets move from one event to the next: stickiness, churn, priorities and the
    soundness of recomputing only on announced changes. */
module Stability {
  import opened Domain
  import opened Selection
  import opened NodeRules
  import opened Wire
  import opened Fleet
  import opened Invariants
  import opened Runs
  import opened Frames
  import opened Guarantees

  // ----- one event, seen from one pool --------------------------------------------------

  /** The event changes a node of pool `p`. */
  ghost predicate Concerns<N>(w: World<N>, e: Event<N>, p: string)
    requires Shaped(w.c, w.s)
  {
    (e.CheckEnds? || e.DowntimeRead?) && CanHappen(w, e) && w.c.nodes[e.n].parent == p
  }

  ghost function NodeAfter<N>(w: World<N>, e: Event<N>): NodeV
    requires Shaped(w.c, w.s) && CanHappen(w, e) && (e.CheckEnds? || e.DowntimeRead?)
  {
    if e.CheckEnds? then EndCheck(w.s.nodes[e.n], e.k, e.result)
    else ChangeDowntime(w.s.nodes[e.n], AdminFromConfig(e.setting))
  }

  /** The state in which the pool of the changed node starts to recompute. */
  ghost function Changed<N>(w: World<N>, e: Event<N>): State<N>
    requires Shaped(w.c, w.s) && CanHappen(w, e) && (e.CheckEnds? || e.DowntimeRead?)
  {
    WithNode(WithTurns(w.s, e.turns), e.n, NodeAfter(w, e))
  }

  lemma NextNode<N>(w: World<N>, e: Event<N>)
    requires Configured(w.c) && Shaped(w.c, w.s) && CanHappen(w, e) && (e.CheckEnds? || e.DowntimeRead?)
    ensures w.c.nodes[e.n].parent in w.c.pools && e.n in w.c.pools[w.c.nodes[e.n].parent].ids
    ensures Next(w, e) == w.(s := PoolLogic(w.c, Changed(w, e), w.c.nodes[e.n].parent, Some(e.n)))
  {
    hide PoolLogic, EndCheck, ChangeDowntime, AdminFromConfig;
  }

  /** Pool `p` serves the same nodes, in the same condition, in both worlds. */
  ghost predicate Unmoved<N>(w: World<N>, w': World<N>, p: string) {
    && p in w.c.pools && p in w'.c.pools && w'.c.pools[p] == w.c.pools[p]
    && p in w.s.pools && p in w'.s.pools
    && w'.s.pools[p].up == w.s.pools[p].up && w'.s.pools[p].active == w.s.pools[p].active
    && (forall n | n in w.c.pools[p].ids :: n in w.s.nodes && n in w'.s.nodes && w'.s.nodes[n] == w.s.nodes[n])
  }

  lemma UnconcernedLoad<N>(w: World<N>, e: Event<N>, p: string)
    requires Configured(w.c) && Shaped(w.c, w.s) && CanHappen(w, e) && e.PoolLoaded?
    requires p in w.c.pools && !w.s.pools[p].active
    ensures Unmoved(w, Next(w, e), p)
  {
    hide PoolLogic;
    assert PoolConfigured(w.c, p);
    var PoolLoaded(q, cfg, at, nodeCfgs, nodes, turns) := e;
    PoolLogicSame(Extend(w.c, q, cfg, at, nodeCfgs), WithPool(WithTurns(w.s, turns), q, nodes), q, None, p);
  }

  lemma UnconcernedTimer<N>(w: World<N>, q: string, turns: seq<seq<Outcome>>, p: string)
    requires Configured(w.c) && Shaped(w.c, w.s) && q in w.c.pools
    requires p in w.c.pools && !w.s.pools[p].active
    ensures Unmoved(w, w.(s := UpdatePfctl(w.c, WithTurns(w.s, turns), q)), p)
  {
    hide UpdatePfctl;
    assert PoolConfigured(w.c, p) && PoolConfigured(w.c, q);
    UpdatePfctlSame(w.c, WithTurns(w.s, turns), q, p);
  }

  lemma UnconcernedNode<N>(w: World<N>, e: Event<N>, p: string)
    requires Configured(w.c) && Shaped(w.c, w.s) && CanHappen(w, e) && (e.CheckEnds? || e.DowntimeRead?)
    requires p in w.c.pools && !w.s.pools[p].active && w.c.nodes[e.n].parent != p
    ensures Unmoved(w, Next(w, e), p)
  {
    hide PoolLogic, EndCheck, ChangeDowntime, AdminFromConfig, Next;
    assert PoolConfigured(w.c, p);
    NextNode(w, e);
    PoolLogicSame(w.c, Changed(w, e), w.c.nodes[e.n].parent, Some(e.n), p);
  }

  /** An event that does not concern a pool leaves it alone unless it borrows. */
  lemma Unconcerned<N>(w: World<N>, e: Event<N>, p: string)
    requires Inv(w) && p in w.c.pools && !w.s.pools[p].active && !Concerns(w, e, p)
    ensures Unmoved(w, Next(w, e), p)
  {
    hide Good, LinksBut, PoolLogic, UpdatePfctl;
    assert PoolConfigured(w.c, p);
    if CanHappen(w, e) {
      match e
      case CheckEnds(_, _, _, _) => UnconcernedNode(w, e, p);
      case DowntimeRead(_, _, _) => UnconcernedNode(w, e, p);
      case SyncTimer(q, turns) => UnconcernedTimer(w, q, turns, p);
      case WorkerReceives(_) =>
      case TablesFound(_) =>
      case PoolLoaded(_, _, _, _, _, _) => UnconcernedLoad(w, e, p);
    }
  }

  lemma NodeAfterAnnounced<N>(w: World<N>, e: Event<N>)
    requires Inv(w) && CanHappen(w, e) && (e.CheckEnds? || e.DowntimeRead?)
    ensures Announced(w.s.nodes[e.n], NodeAfter(w, e))
    ensures NodeAfter(w, e).stateChanged ==> !(IsUp(w.s.nodes[e.n]) && IsUp(NodeAfter(w, e)))
  {
    var v := w.s.nodes[e.n];
    assert NodeOk(v);
    if e.CheckEnds? {
      EndCheckAnnounced(v, e.k, e.result);
    } else {
      ChangeDowntimeAnnounced(v, e.setting);
    }
  }

  /** From `s`, pool `p` adopts one sound choice if node `n` is marked as changed, and keeps
      serving what it served otherwise. */
  ghost predicate OneChoice<N>(c: Config<N>, s: State<N>, r: State<N>, p: string, n: N)
    requires Shaped(c, s) && Shaped(c, r) && p in c.pools && n in s.nodes
  {
    && (!s.nodes[n].stateChanged ==> r.pools[p].up == s.pools[p].up && r.pools[p].active == s.pools[p].active)
    && (s.nodes[n].stateChanged ==>
          var ch := ChoiceFor(c, s, p, Some(n));
          && Sound(c.pools[p], s.nodes, ch, BackupUp(c, s, p))
          && r.pools[p].up == ch.served && r.pools[p].active == ch.active)
    && (forall x | x in c.pools[p].ids && x in s.nodes ::
          r.nodes[x].state == s.nodes[x].state && r.nodes[x].admin == s.nodes[x].admin)
  }

  lemma ConcernedChoice<N>(c: Config<N>, s: State<N>, p: string, n: N)
    requires Configured(c) && Shaped(c, s) && p in c.pools && n in c.pools[p].ids && n in s.nodes
    requires Tidy(c.pools[p], s.nodes, s.pools[p])
    ensures OneChoice(c, s, PoolLogic(c, s, p, Some(n)), p, n)
  {
    hide Choose, Sound, PoolLogic;
    assert PoolConfigured(c, p);
    ChooseSound(c.pools[p], s.nodes, Some(n), BackupUp(c, s, p));
    OwnEffect(c, s, p, n);
  }

  /** An event that concerns a pool amounts to one adopted choice, or to nothing. */
  lemma Concerned<N>(w: World<N>, e: Event<N>, p: string)
    requires Inv(w) && Concerns(w, e, p)
    ensures p in w.c.pools && e.n in w.c.pools[p].ids
    ensures Next(w, e).c == w.c && Shaped(w.c, Next(w, e).s)
    ensures Tidy(w.c.pools[p], Changed(w, e).nodes, Changed(w, e).pools[p])
    ensures OneChoice(w.c, Changed(w, e), Next(w, e).s, p, e.n)
  {
    hide Good, LinksBut, PoolLogic, EndCheck, ChangeDowntime, AdminFromConfig, Settled, Announced, Tidy, OneChoice,
         NodesOk, Next;
    NextNode(w, e);
    assert PoolConfigured(w.c, p);
    InvPool(w, p);
    NodeAfterAnnounced(w, e);
    InvParts(w);
    NodeChangeOwn(w.c.pools[p], w.s.nodes, e.n, NodeAfter(w, e), w.s.pools[p]);
    ConcernedChoice(w.c, Changed(w, e), p, e.n);
  }

  lemma ReachedNext<N>(es: seq<Event<N>>, e: Event<N>)
    ensures Reached(es + [e]) == Next(Reached(es), e)
  {
    hide Inv, Next;
    var es' := es + [e];
    assert es'[..|es'| - 1] == es;
  }

  /** The flags and up sets around the change of a single node. */
  lemma NodeSets<N>(ids: seq<N>, m: map<N, NodeV>, n: N, v: NodeV)
    requires n in m
    ensures KeptOf(ids, m) - {n} <= KeptOf(ids, m[n := v])
    ensures UpOf(ids, m[n := v]) <= UpOf(ids, m) + {n}
  {
  }

  // ----- one node over one event ------------------------------------------------------------

  ghost predicate ChangesNode<N>(w: World<N>, e: Event<N>, n: N) {
    (e.CheckEnds? || e.DowntimeRead?) && e.n == n
  }

  /** Up to its kept flags, which pools set but do not clear, a node changes only by its own checks and
      downtimes. */
  ghost predicate Follows(v: NodeV, v': NodeV) {
    v' == v.(maxKept := v'.maxKept, minKept := v'.minKept)
  }

  lemma NodeFollows<N>(w: World<N>, e: Event<N>, n: N)
    requires Inv(w) && n in w.s.nodes
    ensures n in Next(w, e).s.nodes
    ensures var v := if ChangesNode(w, e, n) && CanHappen(w, e) then NodeAfter(w, e) else w.s.nodes[n];
      var v' := Next(w, e).s.nodes[n];
      Follows(v, v') && (v.maxKept ==> v'.maxKept) && (v.minKept ==> v'.minKept)
  {
    hide Good, LinksBut, PoolLogic, UpdatePfctl, EndCheck, ChangeDowntime, AdminFromConfig, Configured;
    InvParts(w);
    if CanHappen(w, e) {
      match e
      case CheckEnds(_, _, _, _) =>
        NextNode(w, e);
        PoolLogicFlags(w.c, Changed(w, e), w.c.nodes[e.n].parent, Some(e.n));
      case DowntimeRead(_, _, _) =>
        NextNode(w, e);
        PoolLogicFlags(w.c, Changed(w, e), w.c.nodes[e.n].parent, Some(e.n));
      case SyncTimer(p, turns) =>
        UpdatePfctlFlags(w.c, WithTurns(w.s, turns), p);
      case WorkerReceives(_) =>
      case TablesFound(_) =>
      case PoolLoaded(p, cfg, at, nodeCfgs, nodes, turns) =>
        PoolLogicFlags(Extend(w.c, p, cfg, at, nodeCfgs), WithPool(WithTurns(w.s, turns), p, nodes), p, None);
    }
  }

  /** The nodes of a pool that is being loaded. */
  lemma LoadedNodes<N>(w: World<N>, e: Event<N>)
    requires Configured(w.c) && Shaped(w.c, w.s) && e.PoolLoaded? && CanHappen(w, e)
    ensures Next(w, e).c == Extend(w.c, e.p, e.cfg, e.at, e.nodeCfgs)
    ensures forall n | n in e.nodes :: n in Next(w, e).s.nodes && Follows(e.nodes[n], Next(w, e).s.nodes[n])
  {
    hide PoolLogic, Configured;
    PoolLogicFlags(Extend(w.c, e.p, e.cfg, e.at, e.nodeCfgs), WithPool(WithTurns(w.s, e.turns), e.p, e.nodes),
                   e.p, None);
  }

  // ----- stickiness --------------------------------------------------------------------------

  /** Among the nodes a pool serves itself, those that are up carry the kept flag. */
  lemma ServedUpKept<N>(cfg: PoolCfg<N>, m: map<N, NodeV>, v: PoolV<N>)
    requires Normalised(cfg) && Settled(cfg, m, v) && !v.active
    ensures v.up * UpOf(cfg.ids, m) <= KeptOf(cfg.ids, m)
  {
    if Short(cfg.minNodes, |KeptOf(cfg.ids, m)|) {
      SubsetSize(KeptOf(cfg.ids, m), UpOf(cfg.ids, m));
    }
  }

  /** The pool is short of up nodes, and is forced down or, if `lender`, has a pool to borrow from. */
  ghost predicate GivenUp<N>(cfg: PoolCfg<N>, m: map<N, NodeV>, lender: bool) {
    && Short(cfg.minNodes, Capped(|UpOf(cfg.ids, m)|, cfg.maxNodes))
    && (cfg.policy.ForceDown? || (cfg.policy.BackupPool? && lender))
  }

  lemma SoundKeeps<N>(cfg: PoolCfg<N>, m: map<N, NodeV>, ch: Choice<N>, b: Option<set<N>>)
    requires Sound(cfg, m, ch, b) && !GivenUp(cfg, m, b.Some?)
    ensures KeptOf(cfg.ids, m) <= ch.kept <= ch.served
  {
  }

  lemma StickyOwn<N>(w: World<N>, e: Event<N>, p: string, n: N)
    requires Inv(w) && Concerns(w, e, p) && p in w.c.pools && !w.s.pools[p].active
    requires n in w.s.pools[p].up && n in w.c.pools[p].ids && n in w.s.nodes && IsUp(w.s.nodes[n])
    requires n in Next(w, e).s.nodes && IsUp(Next(w, e).s.nodes[n])
    requires !GivenUp(w.c.pools[p], Next(w, e).s.nodes, w.c.pools[p].backup in w.c.pools)
    ensures p in Next(w, e).s.pools && n in Next(w, e).s.pools[p].up
  {
    hide Good, LinksBut, Next, EndCheck, ChangeDowntime, AdminFromConfig, Choose, Settled, Sound, Tidy, NodeOk,
         Configured, Announced, NodeAfter, Owned, InSync;
    var w', s := Next(w, e), Changed(w, e);
    var cfg := w.c.pools[p];
    InvPool(w, p);
    ServedUpKept(cfg, w.s.nodes, w.s.pools[p]);
    Concerned(w, e, p);
    NodeAfterAnnounced(w, e);
    if s.nodes[e.n].stateChanged {
      assert n != e.n;
      NodeSets(cfg.ids, w.s.nodes, e.n, NodeAfter(w, e));
      assert n in KeptOf(cfg.ids, s.nodes);
      assert UpOf(cfg.ids, s.nodes) == UpOf(cfg.ids, w'.s.nodes);
      SoundKeeps(cfg, s.nodes, ChoiceFor(w.c, s, p, Some(e.n)), BackupUp(w.c, s, p));
    }
  }

  /** In every run: a node that its own pool serves and that is up, and is still up after the
      next event, is still served, unless the pool is short and forced down, or short and able to
      borrow. */
  lemma Sticky<N>(es: seq<Event<N>>, e: Event<N>, p: string, n: N)
    requires p in Reached(es).c.pools && n in Reached(es).c.pools[p].ids
    requires n in Reached(es).s.pools[p].up && n in Reached(es).s.nodes && IsUp(Reached(es).s.nodes[n])
    requires n in Reached(es + [e]).s.nodes && IsUp(Reached(es + [e]).s.nodes[n])
    ensures var w' := Reached(es + [e]);
      && p in w'.c.pools
      && (n in w'.s.pools[p].up || GivenUp(w'.c.pools[p], w'.s.nodes, w'.c.pools[p].backup in w'.c.pools))
  {
    hide Good, LinksBut, Next, Settled, Reached, GivenUp;
    ReachedInv(es);
    var w := Reached(es);
    ReachedNext(es, e);
    InvPool(w, p);
    assert OwnedBy(w.c, p, w.s.pools[p].active, n);
    if Concerns(w, e, p) {
      Concerned(w, e, p);
      if !GivenUp(w.c.pools[p], Next(w, e).s.nodes, w.c.pools[p].backup in w.c.pools) {
        StickyOwn(w, e, p, n);
      }
    } else {
      Unconcerned(w, e, p);
    }
  }

  // ----- churn --------------------------------------------------------------------------------

  /** When one node changes, a saturated choice within max_nodes moves by at most one node
      in each direction. */
  lemma OneIn<N>(kept: set<N>, up: set<N>, kept': set<N>, up': set<N>, maxNodes: nat, n: N)
    requires kept <= up && kept' <= up' && up' <= up + {n} && kept - {n} <= kept'
    requires |kept| == Capped(|up|, maxNodes) && |kept'| == Capped(|up'|, maxNodes)
    ensures kept - kept' <= {n} && |kept' - kept| <= 1
  {
    if maxNodes > 0 && |kept| == maxNodes {
      SubsetSize(kept - {n}, kept' * kept);
      assert kept' == (kept' - kept) + (kept' * kept);
    } else {
      SubsetSize(kept, up);
      SubsetSize(kept' - kept, {n});
    }
  }

  lemma ChurnOwn<N>(w: World<N>, e: Event<N>, p: string)
    requires Inv(w) && Concerns(w, e, p) && p in w.c.pools && w.c.pools[p].minNodes == 0
    ensures p in Next(w, e).s.pools
    ensures w.s.pools[p].up - Next(w, e).s.pools[p].up <= {e.n}
    ensures |Next(w, e).s.pools[p].up - w.s.pools[p].up| <= 1
  {
    hide Good, LinksBut, Next, EndCheck, ChangeDowntime, AdminFromConfig, Choose, NodeOk, NodeAfter, Announced,
         Configured, Owned, InSync, KeptOf, UpOf, EnabledOf;
    var w', s := Next(w, e), Changed(w, e);
    var cfg := w.c.pools[p];
    InvPool(w, p);
    Concerned(w, e, p);
    NodeAfterAnnounced(w, e);
    if s.nodes[e.n].stateChanged {
      var ch := ChoiceFor(w.c, s, p, Some(e.n));
      NodeSets(cfg.ids, w.s.nodes, e.n, NodeAfter(w, e));
      OneIn(KeptOf(cfg.ids, w.s.nodes), UpOf(cfg.ids, w.s.nodes), ch.kept, UpOf(cfg.ids, s.nodes), cfg.maxNodes, e.n);
    }
  }

  /** In every run: an event changes the served set of a pool without min_nodes by at most one
      node added and at most one removed. */
  lemma Churn<N>(es: seq<Event<N>>, e: Event<N>, p: string)
    requires p in Reached(es).c.pools && Reached(es).c.pools[p].minNodes == 0
    ensures var w, w' := Reached(es), Reached(es + [e]);
      && p in w'.c.pools
      && |w'.s.pools[p].up - w.s.pools[p].up| <= 1
      && |w.s.pools[p].up - w'.s.pools[p].up| <= 1
  {
    hide Good, LinksBut, Next, Reached;
    ReachedInv(es);
    var w := Reached(es);
    ReachedNext(es, e);
    InvPool(w, p);
    if Concerns(w, e, p) {
      Concerned(w, e, p);
      ChurnOwn(w, e, p);
      SubsetSize(w.s.pools[p].up - Next(w, e).s.pools[p].up, {e.n});
    } else {
      Unconcerned(w, e, p);
    }
  }
}
