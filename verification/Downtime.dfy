/** Downtimes, draining and forcing up over whole runs. */
module Downtime {
  import opened Domain
  import opened Selection
  import opened NodeRules
  import opened Wire
  import opened Fleet
  import opened Invariants
  import opened Runs
  import opened Guarantees
  import opened Stability

  // ----- downtimes ----------------------------------------------------------------------------

  /** The event reads a setting for node `n` that puts it back into service. */
  ghost predicate Lifts<N>(e: Event<N>, n: N) {
    e.DowntimeRead? && e.n == n && e.setting !in {"maintenance", "cold_standby", "retired", "deploy_offline"}
  }

  lemma DowntimeStays<N>(w: World<N>, e: Event<N>, n: N)
    requires Inv(w) && n in w.s.nodes && w.s.nodes[n].admin in {AdminState.Downtime, DrainHard}
    requires !Lifts(e, n)
    ensures n in Next(w, e).s.nodes && Next(w, e).s.nodes[n].admin in {AdminState.Downtime, DrainHard}
    ensures !(e.DowntimeRead? && e.n == n) ==> Next(w, e).s.nodes[n].admin == w.s.nodes[n].admin
  {
    hide Good, LinksBut, Next, Configured, AdminFromConfig;
    NodeFollows(w, e, n);
    if e.CheckEnds? && e.n == n && CanHappen(w, e) {
      InvNode(w, n);
      EndCheckAnnounced(w.s.nodes[n], e.k, e.result);
    } else if e.DowntimeRead? && e.n == n && CanHappen(w, e) {
      SettingMeaning(e.setting);
    }
  }

  lemma InvNode<N>(w: World<N>, n: N)
    requires Inv(w) && n in w.s.nodes
    ensures NodeOk(w.s.nodes[n])
  {
  }

  /** In every run: until a setting is read that puts it back into service, a node in downtime or
      hard drain stays out of service and no pool serves it, whatever its checks report, however
      often its setting is read again or changed between the two, and under every fault policy. */
  lemma {:induction false} DowntimeHolds<N>(es: seq<Event<N>>, more: seq<Event<N>>, n: N)
    requires n in Reached(es).s.nodes && Reached(es).s.nodes[n].admin in {AdminState.Downtime, DrainHard}
    requires forall e | e in more :: !Lifts(e, n)
    ensures n in Reached(es + more).s.nodes
    ensures Reached(es + more).s.nodes[n].admin in {AdminState.Downtime, DrainHard}
    ensures (forall e | e in more :: !(e.DowntimeRead? && e.n == n)) ==>
      Reached(es + more).s.nodes[n].admin == Reached(es).s.nodes[n].admin
    ensures forall p | p in Reached(es + more).c.pools :: n !in Reached(es + more).s.pools[p].up
    decreases |more|
  {
    hide Inv, Next, Reached, Lifts;
    ReachedInv(es);
    if more == [] {
      assert es + more == es;
    } else {
      var before, e := more[..|more| - 1], more[|more| - 1];
      assert es + more == es + before + [e];
      DowntimeHolds(es, before, n);
      ReachedNext(es + before, e);
      ReachedInv(es + before);
      DowntimeStays(Reached(es + before), e, n);
    }
    forall p | p in Reached(es + more).c.pools
      ensures n !in Reached(es + more).s.pools[p].up
    {
      DowntimedNotServed(es + more, p, n);
    }
  }

  /** In every run: after its setting is read, whatever it was before, a node is in downtime, in hard
      drain or in service, as the setting says. */
  lemma SettingTakes<N>(es: seq<Event<N>>, n: N, setting: string, turns: seq<seq<Outcome>>)
    requires n in Reached(es).s.nodes
    ensures var w := Reached(es + [DowntimeRead(n, setting, turns)]);
      && n in w.s.nodes
      && (w.s.nodes[n].admin == AdminState.Downtime <==> setting in {"maintenance", "cold_standby", "retired"})
      && (w.s.nodes[n].admin == DrainHard <==> setting == "deploy_offline")
      && (w.s.nodes[n].admin == Enabled <==>
            setting !in {"maintenance", "cold_standby", "retired", "deploy_offline"})
  {
    hide Inv, Next, Reached, AdminFromConfig;
    var e := DowntimeRead(n, setting, turns);
    ReachedInv(es);
    ReachedNext(es, e);
    InvParts(Reached(es));
    NodeFollows(Reached(es), e, n);
    SettingMeaning(setting);
  }

  /** In every run: once "maintenance", "cold_standby", "retired" or "deploy_offline" is read for a node,
      no pool serves it until another setting is read. */
  lemma OutOfService<N>(es: seq<Event<N>>, n: N, setting: string, turns: seq<seq<Outcome>>, more: seq<Event<N>>)
    requires n in Reached(es).s.nodes && setting in {"maintenance", "cold_standby", "retired", "deploy_offline"}
    requires forall e | e in more :: e.DowntimeRead? && e.n == n ==>
      e.setting in {"maintenance", "cold_standby", "retired", "deploy_offline"}
    ensures var w := Reached(es + [DowntimeRead(n, setting, turns)] + more);
      forall p | p in w.c.pools :: n !in w.s.pools[p].up
  {
    hide Reached;
    SettingTakes(es, n, setting, turns);
    DowntimeHolds(es + [DowntimeRead(n, setting, turns)], more, n);
  }

  /** In every run a node drained by its checks is down. */
  lemma DrainedIsDown<N>(es: seq<Event<N>>, n: N)
    requires n in Reached(es).s.nodes && Reached(es).s.nodes[n].admin.DrainSoft?
    ensures Reached(es).s.nodes[n].state.NodeDown?
  {
    hide Inv, Reached;
    ReachedInv(es);
    InvNode(Reached(es), n);
  }

  // ----- coming back ----------------------------------------------------------------------------

  /** The last event of `es` completes a check of `n` and finds all checks of `n` hard up. */
  ghost predicate Cleared<N>(es: seq<Event<N>>, n: N) {
    && es != [] && es[|es| - 1].CheckEnds? && es[|es| - 1].n == n
    && n in Reached(es).s.nodes && AllUp(Reached(es).s.nodes[n].checks)
  }

  lemma DownStays<N>(w: World<N>, e: Event<N>, n: N)
    requires Inv(w) && n in w.s.nodes && w.s.nodes[n].state.NodeDown?
    requires n in Next(w, e).s.nodes
    requires !(e.CheckEnds? && e.n == n && AllUp(Next(w, e).s.nodes[n].checks))
    ensures Next(w, e).s.nodes[n].state.NodeDown?
  {
    hide Good, LinksBut, Next, Configured, AllUp;
    NodeFollows(w, e, n);
    if ChangesNode(w, e, n) && CanHappen(w, e) && e.CheckEnds? {
      InvNode(w, n);
      EndCheckAnnounced(w.s.nodes[n], e.k, e.result);
    }
  }

  /** In every run: a node that is down stays down until a check of its own completes and finds
      all its checks hard up. */
  lemma {:induction false} DownUntilCleared<N>(es: seq<Event<N>>, more: seq<Event<N>>, n: N)
    requires n in Reached(es).s.nodes && Reached(es).s.nodes[n].state.NodeDown?
    requires forall k | 0 < k <= |more| :: !Cleared(es + more[..k], n)
    ensures n in Reached(es + more).s.nodes && Reached(es + more).s.nodes[n].state.NodeDown?
    decreases |more|
  {
    hide Inv, Next, Reached;
    ReachedInv(es);
    if more == [] {
      assert es + more == es;
    } else {
      var before, e := more[..|more| - 1], more[|more| - 1];
      assert es + more == es + before + [e];
      forall k | 0 < k <= |before|
        ensures !Cleared(es + before[..k], n)
      {
        assert before[..k] == more[..k];
      }
      DownUntilCleared(es, before, n);
      ReachedNext(es + before, e);
      ReachedInv(es + before);
      NodeFollows(Reached(es + before), e, n);
      assert more[..|more|] == more;
      assert (es + more)[|es + more| - 1] == e;
      DownStays(Reached(es + before), e, n);
    }
  }

  /** In every run: lifting a downtime leaves the node down, and it is not up again before one of
      its checks completes and finds all of them hard up. */
  lemma BackAfterCheck<N>(es: seq<Event<N>>, e: Event<N>, more: seq<Event<N>>)
    requires e.DowntimeRead? && CanHappen(Reached(es), e)
    requires e.setting !in {"maintenance", "cold_standby", "retired", "deploy_offline"}
    requires forall k | 0 < k <= |more| :: !Cleared(es + [e] + more[..k], e.n)
    ensures e.n in Reached(es + [e] + more).s.nodes && !IsUp(Reached(es + [e] + more).s.nodes[e.n])
  {
    hide Inv, Next, Reached, AdminFromConfig;
    ReachedInv(es);
    InvParts(Reached(es));
    ReachedNext(es, e);
    SettingMeaning(e.setting);
    NodeFollows(Reached(es), e, e.n);
    DownUntilCleared(es + [e], more, e.n);
  }

  // ----- forcing up --------------------------------------------------------------------------------

  /** In every run: a FORCE_UP pool that is short serves every node of its own that is up. */
  lemma ShortServesAllUp<N>(es: seq<Event<N>>, p: string)
    requires p in Reached(es).c.pools && Reached(es).c.pools[p].policy.ForceUp?
    ensures var w := Reached(es);
      var cfg := w.c.pools[p];
      Short(cfg.minNodes, Capped(|UpOf(cfg.ids, w.s.nodes)|, cfg.maxNodes)) ==>
          UpOf(cfg.ids, w.s.nodes) <= w.s.pools[p].up
  {
    hide Inv, Reached;
    ReachedInv(es);
    var w := Reached(es);
    InvPool(w, p);
    SubsetSize(KeptOf(w.c.pools[p].ids, w.s.nodes), UpOf(w.c.pools[p].ids, w.s.nodes));
  }

  lemma FirstServed<N>(cfg: PoolCfg<N>, m: map<N, NodeV>, last: Option<N>, b: Option<set<N>>)
    requires Normalised(cfg) && LastOk(cfg.ids, last) && cfg.policy.ForceUp?
    requires Short(cfg.minNodes, Capped(|UpOf(cfg.ids, m)|, cfg.maxNodes))
    ensures ForcedFirst(m, last) <= Choose(cfg, m, last, b).served
  {
    WithinMaxFacts(cfg.ids, cfg.maxNodes, m);
    ShortTakesAll(cfg, m);
    ForceUpFacts(cfg, m, last);
  }

  /** In every run: when a FORCE_UP pool is short after an event that leaves the event's node
      changed, enabled and down, that node is among the served ones. */
  lemma JustFailedServed<N>(es: seq<Event<N>>, e: Event<N>, p: string)
    requires Concerns(Reached(es), e, p) && p in Reached(es).c.pools && Reached(es).c.pools[p].policy.ForceUp?
    requires NodeAfter(Reached(es), e).stateChanged && NodeAfter(Reached(es), e).state.NodeDown?
    requires NodeAfter(Reached(es), e).admin.Enabled?
    ensures var w' := Reached(es + [e]);
      var cfg := Reached(es).c.pools[p];
      && p in w'.c.pools
      && (Short(cfg.minNodes, Capped(|UpOf(cfg.ids, w'.s.nodes)|, cfg.maxNodes)) ==> e.n in w'.s.pools[p].up)
  {
    hide Good, LinksBut, Next, Reached, NodeAfter, Tidy, Sound, Choose, Settled, Owned, InSync;
    ReachedInv(es);
    var w := Reached(es);
    ReachedNext(es, e);
    InvPool(w, p);
    Concerned(w, e, p);
    var s := Changed(w, e);
    var cfg := w.c.pools[p];
    assert UpOf(cfg.ids, s.nodes) == UpOf(cfg.ids, Next(w, e).s.nodes);
    if Short(cfg.minNodes, Capped(|UpOf(cfg.ids, s.nodes)|, cfg.maxNodes)) {
      FirstServed(cfg, s.nodes, Some(e.n), BackupUp(w.c, s, p));
      assert e.n in ForcedFirst(s.nodes, Some(e.n));
    }
  }

  /** In every run: a node that a FORCE_UP pool serves although it is not up carries the mark of
      having been forced. */
  lemma ForcedAreMarked<N>(es: seq<Event<N>>, p: string, n: N)
    requires p in Reached(es).c.pools && Reached(es).c.pools[p].policy.ForceUp?
    requires n in Reached(es).s.pools[p].up && n in Reached(es).s.nodes && !IsUp(Reached(es).s.nodes[n])
    ensures Reached(es).s.nodes[n].minKept
  {
    hide Inv, Reached;
    ReachedInv(es);
    InvPool(Reached(es), p);
  }

  lemma PriorityServed<N>(cfg: PoolCfg<N>, m: map<N, NodeV>, x: N, b: Option<set<N>>, n: N, f: N)
    requires Normalised(cfg) && x in cfg.ids && n in cfg.ids && f in cfg.ids && n != x && f != x && cfg.policy.ForceUp?
    requires Short(cfg.minNodes, Capped(|UpOf(cfg.ids, m)|, cfg.maxNodes))
    requires n in m && !IsUp(m[n]) && !m[n].minKept
    requires f in m && m[f].admin.Enabled? && m[f].minKept
    ensures n in Choose(cfg, m, Some(x), b).served ==> f in Choose(cfg, m, Some(x), b).served
  {
    hide Visit, WithinMax, UpOf, ForcedOf, OthersOf, ForcedFirst;
    var w := WithinMax(cfg.ids, cfg.maxNodes, m);
    WithinMaxFacts(cfg.ids, cfg.maxNodes, m);
    ForcedPriority(cfg, m, Some(x), w);
    PriorityMembers(cfg, m, x, n, f);
    ForceUpServed(cfg, m, Some(x), b);
  }

  lemma ForceUpServed<N>(cfg: PoolCfg<N>, m: map<N, NodeV>, last: Option<N>, b: Option<set<N>>)
    requires cfg.policy.ForceUp? && Short(cfg.minNodes, |WithinMax(cfg.ids, cfg.maxNodes, m)|)
    ensures Choose(cfg, m, last, b) == ForceUpChoice(cfg, m, last, WithinMax(cfg.ids, cfg.maxNodes, m))
  {
    hide WithinMax, ForceUpChoice;
  }

  lemma PriorityMembers<N>(cfg: PoolCfg<N>, m: map<N, NodeV>, x: N, n: N, f: N)
    requires f in cfg.ids && n != x && f != x
    requires n in m && !IsUp(m[n]) && !m[n].minKept && f in m && m[f].admin.Enabled? && m[f].minKept
    ensures f in OthersOf(cfg.ids, m, Some(x)) * ForcedOf(cfg.ids, m)
    ensures n !in UpOf(cfg.ids, m) && n !in ForcedFirst(m, Some(x)) && n !in ForcedOf(cfg.ids, m)
  {
  }

  /** In every run: when a FORCE_UP pool is short after a change of one of its nodes, a node that is
      down and was not forced before is newly served only if every other enabled node that was
      forced before is served too. */
  lemma ForcedComeFirst<N>(es: seq<Event<N>>, e: Event<N>, p: string, n: N, f: N)
    requires Concerns(Reached(es), e, p) && p in Reached(es).c.pools && Reached(es).c.pools[p].policy.ForceUp?
    requires NodeAfter(Reached(es), e).stateChanged
    requires n in Reached(es).c.pools[p].ids && f in Reached(es).c.pools[p].ids && n != e.n && f != e.n
    requires n in Reached(es).s.nodes && !IsUp(Reached(es).s.nodes[n]) && !Reached(es).s.nodes[n].minKept
    requires f in Reached(es).s.nodes && Reached(es).s.nodes[f].admin.Enabled? && Reached(es).s.nodes[f].minKept
    ensures var w' := Reached(es + [e]);
      var cfg := Reached(es).c.pools[p];
      && p in w'.c.pools
      && (Short(cfg.minNodes, Capped(|UpOf(cfg.ids, w'.s.nodes)|, cfg.maxNodes)) && n in w'.s.pools[p].up ==>
          f in w'.s.pools[p].up)
  {
    hide Good, LinksBut, Next, Reached, NodeAfter, Tidy, Sound, Choose, Settled, Owned, InSync;
    ReachedInv(es);
    var w := Reached(es);
    ReachedNext(es, e);
    InvPool(w, p);
    Concerned(w, e, p);
    var s := Changed(w, e);
    var cfg := w.c.pools[p];
    assert UpOf(cfg.ids, s.nodes) == UpOf(cfg.ids, Next(w, e).s.nodes);
    if Short(cfg.minNodes, Capped(|UpOf(cfg.ids, s.nodes)|, cfg.maxNodes)) {
      PriorityServed(cfg, s.nodes, e.n, BackupUp(w.c, s, p), n, f);
    }
  }
}
