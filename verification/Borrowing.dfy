/** When a pool borrows: exactly if it is short and has looked for its backup since that was loaded. */
module Borrowing {
  import opened Domain
  import opened Selection
  import opened NodeRules
  import opened Wire
  import opened Fleet
  import opened Backups
  import opened Invariants
  import opened Runs
  import opened Guarantees
  import opened Stability
  import opened Rings

  /** Pool `p` has fewer up nodes within max_nodes than its min_nodes. */
  ghost predicate IsShort<N>(w: World<N>, p: string)
    requires p in w.c.pools
  {
    var cfg := w.c.pools[p];
    Short(cfg.minNodes, Capped(|UpOf(cfg.ids, w.s.nodes)|, cfg.maxNodes))
  }

  /** The event makes pool `p` look for its backup, and finds it registered: the pool is loaded, or one
      of its nodes announces a change. */
  ghost predicate Looks<N>(w: World<N>, e: Event<N>, p: string)
    requires Shaped(w.c, w.s)
  {
    && CanHappen(w, e)
    && (|| (e.PoolLoaded? && e.p == p && e.cfg.backup in w.c.pools)
        || (p in w.c.pools && w.c.pools[p].backup in w.c.pools && Concerns(w, e, p) && NodeAfter(w, e).stateChanged))
  }

  /** This has happened at some point of the run. */
  ghost predicate Looked<N>(es: seq<Event<N>>, p: string) {
    exists k | 0 <= k < |es| :: Looks(Reached(es[..k]), es[k], p)
  }

  lemma LookedMore<N>(es: seq<Event<N>>, e: Event<N>, p: string)
    ensures Looked(es + [e], p) <==> Looked(es, p) || Looks(Reached(es), e, p)
  {
    hide Reached, Looks;
    var all := es + [e];
    assert forall k | 0 <= k < |es| :: all[..k] == es[..k] && all[k] == es[k];
    assert all[..|es|] == es && all[|es|] == e;
  }

  // ----- what one recomputation decides ---------------------------------------------------------

  lemma ChoiceActive<N>(cfg: PoolCfg<N>, m: map<N, NodeV>, last: Option<N>, b: Option<set<N>>)
    ensures Choose(cfg, m, last, b).active
       <==> MayBorrow(cfg) && b.Some? && Short(cfg.minNodes, Capped(|UpOf(cfg.ids, m)|, cfg.maxNodes))
  {
    hide WithinMax, ForceUpChoice;
    WithinMaxFacts(cfg.ids, cfg.maxNodes, m);
    ForceUpInactive(cfg, m, last, WithinMax(cfg.ids, cfg.maxNodes, m));
  }

  // ----- events that do not concern the pool -----------------------------------------------------

  /** The up nodes of a pool change only by events that concern it. */
  lemma UpStays<N>(w: World<N>, e: Event<N>, p: string)
    requires Inv(w) && p in w.c.pools && !Concerns(w, e, p)
    ensures UpOf(w.c.pools[p].ids, Next(w, e).s.nodes) == UpOf(w.c.pools[p].ids, w.s.nodes)
  {
    hide Good, LinksBut, Next, NodeAfter, CanHappen, Configured;
    InvPool(w, p);
    forall n | n in w.c.pools[p].ids
      ensures n in w.s.nodes && n in Next(w, e).s.nodes && IsUp(Next(w, e).s.nodes[n]) == IsUp(w.s.nodes[n])
    {
      NodeFollows(w, e, n);
    }
  }

  lemma ChangedStuck<N>(w: World<N>, e: Event<N>, p: string)
    requires Configured(w.c) && Shaped(w.c, w.s) && CanHappen(w, e) && (e.CheckEnds? || e.DowntimeRead?)
    requires Stuck(w.c, w.s, p) && w.c.nodes[e.n].parent != p
    ensures Shaped(w.c, Changed(w, e)) && Stuck(w.c, Changed(w, e), p)
  {
    hide NodeAfter, UpOf;
    assert PoolConfigured(w.c, p);
    hide Configured;
    OneChanges(w.c.pools[p].ids, w.s.nodes, e.n, NodeAfter(w, e));
  }

  lemma OneChanges<N>(ids: seq<N>, m: map<N, NodeV>, n: N, v: NodeV)
    requires n !in ids
    ensures UpOf(ids, m[n := v]) == UpOf(ids, m)
  {
  }

  lemma NodeEventStuck<N>(es: seq<Event<N>>, e: Event<N>, p: string)
    requires CanHappen(Reached(es), e) && (e.CheckEnds? || e.DowntimeRead?)
    requires Stuck(Reached(es).c, Reached(es).s, p) && Reached(es).c.nodes[e.n].parent != p
    ensures Next(Reached(es), e).c == Reached(es).c && Shaped(Reached(es).c, Next(Reached(es), e).s)
    ensures Stuck(Reached(es).c, Next(Reached(es), e).s, p)
  {
    hide Inv, Reached, Next, TryPoolLogic, Changed, Configured, Stuck, CanHappen, TryEvent, PoolLogic, Sized;
    var w := Reached(es);
    ReachedInv(es);
    InvParts(w);
    ChangedStuck(w, e, p);
    ConfiguredSized(w.c);
    NextNode(w, e);
    var fuel := |w.c.pools| + 1;
    EventsEnd(es, e, fuel);
    TryEventNode(w, e, fuel);
    EndsStuck(w.c, Changed(w, e), w.c.nodes[e.n].parent, Some(e.n), fuel, p);
  }

  lemma TryEventNode<N>(w: World<N>, e: Event<N>, fuel: nat)
    requires Configured(w.c) && Shaped(w.c, w.s) && CanHappen(w, e) && (e.CheckEnds? || e.DowntimeRead?) && fuel > 0
    ensures Sized(w.c) && e.n in w.c.nodes && w.c.nodes[e.n].parent in w.c.pools && Shaped(w.c, Changed(w, e))
    ensures TryEvent(w, e, fuel) == TryPoolLogic(w.c, Changed(w, e), w.c.nodes[e.n].parent, Some(e.n), fuel)
  {
    hide TryPoolLogic, NodeAfter;
    ConfiguredSized(w.c);
  }

  lemma EndsStuck<N>(c: Config<N>, s: State<N>, q: string, last: Option<N>, fuel: nat, p: string)
    requires q in c.pools && Shaped(c, s) && Sized(c) && Stuck(c, s, p) && TryPoolLogic(c, s, q, last, fuel).Some?
    ensures Stuck(c, TryPoolLogic(c, s, q, last, fuel).value, p)
  {
    hide TryPoolLogic, Stuck;
    StaysStuck(c, s, q, last, fuel, {p});
    assert p in {p};
  }

  lemma TimerStuck<N>(es: seq<Event<N>>, e: Event<N>, p: string)
    requires CanHappen(Reached(es), e) && e.SyncTimer? && Stuck(Reached(es).c, Reached(es).s, p)
    ensures Next(Reached(es), e).c == Reached(es).c && Shaped(Reached(es).c, Next(Reached(es), e).s)
    ensures Stuck(Reached(es).c, Next(Reached(es), e).s, p)
  {
    hide Inv, Reached, TryDependents, UpdatePfctl, Configured, Stuck, Send;
    var w := Reached(es);
    ReachedInv(es);
    InvParts(w);
    ConfiguredSized(w.c);
    var s := WithTurns(w.s, e.turns);
    TurnsStuck(w.c, w.s, e.turns, p);
    SendStuck(w.c, s, e.p, p);
    var fuel := |w.c.pools| + 1;
    EventsEnd(es, e, fuel);
    WalkStaysStuck(w.c, Send(w.c, s, e.p), e.p, 0, fuel, {p});
    assert p in {p};
  }

  lemma TurnsStuck<N>(c: Config<N>, s: State<N>, turns: seq<seq<Outcome>>, p: string)
    requires Shaped(c, s) && Stuck(c, s, p)
    ensures Stuck(c, WithTurns(s, turns), p)
  {
  }

  /** A short pool that borrows goes on borrowing through every event that does not concern it. */
  lemma StaysActive<N>(es: seq<Event<N>>, e: Event<N>, p: string)
    requires p in Reached(es).c.pools && Stuck(Reached(es).c, Reached(es).s, p) && !Concerns(Reached(es), e, p)
    ensures var w' := Next(Reached(es), e); p in w'.s.pools && w'.s.pools[p].active
  {
    hide Inv, Reached, Configured, LoadedLate, LoadedAlone, PoolLogic, UpdatePfctl, Stuck, NodeAfter;
    var w := Reached(es);
    ReachedInv(es);
    InvParts(w);
    if CanHappen(w, e) {
      match e
      case CheckEnds(_, _, _, _) => NodeEventStuck(es, e, p); StuckActive(w.c, Next(w, e).s, p);
      case DowntimeRead(_, _, _) => NodeEventStuck(es, e, p); StuckActive(w.c, Next(w, e).s, p);
      case SyncTimer(_, _) => TimerStuck(es, e, p); StuckActive(w.c, Next(w, e).s, p);
      case PoolLoaded(_, _, _, _, _, _) =>
        StuckActive(w.c, w.s, p);
        LoadedEitherWay(es, e);
        LoadedEffect(w, e);
      case WorkerReceives(_) => StuckActive(w.c, w.s, p);
      case TablesFound(_) => StuckActive(w.c, w.s, p);
    } else {
      StuckActive(w.c, w.s, p);
    }
  }

  lemma StuckActive<N>(c: Config<N>, s: State<N>, p: string)
    requires Shaped(c, s) && Stuck(c, s, p)
    ensures p in c.pools && s.pools[p].active
  {
  }

  // ----- one step -----------------------------------------------------------------------------------

  /** The pool is where the theorem says, given whether it has `looked`. */
  ghost predicate Borrowed<N>(w: World<N>, p: string, looked: bool)
    requires p in w.c.pools && p in w.s.pools
  {
    w.s.pools[p].active <==> MayBorrow(w.c.pools[p]) && IsShort(w, p) && looked
  }

  lemma ConcernedStep<N>(w: World<N>, e: Event<N>, p: string, looked: bool)
    requires Inv(w) && p in w.c.pools && Concerns(w, e, p) && Borrowed(w, p, looked)
    requires looked ==> w.c.pools[p].backup in w.c.pools
    ensures Next(w, e).c == w.c && p in Next(w, e).s.pools
    ensures Borrowed(Next(w, e), p, looked || Looks(w, e, p))
  {
    hide Good, LinksBut, Next, NodeAfter, Choose, Tidy, Sound, Settled, Owned, InSync, Configured, Announced, UpOf;
    InvPool(w, p);
    Concerned(w, e, p);
    NodeAfterAnnounced(w, e);
    var s, cfg := Changed(w, e), w.c.pools[p];
    ChangedUp(w, e, p);
    SameUp(cfg.ids, s.nodes, Next(w, e).s.nodes);
    if s.nodes[e.n].stateChanged {
      ChoiceActive(cfg, s.nodes, Some(e.n), BackupUp(w.c, s, p));
    }
  }

  lemma ChangedUp<N>(w: World<N>, e: Event<N>, p: string)
    requires Inv(w) && p in w.c.pools && Concerns(w, e, p) && Announced(w.s.nodes[e.n], NodeAfter(w, e))
    ensures forall x | x in w.c.pools[p].ids :: x in Changed(w, e).nodes
    ensures !Changed(w, e).nodes[e.n].stateChanged ==>
      UpOf(w.c.pools[p].ids, Changed(w, e).nodes) == UpOf(w.c.pools[p].ids, w.s.nodes)
  {
    hide Good, LinksBut, NodeAfter, CanHappen;
    assert PoolConfigured(w.c, p);
    hide Configured;
  }

  lemma SameUp<N>(ids: seq<N>, m: map<N, NodeV>, m': map<N, NodeV>)
    requires forall x | x in ids :: x in m && x in m' && m'[x].state == m[x].state && m'[x].admin == m[x].admin
    ensures UpOf(ids, m') == UpOf(ids, m)
  {
  }

  lemma UnconcernedStep<N>(es: seq<Event<N>>, e: Event<N>, p: string, looked: bool)
    requires p in Reached(es).c.pools && !Concerns(Reached(es), e, p) && Borrowed(Reached(es), p, looked)
    ensures var w' := Next(Reached(es), e); p in w'.c.pools && p in w'.s.pools && Borrowed(w', p, looked)
  {
    hide Inv, Reached, Next, Configured, NodeAfter, CanHappen, UpOf, Settled, Owned, InSync;
    var w := Reached(es);
    ReachedInv(es);
    InvPool(w, p);
    UpStays(w, e, p);
    ConfigStays(w, e, p);
    if w.s.pools[p].active {
      StaysActive(es, e, p);
    } else {
      Unconcerned(w, e, p);
    }
  }

  lemma ConfigStays<N>(w: World<N>, e: Event<N>, p: string)
    requires Inv(w) && p in w.c.pools
    ensures p in Next(w, e).c.pools && p in Next(w, e).s.pools && Next(w, e).c.pools[p] == w.c.pools[p]
    ensures forall q | q in w.c.pools :: q in Next(w, e).c.pools
  {
    hide Inv, PoolLogic, UpdatePfctl, EndCheck, ChangeDowntime, AdminFromConfig, Configured;
    InvParts(w);
    NextInv(w, e);
    InvParts(Next(w, e));
  }

  lemma LoadDecides<N>(es: seq<Event<N>>, e: Event<N>)
    requires e.PoolLoaded? && CanHappen(Reached(es), e)
    ensures var w' := Next(Reached(es), e);
      && e.p in w'.c.pools && e.p in w'.s.pools && w'.c.pools[e.p] == e.cfg
      && Borrowed(w', e.p, e.cfg.backup in Reached(es).c.pools)
  {
    hide Inv, Reached, Next, Configured, LoadedLate, LoadedAlone, Choose, UpOf, SetFlags, WorkerTurn;
    var w := Reached(es);
    LoadedEitherWay(es, e);
    LoadedEffect(w, e);
    var ch := FirstChoice(w, e);
    FlagsUp(e.cfg.ids, w.s.nodes + e.nodes, ch.kept, ch.forced);
    ChoiceActive(e.cfg, w.s.nodes + e.nodes, None,
                 if e.cfg.backup in w.c.pools then Some(w.s.pools[e.cfg.backup].up) else None);
  }

  lemma FlagsUp<N>(ids: seq<N>, m: map<N, NodeV>, kept: set<N>, forced: set<N>)
    ensures UpOf(ids, SetFlags(m, kept, forced)) == UpOf(ids, m)
  {
  }

  // ----- every run -------------------------------------------------------------------------------------

  lemma NewlyLoaded<N>(w: World<N>, e: Event<N>, p: string)
    requires Inv(w) && p in Next(w, e).c.pools && p !in w.c.pools
    ensures e.PoolLoaded? && CanHappen(w, e) && e.p == p
  {
    hide Good, LinksBut, PoolLogic, UpdatePfctl, EndCheck, ChangeDowntime, AdminFromConfig, Configured;
    InvParts(w);
  }

  /** A pool that has looked is there, and so is its backup. */
  lemma {:induction false} LookedThere<N>(es: seq<Event<N>>, p: string)
    requires Looked(es, p)
    ensures p in Reached(es).c.pools && Reached(es).c.pools[p].backup in Reached(es).c.pools
    decreases |es|
  {
    hide Inv, Reached, Next, Looks, Looked;
    LookedNone(es, p);
    var before, e := es[..|es| - 1], es[|es| - 1];
    assert es == before + [e];
    LookedMore(before, e, p);
    ReachedNext(before, e);
    ReachedInv(before);
    if Looked(before, p) {
      LookedThere(before, p);
      ConfigStays(Reached(before), e, p);
    } else {
      LooksThere(Reached(before), e, p);
    }
  }

  lemma LookedNone<N>(es: seq<Event<N>>, p: string)
    requires Looked(es, p)
    ensures es != []
  {
  }

  lemma LooksThere<N>(w: World<N>, e: Event<N>, p: string)
    requires Inv(w) && Looks(w, e, p)
    ensures p in Next(w, e).c.pools && Next(w, e).c.pools[p].backup in Next(w, e).c.pools
  {
    hide Good, LinksBut, PoolLogic, UpdatePfctl, EndCheck, ChangeDowntime, AdminFromConfig, Configured, NodeAfter, Next;
    InvParts(w);
    if p in w.c.pools {
      ConfigStays(w, e, p);
    } else {
      LoadedConfig(w, e);
    }
  }

  lemma LoadedConfig<N>(w: World<N>, e: Event<N>)
    requires Configured(w.c) && Shaped(w.c, w.s) && e.PoolLoaded? && CanHappen(w, e)
    ensures Next(w, e).c == Extend(w.c, e.p, e.cfg, e.at, e.nodeCfgs)
  {
    hide PoolLogic, Configured;
  }

  /** In every run, for every pool: it borrows exactly if it may borrow, is short, and has looked for its
      backup while that was registered. */
  lemma {:induction false} BorrowsExactly<N>(es: seq<Event<N>>, p: string)
    requires p in Reached(es).c.pools
    ensures var w := Reached(es);
      w.s.pools[p].active <==> MayBorrow(w.c.pools[p]) && IsShort(w, p) && Looked(es, p)
    decreases |es|
  {
    hide Inv, Reached, Next, Looks, Looked, IsShort, CanHappen, NodeAfter;
    if es == [] {
      NothingLoaded<N>();
    } else {
      var before, e := es[..|es| - 1], es[|es| - 1];
      assert es == before + [e];
      var w := Reached(before);
      ReachedNext(before, e);
      ReachedInv(before);
      LookedMore(before, e, p);
      if p !in w.c.pools {
        NewlyLoaded(w, e, p);
        LoadDecides(before, e);
        LoadLooks(before, e);
      } else {
        BorrowsExactly(before, p);
        if Looked(before, p) {
          LookedThere(before, p);
        }
        if Concerns(w, e, p) {
          ConcernedStep(w, e, p, Looked(before, p));
        } else {
          UnconcernedStep(before, e, p, Looked(before, p));
          NoLook(w, e, p);
        }
      }
    }
  }

  lemma NothingLoaded<N>()
    ensures Reached<N>([]).c.pools == map[]
  {
  }

  lemma NoLook<N>(w: World<N>, e: Event<N>, p: string)
    requires Shaped(w.c, w.s) && p in w.c.pools && !Concerns(w, e, p)
    ensures !Looks(w, e, p)
  {
    hide NodeAfter, Configured;
  }

  lemma LoadLooks<N>(es: seq<Event<N>>, e: Event<N>)
    requires e.PoolLoaded? && CanHappen(Reached(es), e)
    ensures Looked(es + [e], e.p) <==> e.cfg.backup in Reached(es).c.pools
  {
    hide Reached, Looked, NodeAfter, Configured;
    LookedMore(es, e, e.p);
    if Looked(es, e.p) {
      LookedThere(es, e.p);
    }
  }

  /** In every run: a pool that is loaded after its backup borrows from then on exactly while it is
      short. */
  lemma LoadedAfterBackup<N>(es: seq<Event<N>>, e: Event<N>, more: seq<Event<N>>)
    requires e.PoolLoaded? && CanHappen(Reached(es), e) && e.cfg.backup in Reached(es).c.pools && MayBorrow(e.cfg)
    ensures var w := Reached(es + [e] + more);
      e.p in w.c.pools && w.c.pools[e.p] == e.cfg && (w.s.pools[e.p].active <==> IsShort(w, e.p))
  {
    hide Inv, Reached, Next, IsShort;
    var all := es + [e] + more;
    assert all[..|es|] == es && all[|es|] == e;
    assert Looks(Reached(all[..|es|]), all[|es|], e.p);
    LookedThere(all, e.p);
    BorrowsExactly(all, e.p);
    LoadDecides(es, e);
    ReachedNext(es, e);
    ConfigKeeps(es + [e], more, e.p);
  }

  lemma {:induction false} ConfigKeeps<N>(es: seq<Event<N>>, more: seq<Event<N>>, p: string)
    requires p in Reached(es).c.pools
    ensures p in Reached(es + more).c.pools && Reached(es + more).c.pools[p] == Reached(es).c.pools[p]
    decreases |more|
  {
    hide Inv, Reached, Next;
    if more == [] {
      assert es + more == es;
    } else {
      var before, e := more[..|more| - 1], more[|more| - 1];
      assert es + more == es + before + [e];
      ConfigKeeps(es, before, p);
      ReachedInv(es + before);
      ReachedNext(es + before, e);
      ConfigStays(Reached(es + before), e, p);
    }
  }

  /** In every run: a pool that is loaded before its backup does not borrow, however short it is, until
      the backup is registered and a node of the pool's own announces a change. */
  lemma LoadedBeforeBackup<N>(es: seq<Event<N>>, e: Event<N>, more: seq<Event<N>>)
    requires e.PoolLoaded? && CanHappen(Reached(es), e) && e.cfg.backup !in Reached(es).c.pools
    requires forall k | 0 <= k < |more| :: !Looks(Reached(es + [e] + more[..k]), more[k], e.p)
    ensures var w := Reached(es + [e] + more);
      e.p in w.c.pools && !w.s.pools[e.p].active
    decreases |more|
  {
    hide Inv, Reached, Next, IsShort, Looks, Looked, CanHappen;
    LoadDecides(es, e);
    ReachedNext(es, e);
    ConfigKeeps(es + [e], more, e.p);
    NotLooked(es, e, more);
    BorrowsExactly(es + [e] + more, e.p);
  }

  lemma {:induction false} NotLooked<N>(es: seq<Event<N>>, e: Event<N>, more: seq<Event<N>>)
    requires e.PoolLoaded? && CanHappen(Reached(es), e) && e.cfg.backup !in Reached(es).c.pools
    requires forall k | 0 <= k < |more| :: !Looks(Reached(es + [e] + more[..k]), more[k], e.p)
    ensures !Looked(es + [e] + more, e.p)
    decreases |more|
  {
    hide Reached, Looks, Looked, CanHappen;
    if more == [] {
      assert es + [e] + more == es + [e];
      LoadLooks(es, e);
    } else {
      var before, x := more[..|more| - 1], more[|more| - 1];
      assert es + [e] + more == es + [e] + before + [x];
      assert forall k | 0 <= k < |before| :: before[..k] == more[..k];
      NotLooked(es, e, before);
      LookedMore(es + [e] + before, x, e.p);
    }
  }
}
