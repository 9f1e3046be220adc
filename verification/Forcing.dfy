/** When a node is marked as forced up, and when the mark goes away again. */
module Forcing {
  import opened Domain
  import opened Selection
  import opened NodeRules
  import opened Wire
  import opened Fleet
  import opened Invariants
  import opened Runs
  import opened Frames
  import opened Guarantees
  import opened Stability
  import opened Borrowing

  // ----- what one choice marks ------------------------------------------------------------------

  /** A choice marks nodes only under FORCE_UP and in a shortage, and only nodes that it serves. */
  lemma ForcedOnly<N>(cfg: PoolCfg<N>, m: map<N, NodeV>, last: Option<N>, b: Option<set<N>>)
    requires Normalised(cfg) && LastOk(cfg.ids, last)
    ensures var ch := Choose(cfg, m, last, b);
      && ch.forced <= ch.served
      && (ch.forced != {} ==>
            cfg.policy == ForceUp && Short(cfg.minNodes, Capped(|UpOf(cfg.ids, m)|, cfg.maxNodes)))
  {
    hide WithinMax, ForceUpChoice;
    WithinMaxFacts(cfg.ids, cfg.maxNodes, m);
    if Short(cfg.minNodes, |WithinMax(cfg.ids, cfg.maxNodes, m)|) && cfg.policy.ForceUp? {
      ShortTakesAll(cfg, m);
      ForceUpFacts(cfg, m, last);
    }
  }

  // ----- pools of other policies ------------------------------------------------------------------

  /** The nodes of pool `p` carry the same forced marks in both states. */
  ghost predicate SameMarks<N>(c: Config<N>, s: State<N>, r: State<N>, p: string)
    requires Shaped(c, s) && Shaped(c, r) && p in c.pools
  {
    forall n | n in c.pools[p].ids && n in s.nodes :: r.nodes[n].minKept == s.nodes[n].minKept
  }

  lemma RecomputeMarks<N>(c: Config<N>, s: State<N>, q: string, last: Option<N>, p: string)
    requires Configured(c) && Shaped(c, s) && q in c.pools && p in c.pools && LastOk(c.pools[q].ids, last)
    requires c.pools[p].policy != ForceUp
    ensures SameMarks(c, s, Recompute(c, s, q, last), p)
  {
    hide Choose, Adopted;
    if q == p {
      assert PoolConfigured(c, p);
      ForcedOnly(c.pools[p], s.nodes, last, BackupUp(c, s, p));
    } else {
      RecomputeSame(c, s, q, last, p);
    }
  }

  lemma {:induction false} PoolLogicMarks<N>(c: Config<N>, s: State<N>, q: string, last: Option<N>, p: string)
    requires Configured(c) && Shaped(c, s) && q in c.pools && p in c.pools && LastOk(c.pools[q].ids, last)
    requires c.pools[p].policy != ForceUp
    ensures SameMarks(c, s, PoolLogic(c, s, q, last), p)
    decreases Above(c, q), |c.order| + 2
  {
    hide Recompute, UpdatePfctl, Configured;
    if Gate(s, last) {
      RecomputeMarks(c, s, q, last, p);
      UpdatePfctlMarks(c, Recompute(c, s, q, last), q, p);
    } else {
      UpdatePfctlMarks(c, s, q, p);
    }
  }

  lemma {:induction false} UpdatePfctlMarks<N>(c: Config<N>, s: State<N>, q: string, p: string)
    requires Configured(c) && Shaped(c, s) && q in c.pools && p in c.pools && c.pools[p].policy != ForceUp
    ensures SameMarks(c, s, UpdatePfctl(c, s, q), p)
    decreases Above(c, q), |c.order| + 1
  {
    assert PoolConfigured(c, q);
    DependentsMarks(c, Send(c, s, q), q, 0, p);
  }

  lemma {:induction false} DependentsMarks<N>(c: Config<N>, s: State<N>, q: string, i: nat, p: string)
    requires Configured(c) && Shaped(c, s) && q in c.pools && p in c.pools && i <= |c.order|
    requires c.pools[p].policy != ForceUp
    ensures SameMarks(c, s, Dependents(c, s, q, i), p)
    decreases Above(c, q), |c.order| - i
  {
    hide PoolLogic, Configured, Above;
    if i < |c.order| {
      var x := c.order[i];
      BorrowerRank(c, s, q, x);
      if Borrows(c, s, x, q) {
        PoolLogicMarks(c, s, x, None, p);
        DependentsMarks(c, PoolLogic(c, s, x, None), q, i + 1, p);
      } else {
        DependentsMarks(c, s, q, i + 1, p);
      }
    }
  }

  // ----- one event -----------------------------------------------------------------------------------

  /** Node `n` is marked after the event and was not before, or was not there. */
  ghost predicate Marks<N>(w: World<N>, e: Event<N>, n: N) {
    && n in Next(w, e).s.nodes && Next(w, e).s.nodes[n].minKept
    && (n in w.s.nodes ==> !w.s.nodes[n].minKept)
  }

  /** Pool `p` is FORCE_UP, short after the event, and serves `n`. */
  ghost predicate ForcesUp<N>(w: World<N>, p: string, n: N) {
    && p in w.c.pools && p in w.s.pools && w.c.pools[p].policy == ForceUp && IsShort(w, p) && n in w.s.pools[p].up
  }

  lemma MarksKeep<N>(w: World<N>, e: Event<N>, n: N, p: string)
    requires Inv(w) && n in w.s.nodes && p == w.c.nodes[n].parent && p in w.c.pools && n in w.c.pools[p].ids
    requires w.c.pools[p].policy != ForceUp && !e.PoolLoaded?
    ensures !Marks(w, e, n)
  {
    hide Good, LinksBut, Configured, PoolLogic, UpdatePfctl, NodeAfter;
    InvParts(w);
    if CanHappen(w, e) {
      match e
      case CheckEnds(_, _, _, _) => NodeMarksKeep(w, e, n, p);
      case DowntimeRead(_, _, _) => NodeMarksKeep(w, e, n, p);
      case SyncTimer(q, turns) => UpdatePfctlMarks(w.c, WithTurns(w.s, turns), q, p);
      case WorkerReceives(_) =>
      case TablesFound(_) =>
    }
  }

  lemma NodeMarksKeep<N>(w: World<N>, e: Event<N>, n: N, p: string)
    requires Inv(w) && n in w.s.nodes && p in w.c.pools && n in w.c.pools[p].ids
    requires w.c.pools[p].policy != ForceUp && CanHappen(w, e) && (e.CheckEnds? || e.DowntimeRead?)
    ensures !Marks(w, e, n)
  {
    hide Good, LinksBut, Configured, PoolLogic, NodeAfter, Next;
    InvParts(w);
    NextNode(w, e);
    NodeAfterAnnounced(w, e);
    PoolLogicMarks(w.c, Changed(w, e), w.c.nodes[e.n].parent, Some(e.n), p);
  }

  lemma OwnMarks<N>(w: World<N>, e: Event<N>, n: N, p: string)
    requires Inv(w) && p in w.c.pools && n in w.c.pools[p].ids && n in w.s.nodes && Concerns(w, e, p) && Marks(w, e, n)
    ensures NodeAfter(w, e).stateChanged && ForcesUp(Next(w, e), p, n)
  {
    hide Good, LinksBut, Configured, PoolLogic, NodeAfter, Next, Choose, Settled, Owned, InSync, Recompute, IsShort;
    hide Announced, Tidy, OneChoice;
    InvParts(w);
    InvPool(w, p);
    NextNode(w, e);
    NodeAfterAnnounced(w, e);
    var s := Changed(w, e);
    Unmarked(w, e, n);
    OwnEffect(w.c, s, p, e.n);
    if s.nodes[e.n].stateChanged {
      var ch := ChoiceFor(w.c, s, p, Some(e.n));
      RecomputedMark(w.c, s, p, e.n, n);
      ForcedOnly(w.c.pools[p], s.nodes, Some(e.n), BackupUp(w.c, s, p));
      Concerned(w, e, p);
      ShortAfter(w, e, p);
    }
  }

  lemma Unmarked<N>(w: World<N>, e: Event<N>, n: N)
    requires Shaped(w.c, w.s) && CanHappen(w, e) && (e.CheckEnds? || e.DowntimeRead?)
    requires n in w.s.nodes && !w.s.nodes[n].minKept && Announced(w.s.nodes[e.n], NodeAfter(w, e))
    ensures n in Changed(w, e).nodes && !Changed(w, e).nodes[n].minKept
  {
    hide NodeAfter;
  }

  lemma RecomputedMark<N>(c: Config<N>, s: State<N>, p: string, x: N, n: N)
    requires Shaped(c, s) && p in c.pools && n in s.nodes
    ensures var r, ch := Recompute(c, s, p, Some(x)), ChoiceFor(c, s, p, Some(x));
      && r.pools[p].up == ch.served && r.nodes[n].minKept == (s.nodes[n].minKept || n in ch.forced)
  {
    hide Choose;
  }

  lemma ShortAfter<N>(w: World<N>, e: Event<N>, p: string)
    requires Inv(w) && p in w.c.pools && Concerns(w, e, p)
    requires Next(w, e).c == w.c && Shaped(w.c, Next(w, e).s)
    requires Shaped(w.c, Changed(w, e)) && e.n in Changed(w, e).nodes
    requires OneChoice(w.c, Changed(w, e), Next(w, e).s, p, e.n)
    ensures var cfg := w.c.pools[p];
      IsShort(Next(w, e), p) <==> Short(cfg.minNodes, Capped(|UpOf(cfg.ids, Changed(w, e).nodes)|, cfg.maxNodes))
  {
    hide Good, LinksBut, Next, NodeAfter, Sound, Choose, UpOf;
    assert PoolConfigured(w.c, p);
    hide Configured;
    SameUp(w.c.pools[p].ids, Changed(w, e).nodes, Next(w, e).s.nodes);
  }

  lemma LoadMarks<N>(es: seq<Event<N>>, e: Event<N>, n: N)
    requires e.PoolLoaded? && CanHappen(Reached(es), e) && Marks(Reached(es), e, n)
    ensures n in e.cfg.ids && ForcesUp(Next(Reached(es), e), e.p, n)
  {
    hide Inv, Reached, Next, Configured, LoadedLate, LoadedAlone, Choose, WorkerTurn, FreshNode, IsShort;
    var w := Reached(es);
    ReachedInv(es);
    InvParts(w);
    NewPool(w, e);
    LoadedEitherWay(es, e);
    LoadedEffect(w, e);
    var m := w.s.nodes + e.nodes;
    var b := if e.cfg.backup in w.c.pools then Some(w.s.pools[e.cfg.backup].up) else None;
    ChoiceLocal(e.cfg, m, None, b);
    ForcedOnly(e.cfg, m, None, b);
    FreshUnmarked(w, e, n);
    LoadedShort(w, e);
  }

  lemma FreshUnmarked<N>(w: World<N>, e: Event<N>, n: N)
    requires Shaped(w.c, w.s) && e.PoolLoaded? && CanHappen(w, e)
    requires n in w.s.nodes ==> !w.s.nodes[n].minKept
    ensures n in w.s.nodes + e.nodes ==> !(w.s.nodes + e.nodes)[n].minKept
  {
    hide Configured;
  }

  lemma LoadedShort<N>(w: World<N>, e: Event<N>)
    requires Shaped(w.c, w.s) && e.PoolLoaded? && e.p !in w.c.pools && e.at <= |w.c.order|
    requires e.nodes.Keys == e.nodeCfgs.Keys && |e.cfg.ids| <= MAX_NODES
    ensures var r := LoadedAlone(w, e);
      && e.p in r.c.pools && r.c.pools[e.p] == e.cfg
      && (IsShort(r, e.p) <==>
            Short(e.cfg.minNodes, Capped(|UpOf(e.cfg.ids, w.s.nodes + e.nodes)|, e.cfg.maxNodes)))
  {
    hide LoadedAlone, Choose, UpOf, SetFlags, WorkerTurn;
    LoadedEffect(w, e);
    var ch := FirstChoice(w, e);
    FlagsUp(e.cfg.ids, w.s.nodes + e.nodes, ch.kept, ch.forced);
  }

  // ----- every run --------------------------------------------------------------------------------

  /** In every run: an event marks a node as forced up only if its pool is FORCE_UP, is short after the
      event, and serves the node then; and only by loading the pool or by an announced change of a
      node of the pool. */
  lemma MarkedOnlyWhenForced<N>(es: seq<Event<N>>, e: Event<N>, n: N)
    requires n in Reached(es + [e]).s.nodes && Reached(es + [e]).s.nodes[n].minKept
    requires n in Reached(es).s.nodes ==> !Reached(es).s.nodes[n].minKept
    ensures var w, w' := Reached(es), Reached(es + [e]);
      && n in w'.c.nodes
      && var p := w'.c.nodes[n].parent;
         && p in w'.c.pools && p in w'.s.pools
         && w'.c.pools[p].policy == ForceUp && IsShort(w', p) && n in w'.s.pools[p].up
         && ((e.PoolLoaded? && e.p == p) || (Concerns(w, e, p) && NodeAfter(w, e).stateChanged))
  {
    hide Inv, Reached, Next, Configured, NodeAfter, CanHappen, Settled, Owned, InSync, Link, IsShort;
    var w := Reached(es);
    ReachedInv(es);
    ReachedInv(es + [e]);
    ReachedNext(es, e);
    InvParts(w);
    InvParts(Reached(es + [e]));
    if !CanHappen(w, e) {
      CannotHappen(w, e);
      assert false;
    } else if e.PoolLoaded? {
      LoadMarks(es, e, n);
      LoadedParent(w, e, n);
    } else {
      NodesThere(w, e, n);
      var p := w.c.nodes[n].parent;
      InvPool(w, p);
      if Concerns(w, e, p) {
        OwnMarks(w, e, n, p);
      } else if w.c.pools[p].policy == ForceUp {
        NotBorrowing(w.c.pools[p], w.s.nodes, w.s.pools[p]);
        Unconcerned(w, e, p);
      } else {
        MarksKeep(w, e, n, p);
      }
    }
  }

  lemma NotBorrowing<N>(cfg: PoolCfg<N>, m: map<N, NodeV>, v: PoolV<N>)
    requires Settled(cfg, m, v) && cfg.policy == ForceUp
    ensures !v.active
  {
  }

  lemma CannotHappen<N>(w: World<N>, e: Event<N>)
    requires Shaped(w.c, w.s) && !CanHappen(w, e)
    ensures Next(w, e) == w
  {
  }

  lemma LoadedParent<N>(w: World<N>, e: Event<N>, n: N)
    requires Configured(w.c) && Shaped(w.c, w.s) && e.PoolLoaded? && CanHappen(w, e) && n in e.cfg.ids
    ensures n in Next(w, e).c.nodes && Next(w, e).c.nodes[n].parent == e.p
  {
    hide PoolLogic, FreshNode;
    assert PoolConfigured(Extend(w.c, e.p, e.cfg, e.at, e.nodeCfgs), e.p);
  }

  lemma NodesThere<N>(w: World<N>, e: Event<N>, n: N)
    requires Inv(w) && n in Next(w, e).s.nodes && !e.PoolLoaded?
    ensures n in w.s.nodes && Next(w, e).c == w.c && Next(w, e).s.pools.Keys == w.s.pools.Keys
    ensures w.c.nodes[n].parent in w.c.pools && n in w.c.pools[w.c.nodes[n].parent].ids
  {
    hide Good, LinksBut, PoolLogic, UpdatePfctl, EndCheck, ChangeDowntime, AdminFromConfig;
  }

  /** In every run: the mark stays until a check of the node's own completes and brings it up. */
  lemma MarkStays<N>(es: seq<Event<N>>, e: Event<N>, n: N)
    requires n in Reached(es).s.nodes && Reached(es).s.nodes[n].minKept
    ensures var w, w' := Reached(es), Reached(es + [e]);
      && n in w'.s.nodes
      && (!w'.s.nodes[n].minKept ==>
            && e.CheckEnds? && e.n == n
            && w.s.nodes[n].state == NodeDown && w'.s.nodes[n].state == NodeUp)
  {
    hide Inv, Reached, Next, Configured, AdminFromConfig;
    var w := Reached(es);
    ReachedInv(es);
    ReachedNext(es, e);
    InvParts(w);
    NodeFollows(w, e, n);
    if e.CheckEnds? && e.n == n && CanHappen(w, e) {
      EndCheckMeaning(w.s.nodes[n], e.k, e.result);
    }
  }
}
