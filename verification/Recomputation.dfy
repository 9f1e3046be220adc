/** Recomputing only when a node announces a change: repeating a recomputation is harmless, and
    exactly when skipping it is. */
module Recomputation {
  import opened Domain
  import opened Selection
  import opened NodeRules
  import opened Wire
  import opened Fleet
  import opened Invariants
  import opened Runs
  import opened Frames
  import opened Guarantees
  import opened Stability

  // ----- recomputing a settled pool ---------------------------------------------------------

  /** A settled pool chooses the same nodes within max_nodes again. */
  lemma SameKept<N>(cfg: PoolCfg<N>, m: map<N, NodeV>, v: PoolV<N>, last: Option<N>, b: Option<set<N>>)
    requires Normalised(cfg) && LastOk(cfg.ids, last) && Settled(cfg, m, v)
    ensures Choose(cfg, m, last, b).kept == KeptOf(cfg.ids, m)
    ensures Sound(cfg, m, Choose(cfg, m, last, b), b)
  {
    hide Choose;
    ChooseSound(cfg, m, last, b);
    SubsetSize(KeptOf(cfg.ids, m), Choose(cfg, m, last, b).kept);
  }

  /** Recomputing pool `p` may move it, although none of its nodes has changed. */
  ghost predicate MayMove<N>(c: Config<N>, s: State<N>, p: string)
    requires Shaped(c, s) && p in c.pools
  {
    var cfg := c.pools[p];
    && Short(cfg.minNodes, Capped(|UpOf(cfg.ids, s.nodes)|, cfg.maxNodes))
    && match cfg.policy
       case ForceDown => false
       case ForceUp => cfg.minNodes < |EnabledOf(cfg.ids, s.nodes)|
       case BackupPool => !s.pools[p].active && cfg.backup in c.pools
  }

  ghost predicate Moves<N>(c: Config<N>, s: State<N>, p: string, last: Option<N>)
    requires Shaped(c, s) && p in c.pools
  {
    var ch := ChoiceFor(c, s, p, last);
    ch.served != s.pools[p].up || ch.active != s.pools[p].active
  }

  lemma StaysPut<N>(c: Config<N>, s: State<N>, p: string, last: Option<N>)
    requires Configured(c) && Shaped(c, s) && p in c.pools && LastOk(c.pools[p].ids, last)
    requires Settled(c.pools[p], s.nodes, s.pools[p]) && Link(c, s, p)
    requires !MayMove(c, s, p)
    ensures !Moves(c, s, p, last)
  {
    hide Choose;
    assert PoolConfigured(c, p);
    var cfg := c.pools[p];
    var ch := ChoiceFor(c, s, p, last);
    SameKept(cfg, s.nodes, s.pools[p], last, BackupUp(c, s, p));
    if Short(cfg.minNodes, |ch.kept|) && cfg.policy.ForceUp? {
      SubsetSize(ch.served, EnabledOf(cfg.ids, s.nodes));
      SubsetSize(s.pools[p].up, EnabledOf(cfg.ids, s.nodes));
    }
    if Short(cfg.minNodes, |ch.kept|) && cfg.policy.BackupPool? && s.pools[p].active {
      ActiveAgain(cfg, s.nodes, last, BackupUp(c, s, p));
    }
  }

  lemma ActiveAgain<N>(cfg: PoolCfg<N>, m: map<N, NodeV>, last: Option<N>, b: Option<set<N>>)
    requires cfg.policy.BackupPool? && b.Some? && Short(cfg.minNodes, |Choose(cfg, m, last, b).kept|)
    ensures Choose(cfg, m, last, b).active
  {
  }

  /** A pool that may move does so for some node reporting in. */
  lemma CanMove<N>(c: Config<N>, s: State<N>, p: string) returns (last: Option<N>)
    requires Configured(c) && Shaped(c, s) && p in c.pools
    requires Settled(c.pools[p], s.nodes, s.pools[p]) && Link(c, s, p)
    requires MayMove(c, s, p)
    ensures LastOk(c.pools[p].ids, last) && Moves(c, s, p, last)
  {
    hide WithinMax;
    assert PoolConfigured(c, p);
    var cfg := c.pools[p];
    var enabled := EnabledOf(cfg.ids, s.nodes);
    if cfg.policy.BackupPool? {
      last := None;
      SameKept(cfg, s.nodes, s.pools[p], last, BackupUp(c, s, p));
    } else {
      if enabled <= s.pools[p].up {
        SubsetSize(enabled, s.pools[p].up);
        assert false;
      }
      var x :| x in enabled && x !in s.pools[p].up;
      last := Some(x);
      SubsetSize(KeptOf(cfg.ids, s.nodes), UpOf(cfg.ids, s.nodes));
      assert x !in UpOf(cfg.ids, s.nodes);
      SameKept(cfg, s.nodes, s.pools[p], last, BackupUp(c, s, p));
      ForceUpFacts(cfg, s.nodes, last);
      assert x in ForcedFirst(s.nodes, last);
    }
  }

  /** In every run: recomputing a pool while its nodes are unchanged is without effect on what it
      serves, whichever node reports, exactly when the pool is not short, or is forced down,
      or has no spare enabled node, or already borrows, or has nobody to borrow from. */
  lemma GateExact<N(!new)>(es: seq<Event<N>>, p: string)
    requires p in Reached(es).c.pools
    ensures var w := Reached(es);
      (forall last: Option<N> | LastOk(w.c.pools[p].ids, last) :: !Moves(w.c, w.s, p, last)) <==> !MayMove(w.c, w.s, p)
  {
    hide Inv, Reached, Settled, Owned, InSync, Moves, MayMove, Link;
    ReachedInv(es);
    var w := Reached(es);
    InvPool(w, p);
    InvParts(w);
    if MayMove(w.c, w.s, p) {
      var last := CanMove(w.c, w.s, p);
    } else {
      forall last: Option<N> | LastOk(w.c.pools[p].ids, last)
        ensures !Moves(w.c, w.s, p, last)
      {
        StaysPut(w.c, w.s, p, last);
      }
    }
  }

  // ----- repeating a recomputation -----------------------------------------------------------

  /** Walking again, with the nodes taken by the last walk now among the preferred ones, ends in
      the same set and takes no node that was not preferred or taken before. */
  lemma WalkAgain<N>(w: set<N>, ids: seq<N>, preferred: set<N>, others: set<N>, limit: nat)
    requires limit > 0 && |w| <= limit && preferred <= others && forall n | n in others :: n in ids
    ensures
      var w2 := w + Visit(w, ids, preferred, limit);
      var any := Visit(w2, ids, others, limit);
      var w3 := w + Visit(w, ids, preferred + any, limit);
      var any' := Visit(w3, ids, others, limit);
      w3 + any' == w2 + any && any' <= preferred + any
  {
    hide Visit;
    var w2 := w + Visit(w, ids, preferred, limit);
    VisitFacts(w, ids, preferred, limit);
    var any := Visit(w2, ids, others, limit);
    VisitFacts(w2, ids, others, limit);
    FullVisit(w2, ids, others, limit);
    var w3 := w + Visit(w, ids, preferred + any, limit);
    VisitFacts(w, ids, preferred + any, limit);
    var any' := Visit(w3, ids, others, limit);
    VisitFacts(w3, ids, others, limit);
    FullVisit(w3, ids, others, limit);
    if |w2| == limit {
      assert preferred + any == preferred;
    } else {
      assert w2 + any == w + preferred + any;
      if |w3| == limit {
        SubsetSize(w3, w2 + any);
      } else {
        assert w3 == w2 + any;
        assert others <= any;
      }
    }
  }

  lemma FlaggedSets<N>(ids: seq<N>, m: map<N, NodeV>, last: Option<N>, kept: set<N>, forced: set<N>)
    requires kept <= UpOf(ids, m) && forced <= EnabledOf(ids, m)
    ensures var m' := SetFlags(m, kept, forced);
      && ForcedFirst(m', last) == ForcedFirst(m, last)
      && OthersOf(ids, m', last) == OthersOf(ids, m, last)
      && ForcedOf(ids, m') == ForcedOf(ids, m) + forced
  {
    SetFlagsSets(ids, m, kept, forced);
  }

  lemma ForceUpAgain<N>(cfg: PoolCfg<N>, m: map<N, NodeV>, last: Option<N>)
    requires LastOk(cfg.ids, last) && Short(cfg.minNodes, |UpOf(cfg.ids, m)|)
    ensures
      var ch := ForceUpChoice(cfg, m, last, UpOf(cfg.ids, m));
      var m' := SetFlags(m, UpOf(cfg.ids, m), ch.forced);
      var ch' := ForceUpChoice(cfg, m', last, UpOf(cfg.ids, m));
      ch'.served == ch.served && ch'.forced <= ForcedOf(cfg.ids, m')
  {
    hide Visit, UpOf, ForcedOf, EnabledOf, OthersOf, SetFlags;
    var up := UpOf(cfg.ids, m);
    var ch := ForceUpChoice(cfg, m, last, up);
    var first, others, forced := ForcedFirst(m, last), OthersOf(cfg.ids, m, last), ForcedOf(cfg.ids, m);
    var w1 := up + first;
    var any := Visit(w1 + Visit(w1, cfg.ids, others * forced, cfg.minNodes), cfg.ids, others, cfg.minNodes);
    assert any <= others && first !! others && (forall n | n in others :: n in cfg.ids) by {
      VisitFacts(w1 + Visit(w1, cfg.ids, others * forced, cfg.minNodes), cfg.ids, others, cfg.minNodes);
      OthersFacts(cfg.ids, m, last);
    }
    ForceUpFacts(cfg, m, last);
    FlaggedSets(cfg.ids, m, last, up, ch.forced);
    assert others * (forced + (first + any)) == others * forced + any;
    WalkAgain(w1, cfg.ids, others * forced, others, cfg.minNodes);
  }

  lemma OthersFacts<N>(ids: seq<N>, m: map<N, NodeV>, last: Option<N>)
    ensures ForcedFirst(m, last) !! OthersOf(ids, m, last)
    ensures forall n | n in OthersOf(ids, m, last) :: n in ids
  {
  }

  lemma FlagsTwice<N>(ids: seq<N>, m: map<N, NodeV>, kept: set<N>, forced: set<N>)
    requires kept <= KeptOf(ids, m) && forced <= ForcedOf(ids, m)
    ensures SetFlags(m, kept, forced) == m
  {
  }

  lemma AdoptTwice<N>(s: State<N>, p: string, ch: Choice<N>, ch': Choice<N>)
    requires p in s.pools
    requires ch'.served == ch.served && ch'.active == ch.active
    requires SetFlags(Adopt(s, p, ch).nodes, ch'.kept, ch'.forced) == Adopt(s, p, ch).nodes
    ensures Adopt(Adopt(s, p, ch), p, ch') == Adopt(s, p, ch)
  {
    var r := Adopt(s, p, ch);
    assert r.pools[p := Adopted(r.pools[p], ch')] == r.pools;
  }

  /** Recomputing a pool twice for the same report is recomputing it once, flags included. */
  lemma Idempotent<N>(c: Config<N>, s: State<N>, p: string, last: Option<N>)
    requires Configured(c) && Shaped(c, s) && p in c.pools && LastOk(c.pools[p].ids, last)
    requires Tidy(c.pools[p], s.nodes, s.pools[p])
    ensures Recompute(c, Recompute(c, s, p, last), p, last) == Recompute(c, s, p, last)
  {
    hide Choose, Settled, SetFlags, Sound, Adopted, KeptOf, ForcedOf, UpOf;
    assert PoolConfigured(c, p);
    var cfg, b := c.pools[p], BackupUp(c, s, p);
    hide Configured, PoolConfigured;
    var ch := Choose(cfg, s.nodes, last, b);
    var r := Adopt(s, p, ch);
    ChooseSound(cfg, s.nodes, last, b);
    AdoptSettles(cfg, s.nodes, ch, b, s.pools[p]);
    var ch' := Choose(cfg, r.nodes, last, b);
    SameKept(cfg, r.nodes, r.pools[p], last, b);
    ChooseAgain(cfg, s.nodes, last, b);
    FlagsTwice(cfg.ids, r.nodes, ch'.kept, ch'.forced);
    AdoptTwice(s, p, ch, ch');
    BackupAgain(c, s, p, ch, last);
  }

  /** What a pool adopts does not change what it could borrow. */
  lemma BackupAgain<N>(c: Config<N>, s: State<N>, p: string, ch: Choice<N>, last: Option<N>)
    requires Configured(c) && Shaped(c, s) && p in c.pools
    ensures var r := Adopt(s, p, ch);
      Choose(c.pools[p], r.nodes, last, BackupUp(c, r, p)) == Choose(c.pools[p], r.nodes, last, BackupUp(c, s, p))
  {
    hide Choose, SetFlags, Adopted;
    assert PoolConfigured(c, p);
    var r := Adopt(s, p, ch);
    if !MayBorrow(c.pools[p]) {
      NeverBorrows(c.pools[p], r.nodes, last, BackupUp(c, r, p), BackupUp(c, s, p));
    }
  }

  lemma ChooseAgain<N>(cfg: PoolCfg<N>, m: map<N, NodeV>, last: Option<N>, b: Option<set<N>>)
    requires Normalised(cfg) && LastOk(cfg.ids, last) && FlagsOk(cfg, m)
    ensures
      var ch := Choose(cfg, m, last, b);
      var m' := SetFlags(m, ch.kept, ch.forced);
      var ch' := Choose(cfg, m', last, b);
      ch'.served == ch.served && ch'.active == ch.active && ch'.forced <= ForcedOf(cfg.ids, m')
  {
    hide WithinMax, Visit, OthersOf, ForcedOf, ForcedFirst, UpOf, KeptOf, EnabledOf, SetFlags;
    var ch := Choose(cfg, m, last, b);
    var m' := SetFlags(m, ch.kept, ch.forced);
    ChooseSound(cfg, m, last, b);
    var v := PoolV({}, false, false, false);
    AdoptSettles(cfg, m, ch, b, v);
    SameKept(cfg, m', Adopted(v, ch), last, b);
    SetFlagsSets(cfg.ids, m, ch.kept, ch.forced);
    assert KeptOf(cfg.ids, m) + ch.kept == ch.kept;
    assert WithinMax(cfg.ids, cfg.maxNodes, m') == ch.kept == WithinMax(cfg.ids, cfg.maxNodes, m);
    if Short(cfg.minNodes, |ch.kept|) && cfg.policy.ForceUp? {
      ShortTakesAll(cfg, m);
      ForceUpAgain(cfg, m, last);
    }
  }

  // ----- recomputing on every report -----------------------------------------------------------

  /** The system that ignores whether a node announces a change. */
  ghost function NextAlways<N>(w: World<N>, e: Event<N>): World<N> {
    if Configured(w.c) && Shaped(w.c, w.s) && CanHappen(w, e) && (e.CheckEnds? || e.DowntimeRead?) then
      var p := w.c.nodes[e.n].parent;
      w.(s := UpdatePfctl(w.c, Recompute(w.c, Changed(w, e), p, Some(e.n)), p))
    else Next(w, e)
  }

  ghost function RunAlways<N>(w: World<N>, es: seq<Event<N>>): World<N>
    decreases |es|
  {
    if es == [] then w else NextAlways(RunAlways(w, es[..|es| - 1]), es[|es| - 1])
  }

  lemma AlwaysNode<N>(w: World<N>, e: Event<N>)
    requires Configured(w.c) && Shaped(w.c, w.s) && CanHappen(w, e) && (e.CheckEnds? || e.DowntimeRead?)
    ensures e.n in w.s.nodes && e.n in w.c.nodes
    ensures var p := w.c.nodes[e.n].parent;
      && p in w.c.pools && e.n in w.c.pools[p].ids && Shaped(w.c, Changed(w, e))
      && NextAlways(w, e) == w.(s := UpdatePfctl(w.c, Recompute(w.c, Changed(w, e), p, Some(e.n)), p))
  {
    hide UpdatePfctl, Recompute, NodeAfter, Next;
  }

  lemma AlwaysOther<N>(w: World<N>, e: Event<N>)
    requires Shaped(w.c, w.s) && !(CanHappen(w, e) && (e.CheckEnds? || e.DowntimeRead?))
    ensures NextAlways(w, e) == Next(w, e)
  {
    hide UpdatePfctl, Recompute, NodeAfter, Next, Configured;
  }

  lemma AlwaysInv<N>(w: World<N>, e: Event<N>)
    requires Inv(w)
    ensures Inv(NextAlways(w, e))
  {
    hide Good, LinksBut, UpdatePfctl, Recompute, NodeAfter, Announced, NodesOk, Next, NextAlways, CanHappen, Configured;
    if CanHappen(w, e) && (e.CheckEnds? || e.DowntimeRead?) {
      AlwaysNode(w, e);
      NodeAfterAnnounced(w, e);
      ChangedGood(w, e);
      var p, s := w.c.nodes[e.n].parent, Changed(w, e);
      RecomputeGood(w.c, s, p, Some(e.n), if s.nodes[e.n].stateChanged then {p} else {}, {});
      assert {} - {p} + UsersOf(w.c, p) == {} + UsersOf(w.c, p);
      UpdatePfctlGood(w.c, Recompute(w.c, s, p, Some(e.n)), p, {});
    } else {
      AlwaysOther(w, e);
      NextInv(w, e);
    }
  }

  lemma ChangedGood<N>(w: World<N>, e: Event<N>)
    requires Inv(w) && CanHappen(w, e) && (e.CheckEnds? || e.DowntimeRead?)
    requires Announced(w.s.nodes[e.n], NodeAfter(w, e))
    ensures var s := Changed(w, e);
      && Shaped(w.c, s) && LinksBut(w.c, s, {})
      && Good(w.c, s, if s.nodes[e.n].stateChanged then {w.c.nodes[e.n].parent} else {})
  {
    hide Good, LinksBut, NodeAfter, Announced, Configured;
    WithTurnsGood(w.c, w.s, e.turns);
    NodeChangeGood(w.c, WithTurns(w.s, e.turns), e.n, NodeAfter(w, e));
  }

  /** A pool that is forced down in a shortage looks at nothing but its own nodes. */
  lemma ForceDownChoice<N>(cfg: PoolCfg<N>, m: map<N, NodeV>, m': map<N, NodeV>, last: Option<N>, b: Option<set<N>>,
                           b': Option<set<N>>)
    requires cfg.policy.ForceDown? && forall n | n in cfg.ids :: n in m && n in m' && m'[n] == m[n]
    ensures Choose(cfg, m', last, b') == Choose(cfg, m, last, b)
  {
    hide Visit;
    assert UpOf(cfg.ids, m') == UpOf(cfg.ids, m);
    assert KeptOf(cfg.ids, m') == KeptOf(cfg.ids, m);
  }

  lemma RecomputeNothing<N>(c: Config<N>, s: State<N>, p: string, last: Option<N>)
    requires Configured(c) && Shaped(c, s) && p in c.pools && LastOk(c.pools[p].ids, last)
    requires Settled(c.pools[p], s.nodes, s.pools[p]) && Link(c, s, p) && c.pools[p].policy.ForceDown?
    ensures Recompute(c, s, p, last) == s
  {
    hide Choose, Settled, SetFlags, KeptOf, ForcedOf, UpOf;
    assert PoolConfigured(c, p);
    var cfg, b := c.pools[p], BackupUp(c, s, p);
    SameKept(cfg, s.nodes, s.pools[p], last, b);
    NoForced(cfg, s.nodes, last, b);
    StaysPut(c, s, p, last);
    FlagsTwice(cfg.ids, s.nodes, KeptOf(cfg.ids, s.nodes), {});
    assert s.pools[p := s.pools[p]] == s.pools;
  }

  lemma NoForced<N>(cfg: PoolCfg<N>, m: map<N, NodeV>, last: Option<N>, b: Option<set<N>>)
    requires cfg.policy.ForceDown?
    ensures Choose(cfg, m, last, b).forced == {}
  {
  }

  /** Recomputing a forced-down pool in two systems in which its nodes are the same. */
  lemma RecomputeAlike<N>(c: Config<N>, s: State<N>, r: State<N>, p: string, last: Option<N>)
    requires Shaped(c, s) && Shaped(c, r) && p in c.pools && c.pools[p].policy.ForceDown?
    requires forall n | n in c.pools[p].ids :: n in s.nodes && r.nodes[n] == s.nodes[n]
    ensures Unmoved(World(c, Recompute(c, s, p, last)), World(c, Recompute(c, r, p, last)), p)
  {
    hide Choose;
    ForceDownChoice(c.pools[p], s.nodes, r.nodes, last, BackupUp(c, s, p), BackupUp(c, r, p));
  }

  lemma UnmovedChain<N>(u: World<N>, v: World<N>, w: World<N>, p: string)
    requires Unmoved(u, v, p)
    ensures Unmoved(v, u, p)
    ensures Unmoved(v, w, p) ==> Unmoved(u, w, p)
  {
  }

  /** An update of pool `p` that has just been recomputed moves it no further. */
  lemma UpdateUnmoved<N>(c: Config<N>, s: State<N>, p: string)
    requires Configured(c) && Shaped(c, s) && p in c.pools
    ensures Unmoved(World(c, s), World(c, UpdatePfctl(c, s, p)), p)
  {
    hide UpdatePfctl, Snapshot, WorkerTurn;
    assert PoolConfigured(c, p);
    UpdatePfctlSame(c, s, p, p);
  }

  /** Both systems bring a forced-down pool with a changed node to where recomputing it leads. */
  lemma AlwaysOwn<N>(w: World<N>, e: Event<N>, p: string)
    requires Inv(w) && Concerns(w, e, p) && p in w.c.pools && w.c.pools[p].policy.ForceDown?
    ensures e.n in w.c.pools[p].ids && Shaped(w.c, Changed(w, e))
    ensures var w1 := World(w.c, Recompute(w.c, Changed(w, e), p, Some(e.n)));
      Unmoved(w1, Next(w, e), p) && Unmoved(w1, NextAlways(w, e), p)
  {
    hide Good, LinksBut, UpdatePfctl, Recompute, EndCheck, ChangeDowntime, AdminFromConfig, Settled, Tidy, NodesOk,
         Announced, Next, Owned, InSync, Configured, Unmoved;
    NextNode(w, e);
    InvPool(w, p);
    InvParts(w);
    var s := Changed(w, e);
    var s1 := Recompute(w.c, s, p, Some(e.n));
    UpdateUnmoved(w.c, s1, p);
    if !s.nodes[e.n].stateChanged {
      NodeAfterAnnounced(w, e);
      NodeChangeOwn(w.c.pools[p], w.s.nodes, e.n, NodeAfter(w, e), w.s.pools[p]);
      RecomputeNothing(w.c, s, p, Some(e.n));
    }
    assert PoolLogic(w.c, s, p, Some(e.n)) == UpdatePfctl(w.c, s1, p);
  }

  lemma AlwaysUnconcernedNode<N>(w: World<N>, e: Event<N>, p: string)
    requires Configured(w.c) && Shaped(w.c, w.s) && CanHappen(w, e) && (e.CheckEnds? || e.DowntimeRead?)
    requires p in w.c.pools && !w.s.pools[p].active && w.c.nodes[e.n].parent != p
    ensures Unmoved(w, NextAlways(w, e), p)
  {
    hide Recompute, UpdatePfctl, NodeAfter, Next, NextAlways, CanHappen;
    hide Configured, Same, Unmoved, Changed;
    AlwaysNode(w, e);
    var q, s := w.c.nodes[e.n].parent, Changed(w, e);
    ChangedOthers(w, e, p);
    RecomputeSame(w.c, s, q, Some(e.n), p);
    var s1 := Recompute(w.c, s, q, Some(e.n));
    SameUnmoved(w.c, s, s1, p);
    UpdatePfctlSame(w.c, s1, q, p);
    SameUnmoved(w.c, s1, UpdatePfctl(w.c, s1, q), p);
    UnmovedChain(w, World(w.c, s), World(w.c, s1), p);
    UnmovedChain(w, World(w.c, s1), NextAlways(w, e), p);
  }

  lemma SameUnmoved<N>(c: Config<N>, s: State<N>, r: State<N>, p: string)
    requires Configured(c) && Shaped(c, s) && Shaped(c, r) && p in c.pools && Same(c, s, r, p)
    ensures Unmoved(World(c, s), World(c, r), p) && r.pools[p].active == s.pools[p].active
  {
    assert PoolConfigured(c, p);
  }

  lemma ChangedOthers<N>(w: World<N>, e: Event<N>, p: string)
    requires Configured(w.c) && Shaped(w.c, w.s) && CanHappen(w, e) && (e.CheckEnds? || e.DowntimeRead?)
    requires p in w.c.pools && w.c.nodes[e.n].parent != p
    ensures Unmoved(w, World(w.c, Changed(w, e)), p) && Shaped(w.c, Changed(w, e))
    ensures Changed(w, e).pools[p].active == w.s.pools[p].active
  {
    hide NodeAfter;
    assert PoolConfigured(w.c, p);
  }

  lemma AlwaysUnconcerned<N>(w: World<N>, e: Event<N>, p: string)
    requires Inv(w) && p in w.c.pools && !w.s.pools[p].active && !Concerns(w, e, p)
    ensures Unmoved(w, NextAlways(w, e), p)
  {
    hide Good, LinksBut, Configured, Unmoved, Next, Recompute, UpdatePfctl;
    if CanHappen(w, e) && (e.CheckEnds? || e.DowntimeRead?) {
      AlwaysUnconcernedNode(w, e, p);
    } else {
      Unconcerned(w, e, p);
    }
  }

  /** A pool that has just been loaded is where recomputing it leads. */
  lemma LoadedUnmoved<N>(w: World<N>, e: Event<N>)
    requires Inv(w) && e.PoolLoaded? && CanHappen(w, e)
    ensures var c := Extend(w.c, e.p, e.cfg, e.at, e.nodeCfgs);
      var s := WithPool(WithTurns(w.s, e.turns), e.p, e.nodes);
      && Configured(c) && Shaped(c, s)
      && Unmoved(World(c, Recompute(c, s, e.p, None)), Next(w, e), e.p)
  {
    hide Good, LinksBut, Configured, Unmoved, Recompute, UpdatePfctl;
    InvParts(w);
    NewPool(w, e);
    var c, s := Extend(w.c, e.p, e.cfg, e.at, e.nodeCfgs), WithPool(WithTurns(w.s, e.turns), e.p, e.nodes);
    UpdateUnmoved(c, Recompute(c, s, e.p, None), e.p);
    assert PoolLogic(c, s, e.p, None) == UpdatePfctl(c, Recompute(c, s, e.p, None), e.p);
  }

  // ----- the two systems side by side ------------------------------------------------------------

  /** Equal configurations, equal nodes up to the kept flags, and forced-down pools that agree. */
  ghost predicate Similar<N>(w: World<N>, a: World<N>) {
    && a.c == w.c && FlagsOnly(w.s, a.s)
    && forall p | p in w.c.pools && w.c.pools[p].policy.ForceDown? :: Unmoved(w, a, p)
  }

  lemma SimilarHappen<N>(w: World<N>, a: World<N>, e: Event<N>)
    requires Shaped(w.c, w.s) && Shaped(a.c, a.s) && Similar(w, a)
    requires !e.SyncTimer? && !e.WorkerReceives? && !e.TablesFound?
    ensures CanHappen(a, e) <==> CanHappen(w, e)
  {
    hide Configured, Unmoved;
  }

  lemma NodeAfterFollows<N>(w: World<N>, a: World<N>, e: Event<N>)
    requires Shaped(w.c, w.s) && Shaped(a.c, a.s) && CanHappen(w, e) && CanHappen(a, e)
    requires e.CheckEnds? || e.DowntimeRead?
    requires Follows(w.s.nodes[e.n], a.s.nodes[e.n])
    ensures Follows(NodeAfter(w, e), NodeAfter(a, e))
  {
    hide AllUp, AnyDrain, AnyRan, HandleResult, AdminFromConfig;
  }

  lemma AlwaysFlags<N>(w: World<N>, e: Event<N>)
    requires Configured(w.c) && Shaped(w.c, w.s) && CanHappen(w, e) && (e.CheckEnds? || e.DowntimeRead?)
    ensures FlagsSet(Changed(w, e), NextAlways(w, e).s)
  {
    hide Configured, Recompute, UpdatePfctl, NodeAfter, NextAlways, CanHappen, FlagsSet, Changed;
    AlwaysNode(w, e);
    var p, s := w.c.nodes[e.n].parent, Changed(w, e);
    RecomputeFlags(w.c, s, p, Some(e.n));
    var s1 := Recompute(w.c, s, p, Some(e.n));
    UpdatePfctlFlags(w.c, s1, p);
    FlagsChain(s, s1, UpdatePfctl(w.c, s1, p));
  }

  /** Up to its kept flags, a node changes in the same way in both systems. */
  lemma AlwaysFollows<N>(w: World<N>, e: Event<N>, n: N)
    requires Inv(w) && n in w.s.nodes
    ensures n in NextAlways(w, e).s.nodes
    ensures Follows(if ChangesNode(w, e, n) && CanHappen(w, e) then NodeAfter(w, e) else w.s.nodes[n],
                    NextAlways(w, e).s.nodes[n])
  {
    hide Good, LinksBut, Recompute, UpdatePfctl, NodeAfter, Configured, Next, NextAlways, CanHappen;
    InvParts(w);
    if CanHappen(w, e) && (e.CheckEnds? || e.DowntimeRead?) {
      AlwaysNode(w, e);
      AlwaysFlags(w, e);
    } else {
      AlwaysOther(w, e);
      NodeFollows(w, e, n);
    }
  }

  lemma ConfigAfter<N>(w: World<N>, e: Event<N>)
    requires Inv(w)
    ensures Next(w, e).c == NextAlways(w, e).c
    ensures Next(w, e).c == if e.PoolLoaded? && CanHappen(w, e) then Extend(w.c, e.p, e.cfg, e.at, e.nodeCfgs) else w.c
  {
    hide Good, LinksBut, PoolLogic, UpdatePfctl, Recompute, EndCheck, ChangeDowntime, AdminFromConfig;
    InvParts(w);
  }

  lemma SimilarFlags<N>(w: World<N>, a: World<N>, e: Event<N>)
    requires Inv(w) && Inv(a) && Similar(w, a)
    ensures FlagsOnly(Next(w, e).s, NextAlways(a, e).s)
  {
    hide Inv, Next, NextAlways, Unmoved, NodeAfter, Configured, CanHappen;
    var w', a' := Next(w, e), NextAlways(a, e);
    NextInv(w, e);
    AlwaysInv(a, e);
    InvParts(w);
    InvParts(a);
    InvParts(w');
    InvParts(a');
    ConfigAfter(w, e);
    ConfigAfter(a, e);
    if e.PoolLoaded? {
      SimilarHappen(w, a, e);
    }
    forall n | n in w'.s.nodes
      ensures n in a'.s.nodes && Follows(w'.s.nodes[n], a'.s.nodes[n])
    {
      if n in w.s.nodes {
        SimilarNode(w, a, e, n);
      } else {
        NewNodes(w, e, n);
        SimilarNew(w, a, e, n);
      }
    }
  }

  lemma SimilarNode<N>(w: World<N>, a: World<N>, e: Event<N>, n: N)
    requires Inv(w) && Inv(a) && Similar(w, a) && n in w.s.nodes
    ensures n in Next(w, e).s.nodes && n in NextAlways(a, e).s.nodes
    ensures Follows(Next(w, e).s.nodes[n], NextAlways(a, e).s.nodes[n])
  {
    hide Inv, Next, NextAlways, Unmoved, NodeAfter, CanHappen;
    InvParts(w);
    InvParts(a);
    NodeFollows(w, e, n);
    AlwaysFollows(a, e, n);
    if ChangesNode(w, e, n) {
      SimilarHappen(w, a, e);
      if CanHappen(w, e) {
        NodeAfterFollows(w, a, e);
      }
    }
  }

  lemma SimilarNew<N>(w: World<N>, a: World<N>, e: Event<N>, n: N)
    requires Inv(w) && Inv(a) && Similar(w, a) && e.PoolLoaded? && CanHappen(w, e) && n in e.nodes
    ensures n in Next(w, e).s.nodes && n in NextAlways(a, e).s.nodes
    ensures Follows(Next(w, e).s.nodes[n], NextAlways(a, e).s.nodes[n])
  {
    hide Inv, Next, NextAlways, Unmoved, CanHappen;
    InvParts(w);
    InvParts(a);
    SimilarHappen(w, a, e);
    LoadedNodes(w, e);
    LoadedNodes(a, e);
    AlwaysOther(a, e);
  }

  lemma NewNodes<N>(w: World<N>, e: Event<N>, n: N)
    requires Inv(w) && Inv(Next(w, e)) && n in Next(w, e).s.nodes && n !in w.s.nodes
    ensures e.PoolLoaded? && CanHappen(w, e) && n in e.nodes
  {
    hide Next, Good, LinksBut, Configured;
    ConfigAfter(w, e);
  }

  lemma SimilarPool<N>(w: World<N>, a: World<N>, e: Event<N>, p: string)
    requires Inv(w) && Inv(a) && Similar(w, a) && p in w.c.pools && w.c.pools[p].policy.ForceDown?
    ensures Unmoved(Next(w, e), NextAlways(a, e), p)
  {
    hide Good, LinksBut, Configured, Next, NextAlways, NodeAfter, Settled, Owned, InSync, Recompute;
    InvPool(w, p);
    InvPool(a, p);
    ForceDownIdle(w.c.pools[p], w.s.nodes, w.s.pools[p]);
    ForceDownIdle(a.c.pools[p], a.s.nodes, a.s.pools[p]);
    if e.CheckEnds? || e.DowntimeRead? {
      SimilarHappen(w, a, e);
    }
    if Concerns(w, e, p) {
      AlwaysOwn(w, e, p);
      AlwaysOwn(a, e, p);
      ChangedAlike(w, a, e, p);
      RecomputeAlike(w.c, Changed(w, e), Changed(a, e), p, Some(e.n));
    } else {
      Unconcerned(w, e, p);
      AlwaysUnconcerned(a, e, p);
    }
  }

  lemma ChangedAlike<N>(w: World<N>, a: World<N>, e: Event<N>, p: string)
    requires Shaped(w.c, w.s) && Shaped(a.c, a.s) && a.c == w.c && Unmoved(w, a, p)
    requires CanHappen(w, e) && CanHappen(a, e) && (e.CheckEnds? || e.DowntimeRead?) && e.n in w.c.pools[p].ids
    ensures forall n | n in w.c.pools[p].ids ::
      && n in Changed(w, e).nodes && n in Changed(a, e).nodes
      && Changed(a, e).nodes[n] == Changed(w, e).nodes[n]
  {
    hide EndCheck, ChangeDowntime, AdminFromConfig;
  }

  lemma ForceDownIdle<N>(cfg: PoolCfg<N>, m: map<N, NodeV>, v: PoolV<N>)
    requires Settled(cfg, m, v) && cfg.policy.ForceDown?
    ensures !v.active
  {
  }

  lemma SimilarLoaded<N>(w: World<N>, a: World<N>, e: Event<N>)
    requires Inv(w) && Inv(a) && Similar(w, a) && e.PoolLoaded? && CanHappen(w, e) && e.cfg.policy.ForceDown?
    ensures Unmoved(Next(w, e), NextAlways(a, e), e.p)
  {
    hide Good, LinksBut, Configured, Next, Recompute;
    SimilarHappen(w, a, e);
    AlwaysOther(a, e);
    LoadedUnmoved(w, e);
    LoadedUnmoved(a, e);
    InvParts(w);
    InvParts(a);
    NewPool(w, e);
    var c := Extend(w.c, e.p, e.cfg, e.at, e.nodeCfgs);
    LoadedIds(w.c, e.p, e.cfg, e.at, e.nodeCfgs);
    RecomputeAlike(c, WithPool(WithTurns(w.s, e.turns), e.p, e.nodes),
                   WithPool(WithTurns(a.s, e.turns), e.p, e.nodes), e.p, None);
  }

  lemma SimilarStep<N>(w: World<N>, a: World<N>, e: Event<N>)
    requires Inv(w) && Inv(a) && Similar(w, a)
    ensures Similar(Next(w, e), NextAlways(a, e))
  {
    hide Inv, Next, NextAlways, Unmoved, FlagsOnly, Configured;
    InvParts(w);
    InvParts(a);
    ConfigAfter(w, e);
    ConfigAfter(a, e);
    SimilarFlags(w, a, e);
    if e.PoolLoaded? {
      SimilarHappen(w, a, e);
    }
    var w' := Next(w, e);
    forall p | p in w'.c.pools && w'.c.pools[p].policy.ForceDown?
      ensures Unmoved(w', NextAlways(a, e), p)
    {
      if p in w.c.pools {
        SimilarPool(w, a, e, p);
      } else {
        SimilarLoaded(w, a, e);
      }
    }
  }

  lemma {:induction false} AlwaysSimilar<N>(es: seq<Event<N>>)
    ensures Inv(RunAlways(Empty<N>(), es)) && Similar(Reached(es), RunAlways(Empty<N>(), es))
    decreases |es|
  {
    hide Inv, Next, NextAlways, Similar;
    if es == [] {
      EmptyInv<N>();
      EmptySimilar<N>();
    } else {
      var before, e := es[..|es| - 1], es[|es| - 1];
      assert es == before + [e];
      AlwaysSimilar(before);
      ReachedNext(before, e);
      ReachedInv(before);
      AlwaysInv(RunAlways(Empty<N>(), before), e);
      SimilarStep(Reached(before), RunAlways(Empty<N>(), before), e);
    }
  }

  lemma EmptySimilar<N>()
    ensures Similar(Empty<N>(), Empty<N>())
  {
  }

  /** In every run, whatever other pools there are: skipping the recomputation for nodes that announce
      no change makes no difference to a pool that is forced down in a shortage.  It serves the same
      nodes as in the system that recomputes on every report, and its nodes are in the same state,
      flags included. */
  lemma GateSound<N>(es: seq<Event<N>>, p: string)
    requires p in Reached(es).c.pools && Reached(es).c.pools[p].policy.ForceDown?
    ensures var w, a := Reached(es), RunAlways(Empty<N>(), es);
      && a.c == w.c && p in a.s.pools
      && a.s.pools[p].up == w.s.pools[p].up && a.s.pools[p].active == w.s.pools[p].active
      && forall n | n in w.c.pools[p].ids :: n in w.s.nodes && n in a.s.nodes && a.s.nodes[n] == w.s.nodes[n]
  {
    hide Inv, Reached, RunAlways;
    AlwaysSimilar(es);
    assert Unmoved(Reached(es), RunAlways(Empty<N>(), es), p);
  }
}
