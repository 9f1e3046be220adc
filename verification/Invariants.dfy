/** What a single pool, the links between pools and the tables look like between events,
    and the proof that recomputing, sending and cascading keep it. */
module Invariants {
  import opened Domain
  import opened Selection
  import opened NodeRules
  import opened Wire
  import opened Fleet

  // ----- one pool ---------------------------------------------------------------------

  /** The served set as a function of flags and node states, policy by policy. */
  ghost predicate Settled<N>(cfg: PoolCfg<N>, m: map<N, NodeV>, v: PoolV<N>) {
    var kept, enabled := KeptOf(cfg.ids, m), EnabledOf(cfg.ids, m);
    && FlagsOk(cfg, m)
    && |kept| == Capped(|UpOf(cfg.ids, m)|, cfg.maxNodes)
    && (!Short(cfg.minNodes, |kept|) ==> v.up == kept && !v.active)
    && (Short(cfg.minNodes, |kept|) ==>
          match cfg.policy
          case ForceDown => v.up == {} && !v.active
          case ForceUp =>
            && kept <= v.up <= enabled && |v.up| == Min(cfg.minNodes, |enabled|) && !v.active
            && v.up <= kept + ForcedOf(cfg.ids, m)
          case BackupPool => !v.active ==> v.up == kept)
    && v.serving == (v.up != {})
  }

  /** The same facts about a choice that has just been made, before it is adopted. */
  ghost predicate Sound<N>(cfg: PoolCfg<N>, m: map<N, NodeV>, ch: Choice<N>, b: Option<set<N>>) {
    var up, enabled := UpOf(cfg.ids, m), EnabledOf(cfg.ids, m);
    && KeptOf(cfg.ids, m) <= ch.kept <= up
    && |ch.kept| == Capped(|up|, cfg.maxNodes)
    && ch.forced <= enabled
    && (ch.active ==> b.Some? && ch.served == b.value)
    && (!ch.active ==> ch.served <= enabled)
    && (!Short(cfg.minNodes, |ch.kept|) ==> ch.served == ch.kept && !ch.active)
    && (Short(cfg.minNodes, |ch.kept|) ==>
          match cfg.policy
          case ForceDown => ch.served == {} && !ch.active
          case ForceUp =>
            && ch.kept <= ch.served && |ch.served| == Min(cfg.minNodes, |enabled|) && !ch.active
            && ch.served <= ch.kept + ForcedOf(cfg.ids, m) + ch.forced
          case BackupPool => !ch.active ==> ch.served == ch.kept && b.None?)
  }

  lemma ChooseSound<N>(cfg: PoolCfg<N>, m: map<N, NodeV>, last: Option<N>, b: Option<set<N>>)
    requires Normalised(cfg) && LastOk(cfg.ids, last) && FlagsOk(cfg, m)
    ensures Sound(cfg, m, Choose(cfg, m, last, b), b)
  {
    var w := WithinMax(cfg.ids, cfg.maxNodes, m);
    WithinMaxFacts(cfg.ids, cfg.maxNodes, m);
    assert UpOf(cfg.ids, m) * KeptOf(cfg.ids, m) == KeptOf(cfg.ids, m);
    KeptStay(cfg.ids, cfg.maxNodes, m);
    assert UpOf(cfg.ids, m) <= EnabledOf(cfg.ids, m);
    if Short(cfg.minNodes, |w|) && cfg.policy.ForceUp? {
      ShortTakesAll(cfg, m);
      ForceUpFacts(cfg, m, last);
      ForcedPriority(cfg, m, last, w);
    }
  }

  lemma SetFlagsSets<N>(ids: seq<N>, m: map<N, NodeV>, kept: set<N>, forced: set<N>)
    requires kept <= UpOf(ids, m) && forced <= EnabledOf(ids, m)
    ensures UpOf(ids, SetFlags(m, kept, forced)) == UpOf(ids, m)
    ensures EnabledOf(ids, SetFlags(m, kept, forced)) == EnabledOf(ids, m)
    ensures KeptOf(ids, SetFlags(m, kept, forced)) == KeptOf(ids, m) + kept
    ensures ForcedOf(ids, SetFlags(m, kept, forced)) == ForcedOf(ids, m) + forced
  {
  }

  /** Adopting a sound choice settles the pool, whatever it served before. */
  lemma AdoptSettles<N>(cfg: PoolCfg<N>, m: map<N, NodeV>, ch: Choice<N>, b: Option<set<N>>, v: PoolV<N>)
    requires FlagsOk(cfg, m) && Sound(cfg, m, ch, b)
    requires v.serving == (v.up != {})
    ensures Settled(cfg, SetFlags(m, ch.kept, ch.forced), Adopted(v, ch))
  {
    SetFlagsSets(cfg.ids, m, ch.kept, ch.forced);
    assert KeptOf(cfg.ids, m) + ch.kept == ch.kept;
  }

  /** A pool depends on nothing but its own nodes. */
  lemma SettledFrame<N>(cfg: PoolCfg<N>, m: map<N, NodeV>, m': map<N, NodeV>, v: PoolV<N>)
    requires Settled(cfg, m, v)
    requires forall n | n in cfg.ids :: n in m && n in m'
    requires forall n | n in cfg.ids ::
      && m'[n].state == m[n].state && m'[n].admin == m[n].admin
      && m'[n].maxKept == m[n].maxKept && m'[n].minKept == m[n].minKept
    ensures Settled(cfg, m', v) && Tidy(cfg, m', v)
  {
    assert KeptOf(cfg.ids, m) == KeptOf(cfg.ids, m');
    assert UpOf(cfg.ids, m) == UpOf(cfg.ids, m');
    assert EnabledOf(cfg.ids, m) == EnabledOf(cfg.ids, m');
    assert ForcedOf(cfg.ids, m) == ForcedOf(cfg.ids, m');
  }

  // ----- all pools --------------------------------------------------------------------

  ghost predicate Link<N>(c: Config<N>, s: State<N>, p: string)
    requires Shaped(c, s) && p in c.pools
  {
    s.pools[p].active ==> c.pools[p].backup in c.pools && s.pools[p].up == s.pools[c.pools[p].backup].up
  }

  /** Node `n` belongs to `p` itself, or, when the backup of `p` is active, to a lower pool. */
  ghost predicate OwnedBy<N>(c: Config<N>, p: string, active: bool, n: N)
    requires p in c.pools
  {
    && n in c.nodes
    && (if active
        then c.nodes[n].parent in c.pools && c.pools[c.nodes[n].parent].rank < c.pools[p].rank
        else c.nodes[n].parent == p)
  }

  ghost predicate Owned<N>(c: Config<N>, p: string, v: PoolV<N>)
    requires p in c.pools
  {
    forall n | n in v.up :: OwnedBy(c, p, v.active, n)
  }

  function OwnUp<N(==)>(ids: seq<N>, up: set<N>): set<N> {
    set n | n in up && n in ids
  }

  function AddressesOf<N(==)>(c: Config<N>, ns: set<N>): set<string> {
    set n, a | n in ns && n in c.nodes && a in Addresses(c.nodes[n].ip4, c.nodes[n].ip6) :: a
  }

  /** Both addresses of every node, as far as it has them, and nothing else. */
  lemma AddressesMeaning<N>(c: Config<N>, ns: set<N>)
    ensures forall a :: a in AddressesOf(c, ns) <==>
      a != "" && exists n | n in ns && n in c.nodes :: a == c.nodes[n].ip4 || a == c.nodes[n].ip6
  {
    forall a
      ensures a in AddressesOf(c, ns) <==>
        a != "" && exists n | n in ns && n in c.nodes :: a == c.nodes[n].ip4 || a == c.nodes[n].ip6
    {
      if n :| a != "" && n in ns && n in c.nodes && (a == c.nodes[n].ip4 || a == c.nodes[n].ip6) {
        assert a in Addresses(c.nodes[n].ip4, c.nodes[n].ip6);
      }
    }
  }

  /** A pool marked in sync has its table heading for the addresses of its own served nodes. */
  ghost predicate InSync<N>(c: Config<N>, net: Net, p: string, v: PoolV<N>)
    requires p in c.pools
  {
    v.synced ==> Heading(net, c.pools[p].pfName) in {None, Some(AddressesOf(c, OwnUp(c.pools[p].ids, v.up)))}
  }

  ghost predicate NodesOk<N>(nodes: map<N, NodeV>) {
    forall n | n in nodes :: NodeOk(nodes[n])
  }

  /** A pool whose node has just changed keeps these facts until it is recomputed. */
  ghost predicate Tidy<N>(cfg: PoolCfg<N>, nodes: map<N, NodeV>, v: PoolV<N>) {
    FlagsOk(cfg, nodes) && v.serving == (v.up != {}) && (v.active ==> MayBorrow(cfg))
  }

  ghost predicate AllSettled<N>(c: Config<N>, s: State<N>, dirty: set<string>)
    requires Shaped(c, s)
  {
    && (forall p | p in c.pools :: Tidy(c.pools[p], s.nodes, s.pools[p]))
    && (forall p | p in c.pools && p !in dirty :: Settled(c.pools[p], s.nodes, s.pools[p]))
  }

  ghost predicate AllOwned<N>(c: Config<N>, s: State<N>)
    requires Shaped(c, s)
  {
    forall p | p in c.pools :: Owned(c, p, s.pools[p])
  }

  ghost predicate AllInSync<N>(c: Config<N>, s: State<N>)
    requires Shaped(c, s)
  {
    && |s.net.queue| <= QUEUE_LEN && Honest(s.net)
    && forall p | p in c.pools :: InSync(c, s.net, p, s.pools[p])
  }

  /** A pool in `dirty` has had a node changed and is about to be recomputed. */
  ghost predicate Good<N>(c: Config<N>, s: State<N>, dirty: set<string>)
    requires Shaped(c, s)
  {
    NodesOk(s.nodes) && AllSettled(c, s, dirty) && AllOwned(c, s) && AllInSync(c, s)
  }

  ghost predicate LinksBut<N>(c: Config<N>, s: State<N>, open: set<string>)
    requires Shaped(c, s)
  {
    forall p | p in c.pools && p !in open :: Link(c, s, p)
  }

  ghost function UsersOf<N>(c: Config<N>, p: string): set<string> {
    set q | q in c.pools && c.pools[q].backup == p
  }

  // ----- recomputing --------------------------------------------------------------------

  lemma OthersNodes<N>(c: Config<N>, p: string, q: string)
    requires Configured(c) && p in c.pools && q in c.pools && p != q
    ensures forall n | n in c.pools[q].ids :: n !in c.pools[p].ids
  {
    assert PoolConfigured(c, p) && PoolConfigured(c, q);
  }

  lemma AdoptFlags<N>(cfg: PoolCfg<N>, m: map<N, NodeV>, ch: Choice<N>, b: Option<set<N>>)
    requires Sound(cfg, m, ch, b) && NodesOk(m)
    ensures NodesOk(SetFlags(m, ch.kept, ch.forced))
    ensures forall n | n in m && n !in cfg.ids :: SetFlags(m, ch.kept, ch.forced)[n] == m[n]
  {
  }

  lemma AdoptAllSettled<N>(c: Config<N>, s: State<N>, p: string, ch: Choice<N>, dirty: set<string>)
    requires Configured(c) && Shaped(c, s) && p in c.pools
    requires Sound(c.pools[p], s.nodes, ch, BackupUp(c, s, p))
    requires NodesOk(s.nodes) && AllSettled(c, s, dirty) && dirty <= {p}
    ensures Shaped(c, Adopt(s, p, ch))
    ensures AllSettled(c, Adopt(s, p, ch), {})
  {
    var r := Adopt(s, p, ch);
    AdoptFlags(c.pools[p], s.nodes, ch, BackupUp(c, s, p));
    forall q | q in c.pools
      ensures Settled(c.pools[q], r.nodes, r.pools[q])
    {
      assert Tidy(c.pools[q], s.nodes, s.pools[q]);
      if q == p {
        AdoptSettles(c.pools[p], s.nodes, ch, BackupUp(c, s, p), s.pools[p]);
      } else {
        OthersNodes(c, p, q);
        assert PoolConfigured(c, q);
        SettledFrame(c.pools[q], s.nodes, r.nodes, s.pools[q]);
      }
    }
  }

  lemma AdoptAllOwned<N>(c: Config<N>, s: State<N>, p: string, ch: Choice<N>)
    requires Configured(c) && Shaped(c, s) && p in c.pools
    requires Sound(c.pools[p], s.nodes, ch, BackupUp(c, s, p))
    requires AllOwned(c, s)
    ensures AllOwned(c, Adopt(s, p, ch))
  {
    hide Settled, ChoiceFor;
    assert PoolConfigured(c, p);
    if ch.active {
      var b := c.pools[p].backup;
      assert Owned(c, b, s.pools[b]);
      forall n | n in ch.served
        ensures OwnedBy(c, p, true, n)
      {
        assert OwnedBy(c, b, s.pools[b].active, n);
      }
    } else {
      assert ch.served <= EnabledOf(c.pools[p].ids, s.nodes);
    }
    assert Owned(c, p, Adopted(s.pools[p], ch));
  }

  lemma AdoptAllInSync<N>(c: Config<N>, s: State<N>, p: string, ch: Choice<N>)
    requires Shaped(c, s) && p in c.pools
    requires AllInSync(c, s)
    ensures AllInSync(c, Adopt(s, p, ch))
  {
    var r := Adopt(s, p, ch);
    forall q | q in c.pools
      ensures InSync(c, r.net, q, r.pools[q])
    {
      assert InSync(c, s.net, q, s.pools[q]);
    }
  }

  lemma AdoptLinks<N>(c: Config<N>, s: State<N>, p: string, ch: Choice<N>, open: set<string>)
    requires Configured(c) && Shaped(c, s) && p in c.pools
    requires ch.active ==> BackupUp(c, s, p) == Some(ch.served)
    requires LinksBut(c, s, open)
    ensures LinksBut(c, Adopt(s, p, ch), open - {p} + UsersOf(c, p))
  {
    assert PoolConfigured(c, p);
    var r := Adopt(s, p, ch);
    forall q | q in c.pools && q !in open - {p} + UsersOf(c, p)
      ensures Link(c, r, q)
    {
      assert q != p ==> Link(c, s, q);
    }
  }

  lemma RecomputeGood<N>(c: Config<N>, s: State<N>, p: string, last: Option<N>, dirty: set<string>, open: set<string>)
    requires Configured(c) && Shaped(c, s) && p in c.pools && LastOk(c.pools[p].ids, last)
    requires Good(c, s, dirty) && dirty <= {p} && LinksBut(c, s, open)
    ensures Good(c, Recompute(c, s, p, last), {})
    ensures LinksBut(c, Recompute(c, s, p, last), open - {p} + UsersOf(c, p))
  {
    assert PoolConfigured(c, p) && Tidy(c.pools[p], s.nodes, s.pools[p]);
    var ch := ChoiceFor(c, s, p, last);
    ChooseSound(c.pools[p], s.nodes, last, BackupUp(c, s, p));
    AdoptFlags(c.pools[p], s.nodes, ch, BackupUp(c, s, p));
    AdoptAllSettled(c, s, p, ch, dirty);
    AdoptAllOwned(c, s, p, ch);
    AdoptAllInSync(c, s, p, ch);
    AdoptLinks(c, s, p, ch, open);
  }

  // ----- sending ---------------------------------------------------------------------------

  /** A pool never marks a node of its own as wanted that the worker would filter out. */
  lemma OwnUpEnabled<N>(c: Config<N>, s: State<N>, p: string)
    requires Configured(c) && Shaped(c, s) && p in c.pools
    requires Settled(c.pools[p], s.nodes, s.pools[p]) && Owned(c, p, s.pools[p])
    ensures OwnUp(c.pools[p].ids, s.pools[p].up) <= EnabledOf(c.pools[p].ids, s.nodes)
    ensures s.pools[p].active ==> OwnUp(c.pools[p].ids, s.pools[p].up) == {}
  {
    assert PoolConfigured(c, p);
    forall n | n in OwnUp(c.pools[p].ids, s.pools[p].up)
      ensures !s.pools[p].active && n in EnabledOf(c.pools[p].ids, s.nodes)
    {
      assert OwnedBy(c, p, s.pools[p].active, n);
    }
  }

  /** The wanted addresses the worker reads out of a snapshot. */
  lemma SnapshotWants<N>(c: Config<N>, s: State<N>, ids: seq<N>, up: set<N>)
    requires |ids| <= MAX_NODES && forall n | n in ids :: n in c.nodes && n in s.nodes
    requires OwnUp(ids, up) <= EnabledOf(ids, s.nodes)
    ensures Wants(Snapshot(c, s, ids, up)) == AddressesOf(c, OwnUp(ids, up))
  {
    var slots := Snapshot(c, s, ids, up);
    forall a | a in Wants(slots)
      ensures a in AddressesOf(c, OwnUp(ids, up))
    {
      var k :| 0 <= k < |slots| && a in SlotWants(slots[k]);
      assert k < |ids| && ids[k] in OwnUp(ids, up);
    }
    forall a | a in AddressesOf(c, OwnUp(ids, up))
      ensures a in Wants(slots)
    {
      var n :| n in OwnUp(ids, up) && a in Addresses(c.nodes[n].ip4, c.nodes[n].ip6);
      var k :| 0 <= k < |ids| && ids[k] == n;
      assert n in EnabledOf(ids, s.nodes);
      assert slots[k] == SlotFor(c, s, up, n);
      assert a in SlotWants(slots[k]);
    }
  }

  lemma TurnHeading(net: Net, t: string)
    ensures Heading(WorkerTurn(net), t) in {None, Heading(net, t)}
    ensures |WorkerTurn(net).queue| <= |net.queue|
    ensures Honest(net) ==> Honest(WorkerTurn(net))
  {
    if net.turns != [] {
      DeliverAllHeading(net, net.turns[0], t);
      if Honest(net) {
        DeliverAllHonest(net, net.turns[0]);
      }
    }
  }

  lemma SnapshotHonest<N>(c: Config<N>, s: State<N>, ids: seq<N>, up: set<N>, p: string, t: string)
    requires |ids| <= MAX_NODES && OwnUp(ids, up) <= EnabledOf(ids, s.nodes)
    ensures NothingDropped(Msg(p, t, Snapshot(c, s, ids, up)))
  {
    forall k | 0 <= k < |ids| && ids[k] in up
      ensures ids[k] in s.nodes && s.nodes[ids[k]].admin.Enabled?
    {
      assert ids[k] in OwnUp(ids, up);
    }
  }

  lemma EnqueueHonest(net: Net, m: Msg)
    requires Honest(net) && NothingDropped(m)
    ensures Honest(Enqueue(net, m))
  {
  }

  /** Marking pools as in sync or not changes nothing else about them. */
  lemma MarkFrame<N>(c: Config<N>, s: State<N>, r: State<N>, open: set<string>)
    requires Shaped(c, s) && Shaped(c, r) && r.nodes == s.nodes
    requires forall q | q in c.pools :: r.pools[q] == s.pools[q].(synced := r.pools[q].synced)
    requires AllSettled(c, s, {}) && AllOwned(c, s) && LinksBut(c, s, open)
    ensures AllSettled(c, r, {}) && AllOwned(c, r) && LinksBut(c, r, open)
  {
    assert AllSettled(c, r, {}) by {
      forall q | q in c.pools
        ensures Settled(c.pools[q], r.nodes, r.pools[q])
      {
        assert Settled(c.pools[q], s.nodes, s.pools[q]);
      }
    }
    assert AllOwned(c, r) by {
      forall q | q in c.pools
        ensures Owned(c, q, r.pools[q])
      {
        assert Owned(c, q, s.pools[q]);
      }
    }
    forall q | q in c.pools && q !in open
      ensures Link(c, r, q)
    {
      assert Link(c, s, q);
    }
  }

  lemma SendMarks<N>(c: Config<N>, s: State<N>, p: string)
    requires Shaped(c, s) && p in c.pools && |c.pools[p].ids| <= MAX_NODES
    ensures var r := Send(c, s, p);
      forall q | q in c.pools :: r.pools[q] == s.pools[q].(synced := r.pools[q].synced)
  {
  }

  lemma SendInSync<N>(c: Config<N>, s: State<N>, p: string)
    requires Configured(c) && Shaped(c, s) && p in c.pools && |c.pools[p].ids| <= MAX_NODES
    requires AllSettled(c, s, {}) && AllOwned(c, s) && AllInSync(c, s)
    ensures AllInSync(c, Send(c, s, p))
  {
    hide Settled, Owned, Snapshot, Wants, WorkerTurn, AddressesOf, OwnUp, Heading, Honest, NothingDropped;
    assert Settled(c.pools[p], s.nodes, s.pools[p]) && Owned(c, p, s.pools[p]);
    if !s.pools[p].synced {
      assert PoolConfigured(c, p);
      var r := Send(c, s, p);
      var cfg := c.pools[p];
      OwnUpEnabled(c, s, p);
      SnapshotWants(c, s, cfg.ids, s.pools[p].up);
      var msg := Msg(p, cfg.pfName, Snapshot(c, s, cfg.ids, s.pools[p].up));
      TurnHeading(s.net, cfg.pfName);
      SnapshotHonest(c, s, cfg.ids, s.pools[p].up, p, cfg.pfName);
      EnqueueHonest(WorkerTurn(s.net), msg);
      forall q | q in c.pools
        ensures InSync(c, r.net, q, r.pools[q])
      {
        assert InSync(c, s.net, q, s.pools[q]);
        TurnHeading(s.net, c.pools[q].pfName);
        EnqueueHeading(WorkerTurn(s.net), msg, c.pools[q].pfName);
      }
    }
  }

  lemma SendGood<N>(c: Config<N>, s: State<N>, p: string, open: set<string>)
    requires Configured(c) && Shaped(c, s) && p in c.pools && |c.pools[p].ids| <= MAX_NODES
    requires Good(c, s, {}) && LinksBut(c, s, open)
    ensures Good(c, Send(c, s, p), {})
    ensures LinksBut(c, Send(c, s, p), open)
  {
    hide NodesOk, AllSettled, AllOwned, AllInSync, LinksBut, Send;
    SendMarks(c, s, p);
    MarkFrame(c, s, Send(c, s, p), open);
    SendInSync(c, s, p);
  }

  // ----- the cascade -------------------------------------------------------------------------

  /** The pools still to be visited that borrow from `p`. */
  ghost function Pending<N>(c: Config<N>, p: string, i: nat): set<string>
    requires i <= |c.order|
  {
    set q | q in c.order[i..] && q in UsersOf(c, p)
  }

  /** On return every pool is settled, in sync or marked for resending, and every link that
      was not already broken elsewhere holds: the recomputed pool and, transitively, all its
      borrowers agree with their backups again. */
  lemma {:induction false} PoolLogicGood<N>(c: Config<N>, s: State<N>, p: string, last: Option<N>, dirty: set<string>,
                                            open: set<string>)
    requires Configured(c) && Shaped(c, s) && p in c.pools && LastOk(c.pools[p].ids, last)
    requires Good(c, s, dirty) && dirty <= {p} && LinksBut(c, s, open)
    requires Gate(s, last) || (dirty == {} && p !in open)
    ensures Good(c, PoolLogic(c, s, p, last), {})
    ensures LinksBut(c, PoolLogic(c, s, p, last), open - {p})
    decreases Above(c, p), |c.order| + 2
  {
    hide NodesOk, AllSettled, AllOwned, AllInSync;
    assert PoolConfigured(c, p);
    if Gate(s, last) {
      RecomputeGood(c, s, p, last, dirty, open);
      UpdatePfctlGood(c, Recompute(c, s, p, last), p, open - {p});
    } else {
      assert open - {p} == open;
      UpdatePfctlGood(c, s, p, open);
    }
  }

  lemma {:induction false} UpdatePfctlGood<N>(c: Config<N>, s: State<N>, p: string, open: set<string>)
    requires Configured(c) && Shaped(c, s) && p in c.pools
    requires Good(c, s, {}) && LinksBut(c, s, open + UsersOf(c, p))
    ensures Good(c, UpdatePfctl(c, s, p), {})
    ensures LinksBut(c, UpdatePfctl(c, s, p), open)
    decreases Above(c, p), |c.order| + 1
  {
    hide NodesOk, AllSettled, AllOwned, AllInSync;
    assert PoolConfigured(c, p);
    SendGood(c, s, p, open + UsersOf(c, p));
    assert c.order[0..] == c.order;
    assert Pending(c, p, 0) == UsersOf(c, p);
    DependentsGood(c, Send(c, s, p), p, 0, open);
  }

  lemma {:induction false} DependentsGood<N>(c: Config<N>, s: State<N>, p: string, i: nat, open: set<string>)
    requires Configured(c) && Shaped(c, s) && p in c.pools && i <= |c.order|
    requires Good(c, s, {}) && LinksBut(c, s, open + Pending(c, p, i))
    ensures Good(c, Dependents(c, s, p, i), {})
    ensures LinksBut(c, Dependents(c, s, p, i), open)
    decreases Above(c, p), |c.order| - i
  {
    hide Good, PoolLogic, Above, Pending, LinksBut;
    if i < |c.order| {
      var q := c.order[i];
      BorrowerRank(c, s, p, q);
      if Borrows(c, s, q, p) {
        PoolLogicGood(c, s, q, None, {}, open + Pending(c, p, i));
        var s1 := PoolLogic(c, s, q, None);
        NextPending(c, s1, p, i, open);
        DependentsGood(c, s1, p, i + 1, open);
      } else {
        NextPendingIdle(c, s, p, i, open);
        DependentsGood(c, s, p, i + 1, open);
      }
    } else {
      NonePending(c, p, open);
    }
  }

  lemma BorrowerRank<N>(c: Config<N>, s: State<N>, p: string, q: string)
    requires Configured(c) && Shaped(c, s) && p in c.pools && q in c.order
    ensures q in c.pools && (Borrows(c, s, q, p) ==> Above(c, q) < Above(c, p))
  {
    assert PoolConfigured(c, q);
    assert Borrows(c, s, q, p) ==> q in Above(c, p) && q !in Above(c, q);
  }

  lemma NonePending<N>(c: Config<N>, p: string, open: set<string>)
    ensures open + Pending(c, p, |c.order|) == open
  {
  }

  lemma NextPending<N>(c: Config<N>, s: State<N>, p: string, i: nat, open: set<string>)
    requires Shaped(c, s) && i < |c.order| && LinksBut(c, s, open + Pending(c, p, i) - {c.order[i]})
    ensures LinksBut(c, s, open + Pending(c, p, i + 1))
  {
    assert c.order[i..] == [c.order[i]] + c.order[i + 1..];
    assert open + Pending(c, p, i) - {c.order[i]} <= open + Pending(c, p, i + 1);
  }

  lemma NextPendingIdle<N>(c: Config<N>, s: State<N>, p: string, i: nat, open: set<string>)
    requires Shaped(c, s) && i < |c.order| && c.order[i] in c.pools && LinksBut(c, s, open + Pending(c, p, i))
    requires !Borrows(c, s, c.order[i], p) && Good(c, s, {})
    ensures LinksBut(c, s, open + Pending(c, p, i + 1))
  {
    assert c.order[i..] == [c.order[i]] + c.order[i + 1..];
    assert Tidy(c.pools[c.order[i]], s.nodes, s.pools[c.order[i]]);
    assert c.order[i] in UsersOf(c, p) ==> Link(c, s, c.order[i]);
  }
}
