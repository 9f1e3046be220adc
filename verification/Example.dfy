/** Short runs that reach the situations the theorems about runs distinguish. */
module Example {
  import opened Domain
  import opened Selection
  import opened NodeRules
  import opened Wire
  import opened Fleet
  import opened Invariants
  import opened Runs
  import opened Guarantees
  import opened Stability
  import opened Recomputation

  /** A node of pool `p` that pf knows as up or not, and that is in service. */
  function Node(up: bool): NodeV {
    var v := if up then CheckUp else CheckDown;
    NodeV(if up then NodeUp else NodeDown, Enabled, false, false, false, false,
          [CheckV(v, v, if up then 0 else 3, 3, false)])
  }

  /** Loading a pool with one node; the worker empties the queue first. */
  function OnePool(p: string, cfg: PoolCfg<int>, n: int, ip: string, up: bool): Event<int> {
    PoolLoaded(p, cfg, 0, map[n := NodeCfg(p, ip, "")], map[n := Node(up)], [seq(QUEUE_LEN, _ => Synced)])
  }

  /** The run goes on by loading a pool that fits. */
  lemma Loads<N>(es: seq<Event<N>>, e: Event<N>)
    requires e.PoolLoaded? && e.at == 0 && e.nodes.Keys == e.nodeCfgs.Keys
    requires forall n | n in e.nodes :: FreshNode(e.nodes[n])
    requires Fits(Reached(es).c, e.p, e.cfg, e.nodeCfgs)
    ensures Reached(es + [e]) == LoadedAlone(Reached(es), e)
    ensures Reached(es + [e]).c == Extend(Reached(es).c, e.p, e.cfg, e.at, e.nodeCfgs)
  {
    hide Inv, Configured, Reached, Next, LoadedLate, LoadedAlone, FreshNode;
    ReachedInv(es);
    InvParts(Reached(es));
    FitHappens(Reached(es), e);
    LoadedEitherWay(es, e);
    ReachedNext(es, e);
  }

  /** The first pool to be loaded, over the tables that the process finds. */
  lemma LoadsFirst<N>(tables: map<string, set<string>>, e: Event<N>)
    requires e.PoolLoaded? && e.at == 0 && e.nodes.Keys == e.nodeCfgs.Keys
    requires forall n | n in e.nodes :: FreshNode(e.nodes[n])
    requires Fits(Empty<N>().c, e.p, e.cfg, e.nodeCfgs)
    ensures Shaped(Started<N>(tables).c, Started<N>(tables).s) && |e.cfg.ids| <= MAX_NODES
    ensures Reached([TablesFound(tables), e]) == LoadedAlone(Started(tables), e)
    ensures Reached([TablesFound(tables), e]).c == Extend(Empty<N>().c, e.p, e.cfg, e.at, e.nodeCfgs)
  {
    hide LoadedAlone, FreshNode, Next;
    var found: Event<N> := TablesFound(tables);
    assert [] + [found] == [found] && [found] + [e] == [found, e];
    ReachedNext([], found);
    StartedIs<N>(tables);
    Loads([found], e);
  }

  lemma QueueEmptied<N>(es: seq<Event<N>>, e: Event<N>)
    requires e.PoolLoaded? && e.turns == [seq(QUEUE_LEN, _ => Synced)] && Reached(es).c.pools != map[]
    ensures Accepts(WorkerTurn(Reached(es).s.net.(turns := e.turns)))
  {
    hide Inv, Reached;
    var w := Reached(es);
    var p :| p in w.c.pools;
    ReachedInv(es);
    InvPool(w, p);
    DeliverAllHeading(w.s.net.(turns := e.turns), e.turns[0], "");
  }

  // ----- a pool that serves ---------------------------------------------------------------------

  /** The table of the spare pool still holds a node that is no longer configured. */
  const LEFT := map["spare" := {"192.0.2.2", "192.0.2.9"}]

  function Start(): Event<int> {
    TablesFound(LEFT)
  }

  function Spare(): Event<int> {
    OnePool("spare", PoolCfg("spare", 0, 0, ForceDown, "", true, [2], 0), 2, "192.0.2.2", true)
  }

  lemma SpareLoaded()
    ensures Reached([Start(), Spare()]) == LoadedAlone(Started(LEFT), Spare())
    ensures Reached([Start(), Spare()]).c == Extend(Empty<int>().c, "spare", Spare().cfg, 0, Spare().nodeCfgs)
  {
    hide LoadedAlone;
    LoadsFirst(LEFT, Spare());
  }

  /** A loaded pool whose node pf knows as up serves it. */
  lemma OnePoolServes()
    ensures var w := Reached([Start(), Spare()]);
      && "spare" in w.c.pools && w.s.pools["spare"].up == {2} && !w.s.pools["spare"].active
      && 2 in w.s.nodes && IsUp(w.s.nodes[2])
      && w.c.pools["spare"] == Spare().cfg && w.s.pools["spare"].synced && Known(w.s.net, "spare")
      && 2 in w.c.nodes && w.c.nodes[2] == NodeCfg("spare", "192.0.2.2", "")
  {
    hide LoadedAlone, Choose, Reached;
    SpareLoaded();
    LoadedEffect(Started(LEFT), Spare());
    SpareChoice(Started<int>(LEFT).s.nodes + Spare().nodes);
  }

  /** Once the worker is done, what was left over from before is gone. */
  lemma LeftoverGoes(os: seq<Outcome>)
    requires |os| >= QUEUE_LEN && forall o | o in os :: o.Synced?
    ensures TableOf(Started<int>(LEFT).s.net, "spare") == {"192.0.2.2", "192.0.2.9"}
    ensures TableOf(DeliverAll(Reached([Start(), Spare()]).s.net, os), "spare") == {"192.0.2.2"}
  {
    hide Reached, Known, DeliverAll;
    var es := [Start(), Spare()];
    OnePoolServes();
    ReachedInv(es);
    InvPool(Reached(es), "spare");
    TablesArrive(es, "spare", os);
    TwoAddresses(Reached(es).c);
  }

  lemma SpareChoice(m: map<int, NodeV>)
    requires 2 in m && IsUp(m[2])
    ensures Choose(Spare().cfg, m, None, None) == Choice({2}, {2}, {}, false)
  {
    hide WithinMax;
    WithinMaxFacts([2], 0, m);
    assert UpOf([2], m) == {2};
  }

  // ----- a pool that borrows ----------------------------------------------------------------------

  function Main(): Event<int> {
    OnePool("main", PoolCfg("main", 1, 0, BackupPool, "spare", true, [1], 1), 1, "192.0.2.1", false)
  }

  lemma MainChoice(m: map<int, NodeV>, b: Option<set<int>>)
    requires 1 in m && !IsUp(m[1])
    ensures var ch := Choose(Main().cfg, m, None, b);
      ch.kept == {} && ch.forced == {} && ch.active == b.Some? && ch.served == if b.Some? then b.value else {}
  {
    hide WithinMax;
    WithinMaxFacts([1], 0, m);
    assert UpOf([1], m) == {};
  }

  /** After the backup, a pool whose only node is down is loaded: it borrows and counts as in sync. */
  lemma MainBorrows()
    ensures var w := Reached([Start(), Spare(), Main()]);
      && "main" in w.c.pools && w.s.pools["main"].up == {2} && w.s.pools["main"].active && w.s.pools["main"].synced
      && Known(w.s.net, "main") && w.c.pools["main"] == Main().cfg
      && 2 in w.c.nodes && w.c.nodes[2] == NodeCfg("spare", "192.0.2.2", "")
  {
    hide LoadedAlone, Reached, Choose, Known, WorkerTurn, Accepts;
    SpareLoaded();
    OnePoolServes();
    var w := Reached([Start(), Spare()]);
    assert [Start(), Spare()] + [Main()] == [Start(), Spare(), Main()];
    Loads([Start(), Spare()], Main());
    LoadedEffect(w, Main());
    MainChoice(w.s.nodes + Main().nodes, Some({2}));
    QueueEmptied([Start(), Spare()], Main());
  }

  /** It serves a node with an address, and its table ends up empty: the situation in which
      TablesArrive says that the table misses the served set. */
  lemma BorrowedTableIsEmpty(os: seq<Outcome>)
    requires |os| >= QUEUE_LEN && forall o | o in os :: o.Synced?
    ensures var w := Reached([Start(), Spare(), Main()]);
      && "main" in w.c.pools
      && AddressesOf(w.c, w.s.pools["main"].up) == {"192.0.2.2"}
      && TableOf(DeliverAll(w.s.net, os), "main") == {}
  {
    hide Reached, Known, TableOf, DeliverAll;
    var es := [Start(), Spare(), Main()];
    MainBorrows();
    ReachedInv(es);
    InvPool(Reached(es), "main");
    TablesArrive(es, "main", os);
    TwoAddresses(Reached(es).c);
  }

  lemma TwoAddresses(c: Config<int>)
    requires 2 in c.nodes && c.nodes[2] == NodeCfg("spare", "192.0.2.2", "")
    ensures AddressesOf(c, {2}) == {"192.0.2.2"}
  {
    assert Addresses("192.0.2.2", "") == {"192.0.2.2"};
  }

  // ----- pools that a recomputation would move ------------------------------------------------------

  /** The same two pools loaded the other way round: the pool looked for its backup too early, and
      goes on without it although recomputing would find it. */
  lemma LoadedTooEarly()
    ensures var w := Reached([Start(), Main(), Spare()]);
      "main" in w.c.pools && w.s.pools["main"].up == {} && MayMove(w.c, w.s, "main")
  {
    hide Reached;
    SpareSecond();
    var w := Reached([Start(), Main(), Spare()]);
    assert UpOf([1], w.s.nodes) == {};
  }

  lemma SpareSecond()
    ensures var w := Reached([Start(), Main(), Spare()]);
      && "main" in w.c.pools && "spare" in w.c.pools && w.c.pools["main"] == Main().cfg
      && w.s.pools["main"].up == {} && !w.s.pools["main"].active
      && 1 in w.s.nodes && !IsUp(w.s.nodes[1])
  {
    hide LoadedAlone, Reached, Choose;
    MainAlone();
    var w1 := Reached([Start(), Main()]);
    assert [Start(), Main()] + [Spare()] == [Start(), Main(), Spare()];
    Loads([Start(), Main()], Spare());
    LoadedEffect(w1, Spare());
  }

  lemma MainAlone()
    ensures var w := Reached([Start(), Main()]);
      && w.c == Extend(Empty<int>().c, "main", Main().cfg, 0, Main().nodeCfgs)
      && "main" in w.s.pools && w.s.pools["main"].up == {} && !w.s.pools["main"].active
      && 1 in w.s.nodes && !IsUp(w.s.nodes[1])
  {
    hide LoadedAlone, Choose, Reached;
    LoadsFirst(LEFT, Main());
    LoadedEffect(Started(LEFT), Main());
    MainChoice(Started<int>(LEFT).s.nodes + Main().nodes, None);
  }

  /** A pool that is forced up to one node and has two that are down. */
  function Forced(): Event<int> {
    PoolLoaded("forced", PoolCfg("forced", 1, 0, ForceUp, "", true, [1, 2], 0), 0,
               map[1 := NodeCfg("forced", "192.0.2.1", ""), 2 := NodeCfg("forced", "192.0.2.2", "")],
               map[1 := Node(false), 2 := Node(false)], [])
  }

  lemma ForcedMayMove()
    ensures var w := Reached([TablesFound(map[]), Forced()]);
      "forced" in w.c.pools && MayMove(w.c, w.s, "forced")
  {
    hide LoadedAlone, Choose, Reached;
    var e := Forced();
    assert forall n | n in e.nodes :: e.nodes[n] == Node(false);
    LoadsFirst(map[], e);
    LoadedEffect(Started(map[]), e);
    ForcedSpare(Reached([TablesFound(map[]), e]).s.nodes);
  }

  lemma ForcedSpare(m: map<int, NodeV>)
    requires 1 in m && 2 in m && !IsUp(m[1]) && !IsUp(m[2]) && m[1].admin.Enabled? && m[2].admin.Enabled?
    ensures |UpOf([1, 2], m)| == 0 && |EnabledOf([1, 2], m)| == 2
  {
    assert UpOf([1, 2], m) == {};
    assert EnabledOf([1, 2], m) == {1, 2};
  }
}
