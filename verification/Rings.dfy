/** The recursion in runs, and outside of them: every event of a run ends, while of two pools that
    borrow from each other the check that fails next sends the process into an endless recursion. */
module Rings {
  import opened Domain
  import opened Selection
  import opened NodeRules
  import opened Wire
  import opened Fleet
  import opened Backups
  import opened Invariants
  import opened Runs
  import opened Guarantees
  import opened Stability

  // ----- within runs --------------------------------------------------------------------------------

  lemma ReachedEarnest<N>(es: seq<Event<N>>)
    ensures Sized(Reached(es).c) && Earnest(Reached(es).c, Reached(es).s)
  {
    hide Inv, Reached, Settled, Owned, InSync, Link, PoolConfigured;
    ReachedInv(es);
    var w := Reached(es);
    InvParts(w);
    forall q | q in w.c.pools
      ensures |w.c.pools[q].ids| <= MAX_NODES && (w.s.pools[q].active ==> MayBorrow(w.c.pools[q]))
    {
      InvPool(w, q);
      FewNodes(w.c, q);
    }
  }

  lemma FewNodes<N>(c: Config<N>, p: string)
    requires p in c.pools && PoolConfigured(c, p)
    ensures |c.pools[p].ids| <= MAX_NODES
  {
  }

  lemma AboveFew<N>(c: Config<N>, p: string)
    requires p in c.pools
    ensures |Above(c, p)| <= |c.pools|
  {
    assert |c.pools| == |c.pools.Keys|;
    SubsetSize(Above(c, p), c.pools.Keys);
  }

  lemma ConfiguredSized<N>(c: Config<N>)
    requires Configured(c)
    ensures Sized(c)
  {
    forall p | p in c.pools
      ensures |c.pools[p].ids| <= MAX_NODES
    {
      assert PoolConfigured(c, p);
    }
  }

  /** What an event does, with the program's own test for borrowers and at most `fuel` nested calls. */
  ghost function TryEvent<N>(w: World<N>, e: Event<N>, fuel: nat): Option<State<N>>
    requires Configured(w.c) && Shaped(w.c, w.s) && CanHappen(w, e) && fuel > 0
  {
    ConfiguredSized(w.c);
    match e
    case CheckEnds(n, _, _, _) => TryPoolLogic(w.c, Changed(w, e), w.c.nodes[n].parent, Some(n), fuel)
    case DowntimeRead(n, _, _) => TryPoolLogic(w.c, Changed(w, e), w.c.nodes[n].parent, Some(n), fuel)
    case SyncTimer(p, turns) => TryDependents(w.c, Send(w.c, WithTurns(w.s, turns), p), p, 0, fuel)
    case PoolLoaded(p, cfg, at, nodeCfgs, nodes, turns) =>
      ConfiguredSized(Extend(w.c, p, cfg, at, nodeCfgs));
      TryPoolLogic(Extend(w.c, p, cfg, at, nodeCfgs), WithPool(WithTurns(w.s, turns), p, nodes), p, None, fuel)
    case WorkerReceives(_) => Some(Next(w, e).s)
    case TablesFound(_) => Some(Next(w, e).s)
  }

  lemma NodeEnds<N>(w: World<N>, e: Event<N>, fuel: nat)
    requires Configured(w.c) && Shaped(w.c, w.s) && Earnest(w.c, w.s) && CanHappen(w, e)
    requires (e.CheckEnds? || e.DowntimeRead?) && fuel > |w.c.pools|
    ensures TryEvent(w, e, fuel) == Some(Next(w, e).s)
  {
    hide Next, TryPoolLogic, PoolLogic, Above, NodeAfter, Configured, Sized;
    ConfiguredSized(w.c);
    NextNode(w, e);
    AboveFew(w.c, w.c.nodes[e.n].parent);
    EnoughFuel(w.c, Changed(w, e), w.c.nodes[e.n].parent, Some(e.n), fuel);
  }

  lemma TimerEnds<N>(w: World<N>, e: Event<N>, fuel: nat)
    requires Configured(w.c) && Shaped(w.c, w.s) && Earnest(w.c, w.s) && CanHappen(w, e)
    requires e.SyncTimer? && fuel > |w.c.pools|
    ensures TryEvent(w, e, fuel) == Some(Next(w, e).s)
  {
    hide TryDependents, Dependents, Above, Configured, Sized, Send, Earnest;
    ConfiguredSized(w.c);
    AboveFew(w.c, e.p);
    var s := WithTurns(w.s, e.turns);
    SendEarnest(w.c, w.s, e.turns, e.p);
    WalkEnough(w.c, Send(w.c, s, e.p), e.p, 0, fuel);
    assert UpdatePfctl(w.c, s, e.p) == Dependents(w.c, Send(w.c, s, e.p), e.p, 0);
  }

  lemma SendEarnest<N>(c: Config<N>, s: State<N>, turns: seq<seq<Outcome>>, p: string)
    requires Configured(c) && Shaped(c, s) && Earnest(c, s) && p in c.pools
    ensures |c.pools[p].ids| <= MAX_NODES
    ensures var r := Send(c, WithTurns(s, turns), p); Shaped(c, r) && Earnest(c, r)
  {
    hide Snapshot, WorkerTurn;
    assert PoolConfigured(c, p);
    var r := Send(c, WithTurns(s, turns), p);
    assert forall q | q in c.pools :: r.pools[q].active == s.pools[q].active;
  }

  lemma LoadEnds<N>(w: World<N>, e: Event<N>, fuel: nat)
    requires Configured(w.c) && Shaped(w.c, w.s) && Earnest(w.c, w.s) && CanHappen(w, e)
    requires e.PoolLoaded? && fuel > |w.c.pools|
    ensures TryEvent(w, e, fuel) == Some(Next(w, e).s)
  {
    hide TryPoolLogic, PoolLogic, Configured, Sized, Above, Earnest, FirstChoice, ChoiceFor, FreshNode;
    var c, s := Extend(w.c, e.p, e.cfg, e.at, e.nodeCfgs), WithPool(WithTurns(w.s, e.turns), e.p, e.nodes);
    NewPool(w, e);
    ConfiguredSized(c);
    NewEarnest(w, e);
    EnoughFuel(c, s, e.p, None, fuel);
  }

  lemma NewEarnest<N>(w: World<N>, e: Event<N>)
    requires Shaped(w.c, w.s) && Earnest(w.c, w.s) && e.PoolLoaded? && e.p !in w.c.pools && e.at <= |w.c.order|
    requires e.nodes.Keys == e.nodeCfgs.Keys
    ensures var c := Extend(w.c, e.p, e.cfg, e.at, e.nodeCfgs);
      var s := WithPool(WithTurns(w.s, e.turns), e.p, e.nodes);
      Shaped(c, s) && Earnest(c, s) && |Above(c, e.p)| <= |w.c.pools|
  {
    assert |w.c.pools| == |w.c.pools.Keys|;
    SubsetSize(Above(Extend(w.c, e.p, e.cfg, e.at, e.nodeCfgs), e.p), w.c.pools.Keys);
  }

  /** In every run: the recursion that any event starts, with the program's own test for borrowers, ends
      within the number of pools, in the state that the run goes on with. */
  lemma EventsEnd<N>(es: seq<Event<N>>, e: Event<N>, fuel: nat)
    requires CanHappen(Reached(es), e) && fuel > |Reached(es).c.pools|
    ensures Configured(Reached(es).c) && TryEvent(Reached(es), e, fuel) == Some(Next(Reached(es), e).s)
  {
    hide Inv, Reached, Next, TryPoolLogic, TryDependents, NodeAfter, Configured, Sized, Earnest, CanHappen, Send;
    ReachedInv(es);
    ReachedEarnest(es);
    var w := Reached(es);
    InvParts(w);
    match e
    case CheckEnds(_, _, _, _) => NodeEnds(w, e, fuel);
    case DowntimeRead(_, _, _) => NodeEnds(w, e, fuel);
    case SyncTimer(_, _) => TimerEnds(w, e, fuel);
    case PoolLoaded(_, _, _, _, _, _) => LoadEnds(w, e, fuel);
    case WorkerReceives(_) =>
    case TablesFound(_) =>
  }

  // ----- outside of runs ------------------------------------------------------------------------------

  /** Two pools that are each other's backup, one of them borrowing and the other about to. */
  lemma TwoInARing<N>(c: Config<N>, s: State<N>, p: string, q: string, last: Option<N>, fuel: nat)
    requires Sized(c) && Shaped(c, s) && p in c.pools && q in c.pools
    requires c.pools[p].backup == q && c.pools[q].backup == p
    requires WouldBorrow(c, s, p) && Gate(s, last) && Stuck(c, s, q)
    ensures TryPoolLogic(c, s, p, last, fuel).None?
  {
    hide TryPoolLogic, WouldBorrow;
    var ring := {p, q};
    assert Lends(c, ring, p) && Lends(c, ring, q);
    RingNeverEnds(c, s, p, last, fuel, ring);
  }

  // ----- the two pools ----------------------------------------------------------------------------

  /** Pool `p` with one node `n`, one health check that gives up after one failure, and a backup. */
  function OneNode(p: string, backup: string, n: int, ip: string, up: bool): Event<int> {
    var v := if up then CheckUp else CheckDown;
    PoolLoaded(p, PoolCfg(p, 1, 0, BackupPool, backup, true, [n], 0), 0,
               map[n := NodeCfg(p, ip, "")],
               map[n := NodeV(if up then NodeUp else NodeDown, Enabled, false, false, false, false,
                              [CheckV(v, v, if up then 0 else 1, 1, false)])], [])
  }

  /** Such a pool serves its node if that is up, and otherwise what its backup serves. */
  lemma OneNodeChoice(e: Event<int>, m: map<int, NodeV>, n: int, b: Option<set<int>>)
    requires e.PoolLoaded? && e.cfg.ids == [n] && e.cfg.minNodes == 1 && e.cfg.maxNodes == 0 && e.cfg.policy.BackupPool?
    requires n in m && (!IsUp(m[n]) ==> b.Some?)
    ensures var ch := Choose(e.cfg, m, None, b);
      ch.served == (if IsUp(m[n]) then {n} else b.value) && ch.active == !IsUp(m[n])
  {
    hide WithinMax;
    WithinMaxFacts([n], 0, m);
    assert UpOf([n], m) == if IsUp(m[n]) then {n} else {};
  }

  function First(): Event<int> {
    OneNode("a", "b", 1, "192.0.2.1", true)
  }

  function Second(): Event<int> {
    OneNode("b", "a", 2, "192.0.2.2", false)
  }

  ghost function FirstLoaded(): (w: World<int>)
    ensures Shaped(w.c, w.s)
  {
    LoadedAlone(Started(map["a" := {"192.0.2.1"}]), First())
  }

  /** The system after both have been loaded. */
  ghost function BothLoaded(): (w: World<int>)
    ensures Shaped(w.c, w.s)
  {
    assert "b" !in FirstLoaded().c.pools;
    LoadedAlone(FirstLoaded(), Second())
  }

  lemma BothThere()
    ensures FirstLoaded().c.pools == map["a" := First().cfg] && FirstLoaded().c.nodes.Keys == {1}
    ensures BothLoaded().c.pools == map["a" := First().cfg, "b" := Second().cfg]
    ensures BothLoaded().c.order == ["b", "a"] && BothLoaded().c.nodes.Keys == {1, 2}
    ensures Sized(BothLoaded().c)
  {
    hide LoadedAlone;
    var w1 := FirstLoaded();
    assert w1.c == Extend(Empty<int>().c, "a", First().cfg, 0, First().nodeCfgs);
    assert w1.c.order == ["a"];
    assert BothLoaded().c == Extend(w1.c, "b", Second().cfg, 0, Second().nodeCfgs);
  }

  lemma FirstServes()
    ensures var s := FirstLoaded().s;
      && s.pools.Keys == {"a"} && s.nodes.Keys == {1} && s.pools["a"].up == {1} && !s.pools["a"].active
      && IsUp(s.nodes[1]) && s.nodes[1].checks == First().nodes[1].checks
  {
    hide Choose, LoadedAlone;
    BothThere();
    LoadedEffect(Started(map["a" := {"192.0.2.1"}]), First());
    OneNodeChoice(First(), First().nodes, 1, None);
    assert Empty<int>().s.nodes + First().nodes == First().nodes;
  }

  /** The first pool serves its node; the second one, whose node is down, borrows it. */
  lemma BothServe()
    ensures var s := BothLoaded().s;
      && s.pools.Keys == {"a", "b"} && s.nodes.Keys == {1, 2}
      && s.pools["a"].up == {1} && !s.pools["a"].active && s.pools["b"].up == {1} && s.pools["b"].active
      && IsUp(s.nodes[1]) && s.nodes[1].checks == First().nodes[1].checks && !IsUp(s.nodes[2])
  {
    hide Choose, LoadedAlone;
    BothThere();
    FirstServes();
    var w1 := FirstLoaded();
    LoadedEffect(w1, Second());
    OneNodeChoice(Second(), w1.s.nodes + Second().nodes, 2, Some(w1.s.pools["a"].up));
  }

  /** The state in which the first pool is told that the check of its node has failed. */
  ghost function NodeFailed(): (s: State<int>)
    ensures Shaped(BothLoaded().c, s)
  {
    var w := BothLoaded();
    BothServe();
    WithNode(w.s, 1, EndCheck(w.s.nodes[1], 0, Fail))
  }

  lemma FailureSeen(v: NodeV)
    requires IsUp(v) && v.checks == First().nodes[1].checks
    ensures EndCheck(v, 0, Fail).state.NodeDown? && EndCheck(v, 0, Fail).stateChanged
  {
    var checks := v.checks[0 := HandleResult(v.checks[0], Fail)];
    assert checks[0].ran && checks[0].hard.CheckDown?;
  }

  /** From there pool_logic of the first pool takes no end: no depth of recursion is enough. */
  lemma FailureNeverEnds(fuel: nat)
    ensures Sized(BothLoaded().c) && "a" in BothLoaded().c.pools
    ensures TryPoolLogic(BothLoaded().c, NodeFailed(), "a", Some(1), fuel).None?
  {
    hide LoadedAlone, BothLoaded, EndCheck;
    BothThere();
    BothServe();
    FailureSeen(BothLoaded().s.nodes[1]);
    var c, s := BothLoaded().c, NodeFailed();
    BothShort(s);
    TwoInARing(c, s, "a", "b", Some(1), fuel);
  }

  lemma BothShort(s: State<int>)
    requires 1 in s.nodes && 2 in s.nodes && !IsUp(s.nodes[1]) && !IsUp(s.nodes[2])
    ensures |UpOf([1], s.nodes)| == 0 && |UpOf([2], s.nodes)| == 0
  {
    assert UpOf([1], s.nodes) == {} && UpOf([2], s.nodes) == {};
  }
}
