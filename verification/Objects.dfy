/** The objects of the main process: health checks, LB Nodes and LB Pools with fields that are
    updated in place, tied to the functions of Fleet and NodeRules. */
module Objects {
  import opened Domain
  import opened Selection
  import opened NodeRules
  import opened Wire
  import opened Fleet
  import Runs

  class Healthcheck {
    const parent: LbNode
    const maxFailedChecks: int
    var hardState: CheckState
    var lastState: CheckState
    var failureCounter: int
    var isRunning: bool
    var ran: bool

    /** The check starts in agreement with its node. */
    constructor (parent: LbNode, maxFailedChecks: int)
      ensures this.parent == parent && !isRunning
      ensures View() == NewCheck(parent.NodeIsUp(), maxFailedChecks)
      ensures Created(View()) && !ran && this.maxFailedChecks == maxFailedChecks
      ensures hardState == lastState == if parent.NodeIsUp() then CheckUp else CheckDown
    {
      this.parent := parent;
      this.maxFailedChecks := maxFailedChecks;
      var up := parent.NodeIsUp();
      hardState := if up then CheckUp else CheckDown;
      lastState := if up then CheckUp else CheckDown;
      failureCounter := if up then 0 else maxFailedChecks % 0x1_0000;
      isRunning, ran := false, false;
    }

    ghost function View(): CheckV
      reads this
    {
      CheckV(hardState, lastState, failureCounter, maxFailedChecks, ran)
    }

    /** Takes one result into account; the check may be scheduled again afterwards. */
    method TakeResult(result: CheckResult)
      modifies this
      ensures View() == HandleResult(old(View()), result)
      ensures !isRunning
    {
      lastState := SoftState(result);
      if lastState.CheckUp? {
        failureCounter := 0;
      }
      if hardState.CheckUp? {
        match lastState {
          case CheckUp =>
          case CheckDown =>
            failureCounter := (failureCounter + 1) % 0x1_0000;
            if failureCounter >= maxFailedChecks {
              hardState := CheckDown;
            }
          case CheckDrain =>
            hardState := CheckDrain;
        }
      } else if lastState.CheckUp? {
        hardState := CheckUp;
        failureCounter := 0;
      }
      isRunning := false;
      ran := true;
    }
  }

  /** A check that has not run yet, on a node that is up or not. */
  function NewCheck(up: bool, maxFailed: int): CheckV {
    var v := if up then CheckUp else CheckDown;
    CheckV(v, v, if up then 0 else maxFailed % 0x1_0000, maxFailed, false)
  }

  class LbNode {
    const ip4: string
    const ip6: string
    const parent: LbPool
    var state: NodeState
    var adminState: AdminState
    var healthchecks: seq<Healthcheck>
    var minNodesKept: bool
    var maxNodesKept: bool
    var checked: bool
    var stateChanged: bool
    /** What the health checks look like. */
    ghost var checkViews: seq<CheckV>

    /** `table` is what pf shows of the pool's table at start-up.  The IPv4 address is trusted first. */
    constructor (parent: LbPool, ip4: string, ip6: string, setting: string, table: set<string>)
      ensures this.parent == parent && this.ip4 == ip4 && this.ip6 == ip6 && healthchecks == [] && ChecksTold()
      ensures FreshNode(View()) && adminState == AdminFromConfig(setting)
      ensures state == NodeUp <==> (if ip4 != "" then ip4 in table else ip6 in table)
    {
      this.parent, this.ip4, this.ip6 := parent, ip4, ip6;
      adminState := AdminFromConfig(setting);
      var inTable := if ip4 != "" then ip4 in table else ip6 in table;
      state := if inTable then NodeUp else NodeDown;
      healthchecks, checkViews := [], [];
      checked, minNodesKept, maxNodesKept := false, false, false;
    }

    ghost function View(): NodeV
      reads this
    {
      NodeV(state, adminState, minNodesKept, maxNodesKept, checked, stateChanged, checkViews)
    }

    ghost predicate ChecksTold()
      reads `healthchecks, `checkViews, healthchecks
    {
      && |checkViews| == |healthchecks|
      && (forall k | 0 <= k < |healthchecks| ::
            healthchecks[k].parent == this && healthchecks[k].View() == checkViews[k])
      && (forall j, k | 0 <= j < k < |healthchecks| :: healthchecks[j] != healthchecks[k])
    }

    /** Adds a health check to this node. */
    method AddCheck(maxFailedChecks: int) returns (hc: Healthcheck)
      requires ChecksTold()
      modifies `healthchecks, `checkViews
      ensures ChecksTold() && fresh(hc) && healthchecks == old(healthchecks) + [hc]
      ensures View() == old(View()).(checks := old(checkViews) + [NewCheck(NodeIsUp(), maxFailedChecks)])
      ensures FreshNode(old(View())) ==> FreshNode(View())
    {
      hc := new Healthcheck(this, maxFailedChecks);
      healthchecks := healthchecks + [hc];
      checkViews := checkViews + [hc.View()];
    }

    predicate NodeIsUp()
      reads `state, `adminState
      ensures NodeIsUp() ==> adminState.Enabled?
      ensures NodeIsUp() == (adminState.Enabled? && state.NodeUp?)
    {
      adminState.Enabled? && state.NodeUp?
    }

    lemma CheckCount()
      requires ChecksTold()
      ensures |checkViews| == |healthchecks|
    {
    }

    /** What the checks say: whether one has run, how many are hard up and how many drain. */
    method CountChecks() returns (anyRan: bool, ok: nat, drain: nat)
      requires ChecksTold()
      ensures anyRan == AnyRan(checkViews)
      ensures ok <= |healthchecks| && (ok == |healthchecks| <==> AllUp(checkViews))
      ensures drain > 0 <==> AnyDrain(checkViews)
    {
      anyRan, ok, drain := false, 0, 0;
      for k := 0 to |healthchecks|
        invariant anyRan == exists j | 0 <= j < k :: checkViews[j].ran
        invariant ok <= k && (ok == k <==> forall j | 0 <= j < k :: checkViews[j].hard.CheckUp?)
        invariant drain > 0 <==> exists j | 0 <= j < k :: checkViews[j].hard.CheckDrain?
      {
        var hc := healthchecks[k];
        assert checkViews[k] == hc.View();
        if hc.ran { anyRan := true; }
        if hc.hardState.CheckUp? { ok := ok + 1; }
        if hc.hardState.CheckDrain? { drain := drain + 1; }
      }
    }

    /** The part of end_check that concerns the check itself. */
    method CheckEnded(k: nat, result: CheckResult)
      requires ChecksTold() && k < |healthchecks|
      modifies `checkViews, healthchecks[k]
      ensures ChecksTold()
      ensures View() == old(View()).(checks := old(checkViews)[k := HandleResult(old(checkViews)[k], result)])
      ensures !healthchecks[k].isRunning
    {
      healthchecks[k].TakeResult(result);
      checkViews := checkViews[k := healthchecks[k].View()];
    }

    /** node_logic up to the call of the pool; `report` says whether that call is made. */
    method GatherChecks() returns (report: bool)
      requires ChecksTold()
      modifies `state, `adminState, `minNodesKept, `maxNodesKept, `checked, `stateChanged
      ensures report == Reports(old(View()))
      ensures View() == NodeLogic(old(View()))
    {
      hide AnyRan, AllUp, AnyDrain;
      var anyRan, ok, drain := CountChecks();
      if anyRan {
        checked := true;
      }
      if !checked {
        return false;
      }
      stateChanged := false;
      var allUp := !(ok < |healthchecks|);
      if state.NodeUp? && !allUp {
        stateChanged, maxNodesKept, state := true, false, NodeDown;
        if adminState.Enabled? {
          adminState := if drain == 0 then Enabled else DrainSoft;
        }
      } else if state.NodeDown? && allUp {
        stateChanged, minNodesKept, state := true, false, NodeUp;
        if adminState.DrainSoft? {
          adminState := Enabled;
        }
      }
      report := true;
    }

    /** change_downtime up to the call of the pool, which is made when something changes. */
    method StartOrEndDowntime(setting: string) returns (report: bool)
      modifies `state, `adminState, `maxNodesKept, `stateChanged
      ensures report == (AdminFromConfig(setting) != old(adminState))
      ensures View() == if report then NodeRules.ChangeDowntime(old(View()), AdminFromConfig(setting)) else old(View())
    {
      var wanted := AdminFromConfig(setting);
      if wanted == adminState {
        return false;
      }
      if !wanted.Enabled? {
        maxNodesKept := false;
      } else {
        state := NodeDown;
      }
      stateChanged := true;
      adminState := wanted;
      report := true;
    }

    // ----- events, through the pool and the cascade ------------------------------------------

    /** This node is registered, and `c` and `s` are configuration and state of the system. */
    ghost predicate InSystem(mq: MessageQueue, c: Config<LbNode>, s: State<LbNode>)
      reads *
    {
      && parent.Registered(c) && parent.allLbPools.Show(mq, s) && this in parent.nodes
      && Shaped(c, s) && this in s.nodes && parent.name in c.pools
    }

    lemma OthersShown(mq: MessageQueue, c: Config<LbNode>, s: State<LbNode>)
      requires InSystem(mq, c, s)
      ensures c.nodes[this].parent == parent.name && s.nodes[this] == View() && this in parent.allLbPools.nodes
      ensures s.nodes.Keys == parent.allLbPools.nodes
      ensures forall n | n in parent.allLbPools.nodes && n != this :: s.nodes[n] == n.View()
    {
      hide Configured;
    }

    lemma ShowChanged(mq: MessageQueue, s: State<LbNode>)
      requires this in parent.allLbPools.nodes && s.nodes.Keys == parent.allLbPools.nodes
      requires parent.allLbPools.ShowPools(s.pools) && parent.allLbPools.Earnest() && s.net == mq.net
      requires forall n | n in parent.allLbPools.nodes && n != this :: s.nodes[n] == n.View()
      ensures parent.allLbPools.Show(mq, Runs.WithNode(s, this, View()))
    {
    }

    /** The call of pool_logic that a changed node makes; `s` still shows it as it was before. */
    method ReportToPool(mq: MessageQueue, ghost c: Config<LbNode>, ghost s: State<LbNode>)
      requires Configured(c) && Shaped(c, s) && parent.name in c.pools && this in s.nodes
      requires parent.Registered(c) && this in parent.nodes
      requires this in parent.allLbPools.nodes && s.nodes.Keys == parent.allLbPools.nodes
      requires parent.allLbPools.ShowPools(s.pools) && parent.allLbPools.Earnest() && s.net == mq.net
      requires forall n | n in parent.allLbPools.nodes && n != this :: s.nodes[n] == n.View()
      modifies parent.allLbPools.Pools()`upNodes, parent.allLbPools.Pools()`backupPoolActive
      modifies parent.allLbPools.Pools()`pfSynced, parent.allLbPools.Pools()`up
      modifies parent.allLbPools.nodes`maxNodesKept, parent.allLbPools.nodes`minNodesKept, mq`net
      ensures var r := Fleet.PoolLogic(c, Runs.WithNode(s, this, old(View())), parent.name, Some(this));
        parent.allLbPools.Show(mq, r)
    {
      hide Configured, PoolMap.Stand, PoolMap.ShowNodes, PoolMap.ShowPools, PoolMap.Earnest, PoolMap.Wired,
           Fleet.PoolLogic;
      ShowChanged(mq, s);
      parent.PoolLogic(this, mq, c, Runs.WithNode(s, this, View()));
    }

    /** The check takes its result and the node looks at all its checks. */
    method CheckAndGather(k: nat, result: CheckResult)
      requires ChecksTold() && k < |healthchecks|
      modifies `state, `adminState, `minNodesKept, `maxNodesKept, `checked, `stateChanged, `checkViews, healthchecks[k]
      ensures ChecksTold() && !healthchecks[k].isRunning
      ensures k < |old(View()).checks| && View() == NodeRules.EndCheck(old(View()), k, result)
    {
      hide NodeLogic, Reports;
      CheckEnded(k, result);
      var report := GatherChecks();
      assert report by { ReportsAfterCheck(old(View()), k, result); }
    }

    /** end_check of check `k`, with node_logic and pool_logic behind it: the system makes exactly
        the step that the event stands for. */
    method EndCheck(k: nat, result: CheckResult, mq: MessageQueue, ghost c: Config<LbNode>, ghost s: State<LbNode>)
      requires InSystem(mq, c, s) && ChecksTold() && k < |healthchecks|
      modifies `state, `adminState, `minNodesKept, `maxNodesKept, `checked, `stateChanged, `checkViews, healthchecks[k]
      modifies parent.allLbPools.Pools()`upNodes, parent.allLbPools.Pools()`backupPoolActive
      modifies parent.allLbPools.Pools()`pfSynced, parent.allLbPools.Pools()`up
      modifies parent.allLbPools.nodes`maxNodesKept, parent.allLbPools.nodes`minNodesKept, mq`net
      ensures Runs.CanHappen(Runs.World(c, s), Runs.CheckEnds(this, k, result, s.net.turns))
      ensures parent.allLbPools.Show(mq, Runs.Next(Runs.World(c, s), Runs.CheckEnds(this, k, result, s.net.turns)).s)
    {
      hide Configured, PoolMap.Stand, PoolMap.ShowNodes, PoolMap.ShowPools, PoolMap.Earnest, PoolMap.Wired,
           Fleet.PoolLogic, NodeRules.EndCheck, Runs.Next, ChecksTold;
      OthersShown(mq, c, s);
      assert |checkViews| == |healthchecks| by { CheckCount(); }
      Runs.CheckStep(c, s, this, k, result);
      CheckAndGather(k, result);
      ReportToPool(mq, c, s);
    }

    /** change_downtime, with pool_logic behind it. */
    method ChangeDowntime(setting: string, mq: MessageQueue, ghost c: Config<LbNode>, ghost s: State<LbNode>)
      requires InSystem(mq, c, s)
      modifies `state, `adminState, `maxNodesKept, `stateChanged
      modifies parent.allLbPools.Pools()`upNodes, parent.allLbPools.Pools()`backupPoolActive
      modifies parent.allLbPools.Pools()`pfSynced, parent.allLbPools.Pools()`up
      modifies parent.allLbPools.nodes`maxNodesKept, parent.allLbPools.nodes`minNodesKept, mq`net
      ensures parent.allLbPools.Show(mq, Runs.Next(Runs.World(c, s), Runs.DowntimeRead(this, setting, s.net.turns)).s)
    {
      hide Configured, PoolMap.Stand, PoolMap.ShowNodes, PoolMap.ShowPools, PoolMap.Earnest, PoolMap.Wired,
           AdminFromConfig, Fleet.PoolLogic, NodeRules.ChangeDowntime, Runs.Next;
      OthersShown(mq, c, s);
      Runs.DowntimeStep(c, s, this, setting);
      var report := StartOrEndDowntime(setting);
      if report {
        ReportToPool(mq, c, s);
      }
    }
  }

  /** After a check has ended its node always reports to the pool. */
  lemma ReportsAfterCheck(v: NodeV, k: nat, r: CheckResult)
    requires k < |v.checks|
    ensures Reports(v.(checks := v.checks[k := HandleResult(v.checks[k], r)]))
  {
    assert v.checks[k := HandleResult(v.checks[k], r)][k].ran;
  }

  function Maybe(n: LbNode?): Option<LbNode> {
    if n == null then None else Some(n)
  }

  /** The map of all pools by name, shared by the pools; `order` is the order it is walked in. */
  class PoolMap {
    var pools: map<string, LbPool>
    var order: seq<string>
    ghost var nodes: set<LbNode>

    /** At start-up there is nothing. */
    constructor ()
      ensures pools == map[] && order == [] && nodes == {}
      ensures Wired() && Earnest()
      ensures forall tables :: var w := Runs.Started<LbNode>(tables);
        Stand(w.c) && ShowPools(w.s.pools) && ShowNodes(w.s.nodes)
    {
      pools, order, nodes := map[], [], {};
    }

    /** Enters a pool into the map, where it comes at position `at`. */
    method Register(pool: LbPool, at: nat)
      requires Wired() && pool.name !in pools && pool.allLbPools == this && at <= |order|
      requires Distinct(pool.nodes) && forall n | n in pool.nodes :: n.parent == pool && n !in nodes
      modifies this
      ensures pools == old(pools)[pool.name := pool] && order == old(order)[..at] + [pool.name] + old(order)[at..]
      ensures nodes == old(nodes) + (set n | n in pool.nodes)
      ensures Wired() && Pools() == old(Pools()) + {pool}
    {
      RegisteredPools(pools, pool, pools[pool.name := pool]);
      pools := pools[pool.name := pool];
      order := order[..at] + [pool.name] + order[at..];
      nodes := nodes + (set n | n in pool.nodes);
    }

    ghost function Pools(): set<LbPool>
      reads this
    {
      set p | p in pools :: pools[p]
    }

    /** Pools are filed under their names, nodes know their pools, and `nodes` are all nodes. */
    ghost predicate Wired()
      reads this, Pools()`nodes
    {
      && (forall p | p in pools :: pools[p].name == p && pools[p].allLbPools == this && Distinct(pools[p].nodes))
      && (forall p, n | p in pools && n in pools[p].nodes :: n in nodes && n.parent == pools[p])
      && (forall n | n in nodes :: n.parent.name in pools && pools[n.parent.name] == n.parent && n in n.parent.nodes)
    }

    /** `c` is the configuration these objects stand for. */
    ghost predicate Stand(c: Config<LbNode>)
      reads this, Pools()`nodes
    {
      && c.pools.Keys == pools.Keys && (forall p | p in pools :: c.pools[p] == pools[p].Cfg())
      && c.order == order
      && c.nodes.Keys == nodes && (forall n | n in nodes :: c.nodes[n] == NodeCfg(n.parent.name, n.ip4, n.ip6))
    }

    ghost predicate ShowPools(ps: map<string, PoolV<LbNode>>)
      reads this, Pools()
    {
      ps.Keys == pools.Keys && (forall p | p in pools :: ps[p] == pools[p].View())
    }

    ghost predicate ShowNodes(ns: map<LbNode, NodeV>)
      reads this, nodes
    {
      ns.Keys == nodes && (forall n | n in nodes :: ns[n] == n.View())
    }

    /** Only pools that may borrow count as borrowing. */
    ghost predicate Earnest()
      reads this, Pools()`backupPoolActive
    {
      forall p | p in pools && pools[p].backupPoolActive :: pools[p].faultPolicy.BackupPool? && pools[p].minNodes > 0
    }

    /** `s` is the state these objects are in. */
    ghost predicate Show(mq: MessageQueue, s: State<LbNode>)
      reads this, Pools(), nodes, mq
    {
      ShowPools(s.pools) && Earnest() && ShowNodes(s.nodes) && s.net == mq.net
    }
  }

  /** The queue to the worker, with the worker and the tables behind it. */
  class MessageQueue {
    var net: Net

    /** At start-up nothing is queued; pf has its tables. */
    constructor (tables: map<string, set<string>>)
      ensures net == Runs.Started<LbNode>(tables).s.net
    {
      net := Net([], tables, {}, {}, []);
    }

    /** The worker may run first; then the message is queued unless the queue is full. */
    method TrySend(m: Msg) returns (ok: bool)
      modifies `net
      ensures ok == Accepts(WorkerTurn(old(net)))
      ensures net == if ok then Enqueue(WorkerTurn(old(net)), m) else WorkerTurn(old(net))
    {
      net := WorkerTurn(net);
      ok := |net.queue| < QUEUE_LEN;
      if ok {
        net := net.(queue := net.queue + [m]);
      }
    }
  }

  lemma RegisteredPools(pools: map<string, LbPool>, pool: LbPool, more: map<string, LbPool>)
    requires pool.name !in pools && more == pools[pool.name := pool]
    ensures (set p | p in more :: more[p]) == (set p | p in pools :: pools[p]) + {pool}
  {
    assert more[pool.name] == pool;
    assert forall p | p in pools :: p in more && more[p] == pools[p];
  }

  ghost predicate Distinct(ns: seq<LbNode>) {
    forall i, j | 0 <= i < j < |ns| :: ns[i] != ns[j]
  }

  type Int32 = x: int | -0x8000_0000 <= x < 0x8000_0000

  /** What becomes of an int that is stored as size_t. */
  function SizeT(x: Int32): (r: nat)
    ensures r < 0x1_0000_0000_0000_0000 && (r - x) % 0x1_0000_0000_0000_0000 == 0
  {
    if x < 0 then x + 0x1_0000_0000_0000_0000 else x
  }

  class LbPool {
    const name: string
    const pfName: string
    const minNodes: nat
    const maxNodes: nat
    const faultPolicy: FaultPolicy
    const backupPoolName: string
    const hasHcs: bool
    ghost const rank: nat
    const allLbPools: PoolMap
    var nodes: seq<LbNode>
    var upNodes: set<LbNode>
    var backupPoolActive: bool
    var pfSynced: bool
    var up: bool

    /** The limits and the policy as the constructor derives them from the configuration. */
    constructor (name: string, pfName: string, minConf: Int32, maxConf: Int32, action: string, backup: string,
                 hasHcs: bool, nodeCount: nat, allLbPools: PoolMap, ghost rank: nat)
      ensures this.allLbPools == allLbPools
      ensures this.name == name && this.pfName == pfName && this.hasHcs == hasHcs && this.rank == rank
      ensures backupPoolName == backup && nodes == [] && upNodes == {} && !pfSynced && !up && !backupPoolActive
      ensures Normalised(Cfg())
      ensures minNodes == if hasHcs then SizeT(minConf) else nodeCount
      ensures maxNodes == SizeT(maxConf) || (0 < SizeT(maxConf) < minNodes && maxNodes == minNodes)
      ensures !hasHcs ==> faultPolicy.ForceUp?
      ensures hasHcs && backup != "" ==> faultPolicy.BackupPool?
      ensures hasHcs && backup == "" ==>
        faultPolicy ==
          if action == "force_up" then ForceUp else if action == "backup_pool" then BackupPool else ForceDown
    {
      this.name, this.pfName, this.hasHcs, this.rank := name, pfName, hasHcs, rank;
      this.allLbPools := allLbPools;
      backupPoolName := backup;
      var policy := if action == "force_up" then ForceUp else if action == "backup_pool" then BackupPool else ForceDown;
      if backup != "" {
        policy := BackupPool;
      }
      var least: nat, most: nat := SizeT(minConf), SizeT(maxConf);
      if !hasHcs {
        policy := ForceUp;
        least := nodeCount;
      }
      if most > 0 && most < least {
        most := least;
      }
      minNodes, maxNodes, faultPolicy := least, most, policy;
      nodes, upNodes, backupPoolActive, pfSynced, up := [], {}, false, false, false;
    }

    /** Creates a node of this pool, which comes at position `at`. */
    method AddNode(at: nat, ip4: string, ip6: string, setting: string, table: set<string>) returns (n: LbNode)
      requires at <= |nodes| && Distinct(nodes)
      modifies `nodes
      ensures fresh(n) && nodes == old(nodes)[..at] + [n] + old(nodes)[at..] && Distinct(nodes)
      ensures n.parent == this && n.ip4 == ip4 && n.ip6 == ip6 && n.healthchecks == [] && n.ChecksTold()
      ensures FreshNode(n.View()) && n.adminState == AdminFromConfig(setting)
      ensures n.state == NodeUp <==> (if ip4 != "" then ip4 in table else ip6 in table)
    {
      n := new LbNode(this, ip4, ip6, setting, table);
      nodes := nodes[..at] + [n] + nodes[at..];
    }

    ghost function Cfg(): PoolCfg<LbNode>
      reads `nodes
    {
      PoolCfg(pfName, minNodes, maxNodes, faultPolicy, backupPoolName, hasHcs, nodes, rank)
    }

    ghost function View(): PoolV<LbNode>
      reads `upNodes, `backupPoolActive, `pfSynced, `up
    {
      PoolV(upNodes, backupPoolActive, pfSynced, up)
    }

    /** `m` tells state, admin state and the forced mark of this pool's nodes. */
    ghost predicate Told(m: map<LbNode, NodeV>)
      reads this, nodes
    {
      && Distinct(nodes)
      && forall n | n in nodes ::
           n in m && m[n].state == n.state && m[n].admin == n.adminState && m[n].minKept == n.minNodesKept
    }

    ghost predicate KeptTold(m: map<LbNode, NodeV>)
      reads this, nodes
    {
      forall n | n in nodes :: n in m && m[n].maxKept == n.maxNodesKept
    }

    /** Adds the up nodes that were kept before, while there is room. */
    method AddKept(ghost up: set<LbNode>, ghost kept: set<LbNode>) returns (wanted: set<LbNode>)
      requires forall n | n in nodes :: (n in up <==> n.NodeIsUp()) && (n in kept <==> n.maxNodesKept)
      ensures wanted == Visit({}, nodes, up * kept, maxNodes)
    {
      hide Visit;
      wanted := {};
      VisitStep({}, nodes, 0, up * kept, maxNodes);
      for i := 0 to |nodes|
        invariant wanted + Visit(wanted, nodes[i..], up * kept, maxNodes) == Visit({}, nodes, up * kept, maxNodes)
      {
        VisitStep(wanted, nodes, i, up * kept, maxNodes);
        if !(maxNodes == 0 || |wanted| < maxNodes) {
          return;
        }
        if nodes[i].NodeIsUp() && nodes[i].maxNodesKept {
          wanted := wanted + {nodes[i]};
        }
      }
      VisitStep(wanted, nodes, |nodes|, up * kept, maxNodes);
    }

    /** Adds other up nodes, while there is room, and marks them as kept. */
    method AddOthers(before: set<LbNode>, ghost up: set<LbNode>, ghost kept: set<LbNode>) returns (wanted: set<LbNode>)
      requires Distinct(nodes) && before <= kept
      requires forall n | n in nodes :: (n in up <==> n.NodeIsUp()) && (n in kept <==> n.maxNodesKept)
      modifies nodes`maxNodesKept
      ensures wanted == before + Visit(before, nodes, up - kept, maxNodes)
      ensures forall n | n in nodes :: n.maxNodesKept == (n in kept || n in wanted)
    {
      hide Visit;
      wanted := before;
      VisitStep(before, nodes, 0, up - kept, maxNodes);
      for i := 0 to |nodes|
        invariant wanted + Visit(wanted, nodes[i..], up - kept, maxNodes)
            == before + Visit(before, nodes, up - kept, maxNodes)
        invariant forall n | n in wanted - before :: n in nodes[..i]
        invariant forall n | n in nodes :: n.maxNodesKept == (n in kept || n in wanted)
      {
        VisitStep(wanted, nodes, i, up - kept, maxNodes);
        if !(maxNodes == 0 || |wanted| < maxNodes) {
          return;
        }
        assert nodes[i] !in nodes[..i] && nodes[..i + 1] == nodes[..i] + [nodes[i]];
        if nodes[i].NodeIsUp() && !nodes[i].maxNodesKept {
          wanted := wanted + {nodes[i]};
          nodes[i].maxNodesKept := true;
        }
      }
      VisitStep(wanted, nodes, |nodes|, up - kept, maxNodes);
    }

    /** The nodes that may be forced up besides the one that has just changed. */
    method ForceUpCandidates(last: LbNode?, ghost others: set<LbNode>) returns (candidates: seq<LbNode>)
      requires forall n | n in nodes :: n in others <==> n.adminState.Enabled? && n != last
      ensures candidates == Among(nodes, others)
    {
      candidates := [];
      for i := 0 to |nodes|
        invariant candidates == Among(nodes[..i], others)
      {
        assert nodes[..i + 1] == nodes[..i] + [nodes[i]];
        AmongAppend(nodes[..i], nodes[i], others);
        if nodes[i] == last || !nodes[i].adminState.Enabled? {
          continue;
        }
        candidates := candidates + [nodes[i]];
      }
      assert nodes[..|nodes|] == nodes;
    }

    /** Adds candidates that were forced up before, while min_nodes is not reached. */
    method KeepForced(before: set<LbNode>, candidates: seq<LbNode>, ghost forced: set<LbNode>)
        returns (wanted: set<LbNode>)
      requires minNodes > 0 && forall n | n in candidates :: n in forced <==> n.minNodesKept
      modifies candidates`minNodesKept
      ensures wanted == before + Visit(before, candidates, forced, minNodes)
      ensures forall n | n in candidates :: n.minNodesKept == old(n.minNodesKept)
    {
      hide Visit;
      wanted := before;
      VisitStep(before, candidates, 0, forced, minNodes);
      for i := 0 to |candidates|
        invariant wanted + Visit(wanted, candidates[i..], forced, minNodes)
            == before + Visit(before, candidates, forced, minNodes)
        invariant forall n | n in candidates :: n.minNodesKept == old(n.minNodesKept)
      {
        VisitStep(wanted, candidates, i, forced, minNodes);
        if |wanted| >= minNodes {
          return;
        }
        if candidates[i].minNodesKept {
          candidates[i].minNodesKept := true;
          wanted := wanted + {candidates[i]};
        }
      }
      VisitStep(wanted, candidates, |candidates|, forced, minNodes);
    }

    /** Adds any candidates, while min_nodes is not reached, and marks them as forced up. */
    method ForceAny(before: set<LbNode>, candidates: seq<LbNode>, ghost others: set<LbNode>)
        returns (wanted: set<LbNode>, ghost any: set<LbNode>)
      requires minNodes > 0 && forall n | n in candidates :: n in others
      modifies candidates`minNodesKept
      ensures any == Visit(before, candidates, others, minNodes) && wanted == before + any
      ensures forall n | n in candidates :: n.minNodesKept == (old(n.minNodesKept) || n in any)
    {
      hide Visit;
      wanted, any := before, {};
      VisitStep(before, candidates, 0, others, minNodes);
      for i := 0 to |candidates|
        invariant any + Visit(wanted, candidates[i..], others, minNodes) == Visit(before, candidates, others, minNodes)
        invariant wanted == before + any
        invariant forall n | n in candidates :: n.minNodesKept == (old(n.minNodesKept) || n in any)
      {
        VisitStepExact(wanted, candidates, i, others, minNodes);
        if |wanted| >= minNodes {
          return;
        }
        candidates[i].minNodesKept := true;
        wanted := wanted + {candidates[i]};
        any := any + {candidates[i]};
      }
      VisitStepExact(wanted, candidates, |candidates|, others, minNodes);
    }

    method ForceOthersUp(before: set<LbNode>, last: LbNode?, ghost others: set<LbNode>, ghost forced: set<LbNode>)
      returns (wanted: set<LbNode>)
      requires minNodes > 0 && forall n | n in nodes :: n in others <==> n.adminState.Enabled? && n != last
      requires forall n | n in nodes && n in others :: n in forced <==> n.minNodesKept
      modifies nodes`minNodesKept
      ensures
        var w := before + Visit(before, nodes, others * forced, minNodes);
        var any := Visit(w, nodes, others, minNodes);
        && wanted == w + any
        && forall n | n in nodes :: n.minNodesKept == (old(n.minNodesKept) || n in any)
    {
      hide Visit, Among;
      var candidates := ForceUpCandidates(last, others);
      assert forall n | n in candidates :: n in nodes && n in others by { AmongMembers(nodes, others); }
      assert forall k | 0 <= k < |candidates| :: candidates[k] in candidates;
      VisitAmong(before, nodes, others, forced, minNodes);
      assert others * forced == forced * others && others * others == others;
      var w := KeepForced(before, candidates, forced);
      ghost var any;
      VisitAmong(w, nodes, others, others, minNodes);
      wanted, any := ForceAny(w, candidates, others);
      forall n | n in nodes && n !in candidates
        ensures n !in any
      {
        VisitFacts(w, candidates, others, minNodes);
      }
    }

    /** The FORCE_UP branch: the node that just changed, then nodes forced before, then any. */
    method ForceNodesUp(last: LbNode?, w: set<LbNode>, ghost m: map<LbNode, NodeV>) returns (wanted: set<LbNode>)
      requires Told(m) && (last != null ==> last in nodes) && Short(minNodes, |w|)
      modifies nodes`minNodesKept
      ensures wanted == ForceUpChoice(Cfg(), m, Maybe(last), w).served
      ensures forall n | n in nodes ::
          n.minNodesKept == (m[n].minKept || n in ForceUpChoice(Cfg(), m, Maybe(last), w).forced)
    {
      hide Visit, OthersOf, ForcedOf;
      ghost var first, others, forced :=
          ForcedFirst(m, Maybe(last)), OthersOf(nodes, m, Maybe(last)), ForcedOf(nodes, m);
      assert forall n | n in nodes :: n in others <==> n.adminState.Enabled? && n != last by { OthersTold(m, last); }
      assert forall n | n in nodes :: n in forced <==> n.minNodesKept by { OthersTold(m, last); }
      wanted := w;
      if last != null && last.state.NodeDown? && last.adminState.Enabled? && |wanted| < minNodes {
        wanted := wanted + {last};
        last.minNodesKept := true;
      }
      assert wanted == w + first;
      assert forall n | n in nodes :: n.minNodesKept == (n in forced || n in first);
      wanted := ForceOthersUp(wanted, last, others, forced);
    }

    lemma OthersTold(m: map<LbNode, NodeV>, last: LbNode?)
      requires Told(m)
      ensures forall n | n in nodes :: n in OthersOf(nodes, m, Maybe(last)) <==> n.adminState.Enabled? && n != last
      ensures forall n | n in nodes :: n in ForcedOf(nodes, m) <==> n.minNodesKept
    {
    }

    lemma SetsTold(m: map<LbNode, NodeV>)
      requires Told(m) && KeptTold(m)
      ensures forall n | n in nodes ::
        (n in UpOf(nodes, m) <==> n.NodeIsUp()) && (n in KeptOf(nodes, m) <==> n.maxNodesKept)
    {
    }

    /** Both max_nodes loops. */
    method PickWithinMax(ghost m: map<LbNode, NodeV>) returns (wanted: set<LbNode>)
      requires Told(m) && KeptTold(m)
      modifies nodes`maxNodesKept
      ensures wanted == WithinMax(nodes, maxNodes, m)
      ensures forall n | n in nodes :: n.maxNodesKept == (m[n].maxKept || n in wanted)
    {
      hide Visit;
      SetsTold(m);
      wanted := AddKept(UpOf(nodes, m), KeptOf(nodes, m));
      VisitFacts({}, nodes, UpOf(nodes, m) * KeptOf(nodes, m), maxNodes);
      wanted := AddOthers(wanted, UpOf(nodes, m), KeptOf(nodes, m));
    }

    /** The wanted nodes; `b` is what the backup pool serves, if that pool is registered. */
    method WantedNodes(last: LbNode?, ghost m: map<LbNode, NodeV>, ghost b: Option<set<LbNode>>)
        returns (wanted: set<LbNode>)
      requires Told(m) && KeptTold(m) && (last != null ==> last in nodes)
      requires b == if backupPoolName in allLbPools.pools then Some(allLbPools.pools[backupPoolName].upNodes) else None
      modifies `backupPoolActive, nodes`maxNodesKept, nodes`minNodesKept
      ensures wanted == Choose(Cfg(), m, Maybe(last), b).served
      ensures backupPoolActive == Choose(Cfg(), m, Maybe(last), b).active
      ensures forall n | n in nodes ::
        && n.maxNodesKept == (m[n].maxKept || n in Choose(Cfg(), m, Maybe(last), b).kept)
        && n.minNodesKept == (m[n].minKept || n in Choose(Cfg(), m, Maybe(last), b).forced)
    {
      hide WithinMax, ForceUpChoice;
      backupPoolActive := false;
      wanted := PickWithinMax(m);
      ghost var w := wanted;
      ForceUpParts(Cfg(), m, Maybe(last), w);
      if minNodes > 0 && |wanted| < minNodes {
        match faultPolicy {
          case ForceDown =>
            wanted := {};
          case ForceUp =>
            wanted := ForceNodesUp(last, wanted, m);
          case BackupPool =>
            if backupPoolName in allLbPools.pools {
              wanted := allLbPools.pools[backupPoolName].upNodes;
              backupPoolActive := true;
            }
        }
      }
    }

    /** The recomputation in pool_logic: the pool adopts the choice that its nodes call for. */
    method RecomputeUpNodes(last: LbNode?, ghost m: map<LbNode, NodeV>, ghost b: Option<set<LbNode>>,
                            ghost ch: Choice<LbNode>)
      requires Told(m) && KeptTold(m) && (last != null ==> last in nodes)
      requires b == if backupPoolName in allLbPools.pools then Some(allLbPools.pools[backupPoolName].upNodes) else None
      requires ch == Choose(Cfg(), m, Maybe(last), b)
      modifies `upNodes, `backupPoolActive, `pfSynced, `up, nodes`maxNodesKept, nodes`minNodesKept
      ensures View() == Adopted(old(View()), ch)
      ensures forall n | n in nodes :: n.maxNodesKept == (m[n].maxKept || n in ch.kept)
      ensures forall n | n in nodes :: n.minNodesKept == (m[n].minKept || n in ch.forced)
    {
      hide Choose;
      var wanted := WantedNodes(last, m, b);
      if wanted != upNodes {
        upNodes := wanted;
        up := upNodes != {};
        pfSynced := false;
      }
    }

    // ----- sending -----------------------------------------------------------------------

    /** Fills the fixed-size node list of a message and tries to queue it. */
    method SendMessage(mq: MessageQueue, ghost c: Config<LbNode>, ghost s: State<LbNode>) returns (ok: bool)
      requires |nodes| < MAX_NODES
      requires forall n | n in nodes ::
        && n in c.nodes && n in s.nodes && n.adminState == s.nodes[n].admin
        && n.ip4 == c.nodes[n].ip4 && n.ip6 == c.nodes[n].ip6
      modifies mq`net
      ensures
        var net := WorkerTurn(old(mq.net));
        && ok == Accepts(net)
        && mq.net == if ok then Enqueue(net, Msg(name, pfName, Snapshot(c, s, nodes, upNodes))) else net
    {
      var slots := new Slot[MAX_NODES](_ => BLANK);
      for k := 0 to |nodes|
        invariant mq.net == old(mq.net)
        invariant forall j | 0 <= j < MAX_NODES :: slots[j] == if j < k then SlotFor(c, s, upNodes, nodes[j]) else BLANK
      {
        var n := nodes[k];
        slots[k] := Slot(if n in upNodes then NodeUp else NodeDown, n.adminState, n.ip4, n.ip6);
      }
      assert slots[..] == Snapshot(c, s, nodes, upNodes);
      ok := mq.TrySend(Msg(name, pfName, slots[..]));
    }

    // ----- the cascade ---------------------------------------------------------------------

    /** This pool is registered and `c` is the configuration of the whole system. */
    ghost predicate Registered(c: Config<LbNode>)
      reads allLbPools, allLbPools.Pools()`nodes
    {
      && allLbPools.Wired() && name in allLbPools.pools && allLbPools.pools[name] == this
      && allLbPools.Stand(c) && Configured(c)
    }

    lemma ShowHere(mq: MessageQueue, c: Config<LbNode>, s: State<LbNode>)
      requires Registered(c) && allLbPools.Show(mq, s)
      ensures name in c.pools && Shaped(c, s) && c.pools[name] == Cfg() && s.pools[name] == View()
      ensures BackupUp(c, s, name) ==
        if backupPoolName in allLbPools.pools then Some(allLbPools.pools[backupPoolName].upNodes) else None
    {
      hide Configured;
    }

    /** RecomputeUpNodes, seen among `all` nodes. */
    method RecomputeAmong(last: LbNode?, ghost m: map<LbNode, NodeV>, ghost b: Option<set<LbNode>>,
                          ghost ch: Choice<LbNode>, ghost all: set<LbNode>)
      requires Distinct(nodes) && (last != null ==> last in nodes)
      requires forall n | n in nodes :: n in all
      requires m.Keys == all && forall n | n in all :: m[n] == n.View()
      requires b == if backupPoolName in allLbPools.pools then Some(allLbPools.pools[backupPoolName].upNodes) else None
      requires ch == Choose(Cfg(), m, Maybe(last), b)
      modifies `upNodes, `backupPoolActive, `pfSynced, `up, nodes`maxNodesKept, nodes`minNodesKept
      ensures View() == Adopted(old(View()), ch)
      ensures forall n | n in all :: SetFlags(m, ch.kept, ch.forced)[n] == n.View()
    {
      hide Choose, Distinct;
      ChoiceLocal(Cfg(), m, Maybe(last), b);
      RecomputeUpNodes(last, m, b, ch);
    }

    lemma OthersShown(s: State<LbNode>)
      requires allLbPools.Wired() && name in allLbPools.pools && allLbPools.pools[name] == this
      requires allLbPools.ShowPools(s.pools) && allLbPools.Earnest()
      ensures s.pools.Keys == allLbPools.pools.Keys && s.pools[name] == View()
      ensures forall p | p in allLbPools.pools && p != name ::
        allLbPools.pools[p] != this && s.pools[p] == allLbPools.pools[p].View()
      ensures forall p | p in allLbPools.pools && allLbPools.pools[p].backupPoolActive ::
        allLbPools.pools[p].faultPolicy.BackupPool? && allLbPools.pools[p].minNodes > 0
    {
    }

    lemma NodesShown(s: State<LbNode>)
      requires allLbPools.Wired() && name in allLbPools.pools && allLbPools.pools[name] == this
      requires allLbPools.ShowNodes(s.nodes)
      ensures Distinct(nodes) && (forall n | n in nodes :: n in allLbPools.nodes)
      ensures s.nodes.Keys == allLbPools.nodes && forall n | n in allLbPools.nodes :: s.nodes[n] == n.View()
    {
    }

    lemma ShowAdopted(mq: MessageQueue, s: State<LbNode>, ch: Choice<LbNode>)
      requires name in allLbPools.pools && allLbPools.pools[name] == this
      requires s.pools.Keys == allLbPools.pools.Keys && s.nodes.Keys == allLbPools.nodes && s.net == mq.net
      requires forall p | p in allLbPools.pools && p != name :: s.pools[p] == allLbPools.pools[p].View()
      requires View() == Adopted(s.pools[name], ch) && (ch.active ==> MayBorrow(Cfg()))
      requires forall p | p in allLbPools.pools && p != name && allLbPools.pools[p].backupPoolActive ::
        allLbPools.pools[p].faultPolicy.BackupPool? && allLbPools.pools[p].minNodes > 0
      requires forall n | n in allLbPools.nodes :: SetFlags(s.nodes, ch.kept, ch.forced)[n] == n.View()
      ensures allLbPools.Show(mq, Adopt(s, name, ch))
    {
    }

    /** The recomputation, seen in the whole system. */
    method RecomputeWithin(last: LbNode?, mq: MessageQueue, ghost c: Config<LbNode>, ghost s: State<LbNode>)
      requires Registered(c) && allLbPools.Show(mq, s) && (last != null ==> last in nodes)
      modifies `upNodes, `backupPoolActive, `pfSynced, `up, nodes`maxNodesKept, nodes`minNodesKept
      ensures allLbPools.Show(mq, Recompute(c, s, name, Maybe(last)))
    {
      hide Choose, Configured, Distinct, SetFlags, Adopted, Adopt, PoolMap.Stand, PoolMap.ShowNodes,
           PoolMap.ShowPools, PoolMap.Earnest, PoolMap.Wired;
      ShowHere(mq, c, s);
      OthersShown(s);
      NodesShown(s);
      ghost var ch := ChoiceFor(c, s, name, Maybe(last));
      ActiveBorrows(Cfg(), s.nodes, Maybe(last), BackupUp(c, s, name));
      RecomputeAmong(last, s.nodes, BackupUp(c, s, name), ch, allLbPools.nodes);
      ShowAdopted(mq, s, ch);
    }

    lemma ShowSent(mq: MessageQueue, c: Config<LbNode>, s: State<LbNode>, net: Net)
      requires name in allLbPools.pools && allLbPools.pools[name] == this
      requires s.pools.Keys == allLbPools.pools.Keys
      requires forall p | p in allLbPools.pools && p != name :: s.pools[p] == allLbPools.pools[p].View()
      requires View() == s.pools[name].(synced := pfSynced)
      requires allLbPools.ShowNodes(s.nodes) && allLbPools.Earnest() && mq.net == net
      ensures allLbPools.Show(mq, s.(net := net, pools := s.pools[name := s.pools[name].(synced := pfSynced)]))
    {
    }

    lemma OwnShown(c: Config<LbNode>, s: State<LbNode>)
      requires Registered(c) && allLbPools.ShowNodes(s.nodes)
      ensures forall n | n in nodes ::
        && n in c.nodes && n in s.nodes && n.adminState == s.nodes[n].admin
        && n.ip4 == c.nodes[n].ip4 && n.ip6 == c.nodes[n].ip6
    {
      hide Configured;
    }

    /** Sending, seen in the whole system. */
    method SendWithin(mq: MessageQueue, ghost c: Config<LbNode>, ghost s: State<LbNode>)
      requires Registered(c) && allLbPools.Show(mq, s)
      modifies `pfSynced, mq`net
      ensures name in c.pools && PoolConfigured(c, name) && s.pools.Keys == c.pools.Keys
      ensures allLbPools.Show(mq, Send(c, s, name))
    {
      hide Snapshot, WorkerTurn, Enqueue, Accepts, Configured, Distinct, PoolMap.Stand, PoolMap.ShowNodes,
           PoolMap.ShowPools, PoolMap.Earnest, PoolMap.Wired;
      ShowHere(mq, c, s);
      OwnShown(c, s);
      OthersShown(s);
      AllConfigured(c, name);
      if !pfSynced {
        pfSynced := SendMessage(mq, c, s);
        ShowSent(mq, c, s, mq.net);
      }
    }

    /** pool_logic: recompute if told to, send if necessary, and re-evaluate all borrowers. */
    method PoolLogic(last: LbNode?, mq: MessageQueue, ghost c: Config<LbNode>, ghost s: State<LbNode>)
      requires Registered(c) && allLbPools.Show(mq, s) && Shaped(c, s) && name in c.pools
      requires last != null ==> last in nodes
      modifies allLbPools.Pools()`upNodes, allLbPools.Pools()`backupPoolActive
      modifies allLbPools.Pools()`pfSynced, allLbPools.Pools()`up
      modifies allLbPools.nodes`maxNodesKept, allLbPools.nodes`minNodesKept, mq`net
      ensures allLbPools.Show(mq, Fleet.PoolLogic(c, s, name, Maybe(last)))
      decreases Above(c, name), |c.order| + 2
    {
      hide Configured, PoolMap.Stand, PoolMap.Show, PoolMap.Wired;
      ghost var s1 := s;
      GateShown(last, mq, s);
      MineShown(c);
      if last == null || last.stateChanged {
        RecomputeWithin(last, mq, c, s);
        s1 := Recompute(c, s, name, Maybe(last));
      }
      UpdatePfctl(mq, c, s1);
    }

    /** update_pfctl, with its walk over the pool map. */
    method UpdatePfctl(mq: MessageQueue, ghost c: Config<LbNode>, ghost s: State<LbNode>)
      requires Registered(c) && allLbPools.Show(mq, s) && Shaped(c, s) && name in c.pools
      modifies allLbPools.Pools()`upNodes, allLbPools.Pools()`backupPoolActive
      modifies allLbPools.Pools()`pfSynced, allLbPools.Pools()`up
      modifies allLbPools.nodes`maxNodesKept, allLbPools.nodes`minNodesKept, mq`net
      ensures allLbPools.Show(mq, Fleet.UpdatePfctl(c, s, name))
      decreases Above(c, name), |c.order| + 1
    {
      hide Configured, PoolMap.Show, Registered, Send;
      MineShown(c);
      SendWithin(mq, c, s);
      ghost var cur := Send(c, s, name);
      for i := 0 to |allLbPools.order|
        invariant allLbPools.order == c.order && Shaped(c, cur) && allLbPools.Show(mq, cur)
        invariant Dependents(c, cur, name, i) == Fleet.UpdatePfctl(c, s, name)
      {
        var q := allLbPools.order[i];
        BorrowerShown(mq, c, cur, i);
        var pool := allLbPools.pools[q];
        if pool.backupPoolName == name && pool.backupPoolActive {
          pool.PoolLogic(null, mq, c, cur);
          cur := Fleet.PoolLogic(c, cur, q, None);
        }
      }
    }

    /** sync_no_hc: pools without health checks are never recomputed, only resent. */
    method SyncNoHc(mq: MessageQueue, ghost c: Config<LbNode>, ghost s: State<LbNode>)
      requires Registered(c) && allLbPools.Show(mq, s)
      modifies allLbPools.Pools()`upNodes, allLbPools.Pools()`backupPoolActive
      modifies allLbPools.Pools()`pfSynced, allLbPools.Pools()`up
      modifies allLbPools.nodes`maxNodesKept, allLbPools.nodes`minNodesKept, mq`net
      ensures allLbPools.Show(mq, Runs.Next(Runs.World(c, s), Runs.SyncTimer(name, s.net.turns)).s)
    {
      hide Configured, PoolMap.Stand, PoolMap.ShowNodes, PoolMap.ShowPools, PoolMap.Earnest, PoolMap.Wired,
           Fleet.UpdatePfctl;
      ShowHere(mq, c, s);
      if !hasHcs && !pfSynced {
        UpdatePfctl(mq, c, s);
      }
    }

    // ----- loading -------------------------------------------------------------------------

    ghost function NodeCfgs(): map<LbNode, NodeCfg>
      reads `nodes
    {
      map n | n in nodes :: NodeCfg(name, n.ip4, n.ip6)
    }

    ghost function NodeViews(): map<LbNode, NodeV>
      reads this, nodes
    {
      map n | n in nodes :: n.View()
    }

    /** The event of loading this pool. */
    ghost function Loading(at: nat, turns: seq<seq<Outcome>>): Runs.Event<LbNode>
      reads this, nodes
    {
      Runs.PoolLoaded(name, Cfg(), at, NodeCfgs(), NodeViews(), turns)
    }

    /** This pool is complete but not yet in the map. */
    ghost predicate Constructed()
      reads this, allLbPools, nodes
    {
      && name !in allLbPools.pools && Distinct(nodes) && View() == PoolV({}, false, false, false)
      && forall n | n in nodes :: n.parent == this && n !in allLbPools.nodes && FreshNode(n.View())
    }

    lemma KnownShown(mq: MessageQueue, c: Config<LbNode>, s: State<LbNode>)
      requires allLbPools.Stand(c) && allLbPools.Show(mq, s)
      ensures var was, known := allLbPools.pools, allLbPools.nodes;
        && c.pools.Keys == was.Keys && (forall p | p in was :: c.pools[p] == was[p].Cfg())
        && c.order == allLbPools.order
        && c.nodes.Keys == known && (forall n | n in known :: c.nodes[n] == NodeCfg(n.parent.name, n.ip4, n.ip6))
        && s.pools.Keys == was.Keys && (forall p | p in was :: s.pools[p] == was[p].View())
        && (forall p | p in was && was[p].backupPoolActive :: was[p].faultPolicy.BackupPool? && was[p].minNodes > 0)
        && s.nodes.Keys == known && (forall n | n in known :: s.nodes[n] == n.View()) && s.net == mq.net
    {
    }

    lemma StandExtended(c: Config<LbNode>, at: nat, was: map<string, LbPool>, order: seq<string>, known: set<LbNode>)
      requires c.pools.Keys == was.Keys && (forall p | p in was :: c.pools[p] == was[p].Cfg()) && c.order == order
      requires at <= |order|
      requires c.nodes.Keys == known && (forall n | n in known :: c.nodes[n] == NodeCfg(n.parent.name, n.ip4, n.ip6))
      requires forall n | n in nodes :: n.parent == this && n !in known
      requires allLbPools.pools == was[name := this] && allLbPools.order == order[..at] + [name] + order[at..]
      requires allLbPools.nodes == known + (set n | n in nodes)
      ensures allLbPools.Stand(Runs.Extend(c, name, Cfg(), at, NodeCfgs()))
    {
    }

    lemma ShowExtended(mq: MessageQueue, s: State<LbNode>, was: map<string, LbPool>, known: set<LbNode>)
      requires s.pools.Keys == was.Keys && (forall p | p in was :: s.pools[p] == was[p].View())
      requires s.nodes.Keys == known && (forall n | n in known :: s.nodes[n] == n.View()) && s.net == mq.net
      requires View() == PoolV({}, false, false, false)
      requires forall p | p in was && was[p].backupPoolActive :: was[p].faultPolicy.BackupPool? && was[p].minNodes > 0
      requires allLbPools.pools == was[name := this] && allLbPools.nodes == known + (set n | n in nodes)
      ensures allLbPools.Show(mq, Runs.WithPool(s, name, NodeViews()))
    {
    }

    lemma LoadStep(c: Config<LbNode>, s: State<LbNode>, at: nat)
      requires Configured(c) && Shaped(c, s) && at <= |c.order| && Runs.Fits(c, name, Cfg(), NodeCfgs())
      requires forall n | n in nodes :: FreshNode(n.View())
      ensures var e := Loading(at, s.net.turns);
        var c', s' := Runs.Extend(c, name, Cfg(), at, NodeCfgs()), Runs.WithPool(s, name, NodeViews());
        && Runs.CanHappen(Runs.World(c, s), e) && Configured(c') && Shaped(c', s') && name in c'.pools
        && Runs.Next(Runs.World(c, s), e) == Runs.World(c', Fleet.PoolLogic(c', s', name, None))
    {
      hide Configured, Fleet.PoolLogic, FreshNode, Runs.Fits;
      Runs.FitHappens(Runs.World(c, s), Loading(at, s.net.turns));
      assert Runs.WithTurns(s, s.net.turns) == s;
    }

    /** Enters this pool into the map, seen in the whole system. */
    method Enter(at: nat, mq: MessageQueue, ghost c: Config<LbNode>, ghost s: State<LbNode>)
      requires allLbPools.Wired() && allLbPools.Stand(c) && allLbPools.Show(mq, s) && at <= |c.order| && Constructed()
      modifies allLbPools
      ensures allLbPools.Wired() && name in allLbPools.pools && allLbPools.pools[name] == this
      ensures allLbPools.Stand(Runs.Extend(c, name, Cfg(), at, NodeCfgs()))
      ensures allLbPools.Show(mq, Runs.WithPool(s, name, NodeViews()))
      ensures allLbPools.Pools() == old(allLbPools.Pools()) + {this}
      ensures allLbPools.nodes == old(allLbPools.nodes) + (set n | n in nodes)
    {
      hide FreshNode, Distinct, PoolMap.Wired, PoolMap.Pools, PoolMap.Stand, PoolMap.ShowPools, PoolMap.ShowNodes,
           PoolMap.Earnest, Runs.Extend, Runs.WithPool, Cfg, NodeCfgs, NodeViews;
      ghost var was, order, known := allLbPools.pools, allLbPools.order, allLbPools.nodes;
      KnownShown(mq, c, s);
      allLbPools.Register(this, at);
      StandExtended(c, at, was, order, known);
      ShowExtended(mq, s, was, known);
    }

    /** The pool is entered and runs its first pool_logic: the system makes exactly the step of
        loading a pool. */
    method Load(at: nat, mq: MessageQueue, ghost c: Config<LbNode>, ghost s: State<LbNode>)
      requires allLbPools.Wired() && allLbPools.Stand(c) && Configured(c) && allLbPools.Show(mq, s) && at <= |c.order|
      requires Constructed() && Runs.Fits(c, name, Cfg(), NodeCfgs())
      modifies allLbPools, mq`net
      modifies allLbPools.Pools()`upNodes, allLbPools.Pools()`backupPoolActive
      modifies allLbPools.Pools()`pfSynced, allLbPools.Pools()`up
      modifies this`upNodes, this`backupPoolActive, this`pfSynced, this`up
      modifies allLbPools.nodes`maxNodesKept, allLbPools.nodes`minNodesKept, nodes`maxNodesKept, nodes`minNodesKept
      ensures Shaped(c, s) && Runs.CanHappen(Runs.World(c, s), old(Loading(at, s.net.turns)))
      ensures Registered(Runs.Next(Runs.World(c, s), old(Loading(at, s.net.turns))).c)
      ensures allLbPools.Show(mq, Runs.Next(Runs.World(c, s), old(Loading(at, s.net.turns))).s)
    {
      hide Configured, Fleet.PoolLogic, FreshNode, Runs.Fits, PoolMap.Stand, PoolMap.ShowNodes, PoolMap.ShowPools,
           PoolMap.Earnest, PoolMap.Wired, Runs.Next, Runs.CanHappen, Distinct;
      assert Shaped(c, s) by { ShapedHere(mq, c, s); }
      ghost var c', s' := Runs.Extend(c, name, Cfg(), at, NodeCfgs()), Runs.WithPool(s, name, NodeViews());
      LoadStep(c, s, at);
      Enter(at, mq, c, s);
      assert Registered(c');
      PoolLogic(null, mq, c', s');
      assert Registered(c');
    }

    lemma ShapedHere(mq: MessageQueue, c: Config<LbNode>, s: State<LbNode>)
      requires allLbPools.Stand(c) && allLbPools.Show(mq, s)
      ensures Shaped(c, s)
    {
    }

    lemma GateShown(last: LbNode?, mq: MessageQueue, s: State<LbNode>)
      requires allLbPools.Wired() && name in allLbPools.pools && allLbPools.pools[name] == this
      requires allLbPools.Show(mq, s) && (last != null ==> last in nodes)
      ensures Gate(s, Maybe(last)) <==> (last == null || last.stateChanged)
    {
    }

    lemma MineShown(c: Config<LbNode>)
      requires Registered(c)
      ensures Configured(c) && allLbPools.order == c.order
      ensures this in allLbPools.Pools() && forall k | 0 <= k < |nodes| :: nodes[k] in allLbPools.nodes
    {
    }

    lemma BorrowerShown(mq: MessageQueue, c: Config<LbNode>, s: State<LbNode>, i: nat)
      requires Registered(c) && allLbPools.Show(mq, s) && Shaped(c, s) && i < |c.order| && name in c.pools
      ensures allLbPools.order == c.order && c.order[i] in allLbPools.pools
      ensures var q := allLbPools.pools[c.order[i]];
        && q.name == c.order[i] && q.allLbPools == allLbPools && q.Registered(c) && q.name in c.pools
        && (Borrows(c, s, q.name, name) <==> q.backupPoolName == name && q.backupPoolActive)
        && (Borrows(c, s, q.name, name) ==> Above(c, q.name) < Above(c, name))
    {
      assert PoolConfigured(c, c.order[i]);
      var q := c.order[i];
      assert Borrows(c, s, q, name) ==> q in Above(c, name) && q !in Above(c, q);
    }
  }

  lemma AllConfigured(c: Config<LbNode>, p: string)
    requires Configured(c) && p in c.pools
    ensures PoolConfigured(c, p)
  {
  }

  lemma ActiveBorrows(cfg: PoolCfg<LbNode>, m: map<LbNode, NodeV>, last: Option<LbNode>, b: Option<set<LbNode>>)
    ensures Choose(cfg, m, last, b).active ==> MayBorrow(cfg)
  {
    hide WithinMax, ForceUpChoice;
    ForceUpParts(cfg, m, last, WithinMax(cfg.ids, cfg.maxNodes, m));
  }

  lemma ForceUpParts(cfg: PoolCfg<LbNode>, m: map<LbNode, NodeV>, last: Option<LbNode>, w: set<LbNode>)
    ensures ForceUpChoice(cfg, m, last, w).kept == w && !ForceUpChoice(cfg, m, last, w).active
  {
  }
}
