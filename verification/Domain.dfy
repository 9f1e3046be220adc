/** Values shared by every part of the model: states, configuration records and messages. */
module Domain {

  datatype Option<+T> = None | Some(value: T)

  type Byte = x: int | 0 <= x < 0x100

  datatype NodeState = NodeDown | NodeUp

  /** In the order of the enumeration: everything before Enabled is out of service. */
  datatype AdminState = DrainHard | DrainSoft | Downtime | Enabled

  datatype FaultPolicy = ForceDown | ForceUp | BackupPool

  datatype CheckState = CheckDrain | CheckDown | CheckUp

  /** HC_PANIC is not here: it ends the process. */
  datatype CheckResult = Pass | Fail | Drain

  /** One health check: hysteresis state and threshold. */
  datatype CheckV = CheckV(hard: CheckState, last: CheckState, failures: int, maxFailed: int, ran: bool)

  /** The mutable part of an LB Node. */
  datatype NodeV = NodeV(
    state: NodeState, admin: AdminState,
    minKept: bool, maxKept: bool,
    checked: bool, stateChanged: bool,
    checks: seq<CheckV>)

  /** The fixed part of an LB Node; an empty address means "none of this family". */
  datatype NodeCfg = NodeCfg(parent: string, ip4: string, ip6: string)

  /** The fixed part of an LB Pool.  `rank` orders the pools so that every pool that may borrow
      comes after its backup; such numbers exist exactly if no cycle leads through such pools. */
  datatype PoolCfg<N> = PoolCfg(
    pfName: string, minNodes: nat, maxNodes: nat,
    policy: FaultPolicy, backup: string, hasHcs: bool,
    ids: seq<N>, rank: nat)

  /** The mutable part of an LB Pool. */
  datatype PoolV<N> = PoolV(up: set<N>, active: bool, synced: bool, serving: bool)

  /** With min_nodes 0 or another policy a pool never borrows, whatever backup it names. */
  predicate MayBorrow<N>(cfg: PoolCfg<N>) {
    cfg.policy.BackupPool? && cfg.minNodes > 0
  }

  predicate IsUp(v: NodeV) {
    v.admin.Enabled? && v.state.NodeUp?
  }

  function Min(a: nat, b: nat): nat {
    if a <= b then a else b
  }

  /** `n` capped by `cap`, where a cap of 0 means "no cap". */
  function Capped(n: nat, cap: nat): nat {
    if cap == 0 then n else Min(n, cap)
  }
}
