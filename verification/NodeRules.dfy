/** Health-check hysteresis and LB Node state changes. */
module NodeRules {
  import opened Domain

  // ----- one health check -------------------------------------------------------------

  function SoftState(r: CheckResult): CheckState {
    match r
    case Pass => CheckUp
    case Fail => CheckDown
    case Drain => CheckDrain
  }

  /** failure_counter is an unsigned short. */
  function Bump(failures: int): int {
    (failures + 1) % 0x1_0000
  }

  function HandleResult(c: CheckV, r: CheckResult): CheckV {
    var c' := c.(last := SoftState(r), ran := true, failures := if r.Pass? then 0 else c.failures);
    if c.hard.CheckUp? then
      match r
      case Pass => c'
      case Fail =>
        c'.(failures := Bump(c.failures),
            hard := if Bump(c.failures) >= c.maxFailed then CheckDown else CheckUp)
      case Drain => c'.(hard := CheckDrain)
    else if r.Pass? then c'.(hard := CheckUp)
    else c'
  }

  // ----- one node ----------------------------------------------------------------------

  predicate AllUp(checks: seq<CheckV>) {
    forall k | 0 <= k < |checks| :: checks[k].hard.CheckUp?
  }

  predicate AnyDrain(checks: seq<CheckV>) {
    exists k | 0 <= k < |checks| :: checks[k].hard.CheckDrain?
  }

  predicate AnyRan(checks: seq<CheckV>) {
    exists k | 0 <= k < |checks| :: checks[k].ran
  }

  predicate Reports(v: NodeV) {
    v.checked || AnyRan(v.checks)
  }

  /** The node after node_logic, before its pool is told (which happens when it Reports). */
  function NodeLogic(v: NodeV): NodeV {
    if !Reports(v) then v
    else
      var v' := v.(checked := true, stateChanged := false);
      if v.state.NodeUp? && !AllUp(v.checks) then
        v'.(stateChanged := true, maxKept := false, state := NodeDown,
            admin := if v.admin.Enabled? && AnyDrain(v.checks) then DrainSoft else v.admin)
      else if v.state.NodeDown? && AllUp(v.checks) then
        v'.(stateChanged := true, minKept := false, state := NodeUp,
            admin := if v.admin.DrainSoft? then Enabled else v.admin)
      else v'
  }

  function EndCheck(v: NodeV, k: nat, r: CheckResult): NodeV
    requires k < |v.checks|
  {
    NodeLogic(v.(checks := v.checks[k := HandleResult(v.checks[k], r)]))
  }

  function AdminFromConfig(s: string): AdminState {
    if s == "online" || s == "deploy_online" then Enabled
    else if s == "deploy_offline" then DrainHard
    else if s == "maintenance" || s == "cold_standby" || s == "retired" then Downtime
    else Enabled
  }

  /** The node after change_downtime, when the wanted admin state differs from its own. */
  function ChangeDowntime(v: NodeV, admin: AdminState): NodeV {
    if admin.Enabled? then v.(admin := admin, state := NodeDown, stateChanged := true)
    else v.(admin := admin, maxKept := false, stateChanged := true)
  }

  // ----- what every step of a node keeps -------------------------------------------------

  predicate NodeOk(v: NodeV) {
    && (v.maxKept ==> IsUp(v))
    && (v.admin.DrainSoft? ==> v.state.NodeDown?)
  }

  /** A check that has just been created: up without a failure, or down. */
  predicate Created(c: CheckV) {
    (c.hard == CheckUp && c.failures == 0) || c.hard == CheckDown
  }

  /** A node out of the constructor: flags cleared, checks agreeing with its state. */
  predicate FreshNode(v: NodeV) {
    && !v.maxKept && !v.minKept && !v.checked && !v.admin.DrainSoft?
    && forall k | 0 <= k < |v.checks| ::
         !v.checks[k].ran && Created(v.checks[k]) && v.checks[k].hard == (if IsUp(v) then CheckUp else CheckDown)
  }

  /** A change of is_up or of the admin state is always announced to the pool, and a node
      gains no flag by itself. */
  predicate Announced(v: NodeV, v': NodeV) {
    && NodeOk(v')
    && (v'.maxKept ==> v.maxKept)
    && (v'.minKept ==> v.minKept)
    && (!v'.stateChanged ==>
          v'.state == v.state && v'.admin == v.admin && v'.maxKept == v.maxKept && v'.minKept == v.minKept)
  }

  lemma EndCheckAnnounced(v: NodeV, k: nat, r: CheckResult)
    requires NodeOk(v) && k < |v.checks|
    ensures Reports(v.(checks := v.checks[k := HandleResult(v.checks[k], r)]))
    ensures Announced(v, EndCheck(v, k, r))
    ensures v.admin in {Downtime, DrainHard} ==> EndCheck(v, k, r).admin == v.admin
    ensures v.state.NodeDown? && EndCheck(v, k, r).state.NodeUp? ==> AllUp(EndCheck(v, k, r).checks)
  {
    var checks := v.checks[k := HandleResult(v.checks[k], r)];
    assert checks[k].ran;
  }

  /** What a completed check makes of its node, read off the node's checks: it is up exactly when all
      of them are hard up; it counts as drained exactly if it was enabled and up and some check
      drains, or was drained before and is still not all up; it announces exactly a change of
      state; and coming down costs the kept flag, coming up the forced one. */
  lemma EndCheckMeaning(v: NodeV, k: nat, r: CheckResult)
    requires NodeOk(v) && k < |v.checks|
    ensures var v' := EndCheck(v, k, r);
      && v'.checks == v.checks[k := HandleResult(v.checks[k], r)] && v'.checked
      && (v'.state.NodeUp? <==> forall j | 0 <= j < |v'.checks| :: v'.checks[j].hard.CheckUp?)
      && (v'.admin.DrainSoft? <==>
            && (exists j | 0 <= j < |v'.checks| :: !v'.checks[j].hard.CheckUp?)
            && (|| v.admin.DrainSoft?
                || (v.admin.Enabled? && v.state.NodeUp?
                    && exists j | 0 <= j < |v'.checks| :: v'.checks[j].hard.CheckDrain?)))
      && (v'.admin != v.admin ==> v.admin in {Enabled, DrainSoft} && v'.admin in {Enabled, DrainSoft})
      && (v'.stateChanged <==> v'.state != v.state)
      && (v'.maxKept <==> v.maxKept && v'.state.NodeUp?)
      && (v'.minKept <==> v.minKept && !(v.state.NodeDown? && v'.state.NodeUp?))
  {
    EndCheckAnnounced(v, k, r);
  }

  /** The first check that completes makes a new node report, while none of its other checks has run; and
      if it fails for good, a node that was up goes down. */
  lemma FirstCheckDecides(v: NodeV, k: nat, r: CheckResult)
    requires FreshNode(v) && k < |v.checks|
    ensures !Reports(v) && Reports(v.(checks := v.checks[k := HandleResult(v.checks[k], r)]))
    ensures forall j | 0 <= j < |v.checks| && j != k :: !EndCheck(v, k, r).checks[j].ran
    ensures IsUp(v) && r.Fail? && Bump(v.checks[k].failures) >= v.checks[k].maxFailed ==>
      EndCheck(v, k, r).state.NodeDown? && EndCheck(v, k, r).stateChanged
  {
    var checks := v.checks[k := HandleResult(v.checks[k], r)];
    assert checks[k].ran;
    if IsUp(v) && r.Fail? && Bump(v.checks[k].failures) >= v.checks[k].maxFailed {
      assert checks[k].hard.CheckDown?;
    }
  }

  /** For example: of two checks the second has never run when the first takes the node down. */
  lemma OneOfTwo()
    ensures var c := CheckV(CheckUp, CheckUp, 0, 1, false);
      var v := NodeV(NodeUp, Enabled, false, false, false, false, [c, c]);
      var v' := EndCheck(v, 0, Fail);
      IsUp(v) && v'.state.NodeDown? && v'.stateChanged && v'.checks[0].ran && !v'.checks[1].ran
  {
    var c := CheckV(CheckUp, CheckUp, 0, 1, false);
    FirstCheckDecides(NodeV(NodeUp, Enabled, false, false, false, false, [c, c]), 0, Fail);
  }

  /** What a setting means for a node: three of them are a downtime, one is a hard drain, and everything
      else puts it into service. */
  lemma SettingMeaning(s: string)
    ensures AdminFromConfig(s) == Downtime <==> s in {"maintenance", "cold_standby", "retired"}
    ensures AdminFromConfig(s) == DrainHard <==> s == "deploy_offline"
    ensures AdminFromConfig(s) == Enabled <==> s !in {"maintenance", "cold_standby", "retired", "deploy_offline"}
  {
  }

  /** What a changed setting does to a node: it is announced and costs the kept flag or, when the node
      is put into service, its state; nothing else about the node changes. */
  lemma ChangeDowntimeMeaning(v: NodeV, s: string)
    requires AdminFromConfig(s) != v.admin
    ensures var v' := ChangeDowntime(v, AdminFromConfig(s));
      var out := s in {"maintenance", "cold_standby", "retired", "deploy_offline"};
      && v'.stateChanged && v'.admin == AdminFromConfig(s)
      && (v'.state.NodeUp? <==> out && v.state.NodeUp?)
      && (v'.maxKept <==> !out && v.maxKept)
      && v'.minKept == v.minKept && v'.checked == v.checked && v'.checks == v.checks
  {
    SettingMeaning(s);
  }

  lemma ChangeDowntimeAnnounced(v: NodeV, s: string)
    requires NodeOk(v) && AdminFromConfig(s) != v.admin
    ensures Announced(v, ChangeDowntime(v, AdminFromConfig(s)))
    ensures !IsUp(ChangeDowntime(v, AdminFromConfig(s)))
  {
  }
}
