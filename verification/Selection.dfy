/** Which nodes a pool serves: the selection inside LbPool::pool_logic, for one pool. */
module Selection {
  import opened Domain

  // ----- finite sets ---------------------------------------------------------------

  lemma {:induction false} SubsetSize<T>(a: set<T>, b: set<T>)
    requires a <= b
    ensures |a| <= |b|
    ensures |a| == |b| ==> a == b
    decreases a
  {
    if a != {} {
      var x :| x in a;
      SubsetSize(a - {x}, b - {x});
    }
  }

  // ----- what the nodes of a pool look like ----------------------------------------

  function UpOf<N(==)>(ids: seq<N>, m: map<N, NodeV>): set<N> {
    set n | n in ids && n in m && IsUp(m[n])
  }

  function EnabledOf<N(==)>(ids: seq<N>, m: map<N, NodeV>): set<N> {
    set n | n in ids && n in m && m[n].admin.Enabled?
  }

  function KeptOf<N(==)>(ids: seq<N>, m: map<N, NodeV>): set<N> {
    set n | n in ids && n in m && m[n].maxKept
  }

  function ForcedOf<N(==)>(ids: seq<N>, m: map<N, NodeV>): set<N> {
    set n | n in ids && n in m && m[n].minKept
  }

  // ----- filling a set up to a limit -----------------------------------------------

  predicate Room<N>(w: set<N>, limit: nat) {
    limit == 0 || |w| < limit
  }

  /** The eligible nodes met while walking `ids` until `w`, growing by them, is full. */
  function Visit<N(==)>(w: set<N>, ids: seq<N>, eligible: set<N>, limit: nat): set<N>
    decreases |ids|
  {
    if ids == [] || !Room(w, limit) then {}
    else if ids[0] in eligible then {ids[0]} + Visit(w + {ids[0]}, ids[1..], eligible, limit)
    else Visit(w, ids[1..], eligible, limit)
  }

  /** A walk takes only eligible nodes, never overfills, and stops short only when full. */
  lemma {:induction false} VisitFacts<N>(w: set<N>, ids: seq<N>, eligible: set<N>, limit: nat)
    ensures Visit(w, ids, eligible, limit) <= eligible
    ensures forall n | n in Visit(w, ids, eligible, limit) :: n in ids
    ensures limit > 0 && |w| <= limit ==> |w + Visit(w, ids, eligible, limit)| <= limit
    ensures Room(w + Visit(w, ids, eligible, limit), limit)
      ==> forall n | n in ids && n in eligible :: n in Visit(w, ids, eligible, limit)
    decreases |ids|
  {
    if ids == [] || !Room(w, limit) {
      assert w + {} == w;
    } else if ids[0] in eligible {
      var w' := w + {ids[0]};
      VisitFacts(w', ids[1..], eligible, limit);
      assert w + Visit(w, ids, eligible, limit) == w' + Visit(w', ids[1..], eligible, limit);
      assert forall n | n in ids :: n == ids[0] || n in ids[1..];
    } else {
      VisitFacts(w, ids[1..], eligible, limit);
      assert forall n | n in ids :: n == ids[0] || n in ids[1..];
    }
  }

  /** The eligible nodes before position `i`. */
  function Before<N(==)>(ids: seq<N>, i: nat, eligible: set<N>): set<N>
    requires i <= |ids|
  {
    set n | n in ids[..i] && n in eligible
  }

  /** The node at position `i` is eligible, and `w` with the eligible nodes before it is not yet full. */
  predicate Admits<N(==)>(w: set<N>, ids: seq<N>, i: nat, eligible: set<N>, limit: nat)
    requires i < |ids|
  {
    ids[i] in eligible && (limit == 0 || |w + Before(ids, i, eligible)| < limit)
  }

  lemma AdmitsNext<N>(w: set<N>, ids: seq<N>, i: nat, eligible: set<N>, limit: nat)
    requires i + 1 < |ids|
    ensures var w' := if ids[0] in eligible then w + {ids[0]} else w;
      Admits(w, ids, i + 1, eligible, limit) <==> Admits(w', ids[1..], i, eligible, limit)
  {
    var w' := if ids[0] in eligible then w + {ids[0]} else w;
    assert ids[..i + 1] == [ids[0]] + ids[1..][..i];
    assert w + Before(ids, i + 1, eligible) == w' + Before(ids[1..], i, eligible);
  }

  /** The eligible nodes that come before `w` is full. */
  function Admitted<N(==)>(w: set<N>, ids: seq<N>, eligible: set<N>, limit: nat): set<N> {
    set i | 0 <= i < |ids| && Admits(w, ids, i, eligible, limit) :: ids[i]
  }

  lemma FullAdmits<N>(w: set<N>, ids: seq<N>, i: nat, eligible: set<N>, limit: nat)
    requires i < |ids| && !Room(w, limit)
    ensures !Admits(w, ids, i, eligible, limit)
  {
    SubsetSize(w, w + Before(ids, i, eligible));
  }

  lemma FirstAdmits<N>(w: set<N>, ids: seq<N>, eligible: set<N>, limit: nat)
    requires ids != [] && Room(w, limit)
    ensures Admits(w, ids, 0, eligible, limit) <==> ids[0] in eligible
  {
    assert w + Before(ids, 0, eligible) == w;
  }

  lemma {:induction false} VisitAdmits<N>(w: set<N>, ids: seq<N>, eligible: set<N>, limit: nat, n: N)
    ensures n in Visit(w, ids, eligible, limit) <==>
      exists i | 0 <= i < |ids| :: ids[i] == n && Admits(w, ids, i, eligible, limit)
    decreases |ids|
  {
    hide Admits, Before;
    if ids != [] {
      if !Room(w, limit) {
        forall i | 0 <= i < |ids|
          ensures !Admits(w, ids, i, eligible, limit)
        {
          FullAdmits(w, ids, i, eligible, limit);
        }
      } else {
        var w' := if ids[0] in eligible then w + {ids[0]} else w;
        VisitAdmits(w', ids[1..], eligible, limit, n);
        FirstAdmits(w, ids, eligible, limit);
        if i :| 0 <= i < |ids| && ids[i] == n && Admits(w, ids, i, eligible, limit) && i > 0 {
          AdmitsNext(w, ids, i - 1, eligible, limit);
          assert ids[1..][i - 1] == n;
        }
        if j :| 0 <= j < |ids| - 1 && ids[1..][j] == n && Admits(w', ids[1..], j, eligible, limit) {
          AdmitsNext(w, ids, j, eligible, limit);
          assert ids[j + 1] == n;
        }
      }
    }
  }

  /** A walk takes exactly the eligible nodes that it comes to before it is full. */
  lemma VisitExactly<N>(w: set<N>, ids: seq<N>, eligible: set<N>, limit: nat)
    ensures Visit(w, ids, eligible, limit) == Admitted(w, ids, eligible, limit)
  {
    hide Visit, Admits;
    var v, r := Visit(w, ids, eligible, limit), Admitted(w, ids, eligible, limit);
    forall n | n in v
      ensures n in r
    {
      VisitAdmits(w, ids, eligible, limit, n);
      var i :| 0 <= i < |ids| && ids[i] == n && Admits(w, ids, i, eligible, limit);
      assert ids[i] in r;
    }
    forall n | n in r
      ensures n in v
    {
      VisitAdmits(w, ids, eligible, limit, n);
    }
  }

  /** One step of a walk, as a loop over the indices of `ids` takes it. */
  lemma VisitStep<N>(w: set<N>, ids: seq<N>, i: nat, eligible: set<N>, limit: nat)
    requires i <= |ids|
    ensures i == |ids| || !Room(w, limit) ==> w + Visit(w, ids[i..], eligible, limit) == w
    ensures i < |ids| && Room(w, limit) ==>
      var w' := if ids[i] in eligible then w + {ids[i]} else w;
      w + Visit(w, ids[i..], eligible, limit) == w' + Visit(w', ids[i + 1..], eligible, limit)
    ensures i == 0 ==> ids[i..] == ids
  {
    if i < |ids| {
      assert ids[i..][1..] == ids[i + 1..];
    }
  }

  lemma VisitStepExact<N>(w: set<N>, ids: seq<N>, i: nat, eligible: set<N>, limit: nat)
    requires i <= |ids|
    ensures i == |ids| || !Room(w, limit) ==> Visit(w, ids[i..], eligible, limit) == {}
    ensures i < |ids| && Room(w, limit) && ids[i] in eligible ==>
      Visit(w, ids[i..], eligible, limit) == {ids[i]} + Visit(w + {ids[i]}, ids[i + 1..], eligible, limit)
  {
    if i < |ids| {
      assert ids[i..][1..] == ids[i + 1..];
    }
  }

  /** The members of `s`, in the order of `ids`. */
  function Among<N(==)>(ids: seq<N>, s: set<N>): seq<N> {
    if ids == [] then [] else (if ids[0] in s then [ids[0]] else []) + Among(ids[1..], s)
  }

  lemma {:induction false} AmongMembers<N>(ids: seq<N>, s: set<N>)
    ensures forall n :: n in Among(ids, s) <==> n in ids && n in s
    decreases |ids|
  {
    if ids != [] {
      AmongMembers(ids[1..], s);
    }
  }

  /** Walking a filtered list is walking the list and skipping what the filter drops. */
  lemma {:induction false} VisitAmong<N>(w: set<N>, ids: seq<N>, s: set<N>, eligible: set<N>, limit: nat)
    ensures Visit(w, Among(ids, s), eligible, limit) == Visit(w, ids, eligible * s, limit)
    decreases |ids|
  {
    if ids != [] && Room(w, limit) {
      var rest := Among(ids[1..], s);
      if ids[0] in s {
        assert ([ids[0]] + rest)[1..] == rest;
        VisitAmong(if ids[0] in eligible then w + {ids[0]} else w, ids[1..], s, eligible, limit);
      } else {
        assert [] + rest == rest;
        VisitAmong(w, ids[1..], s, eligible, limit);
      }
    }
  }

  lemma {:induction false} AmongAppend<N>(ids: seq<N>, n: N, s: set<N>)
    ensures Among(ids + [n], s) == Among(ids, s) + (if n in s then [n] else [])
    decreases |ids|
  {
    if ids == [] {
      assert (ids + [n])[1..] == [];
    } else {
      assert (ids + [n])[1..] == ids[1..] + [n];
      AmongAppend(ids[1..], n, s);
    }
  }

  // ----- the choice ----------------------------------------------------------------

  /** `served` is the wanted set; `kept` and `forced` are the nodes whose max_nodes_kept
      and min_nodes_kept flags are set on the way. */
  datatype Choice<N> = Choice(served: set<N>, kept: set<N>, forced: set<N>, active: bool)

  /** Up nodes within max_nodes, those already kept first. */
  function WithinMax<N(==)>(ids: seq<N>, maxNodes: nat, m: map<N, NodeV>): set<N> {
    var up, kept := UpOf(ids, m), KeptOf(ids, m);
    var w := Visit({}, ids, up * kept, maxNodes);
    w + Visit(w, ids, up - kept, maxNodes)
  }

  predicate Short(minNodes: nat, w: nat) {
    minNodes > 0 && w < minNodes
  }

  /** The node that has just changed, when it may be forced up: down and not downtimed. */
  function ForcedFirst<N(==)>(m: map<N, NodeV>, last: Option<N>): set<N> {
    if last.Some? && last.value in m && m[last.value].state.NodeDown? && m[last.value].admin.Enabled?
    then {last.value} else {}
  }

  function OthersOf<N(==)>(ids: seq<N>, m: map<N, NodeV>, last: Option<N>): set<N> {
    EnabledOf(ids, m) - (if last.Some? then {last.value} else {})
  }

  function ForceUpChoice<N(==)>(cfg: PoolCfg<N>, m: map<N, NodeV>, last: Option<N>, w: set<N>): Choice<N> {
    var first := ForcedFirst(m, last);
    var others := OthersOf(cfg.ids, m, last);
    var w1 := w + first;
    var w2 := w1 + Visit(w1, cfg.ids, others * ForcedOf(cfg.ids, m), cfg.minNodes);
    var any := Visit(w2, cfg.ids, others, cfg.minNodes);
    Choice(w2 + any, w, first + any, false)
  }

  /** `backupUp` is what the backup pool serves, when that pool is registered. */
  function Choose<N(==)>(cfg: PoolCfg<N>, m: map<N, NodeV>, last: Option<N>, backupUp: Option<set<N>>): Choice<N> {
    var w := WithinMax(cfg.ids, cfg.maxNodes, m);
    if !Short(cfg.minNodes, |w|) then Choice(w, w, {}, false)
    else match cfg.policy
      case ForceDown => Choice({}, w, {}, false)
      case ForceUp => ForceUpChoice(cfg, m, last, w)
      case BackupPool =>
        if backupUp.Some? then Choice(backupUp.value, w, {}, true) else Choice(w, w, {}, false)
  }

  /** What the constructor makes of min_nodes and max_nodes. */
  predicate Normalised<N>(cfg: PoolCfg<N>) {
    cfg.maxNodes == 0 || cfg.maxNodes >= cfg.minNodes
  }

  ghost predicate LastOk<N>(ids: seq<N>, last: Option<N>) {
    last.Some? ==> last.value in ids
  }

  /** The flags a pool may hold between recomputations. */
  ghost predicate FlagsOk<N>(cfg: PoolCfg<N>, m: map<N, NodeV>) {
    && KeptOf(cfg.ids, m) <= UpOf(cfg.ids, m)
    && (cfg.maxNodes > 0 ==> |KeptOf(cfg.ids, m)| <= cfg.maxNodes)
  }

  /** The max_nodes stage takes as many up nodes as allowed, and all of them if allowed. */
  lemma WithinMaxFacts<N>(ids: seq<N>, maxNodes: nat, m: map<N, NodeV>)
    ensures WithinMax(ids, maxNodes, m) <= UpOf(ids, m)
    ensures |WithinMax(ids, maxNodes, m)| == Capped(|UpOf(ids, m)|, maxNodes)
    ensures Room(WithinMax(ids, maxNodes, m), maxNodes) ==> WithinMax(ids, maxNodes, m) == UpOf(ids, m)
  {
    var up, kept := UpOf(ids, m), KeptOf(ids, m);
    var w := Visit({}, ids, up * kept, maxNodes);
    VisitFacts({}, ids, up * kept, maxNodes);
    assert {} + w == w;
    var v := Visit(w, ids, up - kept, maxNodes);
    VisitFacts(w, ids, up - kept, maxNodes);
    SubsetSize(w, w + v);
    SubsetSize(w + v, up);
    if Room(w + v, maxNodes) {
      assert w + v == up;
    }
  }

  /** Stickiness of one recomputation: kept nodes that are up are taken again, and when
      they all fit nothing but the new choice carries the flag. */
  lemma KeptStay<N>(ids: seq<N>, maxNodes: nat, m: map<N, NodeV>)
    requires maxNodes > 0 ==> |UpOf(ids, m) * KeptOf(ids, m)| <= maxNodes
    ensures UpOf(ids, m) * KeptOf(ids, m) <= WithinMax(ids, maxNodes, m)
  {
    var both := UpOf(ids, m) * KeptOf(ids, m);
    var w := Visit({}, ids, both, maxNodes);
    VisitFacts({}, ids, both, maxNodes);
    assert {} + w == w;
    if !Room(w, maxNodes) {
      SubsetSize(w, both);
    }
  }

  // ----- FORCE_UP --------------------------------------------------------------------

  /** Two walks, over preferred and then over all other candidates, fill `w` up to `limit`
      out of `all`, or exhaust `all`. */
  lemma FillTwice<N>(w: set<N>, ids: seq<N>, preferred: set<N>, others: set<N>, all: set<N>, limit: nat)
    requires limit > 0 && |w| <= limit
    requires preferred <= others && w + others == all
    requires forall n | n in others :: n in ids
    ensures
      var w2 := w + Visit(w, ids, preferred, limit);
      var any := Visit(w2, ids, others, limit);
      w2 + any <= all && |w2 + any| == Min(limit, |all|)
  {
    var w2 := w + Visit(w, ids, preferred, limit);
    VisitFacts(w, ids, preferred, limit);
    var any := Visit(w2, ids, others, limit);
    VisitFacts(w2, ids, others, limit);
    SubsetSize(w2 + any, all);
    if |w2 + any| < limit {
      assert w2 + any == all;
    }
  }

  /** In a shortage the max_nodes stage cannot have stopped early: every up node is in. */
  lemma ShortTakesAll<N>(cfg: PoolCfg<N>, m: map<N, NodeV>)
    requires Normalised(cfg)
    requires Short(cfg.minNodes, |WithinMax(cfg.ids, cfg.maxNodes, m)|)
    ensures WithinMax(cfg.ids, cfg.maxNodes, m) == UpOf(cfg.ids, m)
  {
    WithinMaxFacts(cfg.ids, cfg.maxNodes, m);
  }

  /** In a shortage under FORCE_UP every up node is served, only enabled nodes are, their
      number is min(min_nodes, enabled), and the node that just went down comes first. */
  lemma ForceUpFacts<N>(cfg: PoolCfg<N>, m: map<N, NodeV>, last: Option<N>)
    requires LastOk(cfg.ids, last)
    requires Short(cfg.minNodes, |UpOf(cfg.ids, m)|)
    ensures
      var ch := ForceUpChoice(cfg, m, last, UpOf(cfg.ids, m));
      && UpOf(cfg.ids, m) <= ch.served <= EnabledOf(cfg.ids, m)
      && |ch.served| == Min(cfg.minNodes, |EnabledOf(cfg.ids, m)|)
      && ForcedFirst(m, last) <= ch.served
      && ch.forced <= ch.served
  {
    var up := UpOf(cfg.ids, m);
    var first := ForcedFirst(m, last);
    var others := OthersOf(cfg.ids, m, last);
    assert |up + first| <= |up| + |first|;
    assert up + first + others == EnabledOf(cfg.ids, m);
    FillTwice(up + first, cfg.ids, others * ForcedOf(cfg.ids, m), others, EnabledOf(cfg.ids, m), cfg.minNodes);
  }

  /** A node that is neither up, nor the one that just changed, nor forced before is forced up only
      when all enabled nodes forced before are served; and every node that is served without
      being chosen within max_nodes is marked as forced, now or from before. */
  lemma ForcedPriority<N>(cfg: PoolCfg<N>, m: map<N, NodeV>, last: Option<N>, w: set<N>)
    requires LastOk(cfg.ids, last)
    ensures
      var ch := ForceUpChoice(cfg, m, last, w);
      var before := OthersOf(cfg.ids, m, last) * ForcedOf(cfg.ids, m);
      && (ch.served <= w + ForcedFirst(m, last) + before || before <= ch.served)
      && ch.served <= w + ForcedOf(cfg.ids, m) + ch.forced
  {
    hide Visit;
    var others := OthersOf(cfg.ids, m, last);
    var before := others * ForcedOf(cfg.ids, m);
    var w1 := w + ForcedFirst(m, last);
    var w2 := w1 + Visit(w1, cfg.ids, before, cfg.minNodes);
    VisitFacts(w1, cfg.ids, before, cfg.minNodes);
    FullVisit(w2, cfg.ids, others, cfg.minNodes);
    if Room(w2, cfg.minNodes) {
      assert before <= w2;
    }
  }

  /** The choice under FORCE_UP in a shortage, pass by pass: the node that has just changed, if it is down
      and enabled; then other enabled nodes that were forced before; then any other enabled nodes;
      each pass as far as min_nodes allows.  Marked are the first and those of the last pass. */
  lemma ForceUpExactly<N>(cfg: PoolCfg<N>, m: map<N, NodeV>, last: Option<N>, w: set<N>)
    ensures var ch := ForceUpChoice(cfg, m, last, w);
      var first := set x | x in m && last == Some(x) && m[x].state == NodeDown && m[x].admin == Enabled;
      var others := set x | x in cfg.ids && x in m && m[x].admin == Enabled && last != Some(x);
      var before := set x | x in others && m[x].minKept;
      var again := Admitted(w + first, cfg.ids, before, cfg.minNodes);
      var any := Admitted(w + first + again, cfg.ids, others, cfg.minNodes);
      ch == Choice(w + first + again + any, w, first + any, false)
  {
    hide Visit, Admitted;
    var first := set x | x in m && last == Some(x) && m[x].state == NodeDown && m[x].admin == Enabled;
    var others := set x | x in cfg.ids && x in m && m[x].admin == Enabled && last != Some(x);
    var before := set x | x in others && m[x].minKept;
    assert first == ForcedFirst(m, last);
    assert others == OthersOf(cfg.ids, m, last);
    assert before == others * ForcedOf(cfg.ids, m);
    VisitExactly(w + first, cfg.ids, before, cfg.minNodes);
    VisitExactly(w + first + Admitted(w + first, cfg.ids, before, cfg.minNodes), cfg.ids, others, cfg.minNodes);
  }

  /** The choice within max_nodes: up nodes kept before, then other up nodes, as far as max_nodes allows. */
  lemma WithinMaxExactly<N>(ids: seq<N>, maxNodes: nat, m: map<N, NodeV>)
    ensures var kept := set x | x in ids && x in m && m[x].state == NodeUp && m[x].admin == Enabled && m[x].maxKept;
      var rest := set x | x in ids && x in m && m[x].state == NodeUp && m[x].admin == Enabled && !m[x].maxKept;
      var w := Admitted({}, ids, kept, maxNodes);
      WithinMax(ids, maxNodes, m) == w + Admitted(w, ids, rest, maxNodes)
  {
    hide Visit, Admitted;
    var kept := set x | x in ids && x in m && m[x].state == NodeUp && m[x].admin == Enabled && m[x].maxKept;
    var rest := set x | x in ids && x in m && m[x].state == NodeUp && m[x].admin == Enabled && !m[x].maxKept;
    assert kept == UpOf(ids, m) * KeptOf(ids, m);
    assert rest == UpOf(ids, m) - KeptOf(ids, m);
    VisitExactly({}, ids, kept, maxNodes);
    VisitExactly(Admitted({}, ids, kept, maxNodes), ids, rest, maxNodes);
  }

  lemma FullVisit<N>(w: set<N>, ids: seq<N>, eligible: set<N>, limit: nat)
    ensures !Room(w, limit) ==> Visit(w, ids, eligible, limit) == {}
  {
  }

  lemma ForceUpLocal<N>(cfg: PoolCfg<N>, m: map<N, NodeV>, last: Option<N>, w: set<N>)
    requires LastOk(cfg.ids, last)
    ensures forall n | n in ForceUpChoice(cfg, m, last, w).forced :: n in cfg.ids
  {
    hide UpOf, KeptOf, EnabledOf, ForcedOf;
    var others := OthersOf(cfg.ids, m, last);
    var w1 := w + ForcedFirst(m, last);
    var w2 := w1 + Visit(w1, cfg.ids, others * ForcedOf(cfg.ids, m), cfg.minNodes);
    VisitFacts(w2, cfg.ids, others, cfg.minNodes);
  }

  /** A choice flags nodes of its own pool only. */
  lemma ChoiceLocal<N>(cfg: PoolCfg<N>, m: map<N, NodeV>, last: Option<N>, b: Option<set<N>>)
    requires LastOk(cfg.ids, last)
    ensures forall n | n in Choose(cfg, m, last, b).kept + Choose(cfg, m, last, b).forced :: n in cfg.ids
  {
    hide WithinMax, Visit, OthersOf, ForcedFirst, ForcedOf;
    WithinMaxFacts(cfg.ids, cfg.maxNodes, m);
    ForceUpLocal(cfg, m, last, WithinMax(cfg.ids, cfg.maxNodes, m));
  }

  // ----- exact size -----------------------------------------------------------------

  /** The size of the served set, from the up and enabled counts and the limits alone. */
  function ServedSize<N(==)>(cfg: PoolCfg<N>, m: map<N, NodeV>): nat {
    var f := Capped(|UpOf(cfg.ids, m)|, cfg.maxNodes);
    if !Short(cfg.minNodes, f) then f
    else if cfg.policy.ForceDown? then 0
    else Min(cfg.minNodes, |EnabledOf(cfg.ids, m)|)
  }

  lemma ChooseSize<N>(cfg: PoolCfg<N>, m: map<N, NodeV>, last: Option<N>, backupUp: Option<set<N>>)
    requires Normalised(cfg) && LastOk(cfg.ids, last)
    requires !cfg.policy.BackupPool?
    ensures |Choose(cfg, m, last, backupUp).served| == ServedSize(cfg, m)
    ensures cfg.maxNodes > 0 ==> |Choose(cfg, m, last, backupUp).served| <= cfg.maxNodes
  {
    WithinMaxFacts(cfg.ids, cfg.maxNodes, m);
    if Short(cfg.minNodes, |WithinMax(cfg.ids, cfg.maxNodes, m)|) {
      ShortTakesAll(cfg, m);
      ForceUpFacts(cfg, m, last);
    }
  }
}
