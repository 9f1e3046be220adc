/** What the hard state of a check says about the results that a run has delivered to it. */
module Histories {
  import opened Domain
  import opened NodeRules
  import opened Hysteresis
  import opened Fleet
  import opened Invariants
  import opened Runs
  import opened Guarantees
  import opened Stability

  /** The results that check `k` of node `n` has ended with, oldest first. */
  ghost function Delivered<N>(es: seq<Event<N>>, n: N, k: nat): seq<CheckResult>
    decreases |es|
  {
    if es == [] then []
    else
      var before, e := es[..|es| - 1], es[|es| - 1];
      Delivered(before, n, k)
      + if e.CheckEnds? && e.n == n && e.k == k && CanHappen(Reached(before), e) then [e.result] else []
  }

  /** Event `j` of the run loads node `n`. */
  ghost predicate LoadsNode<N>(es: seq<Event<N>>, j: nat, n: N) {
    j < |es| && es[j].PoolLoaded? && n in es[j].nodes && CanHappen(Reached(es[..j]), es[j])
  }

  lemma LoadsNodeMore<N>(es: seq<Event<N>>, j: nat, n: N, e: Event<N>)
    requires LoadsNode(es, j, n)
    ensures LoadsNode(es + [e], j, n) && (es + [e])[j] == es[j]
  {
    hide Reached, CanHappen;
    assert (es + [e])[..j] == es[..j];
  }

  /** One event, seen from check `k` of a node. */
  lemma CheckAfter<N>(w: World<N>, e: Event<N>, n: N, k: nat)
    requires Inv(w) && n in w.s.nodes && k < |w.s.nodes[n].checks|
    ensures n in Next(w, e).s.nodes && |Next(w, e).s.nodes[n].checks| == |w.s.nodes[n].checks|
    ensures Next(w, e).s.nodes[n].checks[k] ==
      if e.CheckEnds? && e.n == n && e.k == k && CanHappen(w, e)
      then HandleResult(w.s.nodes[n].checks[k], e.result) else w.s.nodes[n].checks[k]
  {
    hide Good, LinksBut, Next, Configured, HandleResult, AdminFromConfig, AllUp, AnyDrain, AnyRan;
    NodeFollows(w, e, n);
  }

  lemma NobodyYet<N>()
    ensures Reached<N>([]).s.nodes == map[]
  {
  }

  /** A node in the system was loaded by an event of the run, and since then each of its checks has taken
      in just the results delivered to it. */
  lemma {:induction false} ChecksFollow<N>(es: seq<Event<N>>, n: N) returns (j: nat)
    requires n in Reached(es).s.nodes
    ensures LoadsNode(es, j, n) && |es[j].nodes[n].checks| == |Reached(es).s.nodes[n].checks|
    ensures forall k: nat | k < |Reached(es).s.nodes[n].checks| ::
      Reached(es).s.nodes[n].checks[k] == After(es[j].nodes[n].checks[k], Delivered(es, n, k))
    decreases |es|
  {
    hide Inv, Next, Reached, After, CanHappen, Delivered;
    if es == [] {
      NobodyYet<N>();
    } else {
      var before, e := es[..|es| - 1], es[|es| - 1];
      assert es == before + [e];
      var w := Reached(before);
      ReachedInv(before);
      ReachedNext(before, e);
      if n in w.s.nodes {
        j := ChecksFollow(before, n);
        LoadsNodeMore(before, j, n, e);
        SameCount(w, e, n);
        forall k: nat | k < |Reached(es).s.nodes[n].checks|
          ensures Reached(es).s.nodes[n].checks[k] == After(es[j].nodes[n].checks[k], Delivered(es, n, k))
        {
          CheckAfter(w, e, n, k);
          DeliveredMore(before, e, n, k);
          AfterMore(es[j].nodes[n].checks[k], Delivered(before, n, k), e);
        }
      } else {
        NewNode(w, e, n);
        j := |es| - 1;
        LoadedChecks(w, e, n);
        forall k: nat | k < |Reached(es).s.nodes[n].checks|
          ensures Delivered(es, n, k) == []
        {
          NoneDelivered(es, n, k);
        }
        AfterNone();
      }
    }
  }

  lemma SameCount<N>(w: World<N>, e: Event<N>, n: N)
    requires Inv(w) && n in w.s.nodes
    ensures n in Next(w, e).s.nodes && |Next(w, e).s.nodes[n].checks| == |w.s.nodes[n].checks|
  {
    hide Good, LinksBut, Next, Configured, HandleResult, AdminFromConfig, AllUp, AnyDrain, AnyRan;
    NodeFollows(w, e, n);
  }

  lemma DeliveredMore<N>(es: seq<Event<N>>, e: Event<N>, n: N, k: nat)
    ensures Delivered(es + [e], n, k) == Delivered(es, n, k)
      + if e.CheckEnds? && e.n == n && e.k == k && CanHappen(Reached(es), e) then [e.result] else []
  {
    hide Reached, CanHappen;
    assert (es + [e])[..|es|] == es;
  }

  lemma AfterMore<N>(c: CheckV, rs: seq<CheckResult>, e: Event<N>)
    ensures e.CheckEnds? ==> After(c, rs + [e.result]) == HandleResult(After(c, rs), e.result)
    ensures rs + [] == rs
  {
    hide HandleResult;
    if e.CheckEnds? {
      assert (rs + [e.result])[..|rs|] == rs;
    }
  }

  lemma AfterNone()
    ensures forall c :: After(c, []) == c
  {
  }

  lemma NewNode<N>(w: World<N>, e: Event<N>, n: N)
    requires Inv(w) && n !in w.s.nodes && n in Next(w, e).s.nodes
    ensures e.PoolLoaded? && CanHappen(w, e) && n in e.nodes
  {
    hide Good, LinksBut, Configured, PoolLogic, UpdatePfctl, EndCheck, ChangeDowntime, AdminFromConfig, FreshNode;
    InvParts(w);
    if CanHappen(w, e) {
      match e
      case CheckEnds(m, _, _, _) => NodesKept(w, e);
      case DowntimeRead(m, _, _) => NodesKept(w, e);
      case SyncTimer(_, _) =>
      case WorkerReceives(_) =>
      case TablesFound(_) =>
      case PoolLoaded(_, _, _, _, _, _) => NewPool(w, e);
    }
  }

  lemma NodesKept<N>(w: World<N>, e: Event<N>)
    requires Configured(w.c) && Shaped(w.c, w.s) && CanHappen(w, e) && (e.CheckEnds? || e.DowntimeRead?)
    ensures Next(w, e).s.nodes.Keys == w.s.nodes.Keys
  {
    hide Configured, PoolLogic, NodeAfter, Next;
    NextNode(w, e);
  }

  lemma LoadedChecks<N>(w: World<N>, e: Event<N>, n: N)
    requires Inv(w) && e.PoolLoaded? && CanHappen(w, e) && n in e.nodes
    ensures n in Next(w, e).s.nodes && Next(w, e).s.nodes[n].checks == e.nodes[n].checks
  {
    hide Inv, Next;
    InvParts(w);
    LoadedNodes(w, e);
  }

  /** Before a node is loaded none of its checks can end. */
  lemma {:induction false} NoneDelivered<N>(es: seq<Event<N>>, n: N, k: nat)
    requires es != [] && n !in Reached(es[..|es| - 1]).s.nodes
    ensures Delivered(es, n, k) == []
    decreases |es|
  {
    hide Inv, Next, Reached;
    var before := es[..|es| - 1];
    if before == [] {
      assert Delivered(before, n, k) == [];
    } else {
      var earlier, x := before[..|before| - 1], before[|before| - 1];
      assert before == earlier + [x];
      ReachedInv(earlier);
      ReachedNext(earlier, x);
      if n in Reached(earlier).s.nodes {
        SameCount(Reached(earlier), x, n);
        assert false;
      }
      NoneDelivered(before, n, k);
    }
  }

  /** In every run, for every check of every node: its hard state is the verdict on the results delivered
      to it since its last PASS, once it has passed or if its node was loaded as up; until then it is
      down. */
  lemma HardStateInRuns<N>(es: seq<Event<N>>, n: N, k: nat) returns (j: nat)
    requires n in Reached(es).s.nodes && k < |Reached(es).s.nodes[n].checks|
    ensures LoadsNode(es, j, n) && k < |es[j].nodes[n].checks|
    ensures var check, rs := Reached(es).s.nodes[n].checks[k], Delivered(es, n, k);
      var up := es[j].nodes[n].admin == Enabled && es[j].nodes[n].state == NodeUp;
      && check.maxFailed == es[j].nodes[n].checks[k].maxFailed
      && (up || Pass in rs ==> Verdict(check.maxFailed, SinceLastPass(rs), check.hard))
      && (!up && Pass !in rs ==> check.hard == CheckDown)
  {
    hide Reached, After, Verdict, Delivered, SinceLastPass;
    j := ChecksFollow(es, n);
    var c, rs := es[j].nodes[n].checks[k], Delivered(es, n, k);
    assert FreshNode(es[j].nodes[n]);
    HardState(c, rs);
    if Pass in rs {
      var i :| 0 <= i < |rs| && rs[i] == Pass;
      assert rs[i].Pass?;
    }
    assert forall i | 0 <= i < |rs| :: rs[i].Pass? ==> rs[i] == Pass && rs[i] in rs;
  }
}
