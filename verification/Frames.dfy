/** What one event can and cannot touch, through the whole cascade. */
module Frames {
  import opened Domain
  import opened Selection
  import opened Fleet
  import opened Invariants

  /** Pool `x` and its nodes are the same in both states. */
  ghost predicate Same<N>(c: Config<N>, s: State<N>, r: State<N>, x: string)
    requires Shaped(c, s) && Shaped(c, r) && x in c.pools
  {
    && r.pools[x] == s.pools[x]
    && SameNodes(c, s, r, x)
  }

  ghost predicate SameNodes<N>(c: Config<N>, s: State<N>, r: State<N>, x: string)
    requires Shaped(c, s) && Shaped(c, r) && x in c.pools
  {
    forall n | n in c.pools[x].ids && n in s.nodes :: r.nodes[n] == s.nodes[n]
  }

  lemma RecomputeSame<N>(c: Config<N>, s: State<N>, p: string, last: Option<N>, x: string)
    requires Configured(c) && Shaped(c, s) && p in c.pools && x in c.pools && x != p
    requires LastOk(c.pools[p].ids, last)
    ensures Same(c, s, Recompute(c, s, p, last), x)
  {
    hide Choose, Configured, Adopted;
    ChoiceLocal(c.pools[p], s.nodes, last, BackupUp(c, s, p));
    OthersNodes(c, p, x);
    var ch := ChoiceFor(c, s, p, last);
    assert forall n | n in c.pools[x].ids :: n !in ch.kept && n !in ch.forced;
  }

  /** A cascade starting at `p` leaves alone every other pool that is not above `p` or that
      does not borrow. */
  lemma {:induction false} PoolLogicSame<N>(c: Config<N>, s: State<N>, p: string, last: Option<N>, x: string)
    requires Configured(c) && Shaped(c, s) && p in c.pools && x in c.pools && x != p
    requires LastOk(c.pools[p].ids, last)
    requires c.pools[x].rank <= c.pools[p].rank || !s.pools[x].active
    ensures Same(c, s, PoolLogic(c, s, p, last), x)
    decreases Above(c, p), |c.order| + 2
  {
    hide Recompute;
    var s1 := if Gate(s, last) then Recompute(c, s, p, last) else s;
    assert Shaped(c, s1);
    assert Same(c, s, s1, x) by {
      if Gate(s, last) { RecomputeSame(c, s, p, last, x); }
    }
    UpdatePfctlSame(c, s1, p, x);
  }

  lemma {:induction false} UpdatePfctlSame<N>(c: Config<N>, s: State<N>, p: string, x: string)
    requires Configured(c) && Shaped(c, s) && p in c.pools && x in c.pools
    requires c.pools[x].rank <= c.pools[p].rank || !s.pools[x].active
    ensures SameNodes(c, s, UpdatePfctl(c, s, p), x)
    ensures x != p ==> Same(c, s, UpdatePfctl(c, s, p), x)
    ensures x == p ==> UpdatePfctl(c, s, p).pools[p] == Send(c, s, p).pools[p]
    decreases Above(c, p), |c.order| + 1
  {
    assert PoolConfigured(c, p);
    DependentsSame(c, Send(c, s, p), p, 0, x);
  }

  lemma {:induction false} DependentsSame<N>(c: Config<N>, s: State<N>, p: string, i: nat, x: string)
    requires Configured(c) && Shaped(c, s) && p in c.pools && i <= |c.order| && x in c.pools
    requires c.pools[x].rank <= c.pools[p].rank || !s.pools[x].active
    ensures Same(c, s, Dependents(c, s, p, i), x)
    decreases Above(c, p), |c.order| - i
  {
    hide PoolLogic, UpdatePfctl;
    if i < |c.order| {
      var q := c.order[i];
      assert PoolConfigured(c, q);
      if Borrows(c, s, q, p) {
        assert q in Above(c, p) && q !in Above(c, q);
        PoolLogicSame(c, s, q, None, x);
        DependentsSame(c, PoolLogic(c, s, q, None), p, i + 1, x);
      } else {
        DependentsSame(c, s, p, i + 1, x);
      }
    }
  }

  /** What a change of node `n` does to its own pool: nothing unless announced, and otherwise
      exactly one recomputation, which no later part of the cascade disturbs. */
  lemma OwnEffect<N>(c: Config<N>, s: State<N>, p: string, n: N)
    requires Configured(c) && Shaped(c, s) && p in c.pools && n in c.pools[p].ids
    ensures
      var r := PoolLogic(c, s, p, Some(n));
      var s1 := if Gate(s, Some(n)) then Recompute(c, s, p, Some(n)) else s;
      && r.pools[p].up == s1.pools[p].up
      && r.pools[p].active == s1.pools[p].active
      && SameNodes(c, s1, r, p)
  {
    hide Recompute;
    assert PoolConfigured(c, p);
    var s1 := if Gate(s, Some(n)) then Recompute(c, s, p, Some(n)) else s;
    UpdatePfctlSame(c, s1, p, p);
  }

  // ----- pools set flags, nothing else, on nodes ------------------------------------------

  /** Every node is the same up to its two kept flags. */
  ghost predicate FlagsOnly<N>(s: State<N>, r: State<N>) {
    && r.nodes.Keys == s.nodes.Keys
    && forall n | n in s.nodes ::
        r.nodes[n] == s.nodes[n].(maxKept := r.nodes[n].maxKept, minKept := r.nodes[n].minKept)
  }

  /** The same, and no flag is taken away. */
  ghost predicate FlagsSet<N>(s: State<N>, r: State<N>) {
    && FlagsOnly(s, r)
    && forall n | n in s.nodes ::
         (s.nodes[n].maxKept ==> r.nodes[n].maxKept) && (s.nodes[n].minKept ==> r.nodes[n].minKept)
  }

  lemma FlagsChain<N>(s: State<N>, t: State<N>, r: State<N>)
    requires FlagsSet(s, t) && FlagsSet(t, r)
    ensures FlagsSet(s, r)
  {
  }

  lemma RecomputeFlags<N>(c: Config<N>, s: State<N>, p: string, last: Option<N>)
    requires p in c.pools && s.pools.Keys == c.pools.Keys
    ensures FlagsSet(s, Recompute(c, s, p, last)) && FlagsSet(s, s)
  {
    hide ChoiceFor;
  }

  lemma {:induction false} PoolLogicFlags<N>(c: Config<N>, s: State<N>, p: string, last: Option<N>)
    requires Configured(c) && Shaped(c, s) && p in c.pools
    ensures FlagsSet(s, PoolLogic(c, s, p, last))
    decreases Above(c, p), |c.order| + 2
  {
    hide Recompute, FlagsSet;
    var s1 := if Gate(s, last) then Recompute(c, s, p, last) else s;
    RecomputeFlags(c, s, p, last);
    UpdatePfctlFlags(c, s1, p);
    FlagsChain(s, s1, UpdatePfctl(c, s1, p));
  }

  lemma {:induction false} UpdatePfctlFlags<N>(c: Config<N>, s: State<N>, p: string)
    requires Configured(c) && Shaped(c, s) && p in c.pools
    ensures FlagsSet(s, UpdatePfctl(c, s, p))
    decreases Above(c, p), |c.order| + 1
  {
    assert PoolConfigured(c, p);
    DependentsFlags(c, Send(c, s, p), p, 0);
  }

  lemma {:induction false} DependentsFlags<N>(c: Config<N>, s: State<N>, p: string, i: nat)
    requires Configured(c) && Shaped(c, s) && p in c.pools && i <= |c.order|
    ensures FlagsSet(s, Dependents(c, s, p, i))
    decreases Above(c, p), |c.order| - i
  {
    hide PoolLogic, UpdatePfctl, FlagsSet, Configured, Above;
    if i < |c.order| {
      var q := c.order[i];
      BorrowerRank(c, s, p, q);
      if Borrows(c, s, q, p) {
        var s1 := PoolLogic(c, s, q, None);
        PoolLogicFlags(c, s, q, None);
        DependentsFlags(c, s1, p, i + 1);
        FlagsChain(s, s1, Dependents(c, s1, p, i + 1));
      } else {
        DependentsFlags(c, s, p, i + 1);
      }
    } else {
      RecomputeFlags(c, s, p, None);
    }
  }
}
