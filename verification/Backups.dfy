/** When the cascade over backup pools comes to an end: always if no cycle leads through pools that
    can borrow, and never once it enters a ring of pools that all borrow. */
module Backups {
  import opened Domain
  import opened Selection
  import opened Wire
  import opened Fleet

  // ----- acyclic backup relations are the ranked ones --------------------------------------------

  /** The pool reached from `p` by going to the backup `n` times; `b` gives the backups of the
      registered pools. */
  function Follow(b: map<string, string>, p: string, n: nat): Option<string> {
    if n == 0 then Some(p)
    else
      var q := Follow(b, p, n - 1);
      if q.Some? && q.value in b then Some(b[q.value]) else None
  }

  ghost predicate Acyclic(b: map<string, string>) {
    forall p, n: nat | p in b && n > 0 :: Follow(b, p, n) != Some(p)
  }

  ghost predicate Ranked(b: map<string, string>, rank: map<string, nat>) {
    forall p | p in b :: p in rank && (b[p] in b ==> b[p] in rank && rank[b[p]] < rank[p])
  }

  lemma {:induction false} FollowShift(b: map<string, string>, p: string, n: nat)
    requires p in b
    ensures Follow(b, p, n + 1) == Follow(b, b[p], n)
  {
    if n > 0 {
      FollowShift(b, p, n - 1);
    }
  }

  /** How many steps lead from `p` out of `rest`, never counting a pool twice. */
  function Steps(b: map<string, string>, p: string, rest: set<string>): nat
    requires rest <= b.Keys
    decreases rest
  {
    if p !in rest then 0 else 1 + Steps(b, b[p], rest - {p})
  }

  lemma {:induction false} StepsWithout(b: map<string, string>, q: string, rest: set<string>, x: string)
    requires rest <= b.Keys && forall n: nat :: Follow(b, q, n) != Some(x)
    ensures Steps(b, q, rest) == Steps(b, q, rest - {x})
    decreases rest
  {
    if q in rest {
      assert Follow(b, q, 0) == Some(q);
      forall n: nat
        ensures Follow(b, b[q], n) != Some(x)
      {
        FollowShift(b, q, n);
      }
      StepsWithout(b, b[q], rest - {q}, x);
      assert rest - {q} - {x} == rest - {x} - {q};
    }
  }

  lemma {:induction false} RankFalls(b: map<string, string>, rank: map<string, nat>, p: string, n: nat)
    requires Ranked(b, rank) && p in b
    ensures var q := Follow(b, p, n); q.Some? && q.value in b ==> q.value in rank && rank[q.value] + n <= rank[p]
  {
    if n > 0 {
      RankFalls(b, rank, p, n - 1);
    }
  }

  /** Ranks exist exactly for acyclic backup relations. */
  lemma AcyclicIffRanked(b: map<string, string>)
    ensures Acyclic(b) <==> exists rank :: Ranked(b, rank)
  {
    if Acyclic(b) {
      var rank := map p | p in b :: Steps(b, p, b.Keys);
      forall p | p in b && b[p] in b
        ensures rank[b[p]] < rank[p]
      {
        forall n: nat
          ensures Follow(b, b[p], n) != Some(p)
        {
          FollowShift(b, p, n);
        }
        StepsWithout(b, b[p], b.Keys, p);
      }
      assert Ranked(b, rank);
    }
    if rank :| Ranked(b, rank) {
      forall p, n: nat | p in b && n > 0
        ensures Follow(b, p, n) != Some(p)
      {
        RankFalls(b, rank, p, n);
      }
    }
  }

  // ----- the cascade without ranks ---------------------------------------------------------------

  /** The mutual recursion, stopped after `fuel` nested calls: None when that is not enough. */
  function TryPoolLogic<N(==)>(c: Config<N>, s: State<N>, p: string, last: Option<N>, fuel: nat): (r: Option<State<N>>)
    requires p in c.pools && Shaped(c, s) && Sized(c)
    ensures r.Some? ==> Shaped(c, r.value)
    decreases fuel, |c.order| + 1
  {
    if fuel == 0 then None
    else TryDependents(c, Sent(c, s, p, last), p, 0, fuel)
  }

  /** The test with which update_pfctl finds the pools that borrow from `p`. */
  predicate Claims<N>(c: Config<N>, s: State<N>, q: string, p: string)
    requires q in c.pools && Shaped(c, s)
  {
    c.pools[q].backup == p && s.pools[q].active
  }

  function TryDependents<N(==)>(c: Config<N>, s: State<N>, p: string, i: nat, fuel: nat): (r: Option<State<N>>)
    requires Shaped(c, s) && Sized(c) && i <= |c.order| && fuel > 0
    ensures r.Some? ==> Shaped(c, r.value)
    decreases fuel, |c.order| - i
  {
    if i == |c.order| then Some(s)
    else
      var q := c.order[i];
      if Claims(c, s, q, p) then
        var r := TryPoolLogic(c, s, q, None, fuel - 1);
        if r.None? then None else TryDependents(c, r.value, p, i + 1, fuel)
      else TryDependents(c, s, p, i + 1, fuel)
  }

  ghost predicate Sized<N>(c: Config<N>) {
    && (forall p | p in c.pools :: p in c.order && |c.pools[p].ids| <= MAX_NODES)
    && (forall p | p in c.order :: p in c.pools)
  }

  /** Only pools that may borrow count as borrowing. */
  ghost predicate Earnest<N>(c: Config<N>, s: State<N>)
    requires Shaped(c, s)
  {
    forall q | q in c.pools && s.pools[q].active :: MayBorrow(c.pools[q])
  }

  lemma SentEarnest<N>(c: Config<N>, s: State<N>, p: string, last: Option<N>)
    requires p in c.pools && Shaped(c, s) && Sized(c) && Earnest(c, s)
    ensures Earnest(c, Sent(c, s, p, last))
  {
    hide Snapshot, WorkerTurn, SetFlags, WithinMax, ForceUpChoice;
    ForceUpInactive(c.pools[p], s.nodes, last, WithinMax(c.pools[p].ids, c.pools[p].maxNodes, s.nodes));
    var s1 := if Gate(s, last) then Recompute(c, s, p, last) else s;
    assert Earnest(c, s1);
    assert forall q | q in c.pools :: Send(c, s1, p).pools[q].active == s1.pools[q].active;
  }

  /** For ranked configurations the number of pools above `p` bounds the depth, and the result is that
      of the cascade. */
  lemma {:induction false} EnoughFuel<N>(c: Config<N>, s: State<N>, p: string, last: Option<N>, fuel: nat)
    requires Configured(c) && Sized(c) && Shaped(c, s) && Earnest(c, s) && p in c.pools && fuel > |Above(c, p)|
    ensures TryPoolLogic(c, s, p, last, fuel) == Some(PoolLogic(c, s, p, last))
    ensures Earnest(c, PoolLogic(c, s, p, last))
    decreases fuel, |c.order| + 1
  {
    hide Recompute, Send, Earnest, Dependents, TryDependents;
    assert PoolConfigured(c, p);
    SentEarnest(c, s, p, last);
    WalkEnough(c, Sent(c, s, p, last), p, 0, fuel);
    var s1 := if Gate(s, last) then Recompute(c, s, p, last) else s;
    assert UpdatePfctl(c, s1, p) == Dependents(c, Send(c, s1, p), p, 0);
  }

  lemma {:induction false} WalkEnough<N>(c: Config<N>, s: State<N>, p: string, i: nat, fuel: nat)
    requires Configured(c) && Sized(c) && Shaped(c, s) && Earnest(c, s) && p in c.pools && i <= |c.order|
    requires fuel > |Above(c, p)|
    ensures TryDependents(c, s, p, i, fuel) == Some(Dependents(c, s, p, i))
    ensures Earnest(c, Dependents(c, s, p, i))
    decreases fuel, |c.order| - i
  {
    hide TryPoolLogic, PoolLogic, Configured, Above, Earnest;
    if i < |c.order| {
      var q := c.order[i];
      ClaimsIs(c, s, q, p);
      if Borrows(c, s, q, p) {
        AboveShrinks(c, p, q);
        EnoughFuel(c, s, q, None, fuel - 1);
        WalkEnough(c, PoolLogic(c, s, q, None), p, i + 1, fuel);
      } else {
        WalkEnough(c, s, p, i + 1, fuel);
      }
    }
  }

  lemma ClaimsIs<N>(c: Config<N>, s: State<N>, q: string, p: string)
    requires Shaped(c, s) && Earnest(c, s) && q in c.pools
    ensures Claims(c, s, q, p) <==> Borrows(c, s, q, p)
  {
  }

  lemma AboveShrinks<N>(c: Config<N>, p: string, q: string)
    requires Configured(c) && p in c.pools && q in c.pools && c.pools[q].backup == p && MayBorrow(c.pools[q])
    ensures |Above(c, q)| < |Above(c, p)|
  {
    assert PoolConfigured(c, q);
    assert q in Above(c, p) && q !in Above(c, q);
    SubsetSize(Above(c, q), Above(c, p));
  }

  // ----- rings ------------------------------------------------------------------------------------

  /** Pool `p` borrows at its next recomputation: it is short and its backup is registered. */
  ghost predicate WouldBorrow<N>(c: Config<N>, s: State<N>, p: string)
    requires Shaped(c, s)
  {
    && p in c.pools && c.pools[p].policy.BackupPool? && c.pools[p].backup in c.pools
    && Short(c.pools[p].minNodes, Capped(|UpOf(c.pools[p].ids, s.nodes)|, c.pools[p].maxNodes))
  }

  /** Pool `p` borrows and would borrow again. */
  ghost predicate Stuck<N>(c: Config<N>, s: State<N>, p: string)
    requires Shaped(c, s)
  {
    WouldBorrow(c, s, p) && s.pools[p].active
  }

  /** Pool `p` is the backup of a pool of the ring. */
  ghost predicate Lends<N>(c: Config<N>, ring: set<string>, p: string) {
    exists q | q in ring && q in c.pools :: c.pools[q].backup == p
  }

  ghost predicate Linked<N>(c: Config<N>, ring: set<string>) {
    forall p | p in ring :: Lends(c, ring, p)
  }

  ghost predicate AllStuck<N>(c: Config<N>, s: State<N>, ring: set<string>)
    requires Shaped(c, s)
  {
    forall p | p in ring :: Stuck(c, s, p)
  }

  lemma RecomputeUp<N>(c: Config<N>, s: State<N>, p: string, last: Option<N>, ids: seq<N>)
    requires p in c.pools && Shaped(c, s)
    ensures UpOf(ids, Recompute(c, s, p, last).nodes) == UpOf(ids, s.nodes)
  {
    hide ChoiceFor;
  }

  /** A stuck pool stays stuck through every recomputation, and its own recomputation is enough to
      get it stuck. */
  lemma RecomputeStuck<N>(c: Config<N>, s: State<N>, p: string, last: Option<N>, q: string)
    requires p in c.pools && Shaped(c, s) && WouldBorrow(c, s, q) && (p == q || Stuck(c, s, q))
    ensures Stuck(c, Recompute(c, s, p, last), q)
  {
    RecomputeUp(c, s, p, last, c.pools[q].ids);
    if p == q {
      WithinMaxFacts(c.pools[p].ids, c.pools[p].maxNodes, s.nodes);
    }
  }

  lemma SendStuck<N>(c: Config<N>, s: State<N>, p: string, q: string)
    requires p in c.pools && |c.pools[p].ids| <= MAX_NODES && Shaped(c, s) && Stuck(c, s, q)
    ensures Stuck(c, Send(c, s, p), q)
  {
  }

  /** The state in which pool_logic starts to walk the pool map. */
  function Sent<N(==)>(c: Config<N>, s: State<N>, p: string, last: Option<N>): (r: State<N>)
    requires p in c.pools && Shaped(c, s) && Sized(c)
    ensures Shaped(c, r)
  {
    Send(c, if Gate(s, last) then Recompute(c, s, p, last) else s, p)
  }

  /** All pools of the ring borrow, apart perhaps from `p`, which is about to. */
  ghost predicate Closing<N>(c: Config<N>, s: State<N>, p: string, last: Option<N>, ring: set<string>)
    requires Shaped(c, s)
  {
    forall q | q in ring :: Stuck(c, s, q) || (q == p && Gate(s, last) && WouldBorrow(c, s, q))
  }

  lemma SentStuck<N>(c: Config<N>, s: State<N>, p: string, last: Option<N>, ring: set<string>)
    requires p in c.pools && Shaped(c, s) && Sized(c) && Closing(c, s, p, last, ring)
    ensures AllStuck(c, Sent(c, s, p, last), ring)
  {
    hide Recompute, Send, WouldBorrow;
    var s1 := if Gate(s, last) then Recompute(c, s, p, last) else s;
    forall q | q in ring
      ensures Stuck(c, Sent(c, s, p, last), q)
    {
      if Gate(s, last) {
        RecomputeStuck(c, s, p, last, q);
      }
      SendStuck(c, s1, p, q);
    }
  }

  lemma {:induction false} StaysStuck<N>(c: Config<N>, s: State<N>, p: string, last: Option<N>, fuel: nat,
                                         ring: set<string>)
    requires p in c.pools && Shaped(c, s) && Sized(c) && AllStuck(c, s, ring)
    ensures var r := TryPoolLogic(c, s, p, last, fuel); r.Some? ==> AllStuck(c, r.value, ring)
    decreases fuel, |c.order| + 1
  {
    hide Stuck, Sent;
    if fuel > 0 {
      SentStuck(c, s, p, last, ring);
      WalkStaysStuck(c, Sent(c, s, p, last), p, 0, fuel, ring);
    }
  }

  lemma {:induction false} WalkStaysStuck<N>(c: Config<N>, s: State<N>, p: string, i: nat, fuel: nat, ring: set<string>)
    requires Shaped(c, s) && Sized(c) && i <= |c.order| && fuel > 0 && AllStuck(c, s, ring)
    ensures var r := TryDependents(c, s, p, i, fuel); r.Some? ==> AllStuck(c, r.value, ring)
    decreases fuel, |c.order| - i
  {
    hide AllStuck, TryPoolLogic;
    if i < |c.order| {
      var q := c.order[i];
      if Claims(c, s, q, p) {
        StaysStuck(c, s, q, None, fuel - 1, ring);
        var r := TryPoolLogic(c, s, q, None, fuel - 1);
        if r.Some? {
          WalkStaysStuck(c, r.value, p, i + 1, fuel, ring);
        }
      } else {
        WalkStaysStuck(c, s, p, i + 1, fuel, ring);
      }
    }
  }

  lemma Successor<N>(c: Config<N>, p: string, ring: set<string>) returns (at: nat)
    requires Sized(c) && Lends(c, ring, p)
    ensures at < |c.order| && c.order[at] in ring && c.order[at] in c.pools && c.pools[c.order[at]].backup == p
  {
    var q :| q in ring && q in c.pools && c.pools[q].backup == p;
    at :| 0 <= at < |c.order| && c.order[at] == q;
  }

  /** Once pool_logic is called on a pool of a ring of which all others borrow, and that pool borrows
      too or is about to, no depth of recursion is enough. */
  lemma {:induction false} RingNeverEnds<N>(c: Config<N>, s: State<N>, p: string, last: Option<N>, fuel: nat,
                                            ring: set<string>)
    requires Shaped(c, s) && Sized(c) && Linked(c, ring) && Closing(c, s, p, last, ring) && p in ring && p in c.pools
    ensures TryPoolLogic(c, s, p, last, fuel).None?
    decreases fuel, |c.order| + 1
  {
    hide AllStuck, Closing, Sent, Lends, TryDependents;
    if fuel > 0 {
      SentStuck(c, s, p, last, ring);
      assert Lends(c, ring, p);
      var at := Successor(c, p, ring);
      WalkNeverEnds(c, Sent(c, s, p, last), p, 0, fuel, ring, at);
    }
  }

  lemma {:induction false} WalkNeverEnds<N>(c: Config<N>, s: State<N>, p: string, i: nat, fuel: nat,
                                            ring: set<string>, at: nat)
    requires Shaped(c, s) && Sized(c) && Linked(c, ring) && AllStuck(c, s, ring) && fuel > 0
    requires i <= at < |c.order| && c.order[at] in ring && c.order[at] in c.pools && c.pools[c.order[at]].backup == p
    ensures TryDependents(c, s, p, i, fuel).None?
    decreases fuel, |c.order| - i
  {
    hide Linked, TryPoolLogic, WouldBorrow;
    var q := c.order[i];
    if i == at {
      assert Stuck(c, s, q);
      RingNeverEnds(c, s, q, None, fuel - 1, ring);
    } else if Claims(c, s, q, p) {
      var r := TryPoolLogic(c, s, q, None, fuel - 1);
      StaysStuck(c, s, q, None, fuel - 1, ring);
      if r.Some? {
        WalkNeverEnds(c, r.value, p, i + 1, fuel, ring, at);
      }
    } else {
      WalkNeverEnds(c, s, p, i + 1, fuel, ring, at);
    }
  }

  // ----- exactly when ---------------------------------------------------------------------------------

  /** Pool `p` can borrow at all: with min_nodes 0, another policy (pools without health checks are
      forced up) or an unregistered backup it never does. */
  predicate CanBorrow<N>(c: Config<N>, p: string)
    requires p in c.pools
  {
    MayBorrow(c.pools[p]) && c.pools[p].backup in c.pools
  }

  /** The backups of the pools that can borrow. */
  function LendersOf<N>(c: Config<N>): map<string, string> {
    map p | p in c.pools && CanBorrow(c, p) :: c.pools[p].backup
  }

  ghost predicate Ends<N>(c: Config<N>, s: State<N>, p: string, last: Option<N>)
    requires p in c.pools && Shaped(c, s) && Sized(c)
  {
    exists fuel :: TryPoolLogic(c, s, p, last, fuel).Some?
  }

  /** The pools that count as borrowing although they cannot borrow. */
  ghost function Pretenders<N>(c: Config<N>, s: State<N>): set<string>
    requires Shaped(c, s)
  {
    set p | p in c.pools && s.pools[p].active && !CanBorrow(c, p)
  }

  /** A recomputation makes no pretender, and its own pool is none afterwards. */
  lemma RecomputePretends<N>(c: Config<N>, s: State<N>, p: string, last: Option<N>)
    requires p in c.pools && Shaped(c, s)
    ensures Pretenders(c, Recompute(c, s, p, last)) <= Pretenders(c, s) - {p}
  {
    hide WithinMax, ForceUpChoice, SetFlags;
    ForceUpInactive(c.pools[p], s.nodes, last, WithinMax(c.pools[p].ids, c.pools[p].maxNodes, s.nodes));
  }

  lemma ForceUpInactive<N>(cfg: PoolCfg<N>, m: map<N, NodeV>, last: Option<N>, w: set<N>)
    ensures !ForceUpChoice(cfg, m, last, w).active
  {
  }

  lemma SentPretends<N>(c: Config<N>, s: State<N>, p: string, last: Option<N>)
    requires p in c.pools && Shaped(c, s) && Sized(c)
    ensures Pretenders(c, Sent(c, s, p, last)) <= Pretenders(c, s)
    ensures Gate(s, last) ==> p !in Pretenders(c, Sent(c, s, p, last))
  {
    hide Recompute, Send, Pretenders;
    RecomputePretends(c, s, p, last);
    SendPretends(c, if Gate(s, last) then Recompute(c, s, p, last) else s, p);
  }

  lemma SendPretends<N>(c: Config<N>, s: State<N>, p: string)
    requires p in c.pools && Shaped(c, s) && |c.pools[p].ids| <= MAX_NODES
    ensures Shaped(c, Send(c, s, p)) && Pretenders(c, Send(c, s, p)) == Pretenders(c, s)
  {
    hide Snapshot, WorkerTurn;
    var r := Send(c, s, p);
    assert forall q | q in c.pools :: r.pools[q].active == s.pools[q].active;
  }

  /** The pools that can borrow and rank above `p`. */
  ghost function Higher(b: map<string, string>, rank: map<string, nat>, p: string): set<string>
    requires Ranked(b, rank)
  {
    if p in b then set q | q in b && rank[q] > rank[p] else b.Keys
  }

  lemma HigherShrinks(b: map<string, string>, rank: map<string, nat>, p: string, q: string)
    requires Ranked(b, rank) && q in b && b[q] == p
    ensures |Higher(b, rank, q)| < |Higher(b, rank, p)|
  {
    assert q in Higher(b, rank, p) && q !in Higher(b, rank, q);
    SubsetSize(Higher(b, rank, q), Higher(b, rank, p));
  }

  lemma HigherBounded<N>(c: Config<N>, rank: map<string, nat>, p: string)
    requires Ranked(LendersOf(c), rank)
    ensures |Higher(LendersOf(c), rank, p)| <= |c.pools|
  {
    assert |c.pools| == |c.pools.Keys|;
    SubsetSize(Higher(LendersOf(c), rank, p), c.pools.Keys);
  }

  /** How deep the walk for pool `p` may still go: each pretender can restart the climb once. */
  ghost function Depth<N>(c: Config<N>, rank: map<string, nat>, s: State<N>, p: string): nat
    requires Shaped(c, s) && Ranked(LendersOf(c), rank)
  {
    |Pretenders(c, s)| * (|c.pools| + 1) + |Higher(LendersOf(c), rank, p)|
  }

  lemma {:induction false} Product(a: nat, b: nat, k: nat)
    ensures a <= b ==> a * k <= b * k
    ensures a < b ==> a * k + k <= b * k
    decreases b
  {
    if a < b {
      Product(a, b - 1, k);
      assert b * k == (b - 1) * k + k;
    }
  }

  lemma DepthShrinks<N>(c: Config<N>, rank: map<string, nat>, s: State<N>, p: string, q: string)
    requires Sized(c) && Shaped(c, s) && q in c.pools && Ranked(LendersOf(c), rank) && Claims(c, s, q, p)
    ensures Depth(c, rank, Sent(c, s, q, None), q) < Depth(c, rank, s, p)
  {
    hide Sent, Higher, Ranked, Pretenders;
    var r := Sent(c, s, q, None);
    SentPretends(c, s, q, None);
    SubsetSize(Pretenders(c, r), Pretenders(c, s));
    Product(|Pretenders(c, r)|, |Pretenders(c, s)|, |c.pools| + 1);
    if CanBorrow(c, q) {
      HigherShrinks(LendersOf(c), rank, p, q);
    } else {
      PretenderIs(c, s, q);
      HigherBounded(c, rank, q);
    }
  }

  lemma PretenderIs<N>(c: Config<N>, s: State<N>, q: string)
    requires Shaped(c, s) && q in c.pools
    ensures q in Pretenders(c, s) <==> s.pools[q].active && !CanBorrow(c, q)
  {
  }

  lemma DepthLess<N>(c: Config<N>, rank: map<string, nat>, s: State<N>, r: State<N>, p: string)
    requires Shaped(c, s) && Shaped(c, r) && Ranked(LendersOf(c), rank) && Pretenders(c, r) <= Pretenders(c, s)
    ensures Depth(c, rank, r, p) <= Depth(c, rank, s, p)
  {
    hide Higher, Ranked, Pretenders;
    SubsetSize(Pretenders(c, r), Pretenders(c, s));
    Product(|Pretenders(c, r)|, |Pretenders(c, s)|, |c.pools| + 1);
  }

  lemma {:induction false} DeepEnough<N>(c: Config<N>, rank: map<string, nat>, s: State<N>, p: string,
                                         last: Option<N>, fuel: nat)
    requires Sized(c) && Shaped(c, s) && p in c.pools
    requires Ranked(LendersOf(c), rank) && fuel > Depth(c, rank, Sent(c, s, p, last), p)
    ensures var r := TryPoolLogic(c, s, p, last, fuel);
      r.Some? && Pretenders(c, r.value) <= Pretenders(c, Sent(c, s, p, last))
    decreases fuel, |c.order| + 1
  {
    hide Sent, TryDependents, Ranked, Depth, Pretenders;
    WalkDeepEnough(c, rank, Sent(c, s, p, last), p, 0, fuel);
  }

  lemma {:induction false} WalkDeepEnough<N>(c: Config<N>, rank: map<string, nat>, s: State<N>, p: string, i: nat,
                                             fuel: nat)
    requires Sized(c) && Shaped(c, s) && i <= |c.order|
    requires Ranked(LendersOf(c), rank) && fuel > Depth(c, rank, s, p)
    ensures var r := TryDependents(c, s, p, i, fuel);
      r.Some? && Pretenders(c, r.value) <= Pretenders(c, s)
    decreases fuel, |c.order| - i
  {
    hide TryPoolLogic, Ranked, Depth, Sent, Pretenders;
    if i < |c.order| {
      var q := c.order[i];
      if Claims(c, s, q, p) {
        DepthShrinks(c, rank, s, p, q);
        DeepEnough(c, rank, s, q, None, fuel - 1);
        SentPretends(c, s, q, None);
        var r := TryPoolLogic(c, s, q, None, fuel - 1).value;
        DepthLess(c, rank, s, r, p);
        WalkDeepEnough(c, rank, r, p, i + 1, fuel);
      } else {
        WalkDeepEnough(c, rank, s, p, i + 1, fuel);
      }
    }
  }

  lemma {:induction false} FollowPrefix(b: map<string, string>, p: string, n: nat, k: nat)
    requires Follow(b, p, n).Some? && k <= n
    ensures Follow(b, p, k).Some?
    ensures (k < n ==> Follow(b, p, k).value in b && Follow(b, p, k + 1) == Some(b[Follow(b, p, k).value]))
    decreases n - k
  {
    if k < n {
      FollowPrefix(b, p, n, k + 1);
    }
  }

  /** The pools met within `n` steps from `p`. */
  ghost function OnCycle(b: map<string, string>, p: string, n: nat): set<string> {
    if n == 0 then {}
    else
      var q := Follow(b, p, n - 1);
      OnCycle(b, p, n - 1) + if q.Some? then {q.value} else {}
  }

  lemma {:induction false} OnCycleAt(b: map<string, string>, p: string, n: nat, q: string) returns (k: nat)
    requires q in OnCycle(b, p, n)
    ensures k < n && Follow(b, p, k) == Some(q)
  {
    if q in OnCycle(b, p, n - 1) {
      k := OnCycleAt(b, p, n - 1, q);
    } else {
      k := n - 1;
    }
  }

  lemma {:induction false} OnCycleHas(b: map<string, string>, p: string, n: nat, k: nat)
    requires k < n && Follow(b, p, k).Some?
    ensures Follow(b, p, k).value in OnCycle(b, p, n)
  {
    if k < n - 1 {
      OnCycleHas(b, p, n - 1, k);
    }
  }

  /** A pool on a cycle can borrow, and another one on the cycle borrows from it. */
  lemma CycleLends<N>(c: Config<N>, p: string, n: nat, q: string)
    requires n > 0 && Follow(LendersOf(c), p, n) == Some(p) && q in OnCycle(LendersOf(c), p, n)
    ensures q in c.pools && CanBorrow(c, q) && Lends(c, OnCycle(LendersOf(c), p, n), q)
  {
    hide Follow, OnCycle;
    var b := LendersOf(c);
    FollowSelf(b, p);
    FollowPrefix(b, p, n, 0);
    var k := OnCycleAt(b, p, n, q);
    FollowPrefix(b, p, n, k);
    if k + 1 < n {
      FollowPrefix(b, p, n, k + 1);
    }
    var j := if k == 0 then n - 1 else k - 1;
    FollowPrefix(b, p, n, j);
    OnCycleHas(b, p, n, j);
    assert c.pools[Follow(b, p, j).value].backup == q;
  }

  lemma FollowSelf(b: map<string, string>, p: string)
    ensures Follow(b, p, 0) == Some(p)
  {
  }

  /** All nodes down and all backups active. */
  ghost function AllDown<N>(c: Config<N>): (s: State<N>)
    ensures Shaped(c, s)
  {
    State(map q | q in c.pools :: PoolV({}, true, false, false),
          map x | x in c.nodes :: NodeV(NodeDown, Enabled, false, false, false, false, []),
          Net([], map[], {}, {}, []))
  }

  lemma AllDownStuck<N>(c: Config<N>, q: string)
    requires q in c.pools && CanBorrow(c, q)
    ensures Stuck(c, AllDown(c), q)
  {
    assert UpOf(c.pools[q].ids, AllDown(c).nodes) == {};
  }

  lemma CycleNeverEnds<N>(c: Config<N>, p: string, n: nat)
    requires Sized(c) && p in c.pools && n > 0 && Follow(LendersOf(c), p, n) == Some(p)
    ensures !Ends(c, AllDown(c), p, None)
  {
    hide OnCycle, Lends, Stuck, AllDown, Follow;
    var ring := OnCycle(LendersOf(c), p, n);
    FollowSelf(LendersOf(c), p);
    OnCycleHas(LendersOf(c), p, n, 0);
    forall q | q in ring
      ensures Stuck(c, AllDown(c), q) && Lends(c, ring, q)
    {
      CycleLends(c, p, n, q);
      AllDownStuck(c, q);
    }
    forall fuel: nat
      ensures TryPoolLogic(c, AllDown(c), p, None, fuel).None?
    {
      RingNeverEnds(c, AllDown(c), p, None, fuel, ring);
    }
  }

  /** The mutual recursion of pool_logic and update_pfctl ends, from every state, for every pool and
      every caller, exactly when no cycle of backups leads through pools that can borrow. */
  lemma EndsIffAcyclic<N(!new)>(c: Config<N>)
    requires Sized(c)
    ensures Acyclic(LendersOf(c)) <==>
      forall s: State<N>, p, last: Option<N> | Shaped(c, s) && p in c.pools :: Ends(c, s, p, last)
  {
    hide Follow, LendersOf, TryPoolLogic, Sent, Depth;
    AcyclicIffRanked(LendersOf(c));
    if Acyclic(LendersOf(c)) {
      var rank :| Ranked(LendersOf(c), rank);
      forall s: State<N>, p, last: Option<N> | Shaped(c, s) && p in c.pools
        ensures Ends(c, s, p, last)
      {
        DeepEnough(c, rank, s, p, last, Depth(c, rank, Sent(c, s, p, last), p) + 1);
      }
    } else {
      var p, n: nat :| p in LendersOf(c) && n > 0 && Follow(LendersOf(c), p, n) == Some(p);
      LendersKeys(c, p);
      CycleNeverEnds(c, p, n);
      assert Shaped(c, AllDown(c)) && !Ends(c, AllDown(c), p, None);
    }
  }

  // ----- which configurations have runs ---------------------------------------------------------------

  /** All that is asked of a configuration apart from the ranks, which only concern pools that may
      borrow. */
  ghost predicate ConfiguredButRanks<N>(c: Config<N>) {
    Configured(c.(pools := map p | p in c.pools :: c.pools[p].(policy := ForceDown)))
  }

  function WithRanks<N>(c: Config<N>, rank: map<string, nat>): Config<N>
    requires c.pools.Keys <= rank.Keys
  {
    c.(pools := map p | p in c.pools :: c.pools[p].(rank := rank[p]))
  }

  lemma RanksConfigure<N>(c: Config<N>, rank: map<string, nat>)
    requires ConfiguredButRanks(c) && c.pools.Keys <= rank.Keys
    ensures Configured(WithRanks(c, rank))
        <==> forall p | p in c.pools && CanBorrow(c, p) :: rank[c.pools[p].backup] < rank[p]
  {
    hide PoolConfigured;
    var d := c.(pools := map p | p in c.pools :: c.pools[p].(policy := ForceDown));
    var r := WithRanks(c, rank);
    forall p | p in c.pools
      ensures PoolConfigured(r, p) <==> (CanBorrow(c, p) ==> rank[c.pools[p].backup] < rank[p])
    {
      RanksConfigureOne(c, rank, p);
    }
    assert forall p | p in c.pools :: r.pools[p].pfName == d.pools[p].pfName && r.pools[p].ids == d.pools[p].ids;
  }

  lemma RanksConfigureOne<N>(c: Config<N>, rank: map<string, nat>, p: string)
    requires ConfiguredButRanks(c) && c.pools.Keys <= rank.Keys && p in c.pools
    ensures PoolConfigured(WithRanks(c, rank), p) <==> (CanBorrow(c, p) ==> rank[c.pools[p].backup] < rank[p])
  {
    assert PoolConfigured(c.(pools := map p | p in c.pools :: c.pools[p].(policy := ForceDown)), p);
  }

  lemma RanksExist<N>(c: Config<N>)
    requires ConfiguredButRanks(c)
    ensures Acyclic(LendersOf(c))
        <==> exists rank: map<string, nat> :: c.pools.Keys <= rank.Keys && Configured(WithRanks(c, rank))
  {
    hide ConfiguredButRanks, Configured, WithRanks, Acyclic;
    var b := LendersOf(c);
    AcyclicIffRanked(b);
    if Acyclic(b) {
      var rank :| Ranked(b, rank);
      var all := map p | p in c.pools :: if p in b then rank[p] + 1 else 0;
      assert forall p | p in c.pools && CanBorrow(c, p) :: p in b && all[c.pools[p].backup] < all[p];
      RanksConfigure(c, all);
    }
    if rank: map<string, nat> :| c.pools.Keys <= rank.Keys && Configured(WithRanks(c, rank)) {
      RanksConfigure(c, rank);
      assert Ranked(b, rank);
    }
  }

  lemma ButRanksSized<N>(c: Config<N>)
    requires ConfiguredButRanks(c)
    ensures Sized(c)
  {
    var d := c.(pools := map p | p in c.pools :: c.pools[p].(policy := ForceDown));
    forall p | p in c.pools
      ensures p in c.order && |c.pools[p].ids| <= MAX_NODES
    {
      assert PoolConfigured(d, p);
    }
  }

  /** The configurations that runs are about, those for which ranks exist, are exactly the ones in
      which the recursion always ends. */
  lemma RunsCoverAll<N(!new)>(c: Config<N>)
    requires ConfiguredButRanks(c)
    ensures Sized(c)
    ensures (exists rank: map<string, nat> :: c.pools.Keys <= rank.Keys && Configured(WithRanks(c, rank))) <==>
      forall s: State<N>, p, last: Option<N> | Shaped(c, s) && p in c.pools :: Ends(c, s, p, last)
  {
    hide ConfiguredButRanks, Configured, WithRanks, Acyclic, Ends, Sized;
    ButRanksSized(c);
    RanksExist(c);
    EndsIffAcyclic(c);
  }

  lemma LendersKeys<N>(c: Config<N>, p: string)
    ensures p in LendersOf(c) <==> p in c.pools && CanBorrow(c, p)
  {
  }
}
