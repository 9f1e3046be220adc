/** All pools together: recomputation, the cascade over backup pools, and sending to the worker.
    `N` is the type of node references. */
module Fleet {
  import opened Domain
  import opened Selection
  import opened Wire

  /** Everything that does not change while pools run.  `order` is the order in which the
      pool map is walked. */
  datatype Config<N> = Config(pools: map<string, PoolCfg<N>>, order: seq<string>, nodes: map<N, NodeCfg>)

  datatype State<N> = State(pools: map<string, PoolV<N>>, nodes: map<N, NodeV>, net: Net)

  // ----- well-formed configurations -----------------------------------------------------

  ghost predicate PoolConfigured<N>(c: Config<N>, p: string)
    requires p in c.pools
  {
    var cfg := c.pools[p];
    && Normalised(cfg)
    && |cfg.ids| < MAX_NODES
    && (MayBorrow(cfg) && cfg.backup in c.pools ==> c.pools[cfg.backup].rank < cfg.rank)
    && (forall n | n in cfg.ids :: n in c.nodes && c.nodes[n].parent == p)
  }

  ghost predicate Configured<N>(c: Config<N>) {
    && (forall p | p in c.pools :: PoolConfigured(c, p))
    && (forall n | n in c.nodes :: c.nodes[n].parent in c.pools && n in c.pools[c.nodes[n].parent].ids)
    && (forall p, q | p in c.pools && q in c.pools && p != q :: c.pools[p].pfName != c.pools[q].pfName)
    && (forall p | p in c.pools :: p in c.order)
    && (forall p | p in c.order :: p in c.pools)
  }

  ghost predicate Shaped<N>(c: Config<N>, s: State<N>) {
    s.pools.Keys == c.pools.Keys && s.nodes.Keys == c.nodes.Keys
  }

  // ----- recomputation of one pool ------------------------------------------------------

  function SetFlags<N(==)>(nodes: map<N, NodeV>, kept: set<N>, forced: set<N>): map<N, NodeV> {
    map n | n in nodes ::
        nodes[n].(maxKept := nodes[n].maxKept || n in kept, minKept := nodes[n].minKept || n in forced)
  }

  function BackupUp<N>(c: Config<N>, s: State<N>, p: string): Option<set<N>>
    requires p in c.pools && s.pools.Keys == c.pools.Keys
  {
    if c.pools[p].backup in c.pools then Some(s.pools[c.pools[p].backup].up) else None
  }

  function Adopted<N(==)>(v: PoolV<N>, ch: Choice<N>): PoolV<N> {
    if ch.served == v.up then v.(active := ch.active)
    else PoolV(ch.served, ch.active, false, ch.served != {})
  }

  function ChoiceFor<N(==)>(c: Config<N>, s: State<N>, p: string, last: Option<N>): Choice<N>
    requires p in c.pools && s.pools.Keys == c.pools.Keys
  {
    Choose(c.pools[p], s.nodes, last, BackupUp(c, s, p))
  }

  function Adopt<N(==)>(s: State<N>, p: string, ch: Choice<N>): (r: State<N>)
    requires p in s.pools
    ensures r.pools.Keys == s.pools.Keys && r.nodes.Keys == s.nodes.Keys
  {
    s.(pools := s.pools[p := Adopted(s.pools[p], ch)], nodes := SetFlags(s.nodes, ch.kept, ch.forced))
  }

  function Recompute<N(==)>(c: Config<N>, s: State<N>, p: string, last: Option<N>): (r: State<N>)
    requires p in c.pools && s.pools.Keys == c.pools.Keys
    ensures r.pools.Keys == s.pools.Keys && r.nodes.Keys == s.nodes.Keys
  {
    Adopt(s, p, ChoiceFor(c, s, p, last))
  }

  // ----- sending ----------------------------------------------------------------------------

  function SlotFor<N(==)>(c: Config<N>, s: State<N>, up: set<N>, n: N): Slot {
    if n in c.nodes && n in s.nodes
    then Slot(if n in up then NodeUp else NodeDown, s.nodes[n].admin, c.nodes[n].ip4, c.nodes[n].ip6)
    else BLANK
  }

  /** The message carries the pool's own nodes, in order, and blank entries after them. */
  function Snapshot<N(==)>(c: Config<N>, s: State<N>, ids: seq<N>, up: set<N>): seq<Slot>
    requires |ids| <= MAX_NODES
  {
    seq(MAX_NODES, k requires 0 <= k < MAX_NODES => if k < |ids| then SlotFor(c, s, up, ids[k]) else BLANK)
  }

  /** Sends when the pool is not in sync: the worker may run first, then the queue decides. */
  function Send<N(==)>(c: Config<N>, s: State<N>, p: string): (r: State<N>)
    requires p in c.pools && |c.pools[p].ids| <= MAX_NODES && s.pools.Keys == c.pools.Keys
    ensures r.pools.Keys == s.pools.Keys && r.nodes == s.nodes
  {
    if s.pools[p].synced then s
    else
      var net := WorkerTurn(s.net);
      var msg := Msg(p, c.pools[p].pfName, Snapshot(c, s, c.pools[p].ids, s.pools[p].up));
      var ok := Accepts(net);
      s.(net := if ok then Enqueue(net, msg) else net, pools := s.pools[p := s.pools[p].(synced := ok)])
  }

  // ----- the cascade ----------------------------------------------------------------------

  /** The pools that can still be reached from `p` by going from a pool to one that uses it
      as backup; this set shrinks with every step of the recursion. */
  ghost function Above<N>(c: Config<N>, p: string): set<string>
    requires p in c.pools
  {
    set q | q in c.pools && c.pools[q].rank > c.pools[p].rank
  }

  /** Pool `q` borrows from `p`.  Only a pool that may borrow ever counts as active, so the program
      has no need to look at that. */
  predicate Borrows<N>(c: Config<N>, s: State<N>, q: string, p: string)
    requires q in c.pools && s.pools.Keys == c.pools.Keys
  {
    c.pools[q].backup == p && s.pools[q].active && MayBorrow(c.pools[q])
  }

  predicate Gate<N>(s: State<N>, last: Option<N>) {
    last.None? || (last.value in s.nodes && s.nodes[last.value].stateChanged)
  }

  function PoolLogic<N(==)>(c: Config<N>, s: State<N>, p: string, last: Option<N>): (r: State<N>)
    requires Configured(c) && Shaped(c, s) && p in c.pools
    ensures Shaped(c, r)
    decreases Above(c, p), |c.order| + 2
  {
    UpdatePfctl(c, if Gate(s, last) then Recompute(c, s, p, last) else s, p)
  }

  function UpdatePfctl<N(==)>(c: Config<N>, s: State<N>, p: string): (r: State<N>)
    requires Configured(c) && Shaped(c, s) && p in c.pools
    ensures Shaped(c, r)
    decreases Above(c, p), |c.order| + 1
  {
    Dependents(c, Send(c, s, p), p, 0)
  }

  /** Walks the pool map from position `i` on and re-evaluates the pools that borrow from `p`. */
  function Dependents<N(==)>(c: Config<N>, s: State<N>, p: string, i: nat): (r: State<N>)
    requires Configured(c) && Shaped(c, s) && p in c.pools && i <= |c.order|
    ensures Shaped(c, r)
    decreases Above(c, p), |c.order| - i
  {
    if i == |c.order| then s
    else
      var q := c.order[i];
      if Borrows(c, s, q, p) then
        assert PoolConfigured(c, q);
        assert Above(c, q) < Above(c, p) by { assert q in Above(c, p) && q !in Above(c, q); }
        Dependents(c, PoolLogic(c, s, q, None), p, i + 1)
      else Dependents(c, s, p, i + 1)
  }
}
