/** What a message to the worker says about its pool, and what the worker makes of that. */
module Messages {
  import opened Domain
  import opened Wire
  import opened Fleet
  import opened PfTable

  /** Message `m` lists the nodes of pool `p`, in order, as they are in `s`: whether they are served, their
      admin state and their addresses; the other entries have no address. */
  ghost predicate Describes<N>(c: Config<N>, s: State<N>, p: string, m: Msg)
    requires p in c.pools && p in s.pools
  {
    var ids := c.pools[p].ids;
    && m.pool == p && m.table == c.pools[p].pfName && |m.slots| == 100 && |ids| <= 100
    && (forall k | 0 <= k < |ids| ::
          && ids[k] in s.nodes && ids[k] in c.nodes
          && (m.slots[k].wanted == NodeUp <==> ids[k] in s.pools[p].up)
          && m.slots[k].admin == s.nodes[ids[k]].admin
          && m.slots[k].ip4 == c.nodes[ids[k]].ip4 && m.slots[k].ip6 == c.nodes[ids[k]].ip6)
    && (forall k | |ids| <= k < 100 :: m.slots[k].ip4 == "" && m.slots[k].ip6 == "")
  }

  /** Sending: a pool in sync does nothing.  Otherwise, after the worker's turn, the message is queued last
      and the pool counts as in sync exactly if fewer than ten messages wait. */
  lemma SendMeaning<N>(c: Config<N>, s: State<N>, p: string)
    requires Configured(c) && Shaped(c, s) && p in c.pools
    ensures |c.pools[p].ids| <= MAX_NODES
    ensures var r, before := Send(c, s, p), WorkerTurn(s.net);
      if s.pools[p].synced then r == s
      else
        && r.nodes == s.nodes && r.pools == s.pools[p := s.pools[p].(synced := |before.queue| < 10)]
        && (|before.queue| >= 10 ==> r.net == before)
        && (|before.queue| < 10 ==>
              && |r.net.queue| == |before.queue| + 1 && r.net.queue[..|before.queue|] == before.queue
              && Describes(c, s, p, r.net.queue[|before.queue|])
              && r.net == before.(queue := r.net.queue))
  {
    hide WorkerTurn;
    assert PoolConfigured(c, p);
  }

  /** When the worker synchronises the table as such a message asks, connections to an address are dropped
      exactly if it is removed and a node of the pool with that address is in downtime or enabled;
      connections to nodes that drain are left to end. */
  lemma WhoseConnections<N>(c: Config<N>, s: State<N>, p: string, m: Msg, toDel: set<string>, a: string)
    requires p in c.pools && p in s.pools && Describes(c, s, p, m)
    ensures KillRdr(a) in Kills(m.slots, toDel) <==>
      a in toDel && a != "" && exists n | n in c.pools[p].ids && n in c.nodes && n in s.nodes ::
        && (a == c.nodes[n].ip4 || a == c.nodes[n].ip6)
        && (s.nodes[n].admin == Downtime || s.nodes[n].admin == Enabled)
    ensures KillSrc(a, false) in Kills(m.slots, toDel) <==>
      a in toDel && a != "" && exists n | n in c.pools[p].ids && n in c.nodes && n in s.nodes ::
        && (a == c.nodes[n].ip4 || a == c.nodes[n].ip6)
        && (s.nodes[n].admin == DrainSoft || s.nodes[n].admin == DrainHard)
  {
    hide Kills, Drops;
    var ids := c.pools[p].ids;
    KillsExactly(m.slots, toDel, a);
    EntryFor(c, s, p, m, a, {Downtime, Enabled});
    EntryFor(c, s, p, m, a, {DrainSoft, DrainHard});
  }

  lemma EntryFor<N>(c: Config<N>, s: State<N>, p: string, m: Msg, a: string, admins: set<AdminState>)
    requires p in c.pools && p in s.pools && Describes(c, s, p, m)
    ensures (exists x | x in m.slots :: a != "" && (a == x.ip4 || a == x.ip6) && x.admin in admins) <==>
      a != "" && exists n | n in c.pools[p].ids && n in c.nodes && n in s.nodes ::
        (a == c.nodes[n].ip4 || a == c.nodes[n].ip6) && s.nodes[n].admin in admins
  {
    var ids := c.pools[p].ids;
    if x :| x in m.slots && a != "" && (a == x.ip4 || a == x.ip6) && x.admin in admins {
      var k :| 0 <= k < |m.slots| && m.slots[k] == x;
      assert k < |ids| && ids[k] in ids;
    }
    if n :| n in ids && n in c.nodes && n in s.nodes && a != ""
            && (a == c.nodes[n].ip4 || a == c.nodes[n].ip6) && s.nodes[n].admin in admins {
      var k :| 0 <= k < |ids| && ids[k] == n;
      assert m.slots[k] in m.slots;
    }
  }
}
