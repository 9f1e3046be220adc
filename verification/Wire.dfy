/** The queue between the main process and the pf worker, and the pf tables behind it. */
module Wire {
  import opened Domain

  const QUEUE_LEN := 10
  const MAX_NODES := 100

  /** One entry of the fixed-size node list in a message. */
  datatype Slot = Slot(wanted: NodeState, admin: AdminState, ip4: string, ip6: string)

  /** What memset leaves in an entry that is not filled in. */
  const BLANK := Slot(NodeDown, DrainHard, "", "")

  datatype Msg = Msg(pool: string, table: string, slots: seq<Slot>)

  /** How the worker fares with one message: the table is synchronised, or some pf command
      fails and leaves `left` behind.  The worker does not look at the difference. */
  datatype Outcome = Synced | Broken(left: set<string>)

  /** `stale` holds the tables whose latest processed message failed, `taken` all messages
      processed so far.  `turns` says how the worker is scheduled: what it processes just before
      each coming try_send. */
  datatype Net = Net(
    queue: seq<Msg>, tables: map<string, set<string>>, stale: set<string>,
    taken: set<Msg>, turns: seq<seq<Outcome>>)

  function Addresses(ip4: string, ip6: string): set<string> {
    {ip4, ip6} - {""}
  }

  function SlotWants(s: Slot): set<string> {
    if s.wanted.NodeUp? && s.admin.Enabled? then Addresses(s.ip4, s.ip6) else {}
  }

  function Wants(slots: seq<Slot>): set<string> {
    set k, a | 0 <= k < |slots| && a in SlotWants(slots[k]) :: a
  }

  /** A table that pf does not have is as good as empty: pf_get_table creates it. */
  function TableOf(net: Net, t: string): set<string> {
    if t in net.tables then net.tables[t] else {}
  }

  // ----- steps -----------------------------------------------------------------------

  function Deliver(net: Net, o: Outcome): Net
    requires net.queue != []
  {
    var m := net.queue[0];
    match o
    case Synced =>
      net.(queue := net.queue[1..], taken := net.taken + {m},
           tables := net.tables[m.table := Wants(m.slots)], stale := net.stale - {m.table})
    case Broken(left) =>
      net.(queue := net.queue[1..], taken := net.taken + {m},
           tables := net.tables[m.table := left], stale := net.stale + {m.table})
  }

  function DeliverAll(net: Net, os: seq<Outcome>): Net
    decreases |os|
  {
    if os == [] || net.queue == [] then net else DeliverAll(Deliver(net, os[0]), os[1..])
  }

  /** The worker takes its turn. */
  function WorkerTurn(net: Net): Net {
    if net.turns == [] then net
    else DeliverAll(net, net.turns[0]).(turns := net.turns[1..])
  }

  predicate Accepts(net: Net) {
    |net.queue| < QUEUE_LEN
  }

  function Enqueue(net: Net, m: Msg): Net {
    net.(queue := net.queue + [m])
  }

  // ----- what messages ask for -------------------------------------------------------

  /** The worker's own look at the admin state drops no entry that is wanted up. */
  ghost predicate NothingDropped(m: Msg) {
    forall slot | slot in m.slots :: slot.wanted.NodeUp? ==> slot.admin.Enabled?
  }

  /** That holds for every message so far, waiting or taken. */
  ghost predicate Honest(net: Net) {
    forall m | m in net.queue || m in net.taken :: NothingDropped(m)
  }

  lemma {:induction false} DeliverAllHonest(net: Net, os: seq<Outcome>)
    requires Honest(net)
    ensures Honest(DeliverAll(net, os))
    decreases |os|
  {
    if os != [] && net.queue != [] {
      DeliverAllHonest(Deliver(net, os[0]), os[1..]);
    }
  }

  // ----- where a table is heading ----------------------------------------------------

  function Final(queue: seq<Msg>, current: Option<set<string>>, t: string): Option<set<string>>
    decreases |queue|
  {
    if queue == [] then current
    else Final(queue[1..], if queue[0].table == t then Some(Wants(queue[0].slots)) else current, t)
  }

  /** The contents of table `t` once everything queued is processed; None when its latest
      message has failed and no newer one is queued. */
  function Heading(net: Net, t: string): Option<set<string>> {
    Final(net.queue, if t in net.stale then None else Some(TableOf(net, t)), t)
  }

  lemma {:induction false} FinalAppend(queue: seq<Msg>, m: Msg, current: Option<set<string>>, t: string)
    ensures Final(queue + [m], current, t)
         == if m.table == t then Some(Wants(m.slots)) else Final(queue, current, t)
    decreases |queue|
  {
    if queue == [] {
      assert (queue + [m])[1..] == [];
    } else {
      assert (queue + [m])[1..] == queue[1..] + [m];
      FinalAppend(queue[1..], m, if queue[0].table == t then Some(Wants(queue[0].slots)) else current, t);
    }
  }

  lemma {:induction false} FinalForgets(queue: seq<Msg>, current: Option<set<string>>, t: string)
    ensures Final(queue, None, t) in {None, Final(queue, current, t)}
    decreases |queue|
  {
    if queue != [] && queue[0].table != t {
      FinalForgets(queue[1..], current, t);
    }
  }

  lemma EnqueueHeading(net: Net, m: Msg, t: string)
    ensures Heading(Enqueue(net, m), t) == if m.table == t then Some(Wants(m.slots)) else Heading(net, t)
  {
    FinalAppend(net.queue, m, if t in net.stale then None else Some(TableOf(net, t)), t);
  }

  /** A delivery keeps where each table is heading, or loses it by failing. */
  lemma DeliverHeading(net: Net, o: Outcome, t: string)
    requires net.queue != []
    ensures Heading(Deliver(net, o), t) in {None, Heading(net, t)}
    ensures o.Synced? ==> Heading(Deliver(net, o), t) == Heading(net, t)
  {
    var m := net.queue[0];
    if o.Broken? && m.table == t {
      FinalForgets(net.queue[1..], Some(Wants(m.slots)), t);
    }
  }

  lemma {:induction false} DeliverAllHeading(net: Net, os: seq<Outcome>, t: string)
    ensures Heading(DeliverAll(net, os), t) in {None, Heading(net, t)}
    ensures (forall o | o in os :: o.Synced?) ==> Heading(DeliverAll(net, os), t) == Heading(net, t)
    ensures |DeliverAll(net, os).queue| == |net.queue| - Min(|net.queue|, |os|)
    decreases |os|
  {
    if os != [] && net.queue != [] {
      DeliverHeading(net, os[0], t);
      DeliverAllHeading(Deliver(net, os[0]), os[1..], t);
    }
  }

  /** Processing the whole queue without a failure puts every table where it is heading. */
  lemma DrainArrives(net: Net, os: seq<Outcome>, t: string)
    requires |os| >= |net.queue| && forall o | o in os :: o.Synced?
    ensures DeliverAll(net, os).queue == []
    ensures Heading(net, t).Some? ==> TableOf(DeliverAll(net, os), t) == Heading(net, t).value
  {
    DeliverAllHeading(net, os, t);
  }
}
