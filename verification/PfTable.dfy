/** Bringing a pf table in line with the wanted nodes, command by command. */
module PfTable {
  import opened Domain
  import opened Wire

  /** The pfctl invocations that matter for one table. */
  datatype Cmd =
    | Show
    | Add(addrs: set<string>)
    | Del(addrs: set<string>)
    | KillSrc(addr: string, withStates: bool)
    | KillRdr(addr: string)

  /** A command either succeeds as a whole or fails without effect. */
  function Effect(table: set<string>, c: Cmd): set<string> {
    match c
    case Add(addrs) => table + addrs
    case Del(addrs) => table - addrs
    case _ => table
  }

  // ----- what is to be killed -----------------------------------------------------------------

  /** Draining nodes keep the states of their connections. */
  predicate WithStates(s: Slot) {
    !(s.admin.DrainHard? || s.admin.DrainSoft?)
  }

  function KillAddr(addr: string, withStates: bool, toDel: set<string>): seq<Cmd> {
    if addr == "" || addr !in toDel then []
    else [KillSrc(addr, withStates)] + if withStates then [KillRdr(addr), KillSrc(addr, true)] else []
  }

  function KillSlot(s: Slot, toDel: set<string>): seq<Cmd> {
    KillAddr(s.ip4, WithStates(s), toDel) + KillAddr(s.ip6, WithStates(s), toDel)
  }

  function Kills(slots: seq<Slot>, toDel: set<string>): seq<Cmd>
    decreases |slots|
  {
    if slots == [] then [] else Kills(slots[..|slots| - 1], toDel) + KillSlot(slots[|slots| - 1], toDel)
  }

  lemma KillsNone(toDel: set<string>)
    ensures Kills([], toDel) == []
  {
  }

  lemma KillsNext(slots: seq<Slot>, i: nat, toDel: set<string>)
    requires i < |slots|
    ensures Kills(slots[..i + 1], toDel) == Kills(slots[..i], toDel) + KillSlot(slots[i], toDel)
  {
    assert slots[..i + 1][..i] == slots[..i] && slots[..i + 1][i] == slots[i];
  }

  predicate KillsStates(c: Cmd, a: string) {
    c == KillRdr(a) || c == KillSrc(a, true)
  }

  /** At `i`: source entries with their states, states by destination, and the source entries again. */
  predicate DropAt(cmds: seq<Cmd>, i: nat, a: string) {
    i + 2 < |cmds| && cmds[i] == KillSrc(a, true) && cmds[i + 1] == KillRdr(a) && cmds[i + 2] == KillSrc(a, true)
  }

  /** The three commands that drop all connections to an address. */
  ghost predicate Drops(cmds: seq<Cmd>, a: string) {
    exists i: nat :: DropAt(cmds, i, a)
  }

  lemma DropsMore(cmds: seq<Cmd>, more: seq<Cmd>, a: string)
    ensures Drops(cmds, a) || Drops(more, a) ==> Drops(cmds + more, a)
  {
    if i: nat :| DropAt(cmds, i, a) {
      assert DropAt(cmds + more, i, a);
    }
    if i: nat :| DropAt(more, i, a) {
      assert DropAt(cmds + more, |cmds| + i, a);
    }
  }

  /** The entry names address `a`, and its node is in downtime or enabled, so not draining. */
  predicate Dropped(s: Slot, a: string) {
    a != "" && (a == s.ip4 || a == s.ip6) && (s.admin == Downtime || s.admin == Enabled)
  }

  /** The entry names address `a`, and its node drains, softly or hard. */
  predicate Drained(s: Slot, a: string) {
    a != "" && (a == s.ip4 || a == s.ip6) && (s.admin == DrainSoft || s.admin == DrainHard)
  }

  /** Which commands there are for address `a`: the states behind it are dropped, source entries first
      and once more at the end, exactly if it is removed and an entry of it is not draining; the
      source entries alone go exactly if it is removed and an entry of it is draining. */
  ghost predicate KillsFor(cmds: seq<Cmd>, slots: seq<Slot>, toDel: set<string>, a: string) {
    && (KillRdr(a) in cmds <==> a in toDel && exists s | s in slots :: Dropped(s, a))
    && (KillSrc(a, true) in cmds <==> a in toDel && exists s | s in slots :: Dropped(s, a))
    && (KillSrc(a, false) in cmds <==> a in toDel && exists s | s in slots :: Drained(s, a))
    && (KillRdr(a) in cmds ==> Drops(cmds, a))
    && (forall c | c in cmds :: c.KillSrc? || c.KillRdr?)
  }

  lemma {:induction false} KillsExactly(slots: seq<Slot>, toDel: set<string>, a: string)
    ensures KillsFor(Kills(slots, toDel), slots, toDel, a)
    decreases |slots|
  {
    hide KillSlot, Drops;
    if slots != [] {
      var before, s := slots[..|slots| - 1], slots[|slots| - 1];
      KillsExactly(before, toDel, a);
      assert forall x | x in slots :: x in before || x == s;
      assert s in slots && forall x | x in before :: x in slots;
      KillSlotExactly(s, toDel, a);
      assert forall c :: c in Kills(slots, toDel) <==> c in Kills(before, toDel) || c in KillSlot(s, toDel);
      DropsMore(Kills(before, toDel), KillSlot(s, toDel), a);
    }
  }

  lemma KillSlotExactly(s: Slot, toDel: set<string>, a: string)
    ensures KillsFor(KillSlot(s, toDel), [s], toDel, a)
  {
    hide Drops;
    KillAddrExactly(s.ip4, s.admin, toDel, a);
    KillAddrExactly(s.ip6, s.admin, toDel, a);
    DropsMore(KillAddr(s.ip4, WithStates(s), toDel), KillAddr(s.ip6, WithStates(s), toDel), a);
    assert s in [s];
  }

  lemma KillAddrExactly(addr: string, admin: AdminState, toDel: set<string>, a: string)
    ensures var cmds := KillAddr(addr, WithStates(Slot(NodeDown, admin, addr, addr)), toDel);
      && (KillRdr(a) in cmds <==> a in toDel && a != "" && a == addr && (admin == Downtime || admin == Enabled))
      && (KillSrc(a, true) in cmds <==> KillRdr(a) in cmds)
      && (KillSrc(a, false) in cmds <==>
            a in toDel && a != "" && a == addr && (admin == DrainSoft || admin == DrainHard))
      && (KillRdr(a) in cmds ==> Drops(cmds, a))
      && (forall c | c in cmds :: c.KillSrc? || c.KillRdr?)
  {
    var cmds := KillAddr(addr, WithStates(Slot(NodeDown, admin, addr, addr)), toDel);
    if KillRdr(a) in cmds {
      assert DropAt(cmds, 0, a);
    }
  }

  // ----- the worker's view of pf -----------------------------------------------------------------

  /** Every kill in `cmds` only removes load-balancing entries, without states, of one of `addrs`,
      and all of them are dealt with, each once. */
  ghost predicate Rebalances(cmds: seq<Cmd>, addrs: set<string>) {
    && (forall c | c in cmds :: c.KillSrc? && !c.withStates && c.addr in addrs)
    && (forall a | a in addrs :: KillSrc(a, false) in cmds)
    && |cmds| == |addrs|
  }

  /** Kills that drop connections hit only removed addresses of nodes that are not draining. */
  ghost predicate Gentle(cmds: seq<Cmd>, slots: seq<Slot>, toDel: set<string>) {
    forall c, a | c in cmds && KillsStates(c, a) :: a in toDel && exists s | s in slots :: Dropped(s, a)
  }

  /** No command in `answers` fails. */
  predicate Fine(answers: seq<bool>) {
    forall k | 0 <= k < |answers| :: answers[k]
  }

  class Pf {
    var table: set<string>
    var log: seq<Cmd>
    /** Whether the coming commands succeed; all do once this is used up. */
    var answers: seq<bool>

    constructor (table: set<string>, answers: seq<bool>)
      ensures this.table == table && this.answers == answers && log == []
    {
      this.table, this.answers, log := table, answers, [];
    }

    method RunCommand(c: Cmd) returns (ok: bool)
      modifies this
      ensures log == old(log) + [c]
      ensures ok == (old(answers) == [] || old(answers)[0])
      ensures answers == if old(answers) == [] then [] else old(answers)[1..]
      ensures table == if ok then Effect(old(table), c) else old(table)
      ensures Fine(old(answers)) ==> ok && Fine(answers)
    {
      log := log + [c];
      ok := answers == [] || answers[0];
      answers := if answers == [] then [] else answers[1..];
      if ok {
        table := Effect(table, c);
      }
    }

    /** pf_get_table: a table that cannot be shown is taken for missing and created.  `shown` tells how
        the first command fares. */
    method GetTable() returns (ok: bool, result: set<string>, shown: bool)
      modifies this
      ensures table == old(table)
      ensures shown == (old(answers) == [] || old(answers)[0])
      ensures ok == (shown || |old(answers)| < 2 || old(answers)[1])
      ensures ok ==> result == if shown then table else {}
      ensures log == old(log) + if shown then [Show] else [Show, Add({})]
      ensures (shown && Fine(old(answers))) || (!shown && Fine(old(answers)[1..])) ==> Fine(answers)
    {
      shown := RunCommand(Show);
      if shown {
        return true, table, true;
      }
      ok := RunCommand(Add({}));
      result := {};
    }

    /** pf_table_add and pf_table_del run nothing for an empty set. */
    method Change(add: bool, addrs: set<string>) returns (ok: bool)
      modifies this
      ensures addrs == {} ==> ok && log == old(log)
      ensures addrs != {} ==> log == old(log) + [if add then Add(addrs) else Del(addrs)]
      ensures table == if !ok then old(table) else if add then old(table) + addrs else old(table) - addrs
      ensures Fine(old(answers)) ==> ok && Fine(answers)
    {
      if addrs == {} {
        return true;
      }
      ok := RunCommand(if add then Add(addrs) else Del(addrs));
    }

    /** The body of the loop that kills: for one address of one entry. */
    method KillOne(addr: string, withStates: bool, toDel: set<string>)
      modifies this
      ensures table == old(table) && log == old(log) + KillAddr(addr, withStates, toDel)
      ensures Fine(old(answers)) ==> Fine(answers)
    {
      if addr == "" || addr !in toDel {
        return;
      }
      var _ := RunCommand(KillSrc(addr, withStates));
      if withStates {
        var _ := RunCommand(KillRdr(addr));
        var _ := RunCommand(KillSrc(addr, true));
      }
    }

    method KillRemoved(slots: seq<Slot>, toDel: set<string>)
      modifies this
      ensures table == old(table) && log == old(log) + Kills(slots, toDel)
      ensures Fine(old(answers)) ==> Fine(answers)
    {
      hide Kills, KillAddr;
      assert slots[..0] == [];
      KillsNone(toDel);
      for i := 0 to |slots|
        invariant table == old(table) && log == old(log) + Kills(slots[..i], toDel)
        invariant Fine(old(answers)) ==> Fine(answers)
      {
        KillOne(slots[i].ip4, WithStates(slots[i]), toDel);
        KillOne(slots[i].ip6, WithStates(slots[i]), toDel);
        KillsNext(slots, i, toDel);
      }
      assert slots[..|slots|] == slots;
    }

    /** pf_table_rebalance: sources are forgotten for all addresses but the new ones, in some order,
        until a command fails. */
    method Rebalance(skip: set<string>) returns (ok: bool, shown: bool, ghost killed: seq<Cmd>)
      modifies this
      ensures table == old(table)
      ensures log == old(log) + (if shown then [Show] else [Show, Add({})]) + killed
      ensures forall c | c in killed :: c.KillSrc? && !c.withStates && c.addr in table - skip
      ensures Fine(old(answers)) ==> ok && shown && Fine(answers) && Rebalances(killed, table - skip)
    {
      var addresses;
      killed := [];
      ok, addresses, shown := GetTable();
      ghost var start := log;
      if !ok {
        return;
      }
      var rest := addresses - skip;
      while rest != {}
        invariant ok && table == old(table) && log == start + killed && rest <= addresses - skip
        invariant forall c | c in killed :: c.KillSrc? && !c.withStates && c.addr in addresses - skip
        invariant forall a | a in addresses - skip - rest :: KillSrc(a, false) in killed
        invariant |killed| + |rest| == |addresses - skip|
        invariant Fine(old(answers)) ==> Fine(answers)
        decreases |rest|
      {
        var a :| a in rest;
        ok := RunCommand(KillSrc(a, false));
        killed := killed + [KillSrc(a, false)];
        rest := rest - {a};
        if !ok {
          break;
        }
      }
    }

    /** The loops that read the wanted addresses out of a message. */
    method WantSet(slots: seq<Slot>) returns (want: set<string>)
      ensures want == Wants(slots)
    {
      want := {};
      for i := 0 to |slots|
        invariant want == Wants(slots[..i])
      {
        var s := slots[i];
        WantsNext(slots, i);
        if s.ip4 != "" && s.wanted.NodeUp? && s.admin.Enabled? {
          want := want + {s.ip4};
        }
        if s.ip6 != "" && s.wanted.NodeUp? && s.admin.Enabled? {
          want := want + {s.ip6};
        }
      }
      assert slots[..|slots|] == slots;
    }

    /** pf_sync_table.  When it reports success the table is the wanted set exactly if the first command
        could show the table or there was nothing to remove; otherwise nothing was removed.
        Success is reported if at most that first command fails.  However it ends, no wanted address is
        lost and nothing unwanted is added, and connections are dropped only for removed
        addresses with an entry that is not draining.  When no command fails, the commands are the
        plan, followed, if anything is added, by rebalancing exactly the wanted addresses that
        were there before. */
    method SyncTable(slots: seq<Slot>) returns (ok: bool, shown: bool, ghost cmds: seq<Cmd>, ghost killed: seq<Cmd>)
      modifies this
      ensures shown == (old(answers) == [] || old(answers)[0])
      ensures ok ==> table == if shown then Wants(slots) else old(table) + Wants(slots)
      ensures ok ==> (table == Wants(slots) <==> shown || old(table) <= Wants(slots))
      ensures forall a :: a in Wants(slots) <==> exists s | s in slots :: Asks(s, a)
      ensures Fine(if old(answers) == [] then [] else old(answers)[1..]) ==> ok
      ensures old(table) * Wants(slots) <= table <= old(table) + Wants(slots)
      ensures log == old(log) + cmds
      ensures Gentle(cmds, slots, old(table) - Wants(slots))
      ensures Fine(old(answers)) ==>
        && ok && shown
        && cmds == Plan(slots, old(table), Wants(slots)) + killed
        && Rebalances(killed, if Wants(slots) <= old(table) then {} else old(table) * Wants(slots))
    {
      WantsMeaning(slots);
      hide Wants, Kills, Gentle, Rebalances, Adds, Deletes, Asks, Plan, Removal, Appending;
      killed := [];
      RebalancesNone();
      var cur;
      ok, cur, shown := GetTable();
      cmds := if shown then [Show] else [Show, Add({})];
      ghost var removed := old(table) - Wants(slots);
      Harmless(cmds, slots, removed);
      if !ok {
        return;
      }
      var want := WantSet(slots);
      ghost var first, second;
      ok, first := Remove(slots, cur - want);
      RemovalGentle(cmds, slots, cur - want, removed, ok);
      cmds := cmds + first;
      if !ok {
        return;
      }
      ok, second, killed := Append(want - cur);
      HarmlessMore(cmds, second, slots, removed);
      cmds := cmds + second;
      if Fine(old(answers)) {
        PlanIs(slots, cur, want, killed);
      }
    }

    /** The first half of the work: remove and kill. */
    method Remove(slots: seq<Slot>, toDel: set<string>) returns (ok: bool, ghost cmds: seq<Cmd>)
      modifies this
      ensures table == if ok then old(table) - toDel else old(table)
      ensures cmds == Removal(slots, toDel, ok) && log == old(log) + cmds
      ensures Fine(old(answers)) ==> ok && Fine(answers)
    {
      hide Kills;
      ok := Change(false, toDel);
      cmds := Deletes(toDel);
      if ok {
        KillRemoved(slots, toDel);
        cmds := cmds + Kills(slots, toDel);
      }
    }

    /** The second half: add, and rebalance if something was added. */
    method Append(toAdd: set<string>) returns (ok: bool, ghost cmds: seq<Cmd>, ghost killed: seq<Cmd>)
      modifies this
      ensures table == if ok then old(table) + toAdd else old(table)
      ensures log == old(log) + cmds
      ensures forall c | c in cmds :: !c.KillRdr? && (c.KillSrc? ==> !c.withStates)
      ensures Fine(old(answers)) ==> ok
      ensures Fine(old(answers)) ==>
        && cmds == Appending(toAdd, [Show], killed)
        && Rebalances(killed, if toAdd == {} then {} else old(table) - toAdd)
    {
      hide Rebalances;
      RebalancesNone();
      killed := [];
      ok := Change(true, toAdd);
      cmds := Adds(toAdd);
      if ok && toAdd != {} {
        assert old(table) + toAdd - toAdd == old(table) - toAdd;
        var done, again;
        done, again, killed := Rebalance(toAdd);
        cmds := Appending(toAdd, if again then [Show] else [Show, Add({})], killed);
      }
    }
  }

  function Removal(slots: seq<Slot>, toDel: set<string>, ok: bool): seq<Cmd> {
    Deletes(toDel) + if ok then Kills(slots, toDel) else []
  }

  lemma RemovalGentle(cmds: seq<Cmd>, slots: seq<Slot>, toDel: set<string>, removed: set<string>, ok: bool)
    requires Gentle(cmds, slots, removed) && toDel <= removed
    ensures Gentle(cmds + Removal(slots, toDel, ok), slots, removed)
  {
    hide Gentle, Kills;
    HarmlessMore(cmds, Deletes(toDel), slots, removed);
    if !ok {
      assert cmds + Removal(slots, toDel, ok) == cmds + Deletes(toDel);
    } else {
      assert cmds + Removal(slots, toDel, ok) == cmds + Deletes(toDel) + Kills(slots, toDel);
      KillsGentle(cmds + Deletes(toDel), slots, toDel, removed);
    }
  }

  function Deletes(addrs: set<string>): seq<Cmd> {
    if addrs == {} then [] else [Del(addrs)]
  }

  function Adds(addrs: set<string>): seq<Cmd> {
    if addrs == {} then [] else [Add(addrs)]
  }

  /** Read the table, remove what is not wanted, kill, add what is missing, and read again. */
  function Plan(slots: seq<Slot>, table: set<string>, want: set<string>): seq<Cmd> {
    [Show] + Deletes(table - want) + Kills(slots, table - want) + Adds(want - table)
    + if want <= table then [] else [Show]
  }

  lemma PlanIs(slots: seq<Slot>, cur: set<string>, want: set<string>, killed: seq<Cmd>)
    ensures [Show] + Removal(slots, cur - want, true) + Appending(want - cur, [Show], killed)
        == Plan(slots, cur, want) + killed
    ensures (want - cur == {}) == (want <= cur)
    ensures cur - (cur - want) - (want - cur) == cur * want
  {
    hide Kills, Deletes, Adds;
    if want <= cur {
      assert want - cur == {};
    } else {
      var x :| x in want && x !in cur;
      assert x in want - cur;
    }
  }

  function Appending(toAdd: set<string>, again: seq<Cmd>, killed: seq<Cmd>): seq<Cmd> {
    Adds(toAdd) + (if toAdd == {} then [] else again) + killed
  }

  lemma RebalancesNone()
    ensures Rebalances([], {})
  {
  }

  lemma Harmless(cmds: seq<Cmd>, slots: seq<Slot>, toDel: set<string>)
    requires forall c | c in cmds :: !c.KillSrc? && !c.KillRdr?
    ensures Gentle(cmds, slots, toDel)
  {
  }

  lemma HarmlessMore(cmds: seq<Cmd>, more: seq<Cmd>, slots: seq<Slot>, toDel: set<string>)
    requires Gentle(cmds, slots, toDel)
    requires forall c | c in more :: !c.KillRdr? && (c.KillSrc? ==> !c.withStates)
    ensures Gentle(cmds + more, slots, toDel)
  {
  }

  lemma KillsGentle(cmds: seq<Cmd>, slots: seq<Slot>, toDel: set<string>, removed: set<string>)
    requires Gentle(cmds, slots, removed) && toDel <= removed
    ensures Gentle(cmds + Kills(slots, toDel), slots, removed)
  {
    forall c, a | c in cmds + Kills(slots, toDel) && KillsStates(c, a)
      ensures a in removed && exists s | s in slots :: Dropped(s, a)
    {
      if c !in cmds {
        KillsExactly(slots, toDel, a);
      }
    }
  }

  lemma WantsNext(slots: seq<Slot>, i: nat)
    requires i < |slots|
    ensures Wants(slots[..i + 1]) == Wants(slots[..i]) + SlotWants(slots[i])
  {
    var now := slots[..i + 1];
    forall a | a in Wants(now)
      ensures a in Wants(slots[..i]) + SlotWants(slots[i])
    {
      var k :| 0 <= k <= i && a in SlotWants(now[k]);
      assert k < i ==> slots[..i][k] == now[k];
    }
    forall a | a in Wants(slots[..i]) + SlotWants(slots[i])
      ensures a in Wants(now)
    {
      if a in SlotWants(slots[i]) {
        assert now[i] == slots[i];
      } else {
        var k :| 0 <= k < i && a in SlotWants(slots[..i][k]);
        assert now[k] == slots[..i][k];
      }
    }
  }

  /** A table with something to remove that cannot be shown once, while every other command succeeds:
      success is reported and the table is wrong. */
  method WrongOnSuccess(table: set<string>, slots: seq<Slot>) returns (ok: bool, after: set<string>)
    requires !(table <= Wants(slots))
    ensures ok && after == table + Wants(slots) && after != Wants(slots)
  {
    hide Wants;
    var pf := new Pf(table, [false]);
    ghost var cmds, killed;
    var shown;
    ok, shown, cmds, killed := pf.SyncTable(slots);
    after := pf.table;
  }

  /** The entry asks for address `a`, of either family, to be in the table. */
  predicate Asks(s: Slot, a: string) {
    s.wanted == NodeUp && s.admin == Enabled && a != "" && (a == s.ip4 || a == s.ip6)
  }

  lemma WantsMeaning(slots: seq<Slot>)
    ensures forall a :: a in Wants(slots) <==> exists s | s in slots :: Asks(s, a)
  {
    forall a
      ensures a in Wants(slots) <==> exists s | s in slots :: Asks(s, a)
    {
      if a in Wants(slots) {
        var k :| 0 <= k < |slots| && a in SlotWants(slots[k]);
        assert slots[k] in slots && Asks(slots[k], a);
      }
      if s :| s in slots && Asks(s, a) {
        var k :| 0 <= k < |slots| && slots[k] == s;
        assert a in SlotWants(slots[k]);
      }
    }
  }

  /** Which commands the plan removes and adds with: what is not wanted and what is missing, if anything. */
  lemma PlanParts(slots: seq<Slot>, table: set<string>, want: set<string>)
    ensures var plan := Plan(slots, table, want);
      && (forall c | c in plan && c.Del? :: c.addrs == table - want && c.addrs != {})
      && (forall c | c in plan && c.Add? :: c.addrs == want - table && c.addrs != {})
      && (!(table <= want) ==> Del(table - want) in plan) && (!(want <= table) ==> Add(want - table) in plan)
  {
    hide Kills;
    KillsExactly(slots, table - want, "");
    if !(table <= want) {
      var x :| x in table && x !in want;
      assert x in table - want;
    }
    if !(want <= table) {
      var x :| x in want && x !in table;
      assert x in want - table;
    }
  }

  /** The order of the commands when none fails: first the table is read; what is not wanted is removed
      before anything is killed, only then is anything added, and the table is read again last. */
  lemma PlanOrder(slots: seq<Slot>, table: set<string>, want: set<string>)
    ensures var plan := Plan(slots, table, want);
      && plan[0] == Show
      && (forall i, j | 0 < i < |plan| && 0 < j < |plan| && Turn(plan[i]) < Turn(plan[j]) :: i < j)
  {
    hide Kills;
    var dels, kills, adds := Deletes(table - want), Kills(slots, table - want), Adds(want - table);
    var end := if want <= table then [] else [Show];
    KillsExactly(slots, table - want, "");
    assert forall c | c in kills :: Turn(c) == 2;
    assert forall i | 0 <= i < |kills| :: kills[i] in kills;
    InTurn(dels, kills, adds, end);
    assert Plan(slots, table, want) == [Show] + dels + kills + adds + end;
  }

  /** Parts whose commands have ever later turns stay in turn when put together. */
  lemma InTurn(dels: seq<Cmd>, kills: seq<Cmd>, adds: seq<Cmd>, end: seq<Cmd>)
    requires forall i | 0 <= i < |dels| :: Turn(dels[i]) == 1
    requires forall i | 0 <= i < |kills| :: Turn(kills[i]) == 2
    requires forall i | 0 <= i < |adds| :: Turn(adds[i]) == 3
    requires forall i | 0 <= i < |end| :: Turn(end[i]) == 4
    ensures var all := [Show] + dels + kills + adds + end;
      forall i, j | 0 < i < |all| && 0 < j < |all| && Turn(all[i]) < Turn(all[j]) :: i < j
  {
  }

  /** When a command has its turn, after the table has first been read. */
  function Turn(c: Cmd): nat {
    match c
    case Del(_) => 1
    case KillSrc(_, _) => 2
    case KillRdr(_) => 2
    case Add(_) => 3
    case Show => 4
  }

  /** The body of the worker loop: take the oldest message and bring its table in line.  What becomes
      of the queue and the table is one delivery, and a good one if no command fails. */
  method WorkerReceive(pf: Pf, net: Net) returns (rest: Net, o: Outcome)
    requires net.queue != [] && pf.table == TableOf(net, net.queue[0].table)
    modifies pf
    ensures rest == Deliver(net, o) && pf.table == TableOf(rest, net.queue[0].table)
    ensures Fine(old(pf.answers)) ==> o.Synced?
    ensures
      var want, had := Wants(net.queue[0].slots), TableOf(net, net.queue[0].table);
      had * want <= pf.table <= had + want
  {
    hide Wants;
    var m := net.queue[0];
    ghost var cmds, killed;
    var ok, shown;
    ok, shown, cmds, killed := pf.SyncTable(m.slots);
    o := if ok && shown then Synced else Broken(pf.table);
    rest := Deliver(net, o);
  }
}
