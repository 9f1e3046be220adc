/** The chain of callbacks that makes up a PostgreSQL check. */
module Postgres {
  import opened Domain

  datatype Flag = Read | Write

  lemma SomeFlag(flags: set<Flag>)
    requires flags != {}
    ensures Read in flags || Write in flags
  {
    var f :| f in flags;
    assert f.Read? || f.Write?;
  }

  datatype Stage = PollConn | SendQuery | FlushQuery | HandleQuery

  datatype Poll = Reading | Writing | Failed | Ready

  /** Everything libpq and libevent may answer during one callback. */
  datatype Answers = Answers(
    connNull: bool, connBad: bool, blocking: bool,
    poll: Poll, sent: bool, inputOk: bool, flushed: bool,
    tuplesOk: bool, rows: nat, columns: nat, cell: string,
    eventCreated: bool, eventAdded: bool,
    preferRead: bool)

  /** The answer that makes a check pass: one row, one column, "t". */
  predicate SaysTrue(a: Answers) {
    a.inputOk && a.tuplesOk && a.rows == 1 && a.columns == 1 && a.cell == "t"
  }

  /** What may wake up a waiting check. */
  datatype Fired = Io(a: Answers) | Timeout

  // ----- what a callback should lead to -----------------------------------------------------------

  /** Wait for one of `flags` and go on with `stage`, or finish. */
  datatype Reaction = Wait(stage: Stage, flags: set<Flag>) | Finish(pass: bool)

  /** The protocol of libpq: poll until connected, send, flush, and read the answer. */
  function React(stage: Stage, flag: Flag, a: Answers): Reaction
    decreases match stage case PollConn => 3 case SendQuery => 2 case FlushQuery => 1 case HandleQuery => 0
  {
    match stage
    case PollConn =>
      (match a.poll
       case Reading => Wait(PollConn, {Read})
       case Writing => Wait(PollConn, {Write})
       case Failed => Finish(false)
       case Ready => React(SendQuery, flag, a))
    case SendQuery => if a.sent then React(FlushQuery, flag, a) else Wait(SendQuery, {Write})
    case FlushQuery =>
      if flag.Read? && !a.inputOk then Finish(false)
      else if a.flushed then Wait(HandleQuery, {Read})
      else Wait(FlushQuery, {Read, Write})
    case HandleQuery => Finish(SaysTrue(a))
  }

  /** From `stage`, with these answers, the callback gets to sending the query. */
  predicate GetsToSend(stage: Stage, a: Answers) {
    stage == SendQuery || (stage == PollConn && a.poll == Ready)
  }

  /** It gets to flushing the query. */
  predicate GetsToFlush(stage: Stage, a: Answers) {
    stage == FlushQuery || (GetsToSend(stage, a) && a.sent)
  }

  /** Every reaction and exactly when it comes.  A check passes only by reading "t" as the one cell of the
      answer to its query; it fails when polling fails, when input cannot be read where it is due,
      or when the answer is another; and it waits for just what libpq asks for: the direction that
      polling names, room to send, either direction to flush, and input for the answer. */
  lemma ReactFacts(stage: Stage, flag: Flag, a: Answers)
    ensures React(stage, flag, a) == Finish(true) <==>
      && stage == HandleQuery
      && a.inputOk && a.tuplesOk && a.rows == 1 && a.columns == 1 && a.cell == "t"
    ensures React(stage, flag, a) == Finish(false) <==>
      || (stage == PollConn && a.poll == Failed)
      || (GetsToFlush(stage, a) && flag == Read && !a.inputOk)
      || (stage == HandleQuery
          && !(a.inputOk && a.tuplesOk && a.rows == 1 && a.columns == 1 && a.cell == "t"))
    ensures React(stage, flag, a) == Wait(PollConn, {Read}) <==> stage == PollConn && a.poll == Reading
    ensures React(stage, flag, a) == Wait(PollConn, {Write}) <==> stage == PollConn && a.poll == Writing
    ensures React(stage, flag, a) == Wait(SendQuery, {Write}) <==> GetsToSend(stage, a) && !a.sent
    ensures React(stage, flag, a) == Wait(FlushQuery, {Read, Write}) <==>
      GetsToFlush(stage, a) && !(flag == Read && !a.inputOk) && !a.flushed
    ensures React(stage, flag, a) == Wait(HandleQuery, {Read}) <==>
      GetsToFlush(stage, a) && !(flag == Read && !a.inputOk) && a.flushed
    ensures React(stage, flag, a).Wait? ==> React(stage, flag, a).flags != {}
  {
    assert {Read} != {Write} by {
      assert Read in {Read} && Read !in {Write};
    }
    assert Read in {Read} && Write in {Write};
  }

  class PostgresCheck {
    var isRunning: bool
    var conn: bool
    var result: bool
    var ioEvent: set<Flag>
    var timeoutEvent: bool
    var eventFlag: Option<Flag>
    var eventCounter: nat
    var callback: Stage
    /** The process has given up: nothing happens any more. */
    var panicked: bool
    /** How often the check was started, how often it ended, the callbacks since the last start, and
        the last outcome. */
    ghost var starts: nat
    ghost var ends: nat
    ghost var callbacks: nat
    ghost var passed: bool

    constructor ()
      ensures Valid() && !isRunning && !panicked && starts == 0 && ends == 0
    {
      isRunning, conn, result, ioEvent, timeoutEvent := false, false, false, {}, false;
      eventFlag, eventCounter, callback, panicked := None, 0, PollConn, false;
      starts, ends, callbacks, passed := 0, 0, 0, false;
    }

    ghost predicate Released()
      reads this
    {
      !conn && !result && ioEvent == {} && !timeoutEvent
    }

    /** Between callbacks: a running check holds its connection, one I/O event and the timeout; a
        check that is not running holds nothing, and every start but a current one has ended once. */
    ghost predicate Valid()
      reads this
    {
      && callbacks <= 101
      && (!panicked ==> ends + (if isRunning then 1 else 0) == starts)
      && (!panicked && !isRunning ==> Released())
      && (!panicked && isRunning ==>
            && conn && !result && ioEvent != {} && timeoutEvent
            && callbacks + 1 == eventCounter <= 101
            && (callback.HandleQuery? ==> ioEvent == {Read}))
    }

    /** Inside a callback: the event that led here is gone. */
    ghost predicate Inside()
      reads this
    {
      && !panicked && isRunning && conn && ioEvent == {} && timeoutEvent
      && callbacks == eventCounter <= 101 && ends + 1 == starts
    }

    /** The reaction `r` is what the check now does, unless the process has given up while waiting. */
    ghost predicate Reacted(r: Reaction)
      reads this
    {
      match r
      case Wait(stage, flags) => panicked || (isRunning && callback == stage && ioEvent == flags)
      case Finish(pass) => !panicked && !isRunning && passed == pass
    }

    /** end_check: everything is released first; a panic then exits. */
    method EndCheck(pass: bool, panic: bool)
      requires !panicked && isRunning && ends + 1 == starts && callbacks <= 101
      modifies this
      ensures Valid() && Released() && panicked == panic
      ensures starts == old(starts) && callbacks == old(callbacks)
      ensures panic ==> ends == old(ends)
      ensures !panic ==> !isRunning && ends == old(ends) + 1 && passed == pass
    {
      result := false;
      ioEvent := {};
      timeoutEvent := false;
      conn := false;
      if panic {
        panicked := true;
        return;
      }
      isRunning := false;
      ends := ends + 1;
      passed := pass;
    }

    method RegisterIoEvent(flags: set<Flag>, stage: Stage, a: Answers)
      requires Inside() && !result && flags != {} && (stage.HandleQuery? ==> flags == {Read})
      modifies this
      ensures Valid() && starts == old(starts) && callbacks == old(callbacks)
      ensures panicked || (isRunning && callback == stage && ioEvent == flags)
      ensures ends == old(ends)
    {
      eventCounter := eventCounter + 1;
      if eventCounter - 1 > 100 {
        EndCheck(false, true);
        return;
      }
      callback := stage;
      if !a.eventCreated {
        EndCheck(false, true);
        return;
      }
      ioEvent := flags;
      if !a.eventAdded {
        EndCheck(false, true);
      }
    }

    method StartConn(a: Answers)
      requires !panicked && isRunning && ioEvent == {} && timeoutEvent && !result
      requires callbacks == eventCounter == 0 && ends + 1 == starts
      modifies this
      ensures Valid() && starts == old(starts) && callbacks == 0
      ensures !panicked && !isRunning ==> !passed
    {
      conn := !a.connNull;
      if !conn {
        EndCheck(false, true);
      } else if a.connBad {
        EndCheck(false, false);
      } else if a.blocking {
        EndCheck(false, true);
      } else {
        RegisterIoEvent({Write}, PollConn, a);
      }
    }

    /** schedule_healthcheck, once the check may start. */
    method Schedule(timeoutCreated: bool, timeoutAdded: bool, a: Answers)
      requires Valid() && !panicked && !isRunning
      modifies this
      ensures Valid() && starts == old(starts) + 1 && callbacks == 0
      ensures !panicked && !isRunning ==> !passed
    {
      isRunning := true;
      starts, callbacks := starts + 1, 0;
      eventCounter, eventFlag, ioEvent, timeoutEvent := 0, None, {}, false;
      if !timeoutCreated || !timeoutAdded {
        EndCheck(false, true);
        return;
      }
      timeoutEvent := true;
      StartConn(a);
    }

    method Flush(a: Answers)
      requires Inside() && !result && eventFlag.Some?
      modifies this
      ensures Valid() && starts == old(starts) && callbacks == old(callbacks)
      ensures Reacted(React(FlushQuery, old(eventFlag).value, a))
    {
      if eventFlag == Some(Read) && !a.inputOk {
        EndCheck(false, false);
      } else if !a.flushed {
        RegisterIoEvent({Read, Write}, FlushQuery, a);
      } else {
        RegisterIoEvent({Read}, HandleQuery, a);
      }
    }

    method Send(a: Answers)
      requires Inside() && !result && eventFlag.Some?
      modifies this
      ensures Valid() && starts == old(starts) && callbacks == old(callbacks)
      ensures Reacted(React(SendQuery, old(eventFlag).value, a))
    {
      if !a.sent {
        RegisterIoEvent({Write}, SendQuery, a);
      } else {
        Flush(a);
      }
    }

    method PollConnection(a: Answers)
      requires Inside() && !result && eventFlag.Some?
      modifies this
      ensures Valid() && starts == old(starts) && callbacks == old(callbacks)
      ensures Reacted(React(PollConn, old(eventFlag).value, a))
    {
      match a.poll {
        case Reading => RegisterIoEvent({Read}, PollConn, a);
        case Writing => RegisterIoEvent({Write}, PollConn, a);
        case Failed => EndCheck(false, false);
        case Ready => Send(a);
      }
    }

    /** handle_query is entered on a read event only, and always ends the check. */
    method HandleResult(a: Answers)
      requires Inside() && !result && eventFlag == Some(Read)
      modifies this
      ensures Valid() && starts == old(starts) && callbacks == old(callbacks)
      ensures Reacted(React(HandleQuery, Read, a))
    {
      if !a.inputOk {
        EndCheck(false, false);
        return;
      }
      result := true;
      if !a.tuplesOk || a.rows != 1 || a.columns != 1 {
        EndCheck(false, false);
      } else if |a.cell| != 1 || a.cell[0] != 't' {
        EndCheck(false, false);
      } else {
        assert a.cell == "t";
        EndCheck(true, false);
      }
    }

    /** handle_io_event: one of the flags that were registered has fired. */
    method HandleIoEvent(flag: Flag, a: Answers)
      requires Valid() && !panicked && isRunning && flag in ioEvent
      modifies this
      ensures Valid() && starts == old(starts) && callbacks == old(callbacks) + 1
      ensures Reacted(React(old(callback), flag, a))
    {
      ioEvent := {};
      eventFlag := Some(flag);
      callbacks := callbacks + 1;
      match callback {
        case PollConn => PollConnection(a);
        case SendQuery => Send(a);
        case FlushQuery => Flush(a);
        case HandleQuery => HandleResult(a);
      }
    }

    /** handle_timeout_event. */
    method HandleTimeoutEvent()
      requires Valid() && !panicked && isRunning
      modifies this
      ensures Valid() && !panicked && !isRunning && !passed
      ensures starts == old(starts) && ends == old(ends) + 1 && callbacks == old(callbacks)
    {
      eventFlag := None;
      EndCheck(false, false);
    }

    /** For every sequence of I/O events and timeouts, with every answer of libpq and libevent: a started
        check ends exactly once, with everything released, or is still waiting, or the process
        panics; it never sees more than 101 I/O callbacks, so 101 events settle it. */
    method Drive(fired: seq<Fired>)
      requires Valid() && !panicked && isRunning && callbacks == 0
      modifies this
      ensures Valid() && starts == old(starts) && callbacks <= 101
      ensures |fired| >= 101 ==> panicked || !isRunning
      ensures !panicked ==> ends == old(ends) + (if isRunning then 0 else 1)
      ensures !panicked && !isRunning ==> Released()
      ensures !panicked && !isRunning && passed ==> exists k | 0 <= k < |fired| ::
        && fired[k].Io? && fired[k].a.inputOk && fired[k].a.tuplesOk
        && fired[k].a.rows == 1 && fired[k].a.columns == 1 && fired[k].a.cell == "t"
    {
      var k := 0;
      while k < |fired| && !panicked && isRunning
        invariant 0 <= k <= |fired| && Valid() && starts == old(starts)
        invariant !panicked && isRunning ==> callbacks == k
        invariant !panicked && !isRunning && passed ==> exists j | 0 <= j < k :: fired[j].Io? && SaysTrue(fired[j].a)
      {
        match fired[k] {
          case Timeout => HandleTimeoutEvent();
          case Io(a) =>
            var flag := if Read in ioEvent && (a.preferRead || Write !in ioEvent) then Read else Write;
            SomeFlag(ioEvent);
            ReactFacts(callback, flag, a);
            HandleIoEvent(flag, a);
        }
        k := k + 1;
      }
    }
  }
}
