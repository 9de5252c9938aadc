/** The bridge's request handling and command pump as the methods the program has, each
    proved to take the decisions that the step system takes one lock-protected step at a
    time. Nothing else moves while one of these methods runs; the step system is where
    they are interleaved. */
module Service {
  import opened Basics
  import opened Lease
  import opened Bridge
  import opened Queues
  import opened BridgeOutcomes

  /** What the queue and the answer are after a request: it is answered, or queued. */
  function AfterDecision(d: Decision, told: LeaseReply, q: QueueState<Command>, attached: bool): (QueueState<Command>,
          Option<Code>) {
    match d
    case Refuse(code) => (q, Some(code))
    case ServeLease(_) => (q, Some(LeaseServed(told)))
    case Admit(cmd) =>
      if !attached then (q, Some(BridgeNotReady))
      else var (q', ok) := Push(q, cmd); (q', if ok then None else Some(BridgeNotReady))
  }

  /** A request is queued exactly if it is admitted, a pump is attached and the queue is open
      and not full; otherwise the queue stays and the request is answered at once. */
  lemma QueuedOrAnswered(d: Decision, told: LeaseReply, q: QueueState<Command>, attached: bool)
    ensures var (q', code) := AfterDecision(d, told, q, attached);
      && (code.None? <==> d.Admit? && attached && !q.closed && |q.items| < q.capacity)
      && q'.items == (if code.None? then q.items + [d.command] else q.items)
      && (code.Some? ==>
            code.value == if d.Refuse? then d.code else if d.ServeLease? then LeaseServed(told) else BridgeNotReady)
  {}

  /** The reply a popped command gets: late, or its lease lost, or carried out. */
  function OutcomeOf(cmd: Command, holder: Holder, now: int, later: int): Outcome {
    if now > cmd.deadlineAt then Timeout
    else if !StillValid(holder, later, cmd) then LeaseLost
    else Executed
  }

  /** The replies of one frame, `drained` of them given already. `clock` is what the pump
      reads: its start, then for each command the budget check, the deadline check and the
      lease check. */
  function FrameReplies(commands: seq<Command>, holder: Holder, clock: seq<int>, drained: nat): seq<Reply>
    requires |clock| > 3 * LIMIT_PUMP_COMMANDS_PER_FRAME && drained <= LIMIT_PUMP_COMMANDS_PER_FRAME
    decreases LIMIT_PUMP_COMMANDS_PER_FRAME - drained
  {
    if drained == LIMIT_PUMP_COMMANDS_PER_FRAME || clock[3 * drained + 1] - clock[0] > LIMIT_PUMP_FRAME_BUDGET_MS
      || commands == [] then []
    else
      [ReplyTo(commands[0], holder, clock[3 * drained + 2], clock[3 * drained + 3])]
        + FrameReplies(commands[1..], holder, clock, drained + 1)
  }

  function ReplyTo(cmd: Command, holder: Holder, now: int, later: int): Reply {
    Reply(cmd.request, OutcomeOf(cmd, holder, now, later))
  }

  lemma RepliesStep(commands: seq<Command>, holder: Holder, clock: seq<int>, drained: nat)
    requires |clock| > 3 * LIMIT_PUMP_COMMANDS_PER_FRAME && drained < LIMIT_PUMP_COMMANDS_PER_FRAME
    requires clock[3 * drained + 1] - clock[0] <= LIMIT_PUMP_FRAME_BUDGET_MS && commands != []
    ensures FrameReplies(commands, holder, clock, drained)
      == [ReplyTo(commands[0], holder, clock[3 * drained + 2], clock[3 * drained + 3])]
        + FrameReplies(commands[1..], holder, clock, drained + 1)
  {
    hide ReplyTo;
  }

  lemma Reassociate<T>(a: seq<T>, b: seq<T>, c: seq<T>)
    ensures a + (b + c) == a + b + c
  {}

  lemma NoMoreReplies(commands: seq<Command>, holder: Holder, clock: seq<int>, drained: nat)
    requires |clock| > 3 * LIMIT_PUMP_COMMANDS_PER_FRAME && drained <= LIMIT_PUMP_COMMANDS_PER_FRAME
    requires drained == LIMIT_PUMP_COMMANDS_PER_FRAME || clock[3 * drained + 1] - clock[0] > LIMIT_PUMP_FRAME_BUDGET_MS
      || commands == []
    ensures FrameReplies(commands, holder, clock, drained) == []
  {}

  class BridgeServer {
    const leases: LeaseManager
    const commands: BoundedQueue<Command>
    const leaseTtlMs: int
    var pumpAttached: bool
    var sent: seq<Reply>

    ghost predicate Valid()
      reads commands
    {
      commands.Valid()
    }

    constructor (leaseTtlMs: int)
      ensures Valid() && fresh(leases) && fresh(commands) && sent == [] && !pumpAttached
    {
      this.leaseTtlMs := leaseTtlMs;
      leases := new LeaseManager();
      commands := new BoundedQueue<Command>(QUEUE_CAPACITY);
      pumpAttached, sent := false, [];
    }

    /** Handles one request with a well-formed id: an answer at once, or none and the
        command is in the queue. */
    method HandleRequest(c: Connection, number: nat, r: Request, receivedAt: int, now: int, checkedAt: nat,
            drawn: LeaseId)
      returns (answer: Option<Code>)
      requires Valid()
      modifies leases, commands
      ensures Valid()
      ensures var d := Decide(old(leases.holder), c, number, r, receivedAt, now, checkedAt);
        var told := if d.ServeLease? then Told(old(leases.holder), c, d.lease, now, leaseTtlMs, drawn) else Cleared;
        && (commands.View(), answer) == AfterDecision(d, told, old(commands.View()), pumpAttached)
        && leases.holder == if d.ServeLease? then Served(old(leases.holder), c, d.lease, now, leaseTtlMs, drawn)
           else old(leases.holder)
    {
      if r.call.Unknown? {
        return Some(UnsupportedOperation);
      }
      if r.deadlineMs.None? || r.deadlineMs.value < 1 || r.deadlineMs.value > MAX_DEADLINE_MS {
        return Some(BadRequest);
      }
      var deadlineAt := receivedAt + r.deadlineMs.value;
      var leaseId := None;
      if r.call.Mutating? {
        if r.operationIdLength != OPERATION_ID_LENGTH {
          return Some(BadRequest);
        }
        var h := leases.HolderAt(now);
        if h.NoHolder? || h.connection != c {
          return Some(WriterLeaseRequired);
        }
        leaseId := Some(h.leaseId);
      }
      if !r.shapeOk {
        return Some(BadRequest);
      }
      if r.call.LeaseMethod? {
        var told := HandleLeaseRequest(c, r.call.lease, now, drawn);
        return Some(LeaseServed(told));
      }
      var ok := EnqueueCommand(Command(number, c, r.call.Mutating?, leaseId, deadlineAt, checkedAt));
      return if ok then None else Some(BridgeNotReady);
    }

    /** Hands the request to the lease manager, and says what came of it. */
    method HandleLeaseRequest(c: Connection, lease: LeaseRequest, now: int, drawn: LeaseId) returns (told: LeaseReply)
      modifies leases
      ensures leases.holder == Served(old(leases.holder), c, lease, now, leaseTtlMs, drawn)
      ensures told == Told(old(leases.holder), c, lease, now, leaseTtlMs, drawn)
    {
      match lease
      case Acquire(name) =>
        var granted := leases.Acquire(c, name, now, leaseTtlMs, drawn);
        if granted.Some? {
          return Granted(granted.value);
        }
        var h := leases.HolderAt(now);
        return HeldBy(if h.Holder? then h.clientName else "");
      case Renew(id) =>
        var ok := leases.Renew(c, id, now, leaseTtlMs);
        return if ok then Extended else NotYours;
      case Release(id) =>
        var _ := leases.Release(c, id);
        return Cleared;
    }

    method EnqueueCommand(cmd: Command) returns (ok: bool)
      requires Valid()
      modifies commands
      ensures Valid()
      ensures (commands.View(), ok) == if pumpAttached then Push(old(commands.View()), cmd)
        else (old(commands.View()), false)
    {
      if !pumpAttached {
        return false;
      }
      ok := commands.TryPush(cmd);
    }

    method CommandLeaseStillValid(cmd: Command, now: int) returns (valid: bool)
      ensures valid <==> StillValid(leases.holder, now, cmd)
    {
      if !cmd.mutating {
        return true;
      }
      var h := leases.HolderAt(now);
      return h.Holder? && h.connection == cmd.connection && cmd.leaseId == Some(h.leaseId);
    }

    /** One frame of the pump: drains within its count and time budget, one reply each. */
    method Step(clock: seq<int>)
      requires Valid() && |clock| > 3 * LIMIT_PUMP_COMMANDS_PER_FRAME
      modifies this`sent, commands
      ensures Valid()
      ensures var replies := FrameReplies(old(commands.items), leases.holder, clock, 0);
        && sent == old(sent) + replies && |replies| <= |old(commands.items)|
        && commands.View() == old(commands.View()).(items := old(commands.items)[|replies|..])
    {
      hide OutcomeOf, FrameReplies, ReplyTo;
      var drained := 0;
      ghost var all, done: seq<Reply> := FrameReplies(commands.items, leases.holder, clock, 0), [];
      while drained < LIMIT_PUMP_COMMANDS_PER_FRAME && clock[3 * drained + 1] - clock[0] <= LIMIT_PUMP_FRAME_BUDGET_MS
        invariant Valid() && 0 <= drained <= LIMIT_PUMP_COMMANDS_PER_FRAME && drained <= |old(commands.items)|
        invariant commands.View() == old(commands.View()).(items := old(commands.items)[drained..])
        invariant |done| == drained && sent == old(sent) + done
        invariant done + FrameReplies(commands.items, leases.holder, clock, drained) == all
        decreases LIMIT_PUMP_COMMANDS_PER_FRAME - drained
      {
        ghost var items := commands.items;
        var ok := DrainOne(clock[3 * drained + 2], clock[3 * drained + 3]);
        if !ok {
          break;
        }
        RepliesStep(items, leases.holder, clock, drained);
        ghost var reply := ReplyTo(items[0], leases.holder, clock[3 * drained + 2], clock[3 * drained + 3]);
        Reassociate(done, [reply], FrameReplies(commands.items, leases.holder, clock, drained + 1));
        Reassociate(old(sent), done, [reply]);
        done := done + [reply];
        drained := drained + 1;
      }
      NoMoreReplies(commands.items, leases.holder, clock, drained);
    }

    /** Pops one command and replies to it. */
    method DrainOne(now: int, later: int) returns (ok: bool)
      requires Valid()
      modifies this`sent, commands
      ensures Valid() && ok == (old(commands.items) != [])
      ensures commands.View() == old(commands.View()).(items := if ok then old(commands.items)[1..] else [])
      ensures sent == if ok then old(sent) + [ReplyTo(old(commands.items)[0], leases.holder, now, later)] else old(sent)
    {
      var popped;
      ok, popped := commands.TryPop();
      if ok {
        var outcome := Carry(popped[0], now, later);
        sent := sent + [Reply(popped[0].request, outcome)];
      }
    }

    /** Checks a popped command's deadline, then its lease, then carries it out. */
    method Carry(cmd: Command, now: int, later: int) returns (outcome: Outcome)
      ensures outcome == OutcomeOf(cmd, leases.holder, now, later)
    {
      if now > cmd.deadlineAt {
        return Timeout;
      }
      var valid := CommandLeaseStillValid(cmd, later);
      return if valid then Executed else LeaseLost;
    }
  }

  /** A frame answers a prefix of the queue, in order, and never more than four commands. */
  lemma {:induction false} FrameIsPrefix(commands: seq<Command>, holder: Holder, clock: seq<int>, drained: nat)
    requires |clock| > 3 * LIMIT_PUMP_COMMANDS_PER_FRAME && drained <= LIMIT_PUMP_COMMANDS_PER_FRAME
    ensures var replies := FrameReplies(commands, holder, clock, drained);
      && |replies| <= |commands| && |replies| + drained <= LIMIT_PUMP_COMMANDS_PER_FRAME
      && forall i :: 0 <= i < |replies| ==> replies[i].request == commands[i].request
    decreases LIMIT_PUMP_COMMANDS_PER_FRAME - drained
  {
    if drained < LIMIT_PUMP_COMMANDS_PER_FRAME && commands != [] {
      FrameIsPrefix(commands[1..], holder, clock, drained + 1);
    }
  }

  /** The reply that command `i` of a frame deserves, by what the pump reads for it. */
  predicate FrameDeserves(cmd: Command, holder: Holder, clock: seq<int>, i: nat, outcome: Outcome)
    requires i < LIMIT_PUMP_COMMANDS_PER_FRAME && |clock| > 3 * LIMIT_PUMP_COMMANDS_PER_FRAME
  {
    var late, lost := clock[3 * i + 2] > cmd.deadlineAt, cmd.mutating && !LeaseHeld(holder, cmd, clock[3 * i + 3]);
    && clock[3 * i + 1] - clock[0] <= 4
    && (outcome.Timeout? <==> late) && (outcome.LeaseLost? <==> !late && lost)
    && (outcome.Executed? <==> !late && !lost)
  }

  lemma FirstDeserved(cmd: Command, holder: Holder, clock: seq<int>, i: nat)
    requires i < LIMIT_PUMP_COMMANDS_PER_FRAME && |clock| > 3 * LIMIT_PUMP_COMMANDS_PER_FRAME
    requires clock[3 * i + 1] - clock[0] <= LIMIT_PUMP_FRAME_BUDGET_MS
    ensures FrameDeserves(cmd, holder, clock, i, ReplyTo(cmd, holder, clock[3 * i + 2], clock[3 * i + 3]).outcome)
  {}

  /** Each command of a frame gets the reply it deserves, and the frame goes on until four are
      answered, none is left or its time is up. */
  lemma {:induction false} FrameIsExact(commands: seq<Command>, holder: Holder, clock: seq<int>, drained: nat)
    requires |clock| > 3 * LIMIT_PUMP_COMMANDS_PER_FRAME && drained <= LIMIT_PUMP_COMMANDS_PER_FRAME
    ensures var replies := FrameReplies(commands, holder, clock, drained);
      && |replies| <= |commands| && |replies| + drained <= LIMIT_PUMP_COMMANDS_PER_FRAME
      && (forall i :: 0 <= i < |replies| ==>
            FrameDeserves(commands[i], holder, clock, drained + i, replies[i].outcome))
      && (|replies| == |commands| || |replies| + drained == 4 || clock[3 * (|replies| + drained) + 1] - clock[0] > 4)
    decreases LIMIT_PUMP_COMMANDS_PER_FRAME - drained
  {
    hide FrameDeserves, ReplyTo;
    var replies := FrameReplies(commands, holder, clock, drained);
    if replies != [] {
      FirstDeserved(commands[0], holder, clock, drained);
      var rest := FrameReplies(commands[1..], holder, clock, drained + 1);
      FrameIsExact(commands[1..], holder, clock, drained + 1);
      assert replies[1..] == rest;
      forall i | 0 < i < |replies|
        ensures FrameDeserves(commands[i], holder, clock, drained + i, replies[i].outcome)
      {
        assert replies[i] == rest[i - 1] && commands[i] == commands[1..][i - 1];
      }
    }
  }
}
