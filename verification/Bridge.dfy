/** The bridge at work: session threads receive requests, check the lease and queue
    commands; the UI thread drains the queue, checks the lease again, carries commands out
    and replies. Every lock-protected action is one step, reads the clock in that step, and
    may be interleaved with any other; the results are about every interleaving. */
module Bridge {
  import opened Basics
  import opened Lease

  const QUEUE_CAPACITY := 64
  const LIMIT_PUMP_COMMANDS_PER_FRAME := 4
  const LIMIT_PUMP_FRAME_BUDGET_MS := 4
  const MAX_DEADLINE_MS := 600000
  const OPERATION_ID_LENGTH := 36

  /** What the session reads from a request with a well-formed id. */
  datatype Request = Request(call: Method, deadlineMs: Option<int>, operationIdLength: nat, shapeOk: bool)

  datatype Method = Unknown | LeaseMethod(lease: LeaseRequest) | Reading | Mutating

  /** A queued command: which request it carries out, for whom, until when, and, if it
      mutates, the lease it was let in on and the step at which that was checked. */
  datatype Command = Command(request: nat, connection: Connection, mutating: bool, leaseId: Option<LeaseId>,
    deadlineAt: int, checkedAt: nat)

  datatype Session =
    | Ready
    | Handling(number: nat, request: Request, receivedAt: int)
    | Enqueuing(number: nat, command: Command)

  datatype Code =
    | UnsupportedOperation | BadRequest | WriterLeaseRequired | BridgeNotReady
    | LeaseServed(reply: LeaseReply)

  /** A reply given by the session thread itself. */
  datatype Answer = Answer(request: nat, code: Code)

  datatype Outcome = Timeout | LeaseLost | Executed

  /** A reply given by the UI thread. */
  datatype Reply = Reply(request: nat, outcome: Outcome)

  datatype Pump = Idle | Popped(command: Command) | Rechecking(command: Command) | Executing(command: Command)
    | Replying(command: Command, outcome: Outcome)

  /** The UI thread: the command in its hands, and the frame it is in. */
  datatype Ui = Ui(pump: Pump, drained: nat, frameStart: int)

  /** A record of every request: how many came, the answers given at once, the commands
      queued, how many of those were popped, and the replies to them. */
  datatype Books = Books(received: nat, answered: seq<Answer>, accepted: seq<Command>, popped: nat, replied: seq<Reply>)

  /** How far the plugin's stop has come. It runs on the UI thread, between two frames. */
  datatype Shutdown = Shutdown(stopping: bool, queueClosed: bool, dropped: seq<Command>)

  /** `steps` counts the steps so far, and `issuedAt` says after how many each lease id was drawn. */
  datatype State = State(
    steps: nat, now: int, ttl: int, holder: Holder, issuedAt: map<LeaseId, nat>,
    sessions: map<Connection, Session>, queue: seq<Command>, pumpAttached: bool,
    ui: Ui, books: Books, shutdown: Shutdown)

  datatype Action =
    | Tick(now: int)
    | Connect(c: Connection)
    | Receive(c: Connection, request: Request)
    | Check(c: Connection, drawn: LeaseId)
    | Enqueue(c: Connection)
    | Disconnect(c: Connection)
    | AttachPump(attached: bool)
    | BeginFrame
    | Pop
    | CheckDeadline
    | Recheck
    | Execute
    | SendReply
    | Stop
    | CloseQueue
    | Drop

  // ----- session threads -----

  function Settled(s: State, c: Connection, number: nat, code: Code): State {
    s.(sessions := s.sessions[c := Ready], books := s.books.(answered := s.books.answered + [Answer(number, code)]))
  }

  datatype Decision = Refuse(code: Code) | ServeLease(lease: LeaseRequest) | Admit(command: Command)

  /** The refusals a request meets before its lease and shape are looked at, in order. */
  function Refusal(r: Request): Option<Code> {
    if r.call.Unknown? then Some(UnsupportedOperation)
    else if r.deadlineMs.None? || r.deadlineMs.value < 1 || r.deadlineMs.value > MAX_DEADLINE_MS then Some(BadRequest)
    else if r.call.Mutating? && r.operationIdLength != OPERATION_ID_LENGTH then Some(BadRequest)
    else None
  }

  function CommandOf(holder: Holder, c: Connection, number: nat, r: Request, receivedAt: int, checkedAt: nat): Command
    requires r.deadlineMs.Some?
  {
    Command(number, c, r.call.Mutating?, if r.call.Mutating? && holder.Holder? then Some(holder.leaseId) else None,
      receivedAt + r.deadlineMs.value, checkedAt)
  }

  /** The session's decision on a request: refuse it, serve a lease request on the spot, or
      let it through to be queued. A mutating request needs its connection to be the writer,
      and the lease is looked at before the payload's shape. */
  function Decide(holder: Holder, c: Connection, number: nat, r: Request, receivedAt: int, now: int,
          checkedAt: nat): Decision {
    if Refusal(r).Some? then Refuse(Refusal(r).value)
    else if r.call.Mutating? && !IsWriterOf(holder, c, now) then Refuse(WriterLeaseRequired)
    else if !r.shapeOk then Refuse(BadRequest)
    else if r.call.LeaseMethod? then ServeLease(r.call.lease)
    else Admit(CommandOf(holder, c, number, r, receivedAt, checkedAt))
  }

  function Checked(s: State, c: Connection, number: nat, r: Request, receivedAt: int, drawn: LeaseId): State {
    match Decide(s.holder, c, number, r, receivedAt, s.now, s.steps)
    case Refuse(code) => Settled(s, c, number, code)
    case ServeLease(lease) =>
      Settled(s, c, number, LeaseServed(Told(s.holder, c, lease, s.now, s.ttl, drawn))).(
        holder := Served(s.holder, c, lease, s.now, s.ttl, drawn), issuedAt := s.issuedAt[drawn := s.steps + 1])
    case Admit(cmd) => s.(sessions := s.sessions[c := Enqueuing(number, cmd)])
  }

  function Enqueued(s: State, c: Connection, number: nat, cmd: Command): State {
    if !s.pumpAttached || s.shutdown.queueClosed || |s.queue| >= QUEUE_CAPACITY then
      Settled(s, c, number, BridgeNotReady)
    else
      s.(sessions := s.sessions[c := Ready], queue := s.queue + [cmd],
         books := s.books.(accepted := s.books.accepted + [cmd]))
  }

  // ----- the UI thread -----

  /** The re-check of a popped command: its own lease must still be held. */
  predicate StillValid(holder: Holder, now: int, cmd: Command) {
    !cmd.mutating || (cmd.leaseId.Some? && Holds(holder, cmd.connection, cmd.leaseId.value, now))
  }

  predicate MayPop(s: State) {
    && s.ui.pump.Idle? && !s.shutdown.stopping && s.queue != []
    && s.ui.drained < LIMIT_PUMP_COMMANDS_PER_FRAME && s.now - s.ui.frameStart <= LIMIT_PUMP_FRAME_BUDGET_MS
  }

  // ----- steps -----

  predicate Enabled(s: State, a: Action) {
    match a
    case Tick(now) => s.now <= now
    case Connect(c) => c !in s.sessions
    case Receive(c, _) => c in s.sessions && s.sessions[c].Ready?
    case Check(c, drawn) => c in s.sessions && s.sessions[c].Handling? && drawn !in s.issuedAt
    case Enqueue(c) => c in s.sessions && s.sessions[c].Enqueuing?
    case Disconnect(c) => c in s.sessions && s.sessions[c].Ready?
    case AttachPump(_) => true
    case BeginFrame => s.ui.pump.Idle? && !s.shutdown.stopping
    case Pop => MayPop(s)
    case CheckDeadline => s.ui.pump.Popped?
    case Recheck => s.ui.pump.Rechecking?
    case Execute => s.ui.pump.Executing?
    case SendReply => s.ui.pump.Replying?
    case Stop => s.ui.pump.Idle? && !s.shutdown.stopping
    case CloseQueue => s.shutdown.stopping && !s.shutdown.queueClosed
    case Drop => s.shutdown.stopping && s.shutdown.queueClosed && s.queue != []
  }

  /** What the UI thread does with the command in its hands. */
  function Pumped(s: State, a: Action): Pump
    requires Enabled(s, a) && (a.CheckDeadline? || a.Recheck? || a.Execute?)
  {
    var cmd := s.ui.pump.command;
    match a
    case CheckDeadline => if s.now > cmd.deadlineAt then Replying(cmd, Timeout) else Rechecking(cmd)
    case Recheck => if StillValid(s.holder, s.now, cmd) then Executing(cmd) else Replying(cmd, LeaseLost)
    case Execute => Replying(cmd, Executed)
  }

  function Effect(s: State, a: Action): State
    requires Enabled(s, a)
  {
    match a
    case Tick(now) => s.(now := now)
    case Connect(c) => s.(sessions := s.sessions[c := Ready])
    case Receive(c, r) => s.(sessions := s.sessions[c := Handling(s.books.received, r, s.now)],
      books := s.books.(received := s.books.received + 1))
    case Check(c, drawn) => Checked(s, c, s.sessions[c].number, s.sessions[c].request, s.sessions[c].receivedAt, drawn)
    case Enqueue(c) => Enqueued(s, c, s.sessions[c].number, s.sessions[c].command)
    case Disconnect(c) => s.(sessions := s.sessions - {c}, holder := Dropped(s.holder, c))
    case AttachPump(attached) => s.(pumpAttached := attached)
    case BeginFrame => s.(ui := s.ui.(drained := 0, frameStart := s.now))
    case Pop => s.(queue := s.queue[1..], ui := s.ui.(pump := Popped(s.queue[0])),
      books := s.books.(popped := s.books.popped + 1))
    case SendReply =>
      s.(ui := s.ui.(pump := Idle, drained := s.ui.drained + 1),
         books := s.books.(replied := s.books.replied + [Reply(s.ui.pump.command.request, s.ui.pump.outcome)]))
    case Stop => s.(shutdown := s.shutdown.(stopping := true))
    case CloseQueue => s.(shutdown := s.shutdown.(queueClosed := true))
    case Drop =>
      s.(queue := s.queue[1..], books := s.books.(popped := s.books.popped + 1),
         shutdown := s.shutdown.(dropped := s.shutdown.dropped + [s.queue[0]]))
    case _ => s.(ui := s.ui.(pump := Pumped(s, a)))
  }

  function Next(s: State, a: Action): State
    requires Enabled(s, a)
  {
    Effect(s, a).(steps := s.steps + 1)
  }

  function Start(now: int, ttl: int): State {
    State(0, now, ttl, NoHolder, map[], map[], [], false, Ui(Idle, 0, now), Books(0, [], [], 0, []),
      Shutdown(false, false, []))
  }

  /** The state after the actions, if each of them could happen when it did. */
  function Run(actions: seq<Action>, now: int, ttl: int): Option<State> {
    if actions == [] then Some(Start(now, ttl))
    else
      match Run(actions[..|actions| - 1], now, ttl)
      case None => None
      case Some(s) => if Enabled(s, actions[|actions| - 1]) then Some(Next(s, actions[|actions| - 1])) else None
  }

  lemma {:induction false} RunPrefix(actions: seq<Action>, k: nat, now: int, ttl: int)
    requires k <= |actions| && Run(actions, now, ttl).Some?
    ensures Run(actions[..k], now, ttl).Some? && Run(actions[..k], now, ttl).value.steps == k
  {
    hide Enabled, Effect;
    if k == |actions| {
      assert actions[..k] == actions;
      if k > 0 {
        RunPrefix(actions[..k - 1], k - 1, now, ttl);
        assert actions[..k - 1][..k - 1] == actions[..k - 1];
      }
    } else {
      var before := actions[..|actions| - 1];
      RunPrefix(before, k, now, ttl);
      assert before[..k] == actions[..k];
    }
  }
}
