/** Why each reply is what it is: over every run, what must have been true of a command when
    it was checked for it to be refused or carried out, and who gets through undisturbed. */
module BridgeOutcomes {
  import opened Basics
  import opened Lease
  import opened Bridge
  import opened BridgeSafety

  // ----- the session's decision -----

  /** A method that is known, a deadline in range, and an operation id if it mutates. */
  predicate WellFormed(r: Request) {
    && !r.call.Unknown? && r.deadlineMs.Some? && 1 <= r.deadlineMs.value <= 600000
    && (r.call.Mutating? ==> r.operationIdLength == 36)
  }

  predicate Writes(h: Holder, c: Connection, now: int) {
    h.Holder? && h.connection == c && now < h.expiresAt
  }

  /** What the session makes of a request, for every request and holder. */
  lemma DecisionIs(h: Holder, c: Connection, number: nat, r: Request, receivedAt: int, now: int, checkedAt: nat)
    ensures var d, writer := Decide(h, c, number, r, receivedAt, now, checkedAt), Writes(h, c, now);
      && (d == Refuse(UnsupportedOperation) <==> r.call.Unknown?)
      && (d == Refuse(WriterLeaseRequired) <==> WellFormed(r) && r.call.Mutating? && !writer)
      && (d == Refuse(BadRequest) <==>
            && !r.call.Unknown?
            && (!WellFormed(r) || (!r.shapeOk && (r.call.Mutating? ==> writer))))
      && (d.ServeLease? <==> WellFormed(r) && r.call.LeaseMethod? && r.shapeOk)
      && (d.ServeLease? ==> d.lease == r.call.lease)
      && (d.Admit? <==> WellFormed(r) && r.shapeOk && (r.call.Reading? || (r.call.Mutating? && writer)))
      && (d.Admit? ==>
            && d.command.request == number && d.command.connection == c && d.command.checkedAt == checkedAt
            && d.command.deadlineAt == receivedAt + r.deadlineMs.value
            && (d.command.mutating <==> r.call.Mutating?)
            && d.command.leaseId == if r.call.Mutating? then Some(h.leaseId) else None)
  {}

  /** A command is queued exactly if a pump is attached and the queue is open and not full;
      otherwise its request is answered at once. */
  lemma EnqueueIs(s: State, c: Connection)
    requires Enabled(s, Enqueue(c))
    ensures var s', x := Next(s, Enqueue(c)), s.sessions[c];
      if s.pumpAttached && !s.shutdown.queueClosed && |s.queue| < 64 then
        s'.queue == s.queue + [x.command] && s'.books.answered == s.books.answered
      else
        s'.queue == s.queue && s'.books.answered == s.books.answered + [Answer(x.number, BridgeNotReady)]
  {}

  // ----- replies -----

  /** The lease that the command was let in on is held by its connection. */
  predicate LeaseHeld(h: Holder, cmd: Command, now: int) {
    && cmd.leaseId.Some? && h.Holder? && now < h.expiresAt
    && h.connection == cmd.connection && h.leaseId == cmd.leaseId.value
  }

  ghost predicate At(actions: seq<Action>, k: nat, now: int, ttl: int, a: Action, pump: Pump) {
    && k < |actions| && actions[k] == a && Run(actions[..k], now, ttl).Some?
    && Run(actions[..k], now, ttl).value.ui.pump == pump
  }

  /** At step `k` the command's deadline was looked at, and it was late or it was not. */
  ghost predicate DeadlineSeen(actions: seq<Action>, k: nat, now: int, ttl: int, cmd: Command, late: bool) {
    && At(actions, k, now, ttl, CheckDeadline, Popped(cmd))
    && (late <==> Run(actions[..k], now, ttl).value.now > cmd.deadlineAt)
  }

  /** At step `k` the lease was looked at again, and was lost to a mutating command or was not. */
  ghost predicate LeaseSeen(actions: seq<Action>, k: nat, now: int, ttl: int, cmd: Command, lost: bool) {
    && At(actions, k, now, ttl, Recheck, Rechecking(cmd))
    && var s := Run(actions[..k], now, ttl).value; (lost <==> cmd.mutating && !LeaseHeld(s.holder, cmd, s.now))
  }

  ghost predicate InTime(actions: seq<Action>, now: int, ttl: int, cmd: Command) {
    exists k: nat :: DeadlineSeen(actions, k, now, ttl, cmd, false)
  }

  /** Timeout only past the deadline; otherwise in time, and then refused only for a lease lost
      by the re-check, and carried out only if there was none to lose or it was held. */
  ghost predicate Deserved(actions: seq<Action>, now: int, ttl: int, cmd: Command, outcome: Outcome) {
    match outcome
    case Timeout => exists k: nat :: DeadlineSeen(actions, k, now, ttl, cmd, true)
    case LeaseLost => InTime(actions, now, ttl, cmd) && exists k: nat :: LeaseSeen(actions, k, now, ttl, cmd, true)
    case Executed => InTime(actions, now, ttl, cmd) && exists k: nat :: LeaseSeen(actions, k, now, ttl, cmd, false)
  }

  ghost predicate PumpDeserves(actions: seq<Action>, now: int, ttl: int, pump: Pump) {
    match pump
    case Rechecking(cmd) => InTime(actions, now, ttl, cmd)
    case Executing(cmd) => Deserved(actions, now, ttl, cmd, Executed)
    case Replying(cmd, outcome) => Deserved(actions, now, ttl, cmd, outcome)
    case _ => true
  }

  lemma Later(actions: seq<Action>, a: Action, now: int, ttl: int, cmd: Command)
    ensures forall k: nat, late :: DeadlineSeen(actions, k, now, ttl, cmd, late) ==>
      DeadlineSeen(actions + [a], k, now, ttl, cmd, late)
    ensures forall k: nat, lost :: LeaseSeen(actions, k, now, ttl, cmd, lost) ==>
      LeaseSeen(actions + [a], k, now, ttl, cmd, lost)
  {
    hide Run, LeaseHeld;
    forall k: nat | k < |actions|
      ensures (actions + [a])[..k] == actions[..k]
    {}
  }

  lemma DeservedLater(actions: seq<Action>, a: Action, now: int, ttl: int, cmd: Command, outcome: Outcome)
    ensures InTime(actions, now, ttl, cmd) ==> InTime(actions + [a], now, ttl, cmd)
    ensures Deserved(actions, now, ttl, cmd, outcome) ==> Deserved(actions + [a], now, ttl, cmd, outcome)
  {
    hide DeadlineSeen, LeaseSeen;
    Later(actions, a, now, ttl, cmd);
  }

  /** What a step makes of the command in the UI thread's hands. */
  lemma NextPump(s: State, a: Action)
    requires Enabled(s, a)
    ensures var pump, pump' := s.ui.pump, Next(s, a).ui.pump;
      match a
      case Pop => pump'.Popped?
      case CheckDeadline =>
        pump' == if s.now > pump.command.deadlineAt then Replying(pump.command, Timeout) else Rechecking(pump.command)
      case Recheck =>
        pump' == if pump.command.mutating && !LeaseHeld(s.holder, pump.command, s.now) then
                   Replying(pump.command, LeaseLost) else Executing(pump.command)
      case Execute => pump' == Replying(pump.command, Executed)
      case SendReply => pump' == Idle
      case _ => pump' == pump
  {
    hide Decide, Served, Told;
  }

  /** What a step of the UI thread sees, it sees now. */
  lemma PumpStepDeserves(actions: seq<Action>, now: int, ttl: int, s: State, a: Action)
    requires Run(actions, now, ttl) == Some(s) && Enabled(s, a) && PumpDeserves(actions, now, ttl, s.ui.pump)
    ensures PumpDeserves(actions + [a], now, ttl, Next(s, a).ui.pump)
  {
    hide Run, Next, Decide, Served, Told, LeaseHeld;
    NextPump(s, a);
    var actions' := actions + [a];
    assert actions'[..|actions|] == actions && actions'[|actions|] == a;
    if !s.ui.pump.Idle? {
      var cmd := s.ui.pump.command;
      DeservedLater(actions, a, now, ttl, cmd, Executed);
      if s.ui.pump.Replying? {
        DeservedLater(actions, a, now, ttl, cmd, s.ui.pump.outcome);
      }
      if a.CheckDeadline? {
        assert DeadlineSeen(actions', |actions|, now, ttl, cmd, s.now > cmd.deadlineAt);
      }
      if a.Recheck? {
        assert LeaseSeen(actions', |actions|, now, ttl, cmd, cmd.mutating && !LeaseHeld(s.holder, cmd, s.now));
      }
    }
  }

  ghost predicate RepliesDeserved(actions: seq<Action>, now: int, ttl: int, s: State) {
    && |s.books.replied| <= |s.books.accepted|
    && forall i :: 0 <= i < |s.books.replied| ==>
         Deserved(actions, now, ttl, s.books.accepted[i], s.books.replied[i].outcome)
  }

  lemma NewReply(s: State, a: Action)
    requires Enabled(s, a) && Kept(s)
    ensures var s' := Next(s, a);
      && s.books.accepted <= s'.books.accepted && |s'.books.replied| <= |s'.books.accepted|
      && (s'.books.replied == s.books.replied ||
          (a.SendReply? && |s.books.replied| < |s.books.accepted|
           && s.books.accepted[|s.books.replied|] == s.ui.pump.command
           && s'.books.replied == s.books.replied + [Reply(s.ui.pump.command.request, s.ui.pump.outcome)]))
  {
    hide Ledger, Decide, Served, Told, Refusal;
  }

  /** Over every run, every reply is the one that its command deserved. */
  lemma {:induction false} EveryReplyDeserved(actions: seq<Action>, now: int, ttl: int)
    requires Run(actions, now, ttl).Some?
    ensures RepliesDeserved(actions, now, ttl, Run(actions, now, ttl).value)
    ensures PumpDeserves(actions, now, ttl, Run(actions, now, ttl).value.ui.pump)
  {
    if actions != [] {
      hide Next, Enabled, Deserved, InTime, PumpDeserves, Kept;
      var before, a := actions[..|actions| - 1], actions[|actions| - 1];
      var s := Run(before, now, ttl).value;
      assert before + [a] == actions;
      EveryReplyDeserved(before, now, ttl);
      RunKeeps(before, now, ttl);
      PumpStepDeserves(before, now, ttl, s, a);
      NewReply(s, a);
      StillDeserved(before, now, ttl, s, a);
    }
  }

  lemma StillDeserved(actions: seq<Action>, now: int, ttl: int, s: State, a: Action)
    requires Enabled(s, a) && Kept(s)
    requires RepliesDeserved(actions, now, ttl, s) && PumpDeserves(actions, now, ttl, s.ui.pump)
    ensures RepliesDeserved(actions + [a], now, ttl, Next(s, a))
  {
    hide Next, Deserved, InTime, Kept;
    NewReply(s, a);
    var s' := Next(s, a);
    forall i | 0 <= i < |s'.books.replied|
      ensures Deserved(actions + [a], now, ttl, s'.books.accepted[i], s'.books.replied[i].outcome)
    {
      DeservedLater(actions, a, now, ttl, s'.books.accepted[i], s'.books.replied[i].outcome);
    }
  }

  // ----- who gets through -----

  /** A reading request needs no lease: from any ready connection, whoever is the writer, it
      reaches execution undisturbed. */
  lemma ReadersCommandRuns(s: State, c: Connection, r: Request, drawn: LeaseId)
    requires c in s.sessions && s.sessions[c].Ready? && drawn !in s.issuedAt
    requires r.call.Reading? && WellFormed(r) && r.shapeOk
    requires s.pumpAttached && s.queue == [] && s.ui.pump.Idle? && !s.shutdown.stopping && !s.shutdown.queueClosed
    ensures var q := Submitted(s, c, r, drawn);
      && q.Some? && Drained(q.value).Some?
      && Drained(q.value).value.ui.pump.Executing?
      && var cmd := Drained(q.value).value.ui.pump.command;
      && cmd.request == s.books.received && cmd.connection == c && !cmd.mutating
  {
    DrainedIs(Submitted(s, c, r, drawn).value);
    hide Submitted, Drained;
  }

  // ----- a lease lasts -----

  /** The holder has this lease until `until` at least. */
  predicate HeldUntil(h: Holder, c: Connection, id: LeaseId, until: int) {
    h.Holder? && h.connection == c && h.leaseId == id && until <= h.expiresAt
  }

  /** No lease is given for longer than `ttl` from now. */
  predicate WithinTtl(s: State) {
    s.holder.Holder? ==> s.holder.expiresAt <= s.now + s.ttl
  }

  /** The step ends the lease: its connection goes, or has asked to release it. */
  predicate Ends(s: State, a: Action, c: Connection, id: LeaseId) {
    || a == Disconnect(c)
    || (a.Check? && a.c == c && c in s.sessions && s.sessions[c].Handling?
        && s.sessions[c].request.call == LeaseMethod(Release(id)))
  }

  ghost predicate EndsAt(actions: seq<Action>, k: nat, now: int, ttl: int, c: Connection, id: LeaseId) {
    k < |actions| && Run(actions[..k], now, ttl).Some? && Ends(Run(actions[..k], now, ttl).value, actions[k], c, id)
  }

  /** What a step does to the lease: serve a request that asks for it, or drop it with its
      connection. */
  lemma StepHolder(s: State, a: Action)
    requires Enabled(s, a)
    ensures var s' := Next(s, a);
      && s'.ttl == s.ttl && s'.now == (if a.Tick? then a.now else s.now)
      && if a.Disconnect? then s'.holder == Dropped(s.holder, a.c)
         else if a.Check? then
           || s'.holder == s.holder
           || (s.sessions[a.c].request.call.LeaseMethod?
               && s'.holder == Served(s.holder, a.c, s.sessions[a.c].request.call.lease, s.now, s.ttl, a.drawn))
         else s'.holder == s.holder
  {
    hide Told, Refusal, Served, Dropped, Pumped;
  }

  lemma StepWithinTtl(s: State, a: Action)
    requires Enabled(s, a) && WithinTtl(s)
    ensures WithinTtl(Next(s, a)) && s.now <= Next(s, a).now && Next(s, a).ttl == s.ttl
  {
    hide Next;
    StepHolder(s, a);
  }

  lemma StepHeldUntil(s: State, a: Action, c: Connection, id: LeaseId, until: int)
    requires Enabled(s, a) && WithinTtl(s) && HeldUntil(s.holder, c, id, until) && s.now < until && !Ends(s, a, c, id)
    ensures HeldUntil(Next(s, a).holder, c, id, until)
  {
    hide Next;
    StepHolder(s, a);
  }

  lemma {:induction false} RunWithinTtl(actions: seq<Action>, now: int, ttl: int)
    requires Run(actions, now, ttl).Some?
    ensures WithinTtl(Run(actions, now, ttl).value)
  {
    if actions != [] {
      hide Next, Enabled, WithinTtl;
      RunWithinTtl(actions[..|actions| - 1], now, ttl);
      StepWithinTtl(Run(actions[..|actions| - 1], now, ttl).value, actions[|actions| - 1]);
    }
  }

  /** In every interleaving, a lease that runs until `until` at some moment is still held at
      any later moment before then, unless its own connection has gone or released it. */
  lemma {:induction false} LeaseLasts(actions: seq<Action>, k: nat, now: int, ttl: int, c: Connection, id: LeaseId,
          until: int)
    requires Run(actions, now, ttl).Some? && k <= |actions| && Run(actions[..k], now, ttl).Some?
    requires HeldUntil(Run(actions[..k], now, ttl).value.holder, c, id, until)
    requires Run(actions, now, ttl).value.now < until
    requires forall j: nat :: k <= j < |actions| ==> !EndsAt(actions, j, now, ttl, c, id)
    ensures HeldUntil(Run(actions, now, ttl).value.holder, c, id, until)
    ensures LeaseHolds(Run(actions, now, ttl).value, c, id)
  {
    hide Next, Enabled, Ends;
    if k == |actions| {
      assert actions[..k] == actions;
    } else {
      var n := |actions| - 1;
      var before, s := actions[..n], Run(actions[..n], now, ttl).value;
      assert before[..k] == actions[..k];
      RunWithinTtl(before, now, ttl);
      StepWithinTtl(s, actions[n]);
      forall j: nat | k <= j < n
        ensures !EndsAt(before, j, now, ttl, c, id)
      {
        assert before[..j] == actions[..j];
        assert !EndsAt(actions, j, now, ttl, c, id);
      }
      LeaseLasts(before, k, now, ttl, c, id, until);
      assert !EndsAt(actions, n, now, ttl, c, id);
      StepHeldUntil(s, actions[n], c, id, until);
    }
  }

  predicate LeaseHolds(s: State, c: Connection, id: LeaseId) {
    s.holder.Holder? && s.holder.connection == c && s.holder.leaseId == id && s.now < s.holder.expiresAt
  }

  // ----- sessions and the pump -----

  /** Only a connected client holds the lease. */
  predicate HolderConnected(s: State) {
    s.holder.Holder? ==> s.holder.connection in s.sessions
  }

  lemma StepHolderConnected(s: State, a: Action)
    requires Enabled(s, a) && HolderConnected(s)
    ensures HolderConnected(Next(s, a))
  {
    hide Next;
    StepHolder(s, a);
    StepAttached(s, a);
  }

  /** In every interleaving, no lease outlives its connection. */
  lemma {:induction false} NoLeaseOutlivesConnection(actions: seq<Action>, now: int, ttl: int)
    requires Run(actions, now, ttl).Some?
    ensures HolderConnected(Run(actions, now, ttl).value)
  {
    if actions != [] {
      hide Next, Enabled, HolderConnected;
      NoLeaseOutlivesConnection(actions[..|actions| - 1], now, ttl);
      StepHolderConnected(Run(actions[..|actions| - 1], now, ttl).value, actions[|actions| - 1]);
    }
  }

  /** The latest word on the pump is `attached`; before any there is none. */
  predicate LastAttached(actions: seq<Action>, attached: bool) {
    if actions == [] then !attached
    else if actions[|actions| - 1].AttachPump? then actions[|actions| - 1].attached == attached
    else LastAttached(actions[..|actions| - 1], attached)
  }

  /** Whether a pump is attached is what was last said of it. */
  lemma {:induction false} PumpAttachedIs(actions: seq<Action>, now: int, ttl: int)
    requires Run(actions, now, ttl).Some?
    ensures LastAttached(actions, Run(actions, now, ttl).value.pumpAttached)
  {
    if actions != [] {
      hide Enabled, Next;
      PumpAttachedIs(actions[..|actions| - 1], now, ttl);
      StepAttached(Run(actions[..|actions| - 1], now, ttl).value, actions[|actions| - 1]);
    }
  }

  /** A step changes who is connected, and whether a pump is attached, only if it says so. */
  lemma StepAttached(s: State, a: Action)
    requires Enabled(s, a)
    ensures Next(s, a).pumpAttached == if a.AttachPump? then a.attached else s.pumpAttached
    ensures Next(s, a).sessions.Keys == if a.Connect? then s.sessions.Keys + {a.c}
      else if a.Disconnect? then s.sessions.Keys - {a.c} else s.sessions.Keys
  {
    hide Told, Served, Pumped;
  }
}
