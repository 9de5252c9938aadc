/** What holds in every run of the bridge: a mutating command only runs on the lease it was
    let in on, held without a break; and every request is settled exactly once. */
module BridgeSafety {
  import opened Basics
  import opened Lease
  import opened Bridge

  // ----- the lease, backwards in time -----

  /** A lease that was drawn earlier and holds after a step held before it. */
  lemma StepHeldBefore(s: State, a: Action, c: Connection, id: LeaseId)
    requires Enabled(s, a) && id in s.issuedAt
    requires Holds(Next(s, a).holder, c, id, Next(s, a).now)
    ensures Holds(s.holder, c, id, s.now)
  {}

  lemma StepIssues(s: State, a: Action, id: LeaseId)
    requires Enabled(s, a) && id in Next(s, a).issuedAt
    ensures (id in s.issuedAt && s.issuedAt[id] == Next(s, a).issuedAt[id]) || Next(s, a).issuedAt[id] == s.steps + 1
  {}

  lemma {:induction false} IssuedBefore(actions: seq<Action>, k: nat, now: int, ttl: int, id: LeaseId)
    requires Run(actions, now, ttl).Some? && k <= |actions|
    requires id in Run(actions, now, ttl).value.issuedAt && Run(actions, now, ttl).value.issuedAt[id] <= k
    ensures Run(actions[..k], now, ttl).Some? && id in Run(actions[..k], now, ttl).value.issuedAt
  {
    hide Next, Enabled;
    if k == |actions| {
      assert actions[..k] == actions;
    } else {
      var before, a := actions[..|actions| - 1], actions[|actions| - 1];
      RunPrefix(actions, |before|, now, ttl);
      StepIssues(Run(before, now, ttl).value, a, id);
      IssuedBefore(before, k, now, ttl, id);
      assert before[..k] == actions[..k];
    }
  }

  ghost predicate HeldAt(actions: seq<Action>, k: nat, now: int, ttl: int, c: Connection, id: LeaseId)
    requires k <= |actions|
  {
    var r := Run(actions[..k], now, ttl);
    r.Some? && Holds(r.value.holder, c, id, r.value.now)
  }

  /** A lease that holds now has held, without a break, ever since it was drawn. */
  lemma {:induction false} HeldSince(actions: seq<Action>, first: nat, k: nat, now: int, ttl: int, c: Connection,
          id: LeaseId)
    requires Run(actions, now, ttl).Some? && first <= k <= |actions|
    requires id in Run(actions, now, ttl).value.issuedAt && Run(actions, now, ttl).value.issuedAt[id] <= first
    requires var s := Run(actions, now, ttl).value; Holds(s.holder, c, id, s.now)
    ensures HeldAt(actions, k, now, ttl, c, id)
  {
    hide Next, Enabled, Holds;
    if k == |actions| {
      assert actions[..k] == actions;
    } else {
      var m := |actions| - 1;
      var before := actions[..m];
      IssuedBefore(actions, m, now, ttl, id);
      StepIssues(Run(before, now, ttl).value, actions[m], id);
      StepHeldBefore(Run(before, now, ttl).value, actions[m], c, id);
      RunPrefix(actions, m, now, ttl);
      HeldSince(before, first, k, now, ttl, c, id);
      assert before[..k] == actions[..k];
    }
  }

  // ----- commands and the leases they were let in on -----

  /** The command is somewhere between its session's check and its reply. */
  ghost predicate InSystem(s: State, cmd: Command) {
    || (exists c :: c in s.sessions && s.sessions[c].Enqueuing? && s.sessions[c].command == cmd)
    || (exists i :: 0 <= i < |s.queue| && s.queue[i] == cmd)
    || (!s.ui.pump.Idle? && s.ui.pump.command == cmd)
  }

  /** Its lease, if it mutates, was already drawn when it was checked. */
  ghost predicate LetIn(s: State, cmd: Command) {
    cmd.mutating ==>
      cmd.leaseId.Some? && cmd.leaseId.value in s.issuedAt && s.issuedAt[cmd.leaseId.value] <= cmd.checkedAt
  }

  /** Its own session checked it, at the step it says. */
  ghost predicate CheckedBy(actions: seq<Action>, cmd: Command) {
    cmd.checkedAt < |actions| && actions[cmd.checkedAt].Check? && actions[cmd.checkedAt].c == cmd.connection
  }

  ghost predicate HolderIssued(s: State) {
    s.holder.Holder? ==> s.holder.leaseId in s.issuedAt && s.issuedAt[s.holder.leaseId] <= s.steps
  }

  lemma StepHolderIssued(s: State, a: Action)
    requires Enabled(s, a) && HolderIssued(s)
    ensures HolderIssued(Next(s, a))
  {}

  /** A step brings in no command but the one its session just checked. */
  lemma StepBringsIn(s: State, a: Action, cmd: Command)
    requires Enabled(s, a) && InSystem(Next(s, a), cmd)
    ensures InSystem(s, cmd) || (a.Check? && NewlyChecked(s, a.c, cmd))
  {
    var s' := Next(s, a);
    if exists i :: 0 <= i < |s'.queue| && s'.queue[i] == cmd {
      var i :| 0 <= i < |s'.queue| && s'.queue[i] == cmd;
      QueueBringsIn(s, a, i);
    }
  }

  lemma QueueBringsIn(s: State, a: Action, i: nat)
    requires Enabled(s, a) && i < |Next(s, a).queue|
    ensures InSystem(s, Next(s, a).queue[i])
  {
    if a.Pop? || a.Drop? {
      assert s.queue[i + 1] == Next(s, a).queue[i];
    } else if i < |s.queue| {
      assert s.queue[i] == Next(s, a).queue[i];
    }
  }

  ghost predicate NewlyChecked(s: State, c: Connection, cmd: Command)
    requires c in s.sessions && s.sessions[c].Handling?
  {
    var h := s.sessions[c];
    && h.request.deadlineMs.Some? && cmd == CommandOf(s.holder, c, h.number, h.request, h.receivedAt, s.steps)
    && (cmd.mutating ==> IsWriterOf(s.holder, c, s.now))
  }

  ghost predicate CommandsOk(actions: seq<Action>, s: State) {
    forall cmd :: InSystem(s, cmd) ==> LetIn(s, cmd) && CheckedBy(actions, cmd)
  }

  lemma StepCommandsOk(actions: seq<Action>, s: State, a: Action)
    requires Enabled(s, a) && s.steps == |actions| && HolderIssued(s) && CommandsOk(actions, s)
    ensures CommandsOk(actions + [a], Next(s, a))
  {
    hide InSystem;
    var s' := Next(s, a);
    forall cmd | InSystem(s', cmd)
      ensures LetIn(s', cmd) && CheckedBy(actions + [a], cmd)
    {
      StepBringsIn(s, a, cmd);
    }
  }

  lemma {:induction false} RunCommandsOk(actions: seq<Action>, now: int, ttl: int)
    requires Run(actions, now, ttl).Some?
    ensures var s := Run(actions, now, ttl).value; HolderIssued(s) && s.steps == |actions| && CommandsOk(actions, s)
  {
    if actions != [] {
      hide Next, Enabled, CommandsOk, HolderIssued;
      var before, a := actions[..|actions| - 1], actions[|actions| - 1];
      var s := Run(before, now, ttl).value;
      RunCommandsOk(before, now, ttl);
      StepHolderIssued(s, a);
      StepCommandsOk(before, s, a);
      assert before + [a] == actions && actions[..|actions|] == actions;
      RunPrefix(actions, |actions|, now, ttl);
    }
  }

  /** At step `k` the connection holds this lease and no other connection is the writer. */
  ghost predicate SoleWriterAt(actions: seq<Action>, k: nat, now: int, ttl: int, c: Connection, id: LeaseId)
    requires k <= |actions|
  {
    HeldAt(actions, k, now, ttl, c, id)
    && var s := Run(actions[..k], now, ttl).value; forall d :: IsWriterOf(s.holder, d, s.now) ==> d == c
  }

  /** In every interleaving: when a mutating command passes the UI thread's re-check, its own
      session had checked it, and at every moment from that check to the re-check its
      connection held the very lease it was let in on, and no other connection was the writer. */
  lemma WriterThroughout(actions: seq<Action>, now: int, ttl: int, k: nat)
    requires Run(actions, now, ttl).Some? && Run(actions, now, ttl).value.ui.pump.Rechecking?
    requires Run(actions, now, ttl).value.ui.pump.command.mutating
    requires var s := Run(actions, now, ttl).value; StillValid(s.holder, s.now, s.ui.pump.command)
    requires Run(actions, now, ttl).value.ui.pump.command.checkedAt <= k <= |actions|
    ensures var cmd := Run(actions, now, ttl).value.ui.pump.command;
      && cmd.checkedAt < |actions| && actions[cmd.checkedAt].Check? && actions[cmd.checkedAt].c == cmd.connection
      && cmd.leaseId.Some? && SoleWriterAt(actions, k, now, ttl, cmd.connection, cmd.leaseId.value)
  {
    var s := Run(actions, now, ttl).value;
    var cmd := s.ui.pump.command;
    RunCommandsOk(actions, now, ttl);
    assert InSystem(s, cmd);
    HeldSince(actions, cmd.checkedAt, k, now, ttl, cmd.connection, cmd.leaseId.value);
  }

  // ----- the queue and its replies -----

  /** The queue is what was accepted and not yet popped. */
  ghost predicate QueueOk(s: State) {
    s.books.popped <= |s.books.accepted| && s.queue == s.books.accepted[s.books.popped..]
      && |s.queue| <= QUEUE_CAPACITY && s.ui.drained <= LIMIT_PUMP_COMMANDS_PER_FRAME
  }

  /** Every popped command has one reply, in the order of acceptance, except the one in hand
      and those that a stop dropped. */
  ghost predicate RepliesOk(s: State) {
    && |s.books.replied| + |s.shutdown.dropped| + (if s.ui.pump.Idle? then 0 else 1)
       == s.books.popped <= |s.books.accepted|
    && (forall i :: 0 <= i < |s.books.replied| ==> s.books.replied[i].request == s.books.accepted[i].request)
    && (!s.ui.pump.Idle? ==>
          && s.ui.drained < LIMIT_PUMP_COMMANDS_PER_FRAME && !s.shutdown.stopping
          && s.ui.pump.command == s.books.accepted[s.books.popped - 1])
  }

  /** Only a stop drops commands, and it drops what was accepted last. */
  ghost predicate DropsOk(s: State) {
    && (s.shutdown.dropped != [] ==> s.shutdown.stopping && s.shutdown.queueClosed && s.ui.pump.Idle?)
    && |s.books.replied| <= s.books.popped <= |s.books.accepted|
       && (s.shutdown.dropped != [] ==> s.shutdown.dropped == s.books.accepted[|s.books.replied|..s.books.popped])
  }

  /** A step of the UI thread keeps the replies in step with what was popped. */
  lemma PumpStepOk(s: State, a: Action)
    requires Enabled(s, a) && QueueOk(s) && RepliesOk(s) && DropsOk(s)
    requires a.BeginFrame? || a.Pop? || a.CheckDeadline? || a.Recheck? || a.Execute? || a.SendReply?
    ensures QueueOk(Next(s, a)) && RepliesOk(Next(s, a)) && DropsOk(Next(s, a))
  {
    hide StillValid;
  }

  lemma StopStepOk(s: State, a: Action)
    requires Enabled(s, a) && QueueOk(s) && RepliesOk(s) && DropsOk(s) && (a.Stop? || a.CloseQueue? || a.Drop?)
    ensures QueueOk(Next(s, a)) && RepliesOk(Next(s, a)) && DropsOk(Next(s, a))
  {
    if a.Drop? {
      var popped, replied := s.books.popped, |s.books.replied|;
      assert s.queue[0] == s.books.accepted[popped];
      assert s.books.accepted[replied..popped + 1] == s.books.accepted[replied..popped] + [s.queue[0]];
    }
  }

  /** Accepting a command appends it to the queue and to the record alike. */
  lemma EnqueueOk(s: State, c: Connection)
    requires Enabled(s, Enqueue(c)) && QueueOk(s) && RepliesOk(s) && DropsOk(s)
    ensures var s' := Next(s, Enqueue(c)); QueueOk(s') && RepliesOk(s') && DropsOk(s')
  {}

  lemma UntouchedOk(s: State, s': State)
    requires QueueOk(s) && RepliesOk(s) && DropsOk(s)
    requires s'.queue == s.queue && s'.books.accepted == s.books.accepted && s'.books.popped == s.books.popped
      && s'.shutdown.dropped == s.shutdown.dropped
    requires s'.ui.pump == s.ui.pump && s'.ui.drained == s.ui.drained && s'.books.replied == s.books.replied
    requires s'.shutdown.stopping == s.shutdown.stopping && s'.shutdown.queueClosed == s.shutdown.queueClosed
    ensures QueueOk(s') && RepliesOk(s') && DropsOk(s')
  {}

  predicate IsSessionStep(a: Action) {
    a.Tick? || a.Connect? || a.Receive? || a.Check? || a.Enqueue? || a.Disconnect? || a.AttachPump?
  }

  lemma SessionStepOk(s: State, a: Action)
    requires Enabled(s, a) && QueueOk(s) && RepliesOk(s) && DropsOk(s) && IsSessionStep(a)
    ensures QueueOk(Next(s, a)) && RepliesOk(Next(s, a)) && DropsOk(Next(s, a))
  {
    hide Refusal, Served, QueueOk, RepliesOk, DropsOk;
    if a.Enqueue? {
      EnqueueOk(s, a.c);
    } else {
      UntouchedOk(s, Next(s, a));
    }
  }

  lemma StepQueueOk(s: State, a: Action)
    requires Enabled(s, a) && QueueOk(s) && RepliesOk(s) && DropsOk(s)
    ensures QueueOk(Next(s, a)) && RepliesOk(Next(s, a)) && DropsOk(Next(s, a))
  {
    hide QueueOk, RepliesOk, DropsOk, Next;
    if IsSessionStep(a) {
      SessionStepOk(s, a);
    } else if a.Stop? || a.CloseQueue? || a.Drop? {
      StopStepOk(s, a);
    } else {
      PumpStepOk(s, a);
    }
  }

  // ----- every request settled once -----

  predicate Busy(x: Session) {
    !x.Ready?
  }

  ghost predicate AnsweredOnce(s: State) {
    && (forall i :: 0 <= i < |s.books.answered| ==> s.books.answered[i].request < s.books.received)
    && (forall i, j :: 0 <= i < j < |s.books.answered| ==> s.books.answered[i].request != s.books.answered[j].request)
  }

  ghost predicate AcceptedOnce(s: State) {
    && (forall i :: 0 <= i < |s.books.accepted| ==> s.books.accepted[i].request < s.books.received)
    && (forall i, j :: 0 <= i < j < |s.books.accepted| ==> s.books.accepted[i].request != s.books.accepted[j].request)
  }

  ghost predicate NeverBoth(s: State) {
    forall i, j :: 0 <= i < |s.books.answered| && 0 <= j < |s.books.accepted|
      ==> s.books.answered[i].request != s.books.accepted[j].request
  }

  /** A request in a session's hands is settled in no way yet, and is in no other's hands. */
  ghost predicate PendingFresh(s: State, c: Connection)
    requires c in s.sessions
  {
    Busy(s.sessions[c]) ==>
      && s.sessions[c].number < s.books.received
      && (forall i :: 0 <= i < |s.books.answered| ==> s.books.answered[i].request != s.sessions[c].number)
      && (forall i :: 0 <= i < |s.books.accepted| ==> s.books.accepted[i].request != s.sessions[c].number)
      && (s.sessions[c].Enqueuing? ==> s.sessions[c].command.request == s.sessions[c].number)
  }

  ghost predicate PendingApart(s: State) {
    forall c, d :: c in s.sessions && d in s.sessions && c != d && Busy(s.sessions[c]) && Busy(s.sessions[d])
      ==> s.sessions[c].number != s.sessions[d].number
  }

  ghost predicate Answered(s: State, n: nat) {
    exists i :: 0 <= i < |s.books.answered| && s.books.answered[i].request == n
  }

  ghost predicate Accepted(s: State, n: nat) {
    exists i :: 0 <= i < |s.books.accepted| && s.books.accepted[i].request == n
  }

  ghost predicate Pending(s: State, n: nat) {
    exists c :: c in s.sessions && Busy(s.sessions[c]) && s.sessions[c].number == n
  }

  ghost predicate Accounted(s: State) {
    forall n: nat :: n < s.books.received ==> Answered(s, n) || Accepted(s, n) || Pending(s, n)
  }

  ghost predicate Ledger(s: State) {
    && AnsweredOnce(s) && AcceptedOnce(s) && NeverBoth(s)
    && (forall c :: c in s.sessions ==> PendingFresh(s, c)) && PendingApart(s) && Accounted(s)
  }

  /** The step answers request `n` and accepts nothing. */
  ghost predicate AnsweredNow(s: State, s': State, n: nat) {
    && s'.books.accepted == s.books.accepted
    && exists code :: s'.books.answered == s.books.answered + [Answer(n, code)]
  }

  /** The step accepts a command for request `n` and answers nothing. */
  ghost predicate AcceptedNow(s: State, s': State, n: nat) {
    && s'.books.answered == s.books.answered
    && exists cmd: Command :: cmd.request == n && s'.books.accepted == s.books.accepted + [cmd]
  }

  /** No request is settled twice by the step. */
  lemma SettledOnce(s: State, s': State, c: Connection)
    requires Ledger(s) && c in s.sessions && Busy(s.sessions[c]) && s'.books.received == s.books.received
    requires AnsweredNow(s, s', s.sessions[c].number) || AcceptedNow(s, s', s.sessions[c].number)
    ensures AnsweredOnce(s') && AcceptedOnce(s') && NeverBoth(s')
  {
    assert PendingFresh(s, c);
  }

  /** Settling the request of one session keeps the account, whichever way it is settled. */
  lemma SettleKeepsLedger(s: State, s': State, c: Connection)
    requires Ledger(s) && c in s.sessions && Busy(s.sessions[c])
    requires s'.books.received == s.books.received && s'.sessions == s.sessions[c := Ready]
    requires AnsweredNow(s, s', s.sessions[c].number) || AcceptedNow(s, s', s.sessions[c].number)
    ensures Ledger(s')
  {
    hide AnsweredOnce, AcceptedOnce, NeverBoth;
    SettledOnce(s, s', c);
    var n := s.sessions[c].number;
    assert PendingFresh(s, c);
    forall d | d in s'.sessions
      ensures PendingFresh(s', d)
    {
      assert PendingFresh(s, d);
    }
    assert Answered(s', n) || Accepted(s', n) by {
      if s'.books.accepted == s.books.accepted {
        assert s'.books.answered[|s.books.answered|].request == n;
      } else {
        assert s'.books.accepted[|s.books.accepted|].request == n;
      }
    }
    forall m: nat | m < s'.books.received
      ensures Answered(s', m) || Accepted(s', m) || Pending(s', m)
    {
      StillAccounted(s, s', c, m);
    }
  }

  lemma StillAccounted(s: State, s': State, c: Connection, m: nat)
    requires Answered(s, m) || Accepted(s, m) || Pending(s, m)
    requires c in s.sessions && Busy(s.sessions[c]) && s'.sessions == s.sessions[c := Ready]
    requires s.books.answered <= s'.books.answered && s.books.accepted <= s'.books.accepted
    requires Answered(s', s.sessions[c].number) || Accepted(s', s.sessions[c].number)
    ensures Answered(s', m) || Accepted(s', m) || Pending(s', m)
  {
    if Answered(s, m) {
      var i :| 0 <= i < |s.books.answered| && s.books.answered[i].request == m;
      assert s'.books.answered[i] == s.books.answered[i];
    } else if Accepted(s, m) {
      var i :| 0 <= i < |s.books.accepted| && s.books.accepted[i].request == m;
      assert s'.books.accepted[i] == s.books.accepted[i];
    } else {
      var d :| d in s.sessions && Busy(s.sessions[d]) && s.sessions[d].number == m;
      assert d != c ==> d in s'.sessions && s'.sessions[d] == s.sessions[d];
    }
  }

  /** A step that settles nothing and moves one session along keeps the account. */
  lemma MoveKeepsLedger(s: State, s': State, c: Connection)
    requires Ledger(s) && s'.books.answered == s.books.answered && s'.books.accepted == s.books.accepted
    requires c in s.sessions && c in s'.sessions && s'.sessions == s.sessions[c := s'.sessions[c]]
      && Busy(s'.sessions[c])
    requires Busy(s.sessions[c]) ==>
      s'.books.received == s.books.received && s'.sessions[c].number == s.sessions[c].number
    requires !Busy(s.sessions[c]) ==>
      s'.books.received == s.books.received + 1 && s'.sessions[c].number == s.books.received
    requires s'.sessions[c].Enqueuing? ==> s'.sessions[c].command.request == s'.sessions[c].number
    ensures Ledger(s')
  {
    forall d | d in s'.sessions
      ensures PendingFresh(s', d)
    {
      assert PendingFresh(s, d);
    }
    forall d, e | d in s'.sessions && e in s'.sessions && d != e && Busy(s'.sessions[d]) && Busy(s'.sessions[e])
      ensures s'.sessions[d].number != s'.sessions[e].number
    {
      assert PendingFresh(s, d) && PendingFresh(s, e);
    }
    forall m: nat | m < s'.books.received
      ensures Answered(s', m) || Accepted(s', m) || Pending(s', m)
    {
      if m == s.books.received {
        assert s'.sessions[c].number == m;
      } else if Pending(s, m) {
        var d :| d in s.sessions && Busy(s.sessions[d]) && s.sessions[d].number == m;
        assert d in s'.sessions && Busy(s'.sessions[d]) && s'.sessions[d].number == m;
      } else {
        assert Answered(s, m) || Accepted(s, m);
      }
    }
  }

  /** Connections that have nothing in hand may come and go. */
  lemma ComeAndGoKeepsLedger(s: State, s': State, c: Connection)
    requires Ledger(s) && s'.books.answered == s.books.answered && s'.books.accepted == s.books.accepted
      && s'.books.received == s.books.received
    requires s'.sessions == s.sessions || (c !in s.sessions && s'.sessions == s.sessions[c := Ready])
      || (c in s.sessions && s.sessions[c].Ready? && s'.sessions == s.sessions - {c})
    ensures Ledger(s')
  {
    forall d | d in s'.sessions
      ensures PendingFresh(s', d)
    {
      assert d in s.sessions ==> PendingFresh(s, d);
    }
    forall m: nat | m < s'.books.received
      ensures Answered(s', m) || Accepted(s', m) || Pending(s', m)
    {
      if Pending(s, m) {
        var d :| d in s.sessions && Busy(s.sessions[d]) && s.sessions[d].number == m;
        assert d in s'.sessions && s'.sessions[d] == s.sessions[d];
      } else {
        assert Answered(s, m) || Accepted(s, m);
      }
    }
  }

  lemma CheckKeepsLedger(s: State, c: Connection, drawn: LeaseId)
    requires Enabled(s, Check(c, drawn)) && Ledger(s)
    ensures Ledger(Next(s, Check(c, drawn)))
  {
    hide Ledger, Refusal;
    var s', n := Next(s, Check(c, drawn)), s.sessions[c].number;
    if s'.sessions[c].Ready? {
      var code := s'.books.answered[|s.books.answered|].code;
      assert s'.books.answered == s.books.answered + [Answer(n, code)];
      SettleKeepsLedger(s, s', c);
    } else {
      MoveKeepsLedger(s, s', c);
    }
  }

  lemma EnqueueKeepsLedger(s: State, c: Connection)
    requires Enabled(s, Enqueue(c)) && Ledger(s)
    ensures Ledger(Next(s, Enqueue(c)))
  {
    assert PendingFresh(s, c);
    hide Ledger;
    var s', n := Next(s, Enqueue(c)), s.sessions[c].number;
    if s'.books.accepted == s.books.accepted {
      assert s'.books.answered == s.books.answered + [Answer(n, BridgeNotReady)];
    } else {
      assert s'.books.accepted == s.books.accepted + [s.sessions[c].command];
    }
    SettleKeepsLedger(s, s', c);
  }

  lemma StepLedger(s: State, a: Action)
    requires Enabled(s, a) && Ledger(s)
    ensures Ledger(Next(s, a))
  {
    hide Ledger;
    var s' := Next(s, a);
    match a
    case Check(c, drawn) => CheckKeepsLedger(s, c, drawn);
    case Enqueue(c) => EnqueueKeepsLedger(s, c);
    case Receive(c, _) => MoveKeepsLedger(s, s', c);
    case Connect(c) => ComeAndGoKeepsLedger(s, s', c);
    case Disconnect(c) => ComeAndGoKeepsLedger(s, s', c);
    case _ => QuietKeepsLedger(s, s');
  }

  lemma QuietKeepsLedger(s: State, s': State)
    requires Ledger(s) && s'.books.answered == s.books.answered && s'.books.accepted == s.books.accepted
      && s'.books.received == s.books.received && s'.sessions == s.sessions
    ensures Ledger(s')
  {
    assert forall c :: c in s.sessions && PendingFresh(s, c) ==> PendingFresh(s', c);
    assert forall n: nat :: Answered(s, n) <==> Answered(s', n);
    assert forall n: nat :: Accepted(s, n) <==> Accepted(s', n);
    assert forall n: nat :: Pending(s, n) <==> Pending(s', n);
  }

  ghost predicate Kept(s: State) {
    QueueOk(s) && RepliesOk(s) && DropsOk(s) && Ledger(s)
  }

  lemma {:induction false} RunKeeps(actions: seq<Action>, now: int, ttl: int)
    requires Run(actions, now, ttl).Some?
    ensures Kept(Run(actions, now, ttl).value)
  {
    if actions != [] {
      hide Next, Enabled, QueueOk, RepliesOk, DropsOk, Ledger;
      var before, a := actions[..|actions| - 1], actions[|actions| - 1];
      var s := Run(before, now, ttl).value;
      RunKeeps(before, now, ttl);
      StepQueueOk(s, a);
      StepLedger(s, a);
    }
  }

  /** How many of the numbers up to `end` are `n`. */
  function CountAnswers(answered: seq<Answer>, n: nat): nat {
    if answered == [] then 0
    else CountAnswers(answered[..|answered| - 1], n) + if answered[|answered| - 1].request == n then 1 else 0
  }

  function CountAccepted(accepted: seq<Command>, n: nat): nat {
    if accepted == [] then 0
    else CountAccepted(accepted[..|accepted| - 1], n) + if accepted[|accepted| - 1].request == n then 1 else 0
  }

  lemma {:induction false} AnsweredCount(answered: seq<Answer>, n: nat)
    requires forall i, j :: 0 <= i < j < |answered| ==> answered[i].request != answered[j].request
    ensures CountAnswers(answered, n) == if exists i :: 0 <= i < |answered| && answered[i].request == n then 1 else 0
  {
    if answered != [] {
      var m := |answered| - 1;
      AnsweredCount(answered[..m], n);
      assert forall i :: 0 <= i < m ==> answered[..m][i] == answered[i];
    }
  }

  lemma {:induction false} AcceptedCount(accepted: seq<Command>, n: nat)
    requires forall i, j :: 0 <= i < j < |accepted| ==> accepted[i].request != accepted[j].request
    ensures CountAccepted(accepted, n) == if exists i :: 0 <= i < |accepted| && accepted[i].request == n then 1 else 0
  {
    if accepted != [] {
      var m := |accepted| - 1;
      AcceptedCount(accepted[..m], n);
      assert forall i :: 0 <= i < m ==> accepted[..m][i] == accepted[i];
    }
  }

  /** In every interleaving, each request received is answered at once exactly once, or
      queued exactly once, or still in its session's hands: one of the three, never two. */
  lemma SettledExactlyOnce(actions: seq<Action>, now: int, ttl: int, n: nat)
    requires Run(actions, now, ttl).Some? && n < Run(actions, now, ttl).value.books.received
    ensures var s := Run(actions, now, ttl).value;
      CountAnswers(s.books.answered, n) + CountAccepted(s.books.accepted, n) == if Pending(s, n) then 0 else 1
  {
    RunKeeps(actions, now, ttl);
    var s := Run(actions, now, ttl).value;
    AnsweredCount(s.books.answered, n);
    AcceptedCount(s.books.accepted, n);
    if Pending(s, n) {
      var c :| c in s.sessions && Busy(s.sessions[c]) && s.sessions[c].number == n;
      assert PendingFresh(s, c);
    } else {
      assert Answered(s, n) || Accepted(s, n);
    }
  }

  /** In every interleaving, each accepted command is still queued, or was popped once and
      has exactly one reply, or is in the UI thread's hands, or was dropped by a stop of the
      plugin without a reply. Replies are given in the order in which commands were accepted,
      and a stop drops only the commands accepted after all those. */
  lemma RepliedInOrder(actions: seq<Action>, now: int, ttl: int)
    requires Run(actions, now, ttl).Some?
    ensures var s := Run(actions, now, ttl).value;
      && s.books.popped <= |s.books.accepted| && s.queue == s.books.accepted[s.books.popped..]
      && |s.books.replied| + |s.shutdown.dropped| + (if s.ui.pump.Idle? then 0 else 1) == s.books.popped
      && (!s.ui.pump.Idle? ==> s.shutdown.dropped == [] && s.ui.pump.command == s.books.accepted[s.books.popped - 1])
      && (s.shutdown.dropped != []
         ==> s.shutdown.stopping && s.shutdown.dropped == s.books.accepted[|s.books.replied|..s.books.popped])
      && forall i :: 0 <= i < |s.books.replied| ==> s.books.replied[i].request == s.books.accepted[i].request
  {
    RunKeeps(actions, now, ttl);
    hide Ledger;
  }

  /** The first three steps of a request: received, checked, queued. */
  function Submitted(s: State, c: Connection, r: Request, drawn: LeaseId): Option<State> {
    if !Enabled(s, Receive(c, r)) then None else
    var s1 := Next(s, Receive(c, r));
    if !Enabled(s1, Check(c, drawn)) then None else
    var s2 := Next(s1, Check(c, drawn));
    if !Enabled(s2, Enqueue(c)) then None else Some(Next(s2, Enqueue(c)))
  }

  /** The next frame's steps up to carrying the oldest command out. */
  function Drained(s: State): Option<State> {
    if !Enabled(s, BeginFrame) then None else
    var s1 := Next(s, BeginFrame);
    if !Enabled(s1, Pop) then None else
    var s2 := Next(s1, Pop);
    if !Enabled(s2, CheckDeadline) then None else
    var s3 := Next(s2, CheckDeadline);
    if !Enabled(s3, Recheck) then None else Some(Next(s3, Recheck))
  }

  /** The checks refuse nobody they should not: the writer's well-formed mutating request,
      undisturbed, reaches execution. */
  lemma WritersCommandRuns(s: State, c: Connection, r: Request, drawn: LeaseId)
    requires c in s.sessions && s.sessions[c].Ready? && IsWriterOf(s.holder, c, s.now) && drawn !in s.issuedAt
    requires r.call.Mutating? && Refusal(r).None? && r.shapeOk
    requires s.pumpAttached && s.queue == [] && s.ui.pump.Idle? && !s.shutdown.stopping && !s.shutdown.queueClosed
    ensures var q := Submitted(s, c, r, drawn);
      && q.Some? && Drained(q.value).Some?
      && Drained(q.value).value.ui.pump == Executing(CommandOf(s.holder, c, s.books.received, r, s.now, s.steps + 1))
  {
    DrainedIs(Submitted(s, c, r, drawn).value);
    hide Submitted, Drained;
  }

  lemma DrainedIs(s: State)
    requires s.ui.pump.Idle? && !s.shutdown.stopping && |s.queue| == 1 && s.now <= s.queue[0].deadlineAt
      && StillValid(s.holder, s.now, s.queue[0])
    ensures Drained(s).Some? && Drained(s).value.ui.pump == Executing(s.queue[0])
  {}
}
