/** The single-use confirmation of a load, clear or restore, and the commits that use it.
    Commits run as coroutines: between two awaits a commit runs alone, and at every await
    any other commit, preview or clock tick may come in between. Identifiers, paths and
    fingerprints are only compared, so numbers stand for them; a token's signature is
    genuine or not, and cannot be made without the server's key. */
module LoadTokens {
  import opened Basics

  const CONFIRMATION_LIFETIME_MS := 300000

  type TokenId(==, !new)

  datatype Kind = Load | Clear | Restore

  datatype Instance = Instance(instanceId: int, sessionId: int)

  /** What a preview described, and so what its confirmation stands for. */
  datatype Binding = Binding(instance: Instance, kind: Kind, path: Option<int>, patchEpoch: int, fingerprint: int)

  datatype Held = Held(binding: Binding, expiresAt: int)

  datatype Token = Malformed | Token(id: TokenId, genuine: bool)

  datatype Refusal = ConfirmationRequired | ConfirmationExpired

  datatype Result<T> = Ok(value: T) | Err(error: Refusal)

  type Table = map<TokenId, Held>

  function Pruned(t: Table, now: int): Table {
    map id | id in t && t[id].expiresAt >= now :: t[id]
  }

  function Minted(t: Table, id: TokenId, binding: Binding, now: int): Table {
    Pruned(t, now)[id := Held(binding, now + CONFIRMATION_LIFETIME_MS)]
  }

  /** Looks a token up; one that is found expired is forgotten. */
  function LookedUp(t: Table, token: Token, now: int): (Table, Result<Binding>) {
    if token.Malformed? || !token.genuine then (t, Err(ConfirmationRequired))
    else if token.id !in t then (t, Err(ConfirmationExpired))
    else if now > t[token.id].expiresAt then (t - {token.id}, Err(ConfirmationExpired))
    else (t, Ok(t[token.id].binding))
  }

  function Consumed(t: Table, token: Token, now: int): (Table, Result<Binding>) {
    var (t', r) := LookedUp(t, token, now);
    (if r.Ok? then t' - {token.id} else t', r)
  }

  class TokenStore {
    var bindings: Table

    constructor ()
      ensures bindings == map[]
    {
      bindings := map[];
    }

    /** `id` is freshly drawn. */
    method Mint(id: TokenId, binding: Binding, now: int) returns (token: Token)
      modifies this
      ensures bindings == Minted(old(bindings), id, binding, now) && token == Token(id, true)
    {
      var keys := bindings.Keys;
      while keys != {}
        invariant keys <= old(bindings).Keys
        invariant forall k :: k in bindings <==> k in old(bindings) && (k in keys || old(bindings)[k].expiresAt >= now)
        invariant forall k :: k in bindings ==> bindings[k] == old(bindings)[k]
        decreases |keys|
      {
        var k :| k in keys;
        keys := keys - {k};
        if bindings[k].expiresAt < now {
          bindings := bindings - {k};
        }
      }
      assert bindings == Pruned(old(bindings), now);
      bindings := bindings[id := Held(binding, now + CONFIRMATION_LIFETIME_MS)];
      return Token(id, true);
    }

    method Lookup(token: Token, now: int) returns (r: Result<Binding>)
      modifies this
      ensures (bindings, r) == LookedUp(old(bindings), token, now)
    {
      if token.Malformed? || !token.genuine {
        return Err(ConfirmationRequired);
      }
      if token.id !in bindings {
        return Err(ConfirmationExpired);
      }
      var held := bindings[token.id];
      if now > held.expiresAt {
        bindings := bindings - {token.id};
        return Err(ConfirmationExpired);
      }
      return Ok(held.binding);
    }

    method Consume(token: Token, now: int) returns (r: Result<Binding>)
      modifies this
      ensures (bindings, r) == Consumed(old(bindings), token, now)
    {
      r := Lookup(token, now);
      if r.Ok? {
        bindings := bindings - {token.id};
      }
    }
  }

  // ----- the commit coroutine -----

  /** Where a commit waits: for the connection, for the live fingerprint, for the writer
      lease, for the recovery copy; or it has ended. `instance` is the one it connected to. */
  datatype Phase =
    | Connecting
    | Checking(instance: Instance, binding: Binding)
    | Leasing(instance: Instance, binding: Binding)
    | Saving(instance: Instance, binding: Binding)
    | Ended

  datatype Call = Call(kind: Kind, token: Token, expectedPath: Option<int>, phase: Phase)

  /** What a commit observed or did at the bridge. */
  datatype Event =
    | LiveIs(call: int, patchEpoch: int, fingerprint: int)
    | CopySaved(call: int)
    | Destroyed(call: int, tokenId: TokenId, kind: Kind, path: Option<int>, scope: Instance, at: int)

  datatype State = State(now: int, table: Table, minted: map<TokenId, Held>, calls: map<int, Call>, log: seq<Event>)

  datatype Action =
    | Tick(now: int)
    | Preview(id: TokenId, binding: Binding)
    | Begin(call: int, kind: Kind, token: Token, expectedPath: Option<int>)
    | Connected(call: int, instance: Instance)
    | GotFingerprint(call: int, patchEpoch: int, fingerprint: int)
    | GotLease(call: int)
    | CopyReply(call: int, saved: bool, pathAllowed: bool)
    | Failed(call: int)

  const START := State(0, map[], map[], map[], [])

  function At(s: State, c: int, phase: Phase): State
    requires c in s.calls
  {
    s.(calls := s.calls[c := s.calls[c].(phase := phase)])
  }

  function Verify(s: State, c: int, instance: Instance): State
    requires c in s.calls
  {
    var call := s.calls[c];
    var (t, r) := LookedUp(s.table, call.token, s.now);
    var s' := s.(table := t);
    if r.Err? || r.value.kind != call.kind || r.value.instance != instance then At(s', c, Ended)
    else if call.expectedPath.Some? && r.value.path != call.expectedPath then At(s', c, Ended)
    else At(s', c, Checking(instance, r.value))
  }

  function Check(s: State, c: int, epoch: int, fingerprint: int): State
    requires c in s.calls && s.calls[c].phase.Checking?
  {
    var b := s.calls[c].phase.binding;
    var s' := s.(log := s.log + [LiveIs(c, epoch, fingerprint)]);
    At(s', c, if epoch == b.patchEpoch && fingerprint == b.fingerprint then Leasing(s.calls[c].phase.instance, b)
      else Ended)
  }

  /** After the recovery copy: burns the token, then sends the destructive request, with no
      await in between. A load's path is checked again after the burning. */
  function Replace(s: State, c: int, pathAllowed: bool): State
    requires c in s.calls && s.calls[c].phase.Saving?
  {
    var call := s.calls[c];
    var (t, r) := Consumed(s.table, call.token, s.now);
    var s' := At(s.(table := t, log := s.log + [CopySaved(c)]), c, Ended);
    if r.Err? || call.token.Malformed? || (!call.kind.Clear? && !pathAllowed) then s'
    else s'.(log := s'.log + [Destroyed(c, call.token.id, call.kind, call.phase.binding.path, call.phase.instance,
      s.now)])
  }

  /** The clock does not go back, and a drawn token id and a call's number are new. */
  predicate Enabled(s: State, a: Action) {
    match a
    case Tick(now) => s.now <= now
    case Preview(id, _) => id !in s.minted
    case Begin(c, _, _, _) => c !in s.calls
    case Connected(c, _) => c in s.calls && s.calls[c].phase.Connecting?
    case GotFingerprint(c, _, _) => c in s.calls && s.calls[c].phase.Checking?
    case GotLease(c) => c in s.calls && s.calls[c].phase.Leasing?
    case CopyReply(c, _, _) => c in s.calls && s.calls[c].phase.Saving?
    case Failed(c) => c in s.calls
  }

  function Next(s: State, a: Action): State
    requires Enabled(s, a)
  {
    match a
    case Tick(now) => s.(now := now)
    case Preview(id, b) =>
      s.(table := Minted(s.table, id, b, s.now), minted := s.minted[id := Held(b, s.now + CONFIRMATION_LIFETIME_MS)])
    case Begin(c, kind, token, path) => s.(calls := s.calls[c := Call(kind, token, path, Connecting)])
    case Connected(c, instance) => Verify(s, c, instance)
    case GotFingerprint(c, epoch, fingerprint) => Check(s, c, epoch, fingerprint)
    case GotLease(c) => At(s, c, Saving(s.calls[c].phase.instance, s.calls[c].phase.binding))
    case CopyReply(c, saved, pathAllowed) => if saved then Replace(s, c, pathAllowed) else At(s, c, Ended)
    case Failed(c) => At(s, c, Ended)
  }

  /** The state after the actions, if each of them could happen when it did. */
  function Run(actions: seq<Action>): Option<State> {
    if actions == [] then Some(START)
    else
      match Run(actions[..|actions| - 1])
      case None => None
      case Some(s) => if Enabled(s, actions[|actions| - 1]) then Some(Next(s, actions[|actions| - 1])) else None
  }

  // ----- safety -----

  /** Every binding still held is the one its id was minted with. */
  ghost predicate TableOk(s: State) {
    forall id :: id in s.table ==> id in s.minted && s.table[id] == s.minted[id]
  }

  /** The call's token was minted with this binding, which fits the call. */
  ghost predicate Fits(minted: map<TokenId, Held>, call: Call, b: Binding) {
    && call.token.Token? && call.token.id in minted && minted[call.token.id].binding == b
    && call.kind == b.kind && (call.expectedPath.Some? ==> b.path == call.expectedPath)
  }

  ghost predicate Saw(log: seq<Event>, c: int, b: Binding, before: nat) {
    exists i :: 0 <= i < before && i < |log| && log[i] == LiveIs(c, b.patchEpoch, b.fingerprint)
  }

  ghost predicate CallOk(s: State, c: int)
    requires c in s.calls
  {
    var call := s.calls[c];
    match call.phase
    case Connecting => true
    case Checking(i, b) => Fits(s.minted, call, b) && i == b.instance
    case Leasing(i, b) => Fits(s.minted, call, b) && i == b.instance && Saw(s.log, c, b, |s.log|)
    case Saving(i, b) => Fits(s.minted, call, b) && i == b.instance && Saw(s.log, c, b, |s.log|)
    case Ended => true
  }

  ghost predicate CallsOk(s: State) {
    forall c :: c in s.calls ==> CallOk(s, c)
  }

  /** The destructive request at `k` carries out what its token was minted for, within its
      lifetime, after its own call saw the described patch live and saved a copy of it. */
  ghost predicate Justified(s: State, k: nat)
    requires k < |s.log| && s.log[k].Destroyed?
  {
    var e := s.log[k];
    && e.tokenId in s.minted && e.at <= s.minted[e.tokenId].expiresAt
    && e.kind == s.minted[e.tokenId].binding.kind && e.path == s.minted[e.tokenId].binding.path
    && e.scope == s.minted[e.tokenId].binding.instance
    && k > 0 && s.log[k - 1] == CopySaved(e.call) && Saw(s.log, e.call, s.minted[e.tokenId].binding, k - 1)
  }

  ghost predicate AllJustified(s: State) {
    forall k :: 0 <= k < |s.log| && s.log[k].Destroyed? ==> Justified(s, k)
  }

  /** A token that destroyed is no longer held, and destroyed once. */
  ghost predicate UsedOnce(s: State) {
    && (forall k :: 0 <= k < |s.log| && s.log[k].Destroyed? ==>
       s.log[k].tokenId !in s.table && s.log[k].tokenId in s.minted)
    && (forall j, k :: 0 <= j < k < |s.log| && s.log[j].Destroyed? && s.log[k].Destroyed? ==>
       s.log[j].tokenId != s.log[k].tokenId)
  }

  ghost predicate Safe(s: State) {
    TableOk(s) && CallsOk(s) && AllJustified(s) && UsedOnce(s)
  }

  /** Growing the log and the minted ids keeps what was seen and justified. */
  ghost predicate Grows(s: State, s': State) {
    && |s.log| <= |s'.log| && s'.log[..|s.log|] == s.log
    && forall id :: id in s.minted ==> id in s'.minted && s'.minted[id] == s.minted[id]
  }

  lemma SawGrows(s: State, s': State, c: int, b: Binding, before: nat)
    requires Grows(s, s') && Saw(s.log, c, b, before)
    ensures Saw(s'.log, c, b, before)
  {
    var i :| 0 <= i < before && i < |s.log| && s.log[i] == LiveIs(c, b.patchEpoch, b.fingerprint);
    assert s'.log[i] == s'.log[..|s.log|][i];
  }

  lemma JustifiedGrows(s: State, s': State, k: nat)
    requires Grows(s, s') && k < |s.log| && s.log[k].Destroyed? && Justified(s, k)
    ensures s'.log[k] == s.log[k] && Justified(s', k)
  {
    assert s'.log[k] == s'.log[..|s.log|][k] && s'.log[k - 1] == s'.log[..|s.log|][k - 1];
    SawGrows(s, s', s.log[k].call, s.minted[s.log[k].tokenId].binding, k - 1);
  }

  lemma CallGrows(s: State, s': State, c: int)
    requires Grows(s, s') && c in s.calls && c in s'.calls && s'.calls[c] == s.calls[c] && CallOk(s, c)
    ensures CallOk(s', c)
  {
    var call := s.calls[c];
    if call.phase.Leasing? || call.phase.Saving? {
      SawGrows(s, s', c, call.phase.binding, |s.log|);
    }
  }

  /** A step that changes one call and destroys nothing. */
  lemma QuietStep(s: State, s': State, c: int)
    requires Safe(s) && Grows(s, s') && TableOk(s')
    requires forall k :: |s.log| <= k < |s'.log| ==> !s'.log[k].Destroyed?
    requires forall id :: id in s'.table ==> id in s.table || id !in s.minted
    requires forall d :: d in s'.calls && d != c ==> d in s.calls && s'.calls[d] == s.calls[d]
    requires c in s'.calls ==> CallOk(s', c)
    ensures Safe(s')
  {
    forall d | d in s'.calls
      ensures CallOk(s', d)
    {
      if d != c {
        CallGrows(s, s', d);
      }
    }
    assert forall k :: 0 <= k < |s.log| ==> s'.log[k] == s'.log[..|s.log|][k];
    forall k | 0 <= k < |s'.log| && s'.log[k].Destroyed?
      ensures Justified(s', k)
    {
      JustifiedGrows(s, s', k);
    }
  }

  lemma VerifyKeepsSafe(s: State, c: int, instance: Instance)
    requires Safe(s) && c in s.calls
    ensures Safe(Verify(s, c, instance))
  {
    QuietStep(s, Verify(s, c, instance), c);
  }

  lemma CheckKeepsSafe(s: State, c: int, epoch: int, fingerprint: int)
    requires Safe(s) && c in s.calls && s.calls[c].phase.Checking?
    ensures Safe(Check(s, c, epoch, fingerprint))
  {
    var s' := Check(s, c, epoch, fingerprint);
    assert s'.log[|s.log|] == LiveIs(c, epoch, fingerprint);
    assert CallOk(s, c);
    QuietStep(s, s', c);
  }

  /** The destructive step: the token was held a moment before and is not any more. */
  lemma ReplaceKeepsSafe(s: State, c: int, pathAllowed: bool)
    requires Safe(s) && c in s.calls && s.calls[c].phase.Saving?
    ensures Safe(Replace(s, c, pathAllowed))
  {
    var call, s' := s.calls[c], Replace(s, c, pathAllowed);
    var (t, r) := Consumed(s.table, call.token, s.now);
    var quiet := At(s.(table := t, log := s.log + [CopySaved(c)]), c, Ended);
    assert CallOk(s, c);
    QuietStep(s, quiet, c);
    if s' != quiet {
      DestroyKeepsSafe(s, quiet, s', c);
    }
  }

  lemma DestroyKeepsSafe(s: State, quiet: State, s': State, c: int)
    requires Safe(s) && Safe(quiet) && c in s.calls && s.calls[c].phase.Saving? && s.calls[c].token.Token?
    requires Grows(s, quiet) && quiet.log == s.log + [CopySaved(c)] && quiet.minted == s.minted
    requires var id := s.calls[c].token.id; id in s.table && id !in quiet.table && s.now <= s.table[id].expiresAt
    requires var call := s.calls[c];
      s' == quiet.(log := quiet.log + [Destroyed(c, call.token.id, call.kind, call.phase.binding.path,
        call.phase.instance, s.now)])
    ensures Safe(s')
  {
    var call, last := s.calls[c], |quiet.log|;
    assert CallOk(s, c);
    SawGrows(s, s', c, call.phase.binding, |s.log|);
    forall d | d in s'.calls
      ensures CallOk(s', d)
    {
      CallGrows(quiet, s', d);
    }
    forall k | 0 <= k < |s'.log| && s'.log[k].Destroyed?
      ensures Justified(s', k)
    {
      if k < last {
        JustifiedGrows(quiet, s', k);
      } else {
        assert s'.log[k - 1] == CopySaved(c);
      }
    }
    forall k | 0 <= k < last && s'.log[k].Destroyed?
      ensures s'.log[k].tokenId != call.token.id
    {
      assert k < |s.log| && s'.log[k] == s.log[k];
    }
  }

  lemma PreviewKeepsSafe(s: State, id: TokenId, binding: Binding)
    requires Safe(s) && id !in s.minted
    ensures Safe(Next(s, Preview(id, binding)))
  {
    QuietStep(s, Next(s, Preview(id, binding)), -1);
  }

  lemma MoveKeepsSafe(s: State, c: int, phase: Phase)
    requires Safe(s) && c in s.calls && (phase.Ended?
      || (s.calls[c].phase.Leasing? && phase == Saving(s.calls[c].phase.instance, s.calls[c].phase.binding)))
    ensures Safe(At(s, c, phase))
  {
    assert CallOk(s, c);
    QuietStep(s, At(s, c, phase), c);
  }

  lemma NextKeepsSafe(s: State, a: Action)
    requires Safe(s) && Enabled(s, a)
    ensures Safe(Next(s, a))
  {
    match a
    case Tick(_) => QuietStep(s, Next(s, a), -1);
    case Preview(id, binding) => PreviewKeepsSafe(s, id, binding);
    case Begin(c, _, _, _) => QuietStep(s, Next(s, a), c);
    case Connected(c, instance) => VerifyKeepsSafe(s, c, instance);
    case GotFingerprint(c, epoch, fingerprint) => CheckKeepsSafe(s, c, epoch, fingerprint);
    case GotLease(c) => MoveKeepsSafe(s, c, Saving(s.calls[c].phase.instance, s.calls[c].phase.binding));
    case CopyReply(c, saved, pathAllowed) =>
      if saved {
        ReplaceKeepsSafe(s, c, pathAllowed);
      } else {
        MoveKeepsSafe(s, c, Ended);
      }
    case Failed(c) => MoveKeepsSafe(s, c, Ended);
  }

  lemma {:induction false} RunIsSafe(actions: seq<Action>, s: State)
    requires Run(actions) == Some(s)
    ensures Safe(s)
  {
    if actions != [] {
      hide Safe, Next;
      var before := Run(actions[..|actions| - 1]).value;
      RunIsSafe(actions[..|actions| - 1], before);
      NextKeepsSafe(before, actions[|actions| - 1]);
    } else {
      assert Safe(START);
    }
  }

  /** In every interleaving, each token leads to at most one destructive request. */
  lemma OneDestructionPerToken(actions: seq<Action>, s: State, j: nat, k: nat)
    requires Run(actions) == Some(s) && j < |s.log| && k < |s.log| && s.log[j].Destroyed? && s.log[k].Destroyed?
    requires s.log[j].tokenId == s.log[k].tokenId
    ensures j == k
  {
    RunIsSafe(actions, s);
  }

  /** The reply that shows the live patch to be the one the request's preview described. */
  ghost function Described(s: State, e: Event): Event
    requires e.Destroyed? && e.tokenId in s.minted
  {
    LiveIs(e.call, s.minted[e.tokenId].binding.patchEpoch, s.minted[e.tokenId].binding.fingerprint)
  }

  /** In every interleaving, each destructive request does what its token's preview said,
      on the instance it was said of, within the token's lifetime, and follows, in its own call,
      a reply showing the patch that the preview described and then a successful recovery copy. */
  lemma DestructionIsJustified(actions: seq<Action>, s: State, k: nat)
    requires Run(actions) == Some(s) && k < |s.log| && s.log[k].Destroyed?
    ensures var e := s.log[k];
      && e.tokenId in s.minted && e.at <= s.minted[e.tokenId].expiresAt
      && (e.kind, e.path) == (s.minted[e.tokenId].binding.kind, s.minted[e.tokenId].binding.path)
      && e.scope == s.minted[e.tokenId].binding.instance
      && exists i, j :: 0 <= i < j < k && s.log[i] == Described(s, e) && s.log[j] == CopySaved(e.call)
  {
    RunIsSafe(actions, s);
    assert Justified(s, k);
    var e := s.log[k];
    var b := s.minted[e.tokenId].binding;
    var i :| 0 <= i < k - 1 && i < |s.log| && s.log[i] == LiveIs(e.call, b.patchEpoch, b.fingerprint);
    assert s.log[k - 1] == CopySaved(e.call);
  }

  /** The steps of one commit that nothing disturbs. */
  function Alone(s: State, c: int, kind: Kind, token: Token, expectedPath: Option<int>, b: Binding): Option<State> {
    var begin := Begin(c, kind, token, expectedPath);
    if !Enabled(s, begin) then None else
    var s1 := Next(s, begin);
    if !Enabled(s1, Connected(c, b.instance)) then None else
    var s2 := Next(s1, Connected(c, b.instance));
    if !Enabled(s2, GotFingerprint(c, b.patchEpoch, b.fingerprint)) then None else
    var s3 := Next(s2, GotFingerprint(c, b.patchEpoch, b.fingerprint));
    if !Enabled(s3, GotLease(c)) then None else
    var s4 := Next(s3, GotLease(c));
    if !Enabled(s4, CopyReply(c, true, true)) then None else Some(Next(s4, CopyReply(c, true, true)))
  }

  /** The same, as far as the checks: the commit has passed them and asks for the lease. */
  lemma CheckedAlone(s: State, c: int, id: TokenId, expectedPath: Option<int>)
    requires c !in s.calls && id in s.table && s.now <= s.table[id].expiresAt
    requires expectedPath.None? || expectedPath == s.table[id].binding.path
    ensures var b, token := s.table[id].binding, Token(id, true);
      var s1 := Next(s, Begin(c, b.kind, token, expectedPath));
      && Enabled(s1, Connected(c, b.instance))
      && Enabled(Next(s1, Connected(c, b.instance)), GotFingerprint(c, b.patchEpoch, b.fingerprint))
      && var s3 := Next(Next(s1, Connected(c, b.instance)), GotFingerprint(c, b.patchEpoch, b.fingerprint));
      && c in s3.calls && s3.calls[c] == Call(b.kind, token, expectedPath, Leasing(b.instance, b))
      && s3.log == s.log + [LiveIs(c, b.patchEpoch, b.fingerprint)] && s3.now == s.now && s3.table == s.table
  {}

  /** The checks refuse nobody they should not: a commit alone, with a genuine token that is
      still held, no path expected or the token's own, and the described patch still live,
      carries out what was previewed, and the token is spent. */
  lemma UndisturbedCommitSucceeds(s: State, c: int, id: TokenId, expectedPath: Option<int>)
    requires c !in s.calls && id in s.table && s.now <= s.table[id].expiresAt
    requires expectedPath.None? || expectedPath == s.table[id].binding.path
    ensures var b := s.table[id].binding;
      var r := Alone(s, c, b.kind, Token(id, true), expectedPath, b);
      && r.Some? && id !in r.value.table
      && r.value.log == s.log
        + [LiveIs(c, b.patchEpoch, b.fingerprint), CopySaved(c), Destroyed(c, id, b.kind, b.path, b.instance, s.now)]
  {
    hide Verify, Check, Minted;
    CheckedAlone(s, c, id, expectedPath);
  }

  // ----- a token stays until it is spent or too old -----

  /** No commit with this token has got as far as its saved recovery copy. */
  ghost predicate Unspent(s: State, id: TokenId) {
    forall k :: 0 <= k < |s.log| && s.log[k].CopySaved? && s.log[k].call in s.calls ==>
      s.calls[s.log[k].call].token != Token(id, true)
  }

  /** Only a commit whose token was minted gets as far as a saved copy. */
  ghost predicate CopiesKnown(s: State) {
    forall k :: 0 <= k < |s.log| && s.log[k].CopySaved? ==>
      && s.log[k].call in s.calls
      && s.calls[s.log[k].call].token.Token? && s.calls[s.log[k].call].token.id in s.minted
  }

  /** What is held was minted and is unspent, and what was minted is held until it is too old
      or spent. */
  ghost predicate HeldExactly(s: State, id: TokenId) {
    && (id in s.table ==> id in s.minted && s.table[id] == s.minted[id] && Unspent(s, id))
    && (id in s.minted && s.now <= s.minted[id].expiresAt && Unspent(s, id) ==> id in s.table)
  }

  /** A step that saves no copy and changes no call's token leaves what is spent as it was. */
  lemma SameSpent(s: State, s': State, id: TokenId)
    requires CopiesKnown(s) && Grows(s, s')
    requires forall k :: |s.log| <= k < |s'.log| ==> !s'.log[k].CopySaved?
    requires forall c :: c in s.calls ==> c in s'.calls && s'.calls[c].token == s.calls[c].token
    ensures CopiesKnown(s') && (Unspent(s', id) <==> Unspent(s, id))
  {
    assert forall k :: 0 <= k < |s.log| ==> s'.log[k] == s'.log[..|s.log|][k];
  }

  /** Saving a copy spends the token of its call, and no other. */
  lemma CopySpends(s: State, c: int, pathAllowed: bool, id: TokenId)
    requires Safe(s) && CopiesKnown(s) && c in s.calls && s.calls[c].phase.Saving?
    ensures var s' := Replace(s, c, pathAllowed);
      CopiesKnown(s') && (Unspent(s', id) <==> Unspent(s, id) && s.calls[c].token != Token(id, true))
  {
    var s' := Replace(s, c, pathAllowed);
    assert CallOk(s, c);
    assert forall k :: 0 <= k < |s.log| ==> s'.log[k] == s.log[k];
    assert s'.log[|s.log|] == CopySaved(c);
  }

  lemma NewIsUnspent(s: State, id: TokenId)
    requires CopiesKnown(s) && id !in s.minted
    ensures Unspent(s, id)
  {}

  lemma PreviewHolds(s: State, drawn: TokenId, binding: Binding, id: TokenId)
    requires CopiesKnown(s) && HeldExactly(s, id) && drawn !in s.minted
    ensures CopiesKnown(Next(s, Preview(drawn, binding))) && HeldExactly(Next(s, Preview(drawn, binding)), id)
  {
    hide Unspent;
    SameSpent(s, Next(s, Preview(drawn, binding)), id);
    NewIsUnspent(s, drawn);
  }

  lemma VerifyHolds(s: State, c: int, instance: Instance, id: TokenId)
    requires CopiesKnown(s) && HeldExactly(s, id) && c in s.calls
    ensures CopiesKnown(Verify(s, c, instance)) && HeldExactly(Verify(s, c, instance), id)
  {
    hide Unspent;
    SameSpent(s, Verify(s, c, instance), id);
  }

  lemma ReplaceHolds(s: State, c: int, pathAllowed: bool, id: TokenId)
    requires Safe(s) && CopiesKnown(s) && HeldExactly(s, id) && c in s.calls && s.calls[c].phase.Saving?
    ensures CopiesKnown(Replace(s, c, pathAllowed)) && HeldExactly(Replace(s, c, pathAllowed), id)
  {
    hide Unspent, Safe;
    CopySpends(s, c, pathAllowed, id);
  }

  lemma StepHolds(s: State, a: Action, id: TokenId)
    requires Safe(s) && CopiesKnown(s) && HeldExactly(s, id) && Enabled(s, a)
    ensures CopiesKnown(Next(s, a)) && HeldExactly(Next(s, a), id)
  {
    hide Safe, Unspent, CopiesKnown, Verify, Replace, Minted, Check;
    match a
    case Preview(drawn, binding) => PreviewHolds(s, drawn, binding, id);
    case Connected(c, instance) => VerifyHolds(s, c, instance, id);
    case CopyReply(c, saved, pathAllowed) =>
      if saved {
        ReplaceHolds(s, c, pathAllowed, id);
      } else {
        SameSpent(s, Next(s, a), id);
      }
    case GotFingerprint(c, epoch, fingerprint) => CheckHolds(s, c, epoch, fingerprint, id);
    case _ => SameSpent(s, Next(s, a), id);
  }

  lemma CheckHolds(s: State, c: int, epoch: int, fingerprint: int, id: TokenId)
    requires CopiesKnown(s) && HeldExactly(s, id) && c in s.calls && s.calls[c].phase.Checking?
    ensures CopiesKnown(Check(s, c, epoch, fingerprint)) && HeldExactly(Check(s, c, epoch, fingerprint), id)
  {
    hide Unspent;
    SameSpent(s, Check(s, c, epoch, fingerprint), id);
  }

  /** In every interleaving, a minted token that is not too old is held, with the very binding
      it was minted with, exactly until a commit with it has saved its recovery copy. Nothing
      else burns it: no other preview, no look-up, no failed commit. */
  lemma {:induction false} HeldUntilSpent(actions: seq<Action>, s: State, id: TokenId)
    requires Run(actions) == Some(s)
    ensures id in s.minted && s.now <= s.minted[id].expiresAt ==> (id in s.table <==> Unspent(s, id))
    ensures id in s.table ==> id in s.minted && s.table[id] == s.minted[id]
    ensures CopiesKnown(s) && HeldExactly(s, id)
  {
    if actions != [] {
      hide Safe, Next, Enabled, Unspent, CopiesKnown;
      var before := Run(actions[..|actions| - 1]).value;
      HeldUntilSpent(actions[..|actions| - 1], before, id);
      RunIsSafe(actions[..|actions| - 1], before);
      StepHolds(before, actions[|actions| - 1], id);
    } else {
      assert s == START;
    }
  }

  /** So in every interleaving a genuine token is accepted exactly if it was minted, is not too
      old and is unspent, and stands for what it was minted for. */
  lemma AcceptedIff(actions: seq<Action>, s: State, id: TokenId)
    requires Run(actions) == Some(s)
    ensures var r := LookedUp(s.table, Token(id, true), s.now).1;
      && (r.Ok? <==> id in s.minted && s.now <= s.minted[id].expiresAt && Unspent(s, id))
      && (r.Ok? ==> r.value == s.minted[id].binding)
  {
    hide Unspent, CopiesKnown;
    HeldUntilSpent(actions, s, id);
  }

  ghost predicate MintedAt(actions: seq<Action>, k: nat, id: TokenId, held: Held) {
    && k < |actions| && Run(actions[..k]).Some?
    && actions[k] == Preview(id, held.binding) && held.expiresAt == Run(actions[..k]).value.now + 300000
  }

  /** What a token was minted with is what some preview described, for five minutes from then. */
  lemma {:induction false} MintedIs(actions: seq<Action>, s: State, id: TokenId)
    requires Run(actions) == Some(s) && id in s.minted
    ensures exists k: nat :: MintedAt(actions, k, id, s.minted[id])
  {
    var n, a := |actions| - 1, actions[|actions| - 1];
    var before := Run(actions[..n]).value;
    if id in before.minted {
      MintedKept(before, a, id);
      MintedIs(actions[..n], before, id);
      var k: nat :| MintedAt(actions[..n], k, id, s.minted[id]);
      assert actions[..n][..k] == actions[..k];
      assert MintedAt(actions, k, id, s.minted[id]);
    } else {
      MintedKept(before, a, id);
      assert MintedAt(actions, n, id, s.minted[id]);
    }
  }

  lemma MintedKept(s: State, a: Action, id: TokenId)
    requires Enabled(s, a) && id in Next(s, a).minted
    ensures id in s.minted ==> Next(s, a).minted[id] == s.minted[id]
    ensures id !in s.minted ==>
      a.Preview? && a.id == id && Next(s, a).minted[id] == Held(a.binding, s.now + CONFIRMATION_LIFETIME_MS)
  {
    hide Minted, LookedUp, Consumed;
  }
}
