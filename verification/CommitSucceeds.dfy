/** When a commit of an accepted plan goes through: exactly what, besides the engine, can
    stop an operation that the preview accepted. */
module CommitSucceeds {
  import opened Basics
  import opened DecimalIds
  import opened Plan
  import opened Validation
  import opened PlanProperties
  import opened PlanRules
  import opened PlanChanges
  import opened Commit
  import opened CommitProperties
  import opened CommitEffects
  import Layout

  // ----- what can stand in the way -----

  /** The alias stands for a module that an earlier operation removed again. */
  ghost predicate MadeAndGone(ref: ModuleRef, p: Patch) {
    ref.ByAlias? && forall id :: Refers(ref, p.aliases, id) ==> id !in p.modules
  }

  /** A cable that the preview did not reckon with: one of the plan's own, or one that it
      listed as removed and that is still there. */
  ghost predicate Unforeseen(world: PlanWorld, st: Preview, p: Patch, c: PlanCable) {
    c in p.cables && (!HasCable(world.cables, c.id) || c.id in st.removals.cables)
  }

  ghost predicate FailsOnCable(op: Operation, world: PlanWorld, st: Preview, p: Patch)
    requires op.RemoveModule?
  {
    op.cablePolicy.FailIfAttached? &&
    exists id, c :: Refers(op.target, p.aliases, id) && Unforeseen(world, st, p, c) && Touches(c, id)
  }

  /** The plan's own cables cannot be what a connect that does not replace fails on: the
      preview refuses a second connect onto an input. */
  ghost predicate FailsOnInput(op: Operation, world: PlanWorld, st: Preview, p: Patch)
    requires op.Connect? && op.input.portId.Some?
  {
    !op.inputPolicy.ReplaceAll? &&
    exists id, c ::
      && Refers(op.input.target, p.aliases, id) && c in p.cables && HasCable(world.cables, c.id)
      && c.id in st.removals.cables && OnPort(c, id, Input, op.input.portId.value)
  }

  ghost predicate NoPanel(op: Operation, world: PlanWorld)
    requires op.MoveModule?
  {
    op.target.ByAlias? || forall id, self :: NamesModule(op.target, id) ==> !PanelOf(world, id, self)
  }

  /** What stops an operation that the preview accepted: a module of the plan's that is gone
      again, a "fail" policy that meets an unforeseen cable, or a field that the preview
      reads only for snapshot modules. */
  ghost predicate Obstructed(op: Operation, world: PlanWorld, st: Preview, p: Patch) {
    match op
    case RemoveModule(target, _, _) => MadeAndGone(target, p) || FailsOnCable(op, world, st, p)
    case SetParameter(target, paramId) => MadeAndGone(target, p) || (target.ByAlias? && paramId.None?)
    case MoveModule(target, _, _, _) => MadeAndGone(target, p) || (!OnGrid(op) && NoPanel(op, world))
    case Connect(output, input, _) =>
      || MadeAndGone(output.target, p) || MadeAndGone(input.target, p)
      || (input.portId.Some? && FailsOnInput(op, world, st, p))
    case DisconnectPort(port, _, _) => port.target.ByAlias? && port.portId.None?
    case SetBypass(target) => MadeAndGone(target, p)
    case ResetModule(target) => MadeAndGone(target, p)
    case RandomizeModule(target) => MadeAndGone(target, p)
    case _ => false
  }

  // ----- what a commit under way keeps, beyond following its preview -----

  ghost predicate SameInput(world: PlanWorld, named: map<string, int>, made: map<string, int>, shown: int,
          actual: int) {
    || (shown == actual && HasModule(world.modules, actual))
    || exists a :: a in named && a in made && named[a] == shown && made[a] == actual
  }

  /** The input of every cable of the plan's own is one that the preview holds for claimed. */
  ghost predicate OwnClaimed(world: PlanWorld, st: Preview, p: Patch) {
    forall c :: c in p.cables && !HasCable(world.cables, c.id) ==> c.hasInput && ClaimKnown(world, st, p.aliases, c)
  }

  ghost predicate ClaimKnown(world: PlanWorld, st: Preview, made: map<string, int>, c: PlanCable) {
    exists e :: e in st.removals.claimed && e.1 == c.inputId
      && SameInput(world, st.naming.aliases, made, e.0, c.inputModuleId)
  }

  ghost predicate AliasesApart(made: map<string, int>) {
    forall a, b :: a in made && b in made && made[a] == made[b] ==> a == b
  }

  ghost predicate InStep(world: PlanWorld, st: Preview, p: Patch, gone: seq<int>) {
    && Follows(world, st, p, gone) && AliasesFresh(st.naming) && OwnClaimed(world, st, p) && AliasesApart(p.aliases)
  }

  // ----- references, in the preview and in the commit -----

  /** A reference that the preview resolved: to the same snapshot module, or to an alias's. */
  lemma SameReference(world: PlanWorld, st: Preview, p: Patch, ref: ModuleRef, id: int)
    requires AliasesFollow(world, st.naming.aliases, p.aliases) && AliasesFresh(st.naming)
    requires Refers(ref, st.naming.aliases, id)
    ensures ref.ById? ==> id >= 0 && Refers(ref, p.aliases, id)
    ensures ref.ByAlias? ==>
      id < 0 && ref.alias in p.aliases && Refers(ref, p.aliases, p.aliases[ref.alias])
      && NewTo(world, p.aliases[ref.alias])
    ensures ref.ById? || ref.ByAlias?
  {
    hide Numeral, NewTo;
  }

  lemma StandingIsThere(world: PlanWorld, st: Preview, p: Patch, id: int)
    requires ModulesFollow(world.modules, st.removals.modules, p.modules) && Stands(world, st.removals, id)
    ensures id in p.modules
  {
    var m :| m in world.modules && m.id == id;
    var i :| 0 <= i < |world.modules| && world.modules[i] == m;
  }

  /** The commit finds the target of an accepted operation unless the plan removed it again. */
  lemma TargetFound(world: PlanWorld, st: Preview, p: Patch, ref: ModuleRef, id: int)
    requires AliasesFollow(world, st.naming.aliases, p.aliases) && AliasesFresh(st.naming)
    requires ModulesFollow(world.modules, st.removals.modules, p.modules)
    requires Refers(ref, st.naming.aliases, id) && (id < 0 || Stands(world, st.removals, id))
    ensures Resolve(ref, p.aliases).Some? && Refers(ref, p.aliases, Resolve(ref, p.aliases).value)
    ensures Resolve(ref, p.aliases).value in p.modules <==> !MadeAndGone(ref, p)
  {
    hide Resolve, NewTo;
    SameReference(world, st, p, ref, id);
    RefersOnce(ref, p.aliases);
    if ref.ById? {
      StandingIsThere(world, st, p, id);
    }
  }

  // ----- one operation -----

  lemma RemoveCarried(op: Operation, world: PlanWorld, st: Preview, p: Patch, gone: seq<int>)
    requires op.RemoveModule? && InStep(world, st, p, gone) && Allowed(op, world, st)
    ensures Taken(op, p).Some? <==> !Obstructed(op, world, st, p)
  {
    hide Resolve, Refers, Touches, OnModule, NewTo, AliasesFresh, CablesFollow, ModulesFollow, AliasesFollow, Stands,
      Unforeseen, LeavesABridge, Attached, MadeAndGone, OwnClaimed;
    var id :| Refers(op.target, st.naming.aliases, id)
      && (id < 0 || (Stands(world, st.removals, id) && AllowedOn(op, world, st, id)));
    TargetFound(world, st, p, op.target, id);
    RefersOnce(op.target, p.aliases);
    var n := Resolve(op.target, p.aliases).value;
    if op.cablePolicy.FailIfAttached? {
      AttachedUnforeseen(world, st, p, gone, op.target, id, n);
    }
  }

  /** A cable that keeps a module from going, although the preview saw none, is unforeseen. */
  lemma AttachedUnforeseen(world: PlanWorld, st: Preview, p: Patch, gone: seq<int>, ref: ModuleRef, id: int, n: int)
    requires InStep(world, st, p, gone) && Refers(ref, st.naming.aliases, id) && Refers(ref, p.aliases, n)
    requires id >= 0 ==> !Attached(world, st.removals, id)
    ensures OnModule(p.cables, [], n) != [] <==> exists c :: Unforeseen(world, st, p, c) && Touches(c, n)
  {
    hide Resolve, Refers, Touches, OnModule, CablesFollow, ModulesFollow, AliasesFollow, AliasesFresh, OwnClaimed,
      NewTo;
    SameReference(world, st, p, ref, id);
    RefersOnce(ref, p.aliases);
    OnModuleIs(p.cables, [], n);
    var hits := OnModule(p.cables, [], n);
    assert forall c :: c in p.cables && Touches(c, n) ==> c.id in hits;
    if hits != [] {
      var x := hits[0];
      assert x in hits;
      var c :| c in p.cables && c.id == x && Touches(c, n);
      if HasCable(world.cables, c.id) {
        StillThere(world.cables, st.removals.cables, p.cables, gone, c);
        assert CableStands(world, st.removals, c) || c.id in st.removals.cables;
        if ref.ByAlias? {
          NoSnapshotCable(world, n, c);
        }
      }
      assert Unforeseen(world, st, p, c);
    }
  }

  lemma TweakCarried(op: Operation, world: PlanWorld, st: Preview, p: Patch, gone: seq<int>)
    requires IsTweak(op) && InStep(world, st, p, gone) && Allowed(op, world, st)
    ensures Taken(op, p).Some? <==> !Obstructed(op, world, st, p)
  {
    hide Resolve, NewTo, AliasesFresh, CablesFollow, ModulesFollow, AliasesFollow, Stands, MadeAndGone, OwnClaimed,
      ParameterExists, Numeral;
    var id :| Refers(op.target, st.naming.aliases, id)
      && (id < 0 || (Stands(world, st.removals, id) && AllowedOn(op, world, st, id)));
    TargetFound(world, st, p, op.target, id);
    SameReference(world, st, p, op.target, id);
  }

  lemma MoveCarried(op: Operation, world: PlanWorld, st: Preview, p: Patch, gone: seq<int>)
    requires op.MoveModule? && InStep(world, st, p, gone) && Allowed(op, world, st)
    ensures Taken(op, p).Some? <==> !Obstructed(op, world, st, p)
  {
    hide Resolve, NewTo, AliasesFresh, CablesFollow, ModulesFollow, AliasesFollow, Stands, MadeAndGone, OwnClaimed,
      PlaceAllowed, PanelOf;
    var id :| Refers(op.target, st.naming.aliases, id)
      && (id < 0 || (Stands(world, st.removals, id) && AllowedOn(op, world, st, id)));
    TargetFound(world, st, p, op.target, id);
    SameReference(world, st, p, op.target, id);
    if op.target.ById? {
      NumeralOnce(op.target, id);
    }
  }

  lemma NumeralOnce(ref: ModuleRef, id: int)
    requires NamesModule(ref, id)
    ensures forall n :: NamesModule(ref, n) ==> n == id
  {
    hide Numeral, Resolve;
    RefersOnce(ref, map[]);
    assert forall n :: NamesModule(ref, n) ==> Refers(ref, map[], n);
  }

  lemma ConnectCarried(op: Operation, world: PlanWorld, st: Preview, p: Patch, gone: seq<int>)
    requires op.Connect? && InStep(world, st, p, gone) && Allowed(op, world, st)
    ensures Taken(op, p).Some? <==> !Obstructed(op, world, st, p)
  {
    hide Resolve, Refers, OnPort, OnPortIds, NewTo, AliasesFresh, CablesFollow, ModulesFollow, AliasesFollow, Stands,
      MadeAndGone, OwnClaimed, Occupied, EndOk, AliasesApart;
    var out, inp :| Ends(op, st.naming.aliases, out, inp) && EndsOk(op, world, st.removals, out, inp)
      && (op.inputPolicy.ReplaceAll? || !Occupied(world, st.removals, inp, op.input.portId.value));
    EndThere(world, st, out, Output, op.output.portId.value);
    EndThere(world, st, inp, Input, op.input.portId.value);
    TargetFound(world, st, p, op.output.target, out);
    TargetFound(world, st, p, op.input.target, inp);
    RefersOnce(op.input.target, p.aliases);
    if !op.inputPolicy.ReplaceAll? {
      InputUnforeseen(world, st, p, gone, op.input.target, inp, Resolve(op.input.target, p.aliases).value,
        op.input.portId.value);
    }
  }

  lemma EndThere(world: PlanWorld, st: Preview, id: int, t: PortType, port: int)
    requires EndOk(world, st.removals, id, t, port)
    ensures id < 0 || Stands(world, st.removals, id)
  {
    StandingStands(world, st.removals, id);
  }

  /** What a connect meets on an input that the preview held for free is a snapshot cable
      listed as removed. */
  lemma InputUnforeseen(world: PlanWorld, st: Preview, p: Patch, gone: seq<int>, ref: ModuleRef, id: int, n: int,
          port: int)
    requires InStep(world, st, p, gone) && Refers(ref, st.naming.aliases, id) && Refers(ref, p.aliases, n)
    requires !Occupied(world, st.removals, id, port) && (id < 0 || Stands(world, st.removals, id))
    ensures OnPortIds(p.cables, [], n, Input, port) != [] <==>
      exists c ::
        c in p.cables && HasCable(world.cables, c.id) && c.id in st.removals.cables && OnPort(c, n, Input, port)
  {
    hide Resolve, Refers, OnPortIds, CablesFollow, ModulesFollow, AliasesFollow, AliasesFresh, NewTo, SameInput;
    SameReference(world, st, p, ref, id);
    RefersOnce(ref, p.aliases);
    OnPortIs(p.cables, [], n, Input, port);
    var hits := OnPortIds(p.cables, [], n, Input, port);
    assert forall c :: c in p.cables && OnPort(c, n, Input, port) ==> c.id in hits;
    if hits != [] {
      var x := hits[0];
      assert x in hits;
      var c :| c in p.cables && c.id == x && OnPort(c, n, Input, port);
      if HasCable(world.cables, c.id) {
        StillThere(world.cables, st.removals.cables, p.cables, gone, c);
        assert CableStands(world, st.removals, c) || c.id in st.removals.cables;
        if ref.ByAlias? {
          NoSnapshotCable(world, n, c);
        }
      } else {
        var e :| e in st.removals.claimed && e.1 == port && SameInput(world, st.naming.aliases, p.aliases, e.0, n);
        assert e == (e.0, port);
        OwnOccupies(world, st, p, ref, id, n, e.0);
      }
    }
  }

  /** An input claimed under one name is the input that the reference names. */
  lemma OwnOccupies(world: PlanWorld, st: Preview, p: Patch, ref: ModuleRef, id: int, n: int, shown: int)
    requires AliasesFollow(world, st.naming.aliases, p.aliases) && AliasesFresh(st.naming) && AliasesApart(p.aliases)
    requires Refers(ref, st.naming.aliases, id) && Refers(ref, p.aliases, n)
    requires id < 0 || Stands(world, st.removals, id)
    requires SameInput(world, st.naming.aliases, p.aliases, shown, n)
    ensures shown == id
  {
    hide Numeral;
    SameReference(world, st, p, ref, id);
    RefersOnce(ref, p.aliases);
  }

  lemma PortCarried(op: Operation, world: PlanWorld, st: Preview, p: Patch, gone: seq<int>)
    requires op.DisconnectPort? && InStep(world, st, p, gone) && Allowed(op, world, st)
    ensures Taken(op, p).Some? <==> !Obstructed(op, world, st, p)
  {
    hide Resolve, NewTo, AliasesFresh, CablesFollow, ModulesFollow, AliasesFollow, Stands, OwnClaimed, OnPortIds;
    var id :| Refers(op.port.target, st.naming.aliases, id)
      && (id < 0 || (Stands(world, st.removals, id) && AllowedOn(op, world, st, id)));
    TargetFound(world, st, p, op.port.target, id);
    SameReference(world, st, p, op.port.target, id);
  }

  lemma DisconnectCarried(op: Operation, world: PlanWorld, st: Preview, p: Patch, gone: seq<int>)
    requires op.Disconnect? && InStep(world, st, p, gone) && Allowed(op, world, st)
    ensures Taken(op, p).Some?
  {
    hide HasIdShape, Value, Numeral, AliasesFresh, CablesFollow, ModulesFollow, AliasesFollow, OwnClaimed;
    var c :| CableStands(world, st.removals, c) && NamesCable(op.cableId, c.id);
    ParsesExactlyNumerals(op.cableId, c.id);
    DisclosingSpares(world.cables, st.removals.cables, p.cables, gone, c);
    StillThere(world.cables, st.removals.cables, p.cables, gone, c);
  }

  lemma DisclosingSpares(snapshot: seq<PlanCable>, removed: seq<int>, cables: seq<PlanCable>, gone: seq<int>,
          c: PlanCable)
    requires CablesFollow(snapshot, removed, cables, gone) && c in snapshot && c.id !in removed
    ensures c.id !in gone
  {
    hide Without, Old;
    var i :| 0 <= i < |snapshot| && snapshot[i] == c;
  }

  /** An accepted operation that the engine does not fail is carried out exactly if nothing
      stands in its way. */
  lemma CarriedOutIff(op: Operation, world: PlanWorld, st: Preview, p: Patch, gone: seq<int>, choice: Choice)
    requires WorldOk(world) && InStep(world, st, p, gone) && Validate(op, world, st).1.Accepted?
    ensures Apply(op, p, choice).Some? <==> !choice.fails && !Obstructed(op, world, st, p)
  {
    hide WorldOk, InStep, Validate, Allowed, Complains, Obstructed, Taken, Without;
    VerdictIs(op, world, st);
    assert Taken(op, p).Some? <==> !Obstructed(op, world, st, p) by {
      if op.RemoveModule? {
        RemoveCarried(op, world, st, p, gone);
      } else if IsTweak(op) {
        TweakCarried(op, world, st, p, gone);
      } else if op.MoveModule? {
        MoveCarried(op, world, st, p, gone);
      } else if op.Connect? {
        ConnectCarried(op, world, st, p, gone);
      } else if op.DisconnectPort? {
        PortCarried(op, world, st, p, gone);
      } else {
        OthersCarried(op, world, st, p, gone);
      }
    }
  }

  lemma OthersCarried(op: Operation, world: PlanWorld, st: Preview, p: Patch, gone: seq<int>)
    requires !HasTarget(op) && !op.Connect? && InStep(world, st, p, gone) && Allowed(op, world, st)
    ensures Taken(op, p).Some? && !Obstructed(op, world, st, p)
  {
    hide InStep;
    if op.Disconnect? {
      DisconnectCarried(op, world, st, p, gone);
    }
  }

  // ----- whole plans -----

  lemma SameInputLater(op: Operation, world: PlanWorld, n: Naming, n': Naming, made: map<string, int>, choice: Choice,
          shown: int, actual: int)
    requires (forall a :: a in n.aliases <==> a in made) && NamesTo(op, n, n')
    requires SameInput(world, n.aliases, made, shown, actual)
    ensures SameInput(world, n'.aliases, if op.AddModule? then made[op.alias := choice.newId] else made, shown, actual)
  {
    if !(shown == actual && HasModule(world.modules, actual)) {
      var a :| a in n.aliases && a in made && n.aliases[a] == shown && made[a] == actual;
      assert a in n'.aliases && n'.aliases[a] == shown;
    }
  }

  /** The input of the cable that an accepted connect makes is claimed. */
  lemma NewIsClaimed(op: Operation, world: PlanWorld, st: Preview, st': Preview, p: Patch, id: int)
    requires op.Connect? && Connects(op, p) && Allowed(op, world, st) && ClaimsTo(op, world, st, st'.removals)
    requires st'.naming == st.naming && AliasesFresh(st.naming) && AliasesFollow(world, st.naming.aliases, p.aliases)
    ensures ClaimKnown(world, st', p.aliases, NewCable(op, p, id))
  {
    hide Refers, Resolve, EndOk, Replaces, NewTo, AliasesFresh, Occupied, AliasesFollow;
    var ref, port := op.input.target, op.input.portId.value;
    var out, inp :| Ends(op, st.naming.aliases, out, inp) && EndsOk(op, world, st.removals, out, inp);
    EndThere(world, st, inp, Input, port);
    RefersOnce(ref, st.naming.aliases);
    SameReference(world, st, p, ref, inp);
    RefersOnce(ref, p.aliases);
    ClaimShown(world, st, p, ref, inp, Resolve(ref, p.aliases).value);
    var e := (inp, port);
    assert e in st'.removals.claimed;
  }

  lemma ClaimShown(world: PlanWorld, st: Preview, p: Patch, ref: ModuleRef, id: int, n: int)
    requires AliasesFollow(world, st.naming.aliases, p.aliases) && AliasesFresh(st.naming)
    requires Refers(ref, st.naming.aliases, id) && Refers(ref, p.aliases, n)
    requires id < 0 || Stands(world, st.removals, id)
    ensures SameInput(world, st.naming.aliases, p.aliases, id, n)
  {
    hide Numeral;
    SameReference(world, st, p, ref, id);
    RefersOnce(ref, p.aliases);
  }

  lemma StepOwnClaimed(op: Operation, world: PlanWorld, st: Preview, p: Patch, gone: seq<int>, choice: Choice)
    requires WorldOk(world) && InStep(world, st, p, gone) && Validate(op, world, st).1.Accepted?
    requires Apply(op, p, choice).Some?
    ensures OwnClaimed(world, Validate(op, world, st).0, Apply(op, p, choice).value)
  {
    hide WorldOk, Validate, Allowed, Apply, Connects, AliasesFresh, CablesFollow, ModulesFollow, SameInput, ListsTo,
      RemovesTo, RecordsTo, PlacesTo, NotesTo, NamesTo, Replaces;
    VerdictIs(op, world, st);
    ChangesAre(op, world, st);
    ApplyNames(op, p, choice);
    var st', p' := Validate(op, world, st).0, Apply(op, p, choice).value;
    forall c | c in p'.cables && !HasCable(world.cables, c.id)
      ensures c.hasInput && ClaimKnown(world, st', p'.aliases, c)
    {
      ApplyCables(op, p, choice, c);
      if c in p.cables {
        var e :| e in st.removals.claimed && e.1 == c.inputId
          && SameInput(world, st.naming.aliases, p.aliases, e.0, c.inputModuleId);
        SameInputLater(op, world, st.naming, st'.naming, p.aliases, choice, e.0, c.inputModuleId);
        assert e in st'.removals.claimed;
      } else {
        NamesUnchanged(op, st.naming, st'.naming);
        NewIsClaimed(op, world, st, st', p, choice.newId);
      }
    }
  }

  lemma NamesUnchanged(op: Operation, n: Naming, n': Naming)
    requires NamesTo(op, n, n') && !op.AddModule?
    ensures n' == n
  {}

  lemma CommittedApart(ops: seq<Operation>, world: PlanWorld, choices: seq<Choice>)
    requires |choices| == |ops| && AllDistinct(choices) && Committed(ops, world, choices).Some?
    ensures AliasesApart(Committed(ops, world, choices).value.aliases)
  {
    hide Committed;
    var made := Committed(ops, world, choices).value.aliases;
    forall a, b | a in made && b in made && made[a] == made[b]
      ensures a == b
    {
      AliasMeans(ops, world, choices, a, made[a]);
      AliasMeans(ops, world, choices, b, made[a]);
      var i: nat :| Declares(ops, choices, i, a, made[a]);
      var j: nat :| Declares(ops, choices, j, b, made[a]);
      assert i == j;
    }
  }

  lemma {:induction false} PlanInStep(ops: seq<Operation>, world: PlanWorld, choices: seq<Choice>)
    requires WorldOk(world) && ValidatePlan(ops, world).Some? && |choices| == |ops|
    requires AllNew(world, choices) && AllDistinct(choices) && Committed(ops, world, choices).Some?
    ensures InStep(world, ValidatePlan(ops, world).value, Committed(ops, world, choices).value,
      Gone(ops, world, choices))
  {
    hide WorldOk, Validate, Apply, NewTo, Disclosed, Follows, OwnClaimed, AliasesApart, AliasesFresh;
    PlanFollows(ops, world, choices);
    PlanDiscloses(ops, world);
    CommittedApart(ops, world, choices);
    if ops == [] {
      NothingOwn(world);
    } else {
      var before, earlier := ops[..|ops| - 1], choices[..|ops| - 1];
      PlanInStep(before, world, earlier);
      StepOwnClaimed(ops[|ops| - 1], world, ValidatePlan(before, world).value, Committed(before, world, earlier).value,
        Gone(before, world, earlier), choices[|ops| - 1]);
    }
  }

  lemma NothingOwn(world: PlanWorld)
    ensures OwnClaimed(world, EMPTY_PREVIEW, Live(world))
  {}

  /** The commit gets to operation `k`, the engine does not fail it and nothing is in its way. */
  ghost predicate CarriedAt(ops: seq<Operation>, world: PlanWorld, choices: seq<Choice>, k: nat)
    requires |choices| == |ops|
  {
    && k < |ops| && ValidatePlan(ops[..k], world).Some? && Committed(ops[..k], world, choices[..k]).Some?
    && !choices[k].fails
    && !Obstructed(ops[k], world, ValidatePlan(ops[..k], world).value, Committed(ops[..k], world, choices[..k]).value)
  }

  lemma CarriedPrefix(ops: seq<Operation>, world: PlanWorld, choices: seq<Choice>, k: nat)
    requires |choices| == |ops| && k < |ops| - 1
    ensures CarriedAt(ops[..|ops| - 1], world, choices[..|ops| - 1], k) <==> CarriedAt(ops, world, choices, k)
  {
    hide ValidatePlan, Committed, Obstructed;
    assert ops[..|ops| - 1][..k] == ops[..k] && choices[..|ops| - 1][..k] == choices[..k];
  }

  /** An accepted plan and its commit, up to the last operation. */
  lemma LastOfBoth(ops: seq<Operation>, world: PlanWorld, choices: seq<Choice>) returns (st: Preview)
    requires |choices| == |ops| && ops != [] && ValidatePlan(ops, world).Some?
    ensures var n := |ops| - 1;
      && ValidatePlan(ops[..n], world) == Some(st) && Validate(ops[n], world, st).1.Accepted?
      && var p := Committed(ops[..n], world, choices[..n]);
      && Committed(ops, world, choices) == (if p.Some? then Apply(ops[n], p.value, choices[n]) else None)
      && (CarriedAt(ops, world, choices, n) <==>
            p.Some? && !choices[n].fails && !Obstructed(ops[n], world, st, p.value))
  {
    hide Obstructed, Validate, Apply;
    st := ValidatePlan(ops[..|ops| - 1], world).value;
  }

  lemma LastCarried(ops: seq<Operation>, world: PlanWorld, choices: seq<Choice>)
    requires WorldOk(world) && ValidatePlan(ops, world).Some? && |choices| == |ops| && ops != []
    requires AllNew(world, choices) && AllDistinct(choices)
    ensures Committed(ops, world, choices).Some? <==> CarriedAt(ops, world, choices, |ops| - 1)
  {
    hide WorldOk, ValidatePlan, Committed, Validate, Apply, NewTo, InStep, Obstructed, CarriedAt;
    var n := |ops| - 1;
    var st := LastOfBoth(ops, world, choices);
    var p := Committed(ops[..n], world, choices[..n]);
    if p.Some? {
      PlanInStep(ops[..n], world, choices[..n]);
      CarriedOutIff(ops[n], world, st, p.value, Gone(ops[..n], world, choices[..n]), choices[n]);
    }
  }

  lemma CarriedFollowsCommit(ops: seq<Operation>, world: PlanWorld, choices: seq<Choice>)
    requires |choices| == |ops| && ops != [] && CarriedAt(ops, world, choices, |ops| - 1)
    ensures Committed(ops[..|ops| - 1], world, choices[..|ops| - 1]).Some?
  {}

  /** For every accepted plan and every choice of the engine: the commit goes through exactly
      if the engine fails no operation and nothing of what the preview could not foresee
      stands in the way of one. */
  lemma {:induction false} CommitSucceedsIff(ops: seq<Operation>, world: PlanWorld, choices: seq<Choice>)
    requires WorldOk(world) && ValidatePlan(ops, world).Some? && |choices| == |ops|
    requires AllNew(world, choices) && AllDistinct(choices)
    ensures Committed(ops, world, choices).Some? <==> forall k: nat :: k < |ops| ==> CarriedAt(ops, world, choices, k)
  {
    hide WorldOk, ValidatePlan, Committed, NewTo, CarriedAt;
    if ops == [] {
      NothingCommitted(world);
      assert choices == [];
    } else {
      var n := |ops| - 1;
      PrefixAccepted(ops, world);
      CommitSucceedsIff(ops[..n], world, choices[..n]);
      forall k: nat | k < n {
        CarriedPrefix(ops, world, choices, k);
      }
      LastCarried(ops, world, choices);
      if CarriedAt(ops, world, choices, n) {
        CarriedFollowsCommit(ops, world, choices);
      }
    }
  }

  lemma NothingCommitted(world: PlanWorld)
    ensures Committed([], world, []).Some? && MadeThere(Committed([], world, []).value)
  {}

  lemma PrefixAccepted(ops: seq<Operation>, world: PlanWorld)
    requires ops != [] && ValidatePlan(ops, world).Some?
    ensures ValidatePlan(ops[..|ops| - 1], world).Some?
  {
    hide Validate;
  }

  // ----- plans that nothing can stop -----

  /** No removal by alias or with a "fail" policy, no "top", and no field left out. */
  predicate Plain(op: Operation) {
    && (op.RemoveModule? ==> op.target.ById? && op.cablePolicy.RemoveAttached?)
    && (op.SetParameter? ==> op.paramId.Some?) && (op.MoveModule? ==> OnGrid(op))
    && (op.DisconnectPort? ==> op.port.portId.Some? && op.policy.All?)
  }

  ghost predicate MadeThere(p: Patch) {
    forall a :: a in p.aliases ==> p.aliases[a] in p.modules
  }

  /** Nothing that the preview listed as removed is still there. */
  ghost predicate ListedGone(world: PlanWorld, st: Preview, p: Patch) {
    forall c :: c in p.cables && HasCable(world.cables, c.id) ==> c.id !in st.removals.cables
  }

  lemma PlainUnobstructed(op: Operation, world: PlanWorld, st: Preview, p: Patch, gone: seq<int>)
    requires Plain(op) && InStep(world, st, p, gone) && Allowed(op, world, st) && MadeThere(p)
    requires ListedGone(world, st, p)
    ensures !Obstructed(op, world, st, p)
  {
    hide Numeral, OnPort, AliasesFresh, CablesFollow, ModulesFollow, OwnClaimed, NewTo, EndOk, Occupied, Stands;
    if HasTarget(op) && TargetOf(op).ByAlias? {
      AliasThere(world, st, p, TargetOf(op));
    }
    if op.Connect? {
      if op.output.target.ByAlias? {
        AliasThere(world, st, p, op.output.target);
      }
      if op.input.target.ByAlias? {
        AliasThere(world, st, p, op.input.target);
      }
    }
  }

  lemma AliasThere(world: PlanWorld, st: Preview, p: Patch, ref: ModuleRef)
    requires AliasesFollow(world, st.naming.aliases, p.aliases) && MadeThere(p) && ref.ByAlias?
    requires exists id :: Refers(ref, st.naming.aliases, id)
    ensures !MadeAndGone(ref, p)
  {
    hide NewTo;
    assert Refers(ref, p.aliases, p.aliases[ref.alias]);
  }

  lemma ExactListedGone(world: PlanWorld, st: Preview, p: Patch, gone: seq<int>)
    requires Follows(world, st, p, gone) && Exact(st.removals, p, gone)
    ensures ListedGone(world, st, p)
  {
    hide CablesFollow;
    forall c | c in p.cables && HasCable(world.cables, c.id)
      ensures c.id !in st.removals.cables
    {
      StillThere(world.cables, st.removals.cables, p.cables, gone, c);
      InSeq(st.removals.cables, c.id);
    }
  }

  lemma PlainMadeThere(op: Operation, world: PlanWorld, st: Preview, p: Patch, gone: seq<int>, choice: Choice)
    requires Plain(op) && InStep(world, st, p, gone) && Allowed(op, world, st) && MadeThere(p)
    requires Apply(op, p, choice).Some?
    ensures MadeThere(Apply(op, p, choice).value)
  {
    hide AliasesFresh, CablesFollow, ModulesFollow, OwnClaimed, Apply, Numeral, AllowedOn;
    ApplyNames(op, p, choice);
    var p' := Apply(op, p, choice).value;
    forall a | a in p'.aliases
      ensures p'.aliases[a] in p'.modules
    {
      ApplyModules(op, p, choice, p'.aliases[a]);
      if op.RemoveModule? {
        RemovedIsOld(op, world, st, p);
      }
    }
  }

  lemma RemovedIsOld(op: Operation, world: PlanWorld, st: Preview, p: Patch)
    requires op.RemoveModule? && op.target.ById? && Allowed(op, world, st) && AliasesFresh(st.naming)
    ensures exists id :: Resolve(op.target, p.aliases) == Some(id) && HasModule(world.modules, id)
  {
    hide Numeral, AllowedOn, AliasesFresh;
    var id :| Refers(op.target, st.naming.aliases, id) && (id < 0 || Stands(world, st.removals, id));
    RefersIs(op.target, p.aliases, id);
  }

  lemma {:induction false} PlainTopsSee(ops: seq<Operation>, world: PlanWorld, choices: seq<Choice>)
    requires |choices| == |ops| && ValidatePlan(ops, world).Some? && Committed(ops, world, choices).Some?
    requires forall k :: 0 <= k < |ops| ==> Plain(ops[k])
    ensures EveryTopSees(ops, world, choices)
  {
    if ops != [] {
      hide Validate, Apply;
      PlainTopsSee(ops[..|ops| - 1], world, choices[..|ops| - 1]);
    }
  }

  /** A plan of plain operations that the preview accepts is committed, whatever ids and
      places the engine chooses, exactly if the engine fails none of its operations. */
  lemma {:induction false} PlainPlanCommits(ops: seq<Operation>, world: PlanWorld, choices: seq<Choice>)
    requires WorldOk(world) && ValidatePlan(ops, world).Some? && |choices| == |ops|
    requires AllNew(world, choices) && AllDistinct(choices) && forall k :: 0 <= k < |ops| ==> Plain(ops[k])
    ensures Committed(ops, world, choices).Some? <==> forall k :: 0 <= k < |ops| ==> !choices[k].fails
    ensures Committed(ops, world, choices).Some? ==> MadeThere(Committed(ops, world, choices).value)
  {
    hide WorldOk, ValidatePlan, Committed, Validate, Apply, NewTo, MadeThere, Plain, Obstructed, CarriedAt;
    if ops == [] {
      NothingCommitted(world);
      assert choices == [];
    } else {
      var n := |ops| - 1;
      var before, earlier := ops[..n], choices[..n];
      var st := LastOfBoth(ops, world, choices);
      PlainPlanCommits(before, world, earlier);
      if Committed(before, world, earlier).Some? {
        PlainStep(ops[n], before, world, earlier, choices[n]);
      }
    }
  }

  /** After plain operations a plain one is carried out unless the engine fails it. */
  lemma PlainStep(op: Operation, ops: seq<Operation>, world: PlanWorld, choices: seq<Choice>, choice: Choice)
    requires WorldOk(world) && ValidatePlan(ops, world).Some? && |choices| == |ops|
    requires AllNew(world, choices) && AllDistinct(choices) && forall k :: 0 <= k < |ops| ==> Plain(ops[k])
    requires Committed(ops, world, choices).Some? && MadeThere(Committed(ops, world, choices).value)
    requires Plain(op) && Validate(op, world, ValidatePlan(ops, world).value).1.Accepted?
    ensures var p' := Apply(op, Committed(ops, world, choices).value, choice);
      (p'.Some? <==> !choice.fails) && (p'.Some? ==> MadeThere(p'.value))
  {
    hide WorldOk, ValidatePlan, Committed, Validate, Apply, NewTo, InStep, Obstructed, Allowed, MadeThere, Plain,
      EveryTopSees, Follows, Exact, ListedGone;
    var st, p, gone := ValidatePlan(ops, world).value, Committed(ops, world, choices).value, Gone(ops, world, choices);
    PlanInStep(ops, world, choices);
    PlanFollows(ops, world, choices);
    VerdictIs(op, world, st);
    PlainTopsSee(ops, world, choices);
    ExactIffEveryTopSees(ops, world, choices);
    ExactListedGone(world, st, p, gone);
    PlainUnobstructed(op, world, st, p, gone);
    CarriedOutIff(op, world, st, p, gone, choice);
    if Apply(op, p, choice).Some? {
      PlainMadeThere(op, world, st, p, gone, choice);
    }
  }

  // ----- an accepted plan that cannot be committed -----

  const ADD := AddModule("Fundamental", "VCO", "a")
  const REMOVE := RemoveModule(ByAlias("a"), RemoveAttached, false)

  /** An empty rack on which the one model is installed. */
  function EmptyRack(): PlanWorld {
    PlanWorld({("Fundamental", "VCO")}, [], [], [], Layout.Grid(15.0, 380.0))
  }

  /** A plan that adds a module and removes it twice: the preview accepts it, and whatever the
      engine chooses, no commit of it goes through. */
  lemma RemovedTwice(choices: seq<Choice>)
    requires |choices| == 3
    ensures ValidatePlan([ADD, REMOVE, REMOVE], EmptyRack()).Some?
    ensures Committed([ADD, REMOVE, REMOVE], EmptyRack(), choices).None?
  {
    hide Committed, Apply, ValidatePlan, OnlyAliased;
    var world, one, two, three := EmptyRack(), [ADD], [ADD, REMOVE], [ADD, REMOVE, REMOVE];
    TwicePreviewed(one, two, three);
    assert one[..0] == [] && two[..1] == one && three[..2] == two;
    assert choices[..1][..0] == [] && choices[..2][..1] == choices[..1] && choices[..3] == choices;
    EmptyCommitted();
    CommittedLast(one, world, choices[..1]);
    CommittedLast(two, world, choices[..2]);
    CommittedLast(three, world, choices);
    var p1, p2 := Committed(one, world, choices[..1]), Committed(two, world, choices[..2]);
    if p1.Some? {
      AddedOne(choices[0]);
      RemovedOnce(p1.value, choices[1]);
      if p2.Some? {
        RemovedOnce(p2.value, choices[2]);
      }
    }
  }

  lemma EmptyCommitted()
    ensures Committed([], EmptyRack(), []) == Some(Live(EmptyRack()))
  {}

  lemma CommittedLast(ops: seq<Operation>, world: PlanWorld, choices: seq<Choice>)
    requires ops != [] && |choices| == |ops|
    ensures var n := |ops| - 1;
      var p := Committed(ops[..n], world, choices[..n]);
      Committed(ops, world, choices) == if p.Some? then Apply(ops[n], p.value, choices[n]) else None
  {
    hide Apply;
  }

  /** The patch has no module but the one that the alias stands for. */
  ghost predicate OnlyAliased(p: Patch) {
    "a" in p.aliases && forall id :: id in p.modules ==> id == p.aliases["a"]
  }

  lemma AddedOne(choice: Choice)
    requires Apply(ADD, Live(EmptyRack()), choice).Some?
    ensures OnlyAliased(Apply(ADD, Live(EmptyRack()), choice).value)
  {
    hide Without;
    var p, p' := Live(EmptyRack()), Apply(ADD, Live(EmptyRack()), choice).value;
    ApplyNames(ADD, p, choice);
    forall id | id in p'.modules
      ensures id == p'.aliases["a"]
    {
      ApplyModules(ADD, p, choice, id);
      IdsAre([], id);
    }
  }

  lemma TwicePreviewed(one: seq<Operation>, two: seq<Operation>, three: seq<Operation>)
    requires one == [ADD] && two == one + [REMOVE] && three == two + [REMOVE]
    ensures ValidatePlan(three, EmptyRack()).Some?
  {
    assert one[..0] == [] && two[..1] == one && three[..2] == two;
    var st := Add(ADD, EmptyRack(), EMPTY_PREVIEW).0;
    assert ValidatePlan(one, EmptyRack()) == Some(st);
    assert Remove(REMOVE, EmptyRack(), st) == (st, Accepted);
    assert ValidatePlan(two, EmptyRack()) == Some(st);
  }

  /** Carried out once, the removal leaves nothing that it could be carried out on. */
  lemma RemovedOnce(p: Patch, choice: Choice)
    requires OnlyAliased(p)
    ensures Apply(REMOVE, p, choice).Some? ==>
      var p' := Apply(REMOVE, p, choice).value;
      p.aliases["a"] in p.modules && OnlyAliased(p') && p'.aliases["a"] !in p'.modules
  {
    hide OnModule, Without, Taken;
    if Apply(REMOVE, p, choice).Some? {
      var p' := Apply(REMOVE, p, choice).value;
      ApplyNames(REMOVE, p, choice);
      ApplyModules(REMOVE, p, choice, p.aliases["a"]);
      forall id | id in p'.modules
        ensures id == p.aliases["a"]
      {
        ApplyModules(REMOVE, p, choice, id);
      }
    }
  }
}
