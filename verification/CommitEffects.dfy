/** What a committed plan leaves: exactly which modules and which cables the patch has
    afterwards, told from the plan, the snapshot and the ids the engine chose. */
module CommitEffects {
  import opened Basics
  import opened DecimalIds
  import opened Plan
  import opened Validation
  import opened PlanProperties
  import opened PlanRules
  import opened PlanChanges
  import opened Commit
  import opened CommitProperties

  /** The engine gives every new module and cable an id of its own. */
  ghost predicate AllDistinct(choices: seq<Choice>) {
    forall i, j :: 0 <= i < j < |choices| ==> choices[i].newId != choices[j].newId
  }

  // ----- what a name means in a plan under way -----

  /** Operation `k` is the last to declare the alias, and the engine gave its module this id. */
  ghost predicate Declares(ops: seq<Operation>, choices: seq<Choice>, k: nat, alias: string, id: int)
    requires |choices| == |ops|
  {
    && k < |ops| && ops[k].AddModule? && ops[k].alias == alias && choices[k].newId == id
    && forall j :: k < j < |ops| && ops[j].AddModule? ==> ops[j].alias != alias
  }

  /** After these operations the alias stands for this module. */
  ghost predicate Declared(ops: seq<Operation>, choices: seq<Choice>, alias: string, id: int)
    requires |choices| == |ops|
  {
    exists k: nat :: Declares(ops, choices, k, alias, id)
  }

  /** After these operations the reference means this module. */
  ghost predicate Means(ops: seq<Operation>, choices: seq<Choice>, ref: ModuleRef, id: int)
    requires |choices| == |ops|
  {
    NamesModule(ref, id) || (ref.ByAlias? && Declared(ops, choices, ref.alias, id))
  }

  lemma DeclaredNext(ops: seq<Operation>, choices: seq<Choice>, op: Operation, choice: Choice, alias: string, id: int)
    requires |choices| == |ops|
    ensures Declared(ops + [op], choices + [choice], alias, id) <==>
      if op.AddModule? && op.alias == alias then choice.newId == id else Declared(ops, choices, alias, id)
  {
    var ops', choices' := ops + [op], choices + [choice];
    if op.AddModule? && op.alias == alias {
      assert Declares(ops', choices', |ops|, alias, id) <==> choice.newId == id;
    } else {
      forall k: nat
        ensures Declares(ops', choices', k, alias, id) <==> Declares(ops, choices, k, alias, id)
      {
        assert k < |ops| ==> ops'[k] == ops[k] && choices'[k] == choices[k];
        assert forall j :: 0 <= j < |ops| ==> ops'[j] == ops[j];
      }
    }
  }

  /** The prefix of a run of choices that goes with the prefix of a plan. */
  lemma LastApplied(ops: seq<Operation>, world: PlanWorld, choices: seq<Choice>) returns (p: Patch)
    requires |choices| == |ops| && ops != [] && Committed(ops, world, choices).Some?
    ensures Committed(ops[..|ops| - 1], world, choices[..|ops| - 1]) == Some(p)
    ensures Committed(ops, world, choices) == Apply(ops[|ops| - 1], p, choices[|ops| - 1])
    ensures ops[..|ops| - 1] + [ops[|ops| - 1]] == ops
    ensures choices[..|ops| - 1] + [choices[|ops| - 1]] == choices
  {
    hide Apply;
    p := Committed(ops[..|ops| - 1], world, choices[..|ops| - 1]).value;
  }

  lemma ApplyNames(op: Operation, p: Patch, choice: Choice)
    requires Apply(op, p, choice).Some?
    ensures Apply(op, p, choice).value.aliases
      == if op.AddModule? then p.aliases[op.alias := choice.newId] else p.aliases
  {
    hide Taken, Without;
  }

  lemma {:induction false} AliasMeans(ops: seq<Operation>, world: PlanWorld, choices: seq<Choice>, alias: string,
          id: int)
    requires |choices| == |ops| && Committed(ops, world, choices).Some?
    ensures var made := Committed(ops, world, choices).value.aliases;
      (alias in made && made[alias] == id) <==> Declared(ops, choices, alias, id)
  {
    if ops != [] {
      hide Committed, Apply, Declared;
      var n := |ops| - 1;
      var p := LastApplied(ops, world, choices);
      AliasMeans(ops[..n], world, choices[..n], alias, id);
      ApplyNames(ops[n], p, choices[n]);
      DeclaredNext(ops[..n], choices[..n], ops[n], choices[n], alias, id);
    }
  }

  lemma MeansIs(ops: seq<Operation>, world: PlanWorld, choices: seq<Choice>, ref: ModuleRef, id: int)
    requires |choices| == |ops| && Committed(ops, world, choices).Some?
    ensures Resolve(ref, Committed(ops, world, choices).value.aliases) == Some(id) <==> Means(ops, choices, ref, id)
  {
    hide Committed, Declared, Resolve;
    RefersIs(ref, Committed(ops, world, choices).value.aliases, id);
    if ref.ByAlias? {
      AliasMeans(ops, world, choices, ref.alias, id);
    }
  }

  // ----- modules -----

  ghost predicate AddedAt(ops: seq<Operation>, choices: seq<Choice>, k: nat, id: int)
    requires |choices| == |ops|
  {
    k < |ops| && ops[k].AddModule? && choices[k].newId == id
  }

  ghost predicate RemovedAt(ops: seq<Operation>, choices: seq<Choice>, k: nat, id: int)
    requires |choices| == |ops|
  {
    k < |ops| && ops[k].RemoveModule? && Means(ops[..k], choices[..k], ops[k].target, id)
  }

  /** The module was there, or some operation added it. */
  ghost predicate Brought(ops: seq<Operation>, world: PlanWorld, choices: seq<Choice>, id: int)
    requires |choices| == |ops|
  {
    HasModule(world.modules, id) || exists k: nat :: AddedAt(ops, choices, k, id)
  }

  ghost predicate TakenOut(ops: seq<Operation>, choices: seq<Choice>, id: int)
    requires |choices| == |ops|
  {
    exists k: nat :: RemovedAt(ops, choices, k, id)
  }

  lemma BroughtNext(ops: seq<Operation>, world: PlanWorld, choices: seq<Choice>, op: Operation, choice: Choice, id: int)
    requires |choices| == |ops|
    ensures Brought(ops + [op], world, choices + [choice], id) <==>
      Brought(ops, world, choices, id) || (op.AddModule? && choice.newId == id)
  {
    var ops', choices' := ops + [op], choices + [choice];
    assert AddedAt(ops', choices', |ops|, id) <==> op.AddModule? && choice.newId == id;
    forall k: nat | k < |ops|
      ensures AddedAt(ops', choices', k, id) <==> AddedAt(ops, choices, k, id)
    {
      assert ops'[k] == ops[k] && choices'[k] == choices[k];
    }
  }

  lemma TakenOutNext(ops: seq<Operation>, choices: seq<Choice>, op: Operation, choice: Choice, id: int)
    requires |choices| == |ops|
    ensures TakenOut(ops + [op], choices + [choice], id) <==>
      TakenOut(ops, choices, id) || (op.RemoveModule? && Means(ops, choices, op.target, id))
  {
    hide Means;
    var ops', choices' := ops + [op], choices + [choice];
    assert ops'[..|ops|] == ops && choices'[..|ops|] == choices;
    assert RemovedAt(ops', choices', |ops|, id) <==> op.RemoveModule? && Means(ops, choices, op.target, id);
    forall k: nat | k < |ops|
      ensures RemovedAt(ops', choices', k, id) <==> RemovedAt(ops, choices, k, id)
    {
      assert ops'[k] == ops[k] && ops'[..k] == ops[..k] && choices'[..k] == choices[..k];
    }
  }

  /** What one operation does to the modules. */
  lemma ApplyModules(op: Operation, p: Patch, choice: Choice, id: int)
    requires Apply(op, p, choice).Some?
    ensures id in Apply(op, p, choice).value.modules <==>
      || (op.AddModule? && id == choice.newId)
      || (id in p.modules && !(op.RemoveModule? && Resolve(op.target, p.aliases) == Some(id)))
    ensures op.RemoveModule? ==>
      Resolve(op.target, p.aliases).Some? && Resolve(op.target, p.aliases).value in p.modules
  {
    hide Without, Resolve, OnModule, OnPortIds;
    if op.RemoveModule? {
      DropIdIs(p.modules, Resolve(op.target, p.aliases).value, id);
    }
  }

  /** After every plan that commits, the patch has exactly the snapshot's modules and those
      the plan added, less those that a remove_module of the plan meant. */
  lemma {:induction false} ModulesExact(ops: seq<Operation>, world: PlanWorld, choices: seq<Choice>, id: int)
    requires |choices| == |ops| && AllNew(world, choices) && AllDistinct(choices)
    requires Committed(ops, world, choices).Some?
    ensures id in Committed(ops, world, choices).value.modules <==>
      Brought(ops, world, choices, id) && !TakenOut(ops, choices, id)
    ensures TakenOut(ops, choices, id) ==> Brought(ops, world, choices, id)
  {
    if ops == [] {
      IdsAre(world.modules, id);
      assert forall k: nat :: !RemovedAt(ops, choices, k, id) && !AddedAt(ops, choices, k, id);
    } else {
      hide Committed, Apply, Brought, TakenOut, Means, Resolve, NewTo;
      var n := |ops| - 1;
      var p := LastApplied(ops, world, choices);
      ModulesExact(ops[..n], world, choices[..n], id);
      ApplyModules(ops[n], p, choices[n], id);
      BroughtNext(ops[..n], world, choices[..n], ops[n], choices[n], id);
      TakenOutNext(ops[..n], choices[..n], ops[n], choices[n], id);
      if ops[n].RemoveModule? {
        MeansIs(ops[..n], world, choices[..n], ops[n].target, id);
      }
      NotBroughtBefore(ops[..n], world, choices, n);
    }
  }

  lemma IdsAre(modules: seq<WorldModule>, id: int)
    ensures id in Ids(modules) <==> HasModule(modules, id)
  {
    if id in Ids(modules) {
      var i :| 0 <= i < |modules| && Ids(modules)[i] == id;
      assert modules[i] in modules;
    }
    if HasModule(modules, id) {
      var m :| m in modules && m.id == id;
      var i :| 0 <= i < |modules| && modules[i] == m;
      assert Ids(modules)[i] == id;
    }
  }

  /** An id that the engine draws names nothing that was there or was added before. */
  lemma NotBroughtBefore(ops: seq<Operation>, world: PlanWorld, choices: seq<Choice>, n: nat)
    requires n < |choices| && |ops| == n && AllNew(world, choices) && AllDistinct(choices)
    ensures !Brought(ops, world, choices[..n], choices[n].newId)
  {}

  // ----- cables -----

  /** The cable is on the port, and for "top" no later cable of the patch is. */
  ghost predicate OffPort(cables: seq<PlanCable>, c: PlanCable, id: int, t: PortType, port: int,
          policy: DisconnectPolicy) {
    && OnPort(c, id, t, port)
    && (policy.Top? ==>
          exists k ::
            && 0 <= k < |cables| && cables[k] == c
            && forall j :: k < j < |cables| ==> !OnPort(cables[j], id, t, port))
  }

  /** The operation, after these ones, takes the cable off a patch with these cables. An
      absent port type means an input. */
  ghost predicate Hits(ops: seq<Operation>, choices: seq<Choice>, cables: seq<PlanCable>, op: Operation, c: PlanCable)
    requires |choices| == |ops|
  {
    match op
    case RemoveModule(target, _, _) => exists id :: Means(ops, choices, target, id) && Touches(c, id)
    case Connect(_, input, _) =>
      input.portId.Some?
      && exists id :: Means(ops, choices, input.target, id) && OnPort(c, id, Input, input.portId.value)
    case Disconnect(text) => NamesCable(text, c.id)
    case DisconnectPort(port, t, policy) =>
      port.portId.Some? && !t.Unrecognised? &&
      exists id ::
        && Means(ops, choices, port.target, id)
        && OffPort(cables, c, id, if t.Named? then t.value else Input, port.portId.value, policy)
    case _ => false
  }

  ghost predicate HitAt(ops: seq<Operation>, world: PlanWorld, choices: seq<Choice>, k: nat, c: PlanCable)
    requires |choices| == |ops|
  {
    && k < |ops| && Committed(ops[..k], world, choices[..k]).Some?
    && Hits(ops[..k], choices[..k], Committed(ops[..k], world, choices[..k]).value.cables, ops[k], c)
  }

  ghost predicate MadeEndAt(ops: seq<Operation>, choices: seq<Choice>, end: PortRef, id: int, port: int)
    requires |choices| == |ops|
  {
    end.portId == Some(port) && Means(ops, choices, end.target, id)
  }

  /** Operation `k` is a connect, and `c` is the cable between the ports that it names. */
  ghost predicate MadeAt(ops: seq<Operation>, choices: seq<Choice>, k: nat, c: PlanCable)
    requires |choices| == |ops|
  {
    && k < |ops| && ops[k].Connect? && c.id == choices[k].newId && c.hasOutput && c.hasInput
    && MadeEndAt(ops[..k], choices[..k], ops[k].output, c.outputModuleId, c.outputId)
    && MadeEndAt(ops[..k], choices[..k], ops[k].input, c.inputModuleId, c.inputId)
  }

  /** No operation from `from` on takes the cable. */
  ghost predicate Spared(ops: seq<Operation>, world: PlanWorld, choices: seq<Choice>, from: nat, c: PlanCable)
    requires |choices| == |ops|
  {
    forall k: nat :: from <= k < |ops| ==> !HitAt(ops, world, choices, k, c)
  }

  lemma HitPrefix(ops: seq<Operation>, world: PlanWorld, choices: seq<Choice>, op: Operation, choice: Choice, k: nat,
          c: PlanCable)
    requires |choices| == |ops| && k < |ops|
    ensures HitAt(ops + [op], world, choices + [choice], k, c) <==> HitAt(ops, world, choices, k, c)
    ensures MadeAt(ops + [op], choices + [choice], k, c) <==> MadeAt(ops, choices, k, c)
  {
    hide Hits, MadeEndAt, Committed;
    assert (ops + [op])[..k] == ops[..k] && (choices + [choice])[..k] == choices[..k];
  }

  lemma SparedNext(ops: seq<Operation>, world: PlanWorld, choices: seq<Choice>, op: Operation, choice: Choice,
          from: nat, c: PlanCable)
    requires |choices| == |ops| && from <= |ops| && Committed(ops, world, choices).Some?
    ensures Spared(ops + [op], world, choices + [choice], from, c) <==>
      Spared(ops, world, choices, from, c) && !Hits(ops, choices, Committed(ops, world, choices).value.cables, op, c)
  {
    hide Hits, Committed;
    var ops', choices' := ops + [op], choices + [choice];
    assert ops'[..|ops|] == ops && choices'[..|ops|] == choices;
    assert HitAt(ops', world, choices', |ops|, c)
      <==> Hits(ops, choices, Committed(ops, world, choices).value.cables, op, c);
    forall k: nat | k < |ops|
      ensures HitAt(ops', world, choices', k, c) <==> HitAt(ops, world, choices, k, c)
    {
      HitPrefix(ops, world, choices, op, choice, k, c);
    }
  }

  // ----- one operation and the cables -----

  lemma OnceById(cables: seq<PlanCable>, a: PlanCable, b: PlanCable)
    requires DistinctCableIds(cables) && a in cables && b in cables && a.id == b.id
    ensures a == b
  {}

  lemma RemoveHits(ops: seq<Operation>, world: PlanWorld, choices: seq<Choice>, op: Operation, p: Patch, c: PlanCable)
    requires |choices| == |ops| && Committed(ops, world, choices) == Some(p) && DistinctCableIds(p.cables)
    requires op.RemoveModule? && Taken(op, p).Some? && c in p.cables
    ensures c.id in Taken(op, p).value <==> Hits(ops, choices, p.cables, op, c)
  {
    hide Committed, Means, Touches, DistinctCableIds, Resolve, OnModule;
    var id := Resolve(op.target, p.aliases).value;
    MeansOnly(ops, world, choices, op.target, id);
    OnModuleIs(p.cables, [], id);
    if c.id in OnModule(p.cables, [], id) {
      var d :| d in p.cables && d.id == c.id && Touches(d, id);
      OnceById(p.cables, c, d);
    }
  }

  /** What a reference resolves to is all it means. */
  lemma MeansOnly(ops: seq<Operation>, world: PlanWorld, choices: seq<Choice>, ref: ModuleRef, id: int)
    requires |choices| == |ops| && Committed(ops, world, choices).Some?
    requires Resolve(ref, Committed(ops, world, choices).value.aliases) == Some(id)
    ensures forall n :: Means(ops, choices, ref, n) <==> n == id
  {
    hide Committed, Means, Resolve;
    forall n {
      MeansIs(ops, world, choices, ref, n);
    }
  }

  lemma ConnectHits(ops: seq<Operation>, world: PlanWorld, choices: seq<Choice>, op: Operation, p: Patch, c: PlanCable)
    requires |choices| == |ops| && Committed(ops, world, choices) == Some(p) && DistinctCableIds(p.cables)
    requires op.Connect? && Taken(op, p).Some? && c in p.cables
    ensures c.id in Taken(op, p).value <==> Hits(ops, choices, p.cables, op, c)
  {
    hide Committed, Means, OnPort, DistinctCableIds, Resolve, OnPortIds;
    var id, port := Resolve(op.input.target, p.aliases).value, op.input.portId.value;
    MeansOnly(ops, world, choices, op.input.target, id);
    OnPortIs(p.cables, [], id, Input, port);
    if c.id in OnPortIds(p.cables, [], id, Input, port) {
      var d :| d in p.cables && d.id == c.id && OnPort(d, id, Input, port);
      OnceById(p.cables, c, d);
    }
  }

  lemma DisconnectHits(ops: seq<Operation>, choices: seq<Choice>, op: Operation, p: Patch, c: PlanCable)
    requires |choices| == |ops| && op.Disconnect? && Taken(op, p).Some?
    ensures c.id in Taken(op, p).value <==> Hits(ops, choices, p.cables, op, c)
  {
    hide HasIdShape, Value, Numeral;
    forall n: nat {
      ParsesExactlyNumerals(op.cableId, n);
    }
  }

  lemma PortHits(ops: seq<Operation>, world: PlanWorld, choices: seq<Choice>, op: Operation, p: Patch, c: PlanCable)
    requires |choices| == |ops| && Committed(ops, world, choices) == Some(p) && DistinctCableIds(p.cables)
    requires op.DisconnectPort? && Taken(op, p).Some? && c in p.cables
    ensures c.id in Taken(op, p).value <==> Hits(ops, choices, p.cables, op, c)
  {
    hide Committed, Means, OnPort, DistinctCableIds, Resolve, OnPortIds;
    var id, t, port := Resolve(op.port.target, p.aliases).value, ReadType(op.portType), op.port.portId.value;
    MeansOnly(ops, world, choices, op.port.target, id);
    OnPortIs(p.cables, [], id, t, port);
    var hits := OnPortIds(p.cables, [], id, t, port);
    assert Means(ops, choices, op.port.target, id);
    assert OnPort(c, id, t, port) ==> c.id in hits;
    if op.policy.All? {
      assert OffPort(p.cables, c, id, t, port, op.policy) <==> OnPort(c, id, t, port);
      if c.id in hits {
        var d :| d in p.cables && d.id == c.id && OnPort(d, id, t, port);
        OnceById(p.cables, c, d);
      }
    } else if hits != [] {
      var k := LastOnPortIs(p.cables, [], id, t, port);
      assert OffPort(p.cables, p.cables[k], id, t, port, op.policy);
      assert OffPort(p.cables, c, id, t, port, op.policy) ==> c == p.cables[k];
      if c.id == p.cables[k].id {
        OnceById(p.cables, c, p.cables[k]);
      }
    }
  }

  /** The cables an operation takes are those it hits. */
  lemma TakenHits(ops: seq<Operation>, world: PlanWorld, choices: seq<Choice>, op: Operation, p: Patch, c: PlanCable)
    requires |choices| == |ops| && Committed(ops, world, choices) == Some(p) && DistinctCableIds(p.cables)
    requires Taken(op, p).Some? && c in p.cables
    ensures c.id in Taken(op, p).value <==> Hits(ops, choices, p.cables, op, c)
  {
    hide Committed, DistinctCableIds;
    if op.RemoveModule? {
      RemoveHits(ops, world, choices, op, p, c);
    } else if op.Connect? {
      ConnectHits(ops, world, choices, op, p, c);
    } else if op.Disconnect? {
      DisconnectHits(ops, choices, op, p, c);
    } else if op.DisconnectPort? {
      PortHits(ops, world, choices, op, p, c);
    }
  }

  // ----- cables after the whole plan -----

  /** Every cable has an id of its own: a snapshot cable's, or one drawn for a connect. */
  ghost predicate Known(world: PlanWorld, choices: seq<Choice>, cables: seq<PlanCable>) {
    && DistinctCableIds(cables)
    && forall c :: c in cables ==>
         HasCable(world.cables, c.id) || exists k :: 0 <= k < |choices| && choices[k].newId == c.id
  }

  lemma {:induction false} WithoutDistinct(cables: seq<PlanCable>, ids: seq<int>)
    requires DistinctCableIds(cables)
    ensures DistinctCableIds(Without(cables, ids))
  {
    if cables != [] {
      var before, last := cables[..|cables| - 1], cables[|cables| - 1];
      WithoutDistinct(before, ids);
      forall c | c in Without(before, ids)
        ensures c.id != last.id
      {
        WithoutIs(before, ids, c);
      }
    }
  }

  lemma InsertedDistinct(cables: seq<PlanCable>, c: PlanCable, at: nat)
    requires DistinctCableIds(cables) && forall d :: d in cables ==> d.id != c.id
    ensures DistinctCableIds(Inserted(cables, c, at))
  {
    var s := Inserted(cables, c, at);
    var k := if at <= |cables| then at else |cables|;
    assert forall i :: 0 <= i < |s| ==> s[i] == if i < k then cables[i] else if i == k then c else cables[i - 1];
    assert forall i :: 0 <= i < |cables| ==> cables[i].id != c.id by {
      forall i | 0 <= i < |cables| ensures cables[i].id != c.id {
        assert cables[i] in cables;
      }
    }
  }

  lemma InsertedIs(cables: seq<PlanCable>, c: PlanCable, at: nat, d: PlanCable)
    ensures d in Inserted(cables, c, at) <==> d in cables || d == c
  {
    var k := if at <= |cables| then at else |cables|;
    assert cables == cables[..k] + cables[k..];
  }

  /** What one operation does to the cables. */
  lemma ApplyCables(op: Operation, p: Patch, choice: Choice, c: PlanCable)
    requires Apply(op, p, choice).Some?
    ensures Taken(op, p).Some? && (op.Connect? ==> Connects(op, p))
    ensures c in Apply(op, p, choice).value.cables <==>
      || (c in p.cables && c.id !in Taken(op, p).value)
      || (op.Connect? && c == NewCable(op, p, choice.newId))
  {
    hide Resolve, OnModule, OnPortIds, Without;
    var kept := Without(p.cables, Taken(op, p).value);
    WithoutIs(p.cables, Taken(op, p).value, c);
    if op.Connect? {
      InsertedIs(kept, NewCable(op, p, choice.newId), choice.position, c);
    }
  }

  /** The ends of a connect resolve to modules of the patch. */
  ghost predicate Connects(op: Operation, p: Patch)
    requires op.Connect?
  {
    && op.output.portId.Some? && op.input.portId.Some?
    && Resolve(op.output.target, p.aliases).Some? && Resolve(op.input.target, p.aliases).Some?
  }

  lemma ConnectTaken(op: Operation, p: Patch, choice: Choice)
    requires op.Connect? && Apply(op, p, choice).Some?
    ensures Taken(op, p).Some? && Connects(op, p)
  {
    hide Resolve, OnPortIds, Without;
  }

  lemma ApplyKnown(op: Operation, world: PlanWorld, choices: seq<Choice>, p: Patch, choice: Choice)
    requires Known(world, choices, p.cables) && Apply(op, p, choice).Some? && NewTo(world, choice.newId)
    requires forall k :: 0 <= k < |choices| ==> choices[k].newId != choice.newId
    ensures Known(world, choices + [choice], Apply(op, p, choice).value.cables)
  {
    hide Resolve, OnModule, OnPortIds, Without, Taken, HasCable, Inserted;
    var cables' := Apply(op, p, choice).value.cables;
    forall c | c in cables'
      ensures HasCable(world.cables, c.id) || exists k :: 0 <= k <= |choices| && (choices + [choice])[k].newId == c.id
    {
      ApplyCables(op, p, choice, c);
      if c in p.cables && !HasCable(world.cables, c.id) {
        var k :| 0 <= k < |choices| && choices[k].newId == c.id;
        assert (choices + [choice])[k] == choices[k];
      } else if c !in p.cables {
        assert (choices + [choice])[|choices|] == choice;
      }
    }
    var kept := Without(p.cables, Taken(op, p).value);
    WithoutDistinct(p.cables, Taken(op, p).value);
    if op.Connect? {
      ConnectTaken(op, p, choice);
      forall d | d in kept
        ensures d.id != choice.newId
      {
        WithoutIs(p.cables, Taken(op, p).value, d);
      }
      InsertedDistinct(kept, NewCable(op, p, choice.newId), choice.position);
    }
  }

  lemma {:induction false} CommittedKnown(ops: seq<Operation>, world: PlanWorld, choices: seq<Choice>)
    requires WorldOk(world) && |choices| == |ops| && AllNew(world, choices) && AllDistinct(choices)
    requires Committed(ops, world, choices).Some?
    ensures Known(world, choices, Committed(ops, world, choices).value.cables)
  {
    if ops == [] {
      assert forall i :: 0 <= i < |world.cables| ==> world.cables[i] in world.cables;
    } else {
      hide Committed, Apply, Known, NewTo, WorldOk;
      var n := |ops| - 1;
      var p := LastApplied(ops, world, choices);
      CommittedKnown(ops[..n], world, choices[..n]);
      ApplyKnown(ops[n], world, choices[..n], p, choices[n]);
    }
  }

  /** The cable was there or some connect made it, and no operation since then takes it. */
  ghost predicate Survives(ops: seq<Operation>, world: PlanWorld, choices: seq<Choice>, c: PlanCable)
    requires |choices| == |ops|
  {
    || (c in world.cables && Spared(ops, world, choices, 0, c))
    || exists k: nat :: MadeAt(ops, choices, k, c) && Spared(ops, world, choices, k + 1, c)
  }

  lemma SurvivesNext(ops: seq<Operation>, world: PlanWorld, choices: seq<Choice>, op: Operation, choice: Choice,
          c: PlanCable)
    requires |choices| == |ops| && Committed(ops, world, choices).Some?
    ensures Survives(ops + [op], world, choices + [choice], c) <==>
      || (Survives(ops, world, choices, c) && !Hits(ops, choices, Committed(ops, world, choices).value.cables, op, c))
      || MadeAt(ops + [op], choices + [choice], |ops|, c)
  {
    hide Hits, Committed, MadeAt, Spared;
    var ops', choices' := ops + [op], choices + [choice];
    SparedNext(ops, world, choices, op, choice, 0, c);
    forall k: nat | k < |ops|
      ensures MadeAt(ops', choices', k, c) <==> MadeAt(ops, choices, k, c)
      ensures Spared(ops', world, choices', k + 1, c) <==>
        Spared(ops, world, choices, k + 1, c) && !Hits(ops, choices, Committed(ops, world, choices).value.cables, op, c)
    {
      HitPrefix(ops, world, choices, op, choice, k, c);
      SparedNext(ops, world, choices, op, choice, k + 1, c);
    }
    SparedAtEnd(ops', world, choices', c);
    assert forall k: nat :: MadeAt(ops', choices', k, c) ==> k <= |ops| by { MadeWithin(ops', choices', c); }
    assert forall k: nat :: MadeAt(ops, choices, k, c) ==> k < |ops| by { MadeWithin(ops, choices, c); }
  }

  lemma SparedAtEnd(ops: seq<Operation>, world: PlanWorld, choices: seq<Choice>, c: PlanCable)
    requires |choices| == |ops|
    ensures Spared(ops, world, choices, |ops|, c)
  {}

  lemma MadeWithin(ops: seq<Operation>, choices: seq<Choice>, c: PlanCable)
    requires |choices| == |ops|
    ensures forall k: nat :: MadeAt(ops, choices, k, c) ==> k < |ops|
  {}

  /** The cable a connect makes is the one between the ports it names. */
  lemma MadeIs(ops: seq<Operation>, world: PlanWorld, choices: seq<Choice>, op: Operation, p: Patch, choice: Choice,
          c: PlanCable)
    requires |choices| == |ops| && Committed(ops, world, choices) == Some(p) && (op.Connect? ==> Connects(op, p))
    ensures MadeAt(ops + [op], choices + [choice], |ops|, c) <==> op.Connect? && c == NewCable(op, p, choice.newId)
  {
    hide Committed, Means, Resolve;
    assert (ops + [op])[..|ops|] == ops && (choices + [choice])[..|ops|] == choices;
    if op.Connect? {
      MeansOnly(ops, world, choices, op.output.target, Resolve(op.output.target, p.aliases).value);
      MeansOnly(ops, world, choices, op.input.target, Resolve(op.input.target, p.aliases).value);
    }
  }

  /** After every plan that commits, the patch has exactly the cables that were there or that
      a connect made between the ports it names, less those that an operation since takes. */
  lemma {:induction false} CablesExact(ops: seq<Operation>, world: PlanWorld, choices: seq<Choice>, c: PlanCable)
    requires WorldOk(world) && |choices| == |ops| && AllNew(world, choices) && AllDistinct(choices)
    requires Committed(ops, world, choices).Some?
    ensures c in Committed(ops, world, choices).value.cables <==> Survives(ops, world, choices, c)
  {
    if ops == [] {
      MadeWithin(ops, choices, c);
      SparedAtEnd(ops, world, choices, c);
    } else {
      hide Committed, Apply, Known, NewTo, WorldOk, Survives, Hits, MadeAt, Connects, Taken;
      var n := |ops| - 1;
      var p := LastApplied(ops, world, choices);
      CablesExact(ops[..n], world, choices[..n], c);
      CommittedKnown(ops[..n], world, choices[..n]);
      ApplyCables(ops[n], p, choices[n], c);
      SurvivesNext(ops[..n], world, choices[..n], ops[n], choices[n], c);
      MadeIs(ops[..n], world, choices[..n], ops[n], p, choices[n], c);
      if c in p.cables {
        KnownDistinct(world, choices[..n], p.cables);
        TakenHits(ops[..n], world, choices[..n], ops[n], p, c);
      }
    }
  }

  lemma KnownDistinct(world: PlanWorld, choices: seq<Choice>, cables: seq<PlanCable>)
    requires Known(world, choices, cables)
    ensures DistinctCableIds(cables)
  {}
}
