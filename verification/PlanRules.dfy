/** When an operation is accepted, what a refusal complains of, and what an acceptance
    changes, said of the snapshot and of the plan so far, without going through the steps
    that validation takes. */
module PlanRules {
  import opened Basics
  import opened DecimalIds
  import opened Layout
  import opened Plan
  import opened Validation
  import opened PlanProperties

  // ----- what an operation is about -----

  /** The reference is the module's numeral, or an alias that stands for it. */
  ghost predicate Refers(ref: ModuleRef, aliases: map<string, int>, id: int) {
    || (ref.ById? && 0 <= id <= INT64_MAX && ref.text == Numeral(id))
    || (ref.ByAlias? && ref.alias in aliases && aliases[ref.alias] == id)
  }

  lemma RefersIs(ref: ModuleRef, aliases: map<string, int>, id: int)
    ensures Resolve(ref, aliases) == Some(id) <==> Refers(ref, aliases, id)
  {
    hide HasIdShape, Value, Numeral;
    if ref.ById? && id >= 0 {
      ParsesExactlyNumerals(ref.text, id);
    }
  }

  ghost predicate Unresolved(ref: ModuleRef, aliases: map<string, int>) {
    forall id :: !Refers(ref, aliases, id)
  }

  /** The snapshot's module with this id, not removed by the plan so far. */
  ghost predicate Standing(world: PlanWorld, r: Removals, id: int, m: WorldModule) {
    m in world.modules && m.id == id && id !in r.modules
  }

  ghost predicate Stands(world: PlanWorld, r: Removals, id: int) {
    HasModule(world.modules, id) && id !in r.modules
  }

  /** The snapshot's cable, not removed by the plan so far. */
  ghost predicate CableStands(world: PlanWorld, r: Removals, c: PlanCable) {
    c in world.cables && c.id !in r.cables
  }

  predicate HasTarget(op: Operation) {
    op.RemoveModule? || IsTweak(op) || op.MoveModule? || op.DisconnectPort?
  }

  function TargetOf(op: Operation): ModuleRef
    requires HasTarget(op)
  {
    if op.DisconnectPort? then op.port.target else op.target
  }

  // ----- the conditions -----

  ghost predicate AnotherBridge(world: PlanWorld, r: Removals, id: int) {
    exists m :: m in world.modules && IsBridgeModule(m) && m.id != id && m.id !in r.modules
  }

  ghost predicate LeavesABridge(op: Operation, world: PlanWorld, r: Removals, id: int)
    requires op.RemoveModule?
  {
    forall m :: Standing(world, r, id, m) && IsBridgeModule(m) ==> op.allowLastBridge || AnotherBridge(world, r, id)
  }

  ghost predicate Attached(world: PlanWorld, r: Removals, id: int) {
    exists c :: CableStands(world, r, c) && Touches(c, id)
  }

  ghost predicate ParameterExists(op: Operation, world: PlanWorld, r: Removals, id: int)
    requires op.SetParameter? && op.paramId.Some?
  {
    exists m :: Standing(world, r, id, m) && 0 <= op.paramId.value < m.paramCount
  }

  predicate OnGrid(op: Operation)
    requires op.MoveModule?
  {
    && op.x.Some? && -4096 <= op.x.value <= 4096
    && op.y.Some? && -256 <= op.y.value <= 256
  }

  /** The panel of the module, if the rack shows one. */
  ghost predicate PanelOf(world: PlanWorld, id: int, self: nat) {
    self < |world.occupants| && world.occupants[self].hasModuleId && world.occupants[self].moduleId == id
  }

  /** The panel at the cell the move asks for, measured from the rack's origin cell. */
  ghost function CellBox(op: Operation, world: PlanWorld, self: nat): Box
    requires op.MoveModule? && OnGrid(op) && self < |world.occupants|
  {
    Box((op.x.value + 2000) as real * world.grid.width, (op.y.value + 100) as real * world.grid.height,
      world.occupants[self].box.w, world.occupants[self].box.h)
  }

  /** The cell the move asks for is clear of every other panel, as the plan leaves them. */
  ghost predicate CellFree(op: Operation, world: PlanWorld, st: Preview, self: nat)
    requires op.MoveModule? && OnGrid(op) && self < |world.occupants|
  {
    var box := CellBox(op, world, self);
    forall i :: 0 <= i < |world.occupants| && i != self && !Gone(world.occupants[i], st.removals.modules)
      ==> !Intersects(box, PlannedBox(world.occupants[i], st.places.planned))
  }

  ghost predicate PlaceAllowed(op: Operation, world: PlanWorld, st: Preview, self: nat)
    requires op.MoveModule? && OnGrid(op) && self < |world.occupants|
  {
    op.collision.Fail? && !st.places.uncertain ==> CellFree(op, world, st, self)
  }

  /** The end of a connect is on a plan-made module, or on a port that a standing module has. */
  ghost predicate EndOk(world: PlanWorld, r: Removals, id: int, t: PortType, port: int) {
    id < 0 ||
    exists m :: Standing(world, r, id, m) && 0 <= port < (if t.Input? then m.inputCount else m.outputCount)
  }

  /** Something is on the input already, of the snapshot's or of the plan's. */
  ghost predicate Occupied(world: PlanWorld, r: Removals, id: int, port: int) {
    (id, port) in r.claimed || (id >= 0 && exists c :: CableStands(world, r, c) && OnPort(c, id, Input, port))
  }

  ghost predicate Ends(op: Operation, aliases: map<string, int>, out: int, inp: int)
    requires op.Connect?
  {
    Refers(op.output.target, aliases, out) && Refers(op.input.target, aliases, inp)
  }

  ghost predicate EndsOk(op: Operation, world: PlanWorld, r: Removals, out: int, inp: int)
    requires op.Connect?
  {
    && op.output.portId.Some? && op.input.portId.Some?
    && EndOk(world, r, out, Output, op.output.portId.value) && EndOk(world, r, inp, Input, op.input.portId.value)
  }

  /** What an operation asks of a standing module it is aimed at. */
  ghost predicate AllowedOn(op: Operation, world: PlanWorld, st: Preview, id: int)
    requires HasTarget(op)
  {
    match op
    case RemoveModule(_, policy, _) =>
      LeavesABridge(op, world, st.removals, id) && (policy.FailIfAttached? ==> !Attached(world, st.removals, id))
    case SetParameter(_, paramId) => paramId.Some? && ParameterExists(op, world, st.removals, id)
    case MoveModule(_, _, _, _) =>
      forall self :: PanelOf(world, id, self) ==> OnGrid(op) && PlaceAllowed(op, world, st, self)
    case DisconnectPort(port, portType, _) => port.portId.Some? && portType.Named?
    case _ => true
  }

  ghost predicate ConnectAllowed(op: Operation, world: PlanWorld, st: Preview)
    requires op.Connect?
  {
    exists out, inp :: Ends(op, st.naming.aliases, out, inp) && EndsOk(op, world, st.removals, out, inp)
      && (op.inputPolicy.ReplaceAll? || !Occupied(world, st.removals, inp, op.input.portId.value))
  }

  /** The operation is accepted. A module that the plan makes is never looked at. */
  ghost predicate Allowed(op: Operation, world: PlanWorld, st: Preview) {
    if HasTarget(op) then
      exists id :: Refers(TargetOf(op), st.naming.aliases, id)
        && (id < 0 || (Stands(world, st.removals, id) && AllowedOn(op, world, st, id)))
    else
      match op
      case AddModule(pluginSlug, modelSlug, alias) =>
        (pluginSlug, modelSlug) in world.installedModels && alias != "" && alias !in st.naming.aliases
      case Connect(_, _, _) => ConnectAllowed(op, world, st)
      case Disconnect(cableId) => exists c :: CableStands(world, st.removals, c) && NamesCable(cableId, c.id)
      case _ => false
  }

  ghost predicate NamesCable(text: string, id: int) {
    0 <= id <= INT64_MAX && text == Numeral(id)
  }

  // ----- lookups -----

  lemma LiveIs(world: PlanWorld, r: Removals, id: int)
    requires DistinctModuleIds(world.modules)
    ensures LiveModule(world, r, id).Some? <==> Stands(world, r, id)
    ensures LiveModule(world, r, id).Some? ==>
      forall m :: Standing(world, r, id, m) <==> m == world.modules[LiveModule(world, r, id).value]
  {
    var k := ModuleIndex(world.modules, id);
    if k < |world.modules| {
      assert world.modules[k] in world.modules;
    }
  }

  lemma PanelIs(world: PlanWorld, id: int)
    requires DistinctIds(world.occupants)
    ensures var k := WidgetIndex(world.occupants, id);
      forall self :: PanelOf(world, id, self) <==> k < |world.occupants| && self == k
  {}

  lemma {:induction false} RemovalCounts(modules: seq<WorldModule>, removed: seq<int>, m: WorldModule)
    requires DistinctModuleIds(modules) && m in modules && IsBridgeModule(m) && m.id !in removed
    ensures BridgesLeft(modules, removed) == BridgesLeft(modules, removed + [m.id]) + 1
  {
    var rest, last := modules[..|modules| - 1], modules[|modules| - 1];
    assert modules == rest + [last];
    if last == m {
      Untouched(rest, removed, m.id);
    } else {
      RemovalCounts(rest, removed, m);
    }
  }

  lemma LastBridgeIs(op: Operation, world: PlanWorld, r: Removals, m: WorldModule)
    requires op.RemoveModule? && DistinctModuleIds(world.modules) && Standing(world, r, m.id, m)
    ensures LastBridge(op, world, r, m) <==> !LeavesABridge(op, world, r, m.id)
  {
    hide BridgesLeft;
    assert forall n :: Standing(world, r, m.id, n) <==> n == m by {
      assert Stands(world, r, m.id);
      LiveIs(world, r, m.id);
    }
    if IsBridgeModule(m) {
      RemovalCounts(world.modules, r.modules, m);
      BridgesLeftPositive(world.modules, r.modules + [m.id]);
      assert AnotherBridge(world, r, m.id) <==> BridgesLeft(world.modules, r.modules + [m.id]) > 0 by {
        assert forall x :: x in r.modules + [m.id] <==> x in r.modules || x == m.id;
      }
    }
  }

  lemma AttachedIs(world: PlanWorld, r: Removals, id: int)
    ensures Attached(world, r, id) <==> OnModule(world.cables, r.cables, id) != []
  {
    OnModuleIs(world.cables, r.cables, id);
    var hits := OnModule(world.cables, r.cables, id);
    if hits != [] {
      var x := hits[0];
      assert x in hits;
      var c :| c in world.cables && c.id == x && Touches(c, id);
      assert CableStands(world, r, c);
    }
  }

  lemma OccupiedIs(world: PlanWorld, r: Removals, id: int, port: int)
    ensures Occupied(world, r, id, port) <==> (id, port) in r.claimed || Existing(world, r, id, port) != []
  {
    hide OnPort;
    OnPortIs(world.cables, r.cables, id, Input, port);
    var hits := OnPortIds(world.cables, r.cables, id, Input, port);
    assert forall c :: CableStands(world, r, c) && OnPort(c, id, Input, port) ==> c.id in hits;
    if hits != [] {
      var x := hits[0];
      assert x in hits;
      var c :| c in world.cables && c.id == x && OnPort(c, id, Input, port);
      assert CableStands(world, r, c);
    }
  }

  // ----- what a refusal complains of -----

  /** The target is a snapshot module that stands. */
  ghost predicate Aimed(op: Operation, world: PlanWorld, st: Preview, id: int)
    requires HasTarget(op)
  {
    Refers(TargetOf(op), st.naming.aliases, id) && id >= 0 && Stands(world, st.removals, id)
  }

  ghost predicate AliasTaken(op: Operation, world: PlanWorld, st: Preview)
    requires op.AddModule?
  {
    && (op.pluginSlug, op.modelSlug) in world.installedModels
    && (op.alias == "" || op.alias in st.naming.aliases)
  }

  ghost predicate CannotRead(op: Operation, world: PlanWorld, st: Preview, id: int)
    requires HasTarget(op) && Aimed(op, world, st, id)
  {
    match op
    case SetParameter(_, paramId) => paramId.None?
    case MoveModule(_, _, _, _) => !OnGrid(op) && exists self :: PanelOf(world, id, self)
    case DisconnectPort(port, portType, _) => port.portId.None? || !portType.Named?
    case _ => false
  }

  /** The removal or the move would hit what its policy says to leave alone. */
  ghost predicate Blocked(op: Operation, world: PlanWorld, st: Preview, id: int)
    requires HasTarget(op) && Aimed(op, world, st, id)
  {
    match op
    case RemoveModule(_, policy, _) =>
      LeavesABridge(op, world, st.removals, id) && policy.FailIfAttached? && Attached(world, st.removals, id)
    case MoveModule(_, _, _, _) =>
      OnGrid(op) && exists self :: PanelOf(world, id, self) && !PlaceAllowed(op, world, st, self)
    case _ => false
  }

  ghost predicate OntoOccupied(op: Operation, world: PlanWorld, st: Preview)
    requires op.Connect?
  {
    exists out, inp :: Ends(op, st.naming.aliases, out, inp) && EndsOk(op, world, st.removals, out, inp)
      && Occupied(world, st.removals, inp, op.input.portId.value)
  }

  /** What each error code says of the operation refused with it. */
  ghost predicate Complains(op: Operation, world: PlanWorld, st: Preview, code: ErrorCode) {
    match code
    case ModelNotInstalled => op.AddModule? && (op.pluginSlug, op.modelSlug) !in world.installedModels
    case ModuleNotFound =>
      || (HasTarget(op)
          && (Unresolved(TargetOf(op), st.naming.aliases)
              || exists id ::
                   Refers(TargetOf(op), st.naming.aliases, id) && id >= 0 && !Stands(world, st.removals, id)))
      || (op.Connect?
          && (Unresolved(op.output.target, st.naming.aliases) || Unresolved(op.input.target, st.naming.aliases)))
    case BadRequest =>
      || op.BadShape?
      || (op.AddModule? && AliasTaken(op, world, st))
      || (HasTarget(op) && exists id :: Aimed(op, world, st, id) && CannotRead(op, world, st, id))
      || (op.Connect? && (op.output.portId.None? || op.input.portId.None?)
          && exists out, inp :: Ends(op, st.naming.aliases, out, inp))
    case ParameterNotFound =>
      op.SetParameter? && op.paramId.Some?
      && exists id :: Aimed(op, world, st, id) && !ParameterExists(op, world, st.removals, id)
    case PortNotFound =>
      op.Connect? && op.output.portId.Some? && op.input.portId.Some?
      && exists out, inp :: Ends(op, st.naming.aliases, out, inp) && !EndsOk(op, world, st.removals, out, inp)
    case CableNotFound => op.Disconnect? && !Allowed(op, world, st)
    case ValidationFailed =>
      || (HasTarget(op) && exists id :: Aimed(op, world, st, id) && Blocked(op, world, st, id))
      || (op.Connect? && op.inputPolicy.FailIfConnected? && OntoOccupied(op, world, st))
    case UnsupportedOperation =>
      || op.DuplicateModule? || op.UnknownOperation?
      || (op.RemoveModule? && exists id :: Aimed(op, world, st, id) && !LeavesABridge(op, world, st.removals, id))
      || (op.Connect? && op.inputPolicy.Stack? && OntoOccupied(op, world, st))
  }

  ghost predicate Ruled(op: Operation, world: PlanWorld, st: Preview, v: Verdict) {
    && (v.Accepted? <==> Allowed(op, world, st))
    && forall code :: v == Refused(code) <==> Complains(op, world, st, code)
  }

  // ----- the rules are the validation's -----

  lemma AddRuled(op: Operation, world: PlanWorld, st: Preview)
    requires op.AddModule?
    ensures Ruled(op, world, st, Add(op, world, st).1)
  {}

  /** The reference resolves to one id or to none. */
  lemma RefersOnce(ref: ModuleRef, aliases: map<string, int>)
    ensures Resolve(ref, aliases).None? <==> Unresolved(ref, aliases)
    ensures Resolve(ref, aliases).Some? ==> forall id :: Refers(ref, aliases, id) <==> id == Resolve(ref, aliases).value
  {
    forall id {
      RefersIs(ref, aliases, id);
    }
  }

  /** What the target refers to, if anything; the rules are about that module and no other. */
  lemma TargetRuled(op: Operation, world: PlanWorld, st: Preview) returns (ref: Option<int>)
    requires HasTarget(op)
    ensures ref == Resolve(TargetOf(op), st.naming.aliases)
    ensures ref.None? <==> Unresolved(TargetOf(op), st.naming.aliases)
    ensures ref.Some? ==> Refers(TargetOf(op), st.naming.aliases, ref.value)
    ensures ref.Some? ==> (Aimed(op, world, st, ref.value) <==> ref.value >= 0 && Stands(world, st.removals, ref.value))
    ensures forall id :: Refers(TargetOf(op), st.naming.aliases, id) ==> ref == Some(id)
    ensures forall id :: Aimed(op, world, st, id) ==> ref == Some(id)
  {
    ref := Resolve(TargetOf(op), st.naming.aliases);
    RefersOnce(TargetOf(op), st.naming.aliases);
  }

  lemma RemoveRuled(op: Operation, world: PlanWorld, st: Preview)
    requires op.RemoveModule? && WorldOk(world)
    ensures Ruled(op, world, st, Remove(op, world, st).1)
  {
    hide Resolve, Refers, Aimed, LiveModule, Stands, Standing, LastBridge, LeavesABridge, Attached, OnModule;
    var ref := TargetRuled(op, world, st);
    if ref.Some? && ref.value >= 0 {
      LiveIs(world, st.removals, ref.value);
      var k := LiveModule(world, st.removals, ref.value);
      if k.Some? {
        var m := world.modules[k.value];
        assert Standing(world, st.removals, m.id, m);
        LastBridgeIs(op, world, st.removals, m);
        AttachedIs(world, st.removals, m.id);
      }
    }
  }

  lemma TweakRuled(op: Operation, world: PlanWorld, st: Preview)
    requires IsTweak(op) && WorldOk(world)
    ensures Ruled(op, world, st, Tweak(op, world, st).1)
  {
    hide Resolve, Refers, Aimed, LiveModule, Stands, Standing;
    var ref := TargetRuled(op, world, st);
    if ref.Some? && ref.value >= 0 {
      LiveIs(world, st.removals, ref.value);
    }
  }

  lemma CellBoxIs(op: Operation, world: PlanWorld, self: nat)
    requires op.MoveModule? && OnGrid(op) && self < |world.occupants|
    ensures CellBox(op, world, self) == TargetBox(world, self, (op.x.value, op.y.value))
  {}

  lemma PlaceIs(op: Operation, world: PlanWorld, st: Preview, self: nat)
    requires op.MoveModule? && OnGrid(op) && self < |world.occupants|
    ensures var target := TargetBox(world, self, (op.x.value, op.y.value));
      CellFree(op, world, st, self) <==>
      IsFree(world.occupants, self, target, st.removals.modules, st.places.planned)
  {}

  lemma MoveRuled(op: Operation, world: PlanWorld, st: Preview)
    requires op.MoveModule? && WorldOk(world)
    ensures Ruled(op, world, st, Move(op, world, st).1)
  {
    hide Resolve, Refers, Aimed, LiveModule, Stands, Standing, PanelOf, WidgetIndex, CellFree, IsFree;
    var ref := TargetRuled(op, world, st);
    if ref.Some? && ref.value >= 0 {
      LiveIs(world, st.removals, ref.value);
      PanelIs(world, ref.value);
      var self := WidgetIndex(world.occupants, ref.value);
      if self < |world.occupants| {
        assert PanelOf(world, ref.value, self);
        if OnGrid(op) {
          PlaceIs(op, world, st, self);
        }
      }
    }
  }

  lemma EndIs(world: PlanWorld, r: Removals, n: Notes, id: int, t: PortType, port: int)
    requires DistinctModuleIds(world.modules)
    ensures var v := ConnectEnd(world, r, n, id, t, port).1;
      v == if EndOk(world, r, id, t, port) then Accepted else Refused(PortNotFound)
  {
    hide LiveModule, Stands, Standing;
    LiveIs(world, r, id);
    var k := LiveModule(world, r, id);
    assert k.Some? ==> Standing(world, r, id, world.modules[k.value]);
    assert forall m :: Standing(world, r, id, m) ==> Stands(world, r, id) by {
      StandingStands(world, r, id);
    }
  }

  lemma StandingStands(world: PlanWorld, r: Removals, id: int)
    ensures forall m :: Standing(world, r, id, m) ==> Stands(world, r, id)
  {}

  lemma ConnectRuled(op: Operation, world: PlanWorld, st: Preview)
    requires op.Connect? && WorldOk(world)
    ensures Ruled(op, world, st, Connecting(op, world, st).1)
  {
    hide Resolve, Refers, ConnectEnd, EndOk, Occupied, Existing;
    RefersOnce(op.output.target, st.naming.aliases);
    RefersOnce(op.input.target, st.naming.aliases);
    var out, inp := Resolve(op.output.target, st.naming.aliases), Resolve(op.input.target, st.naming.aliases);
    if out.Some? && inp.Some? {
      assert Ends(op, st.naming.aliases, out.value, inp.value);
      if op.output.portId.Some? && op.input.portId.Some? {
        var n := ConnectEnd(world, st.removals, st.notes, out.value, Output, op.output.portId.value).0;
        EndIs(world, st.removals, st.notes, out.value, Output, op.output.portId.value);
        EndIs(world, st.removals, n, inp.value, Input, op.input.portId.value);
        OccupiedIs(world, st.removals, inp.value, op.input.portId.value);
      }
    }
  }

  lemma DisconnectRuled(op: Operation, world: PlanWorld, st: Preview)
    requires op.Disconnect?
    ensures Ruled(op, world, st, DisconnectCable(op.cableId, world, st.removals).1)
  {
    hide HasIdShape, Value, Numeral;
    forall n: nat {
      ParsesExactlyNumerals(op.cableId, n);
    }
  }

  lemma DisconnectPortRuled(op: Operation, world: PlanWorld, st: Preview)
    requires op.DisconnectPort? && WorldOk(world)
    ensures Ruled(op, world, st, DisconnectingPort(op, world, st).1)
  {
    hide Resolve, Refers, Aimed, LiveModule, Stands, Standing;
    var ref := TargetRuled(op, world, st);
    if ref.Some? && ref.value >= 0 {
      LiveIs(world, st.removals, ref.value);
    }
  }

  /** For every operation, world and plan so far: it is accepted exactly if the rules allow it,
      and refused with a code exactly if that code's complaint holds. */
  lemma VerdictIs(op: Operation, world: PlanWorld, st: Preview)
    requires WorldOk(world)
    ensures Ruled(op, world, st, Validate(op, world, st).1)
  {
    hide Ruled, Add, Remove, Move, Tweak, Connecting, DisconnectCable, DisconnectingPort, WorldOk;
    if op.AddModule? {
      AddRuled(op, world, st);
    } else if op.RemoveModule? {
      RemoveRuled(op, world, st);
    } else if op.MoveModule? {
      MoveRuled(op, world, st);
    } else if op.Connect? {
      ConnectRuled(op, world, st);
    } else if op.Disconnect? {
      DisconnectRuled(op, world, st);
    } else if op.DisconnectPort? {
      DisconnectPortRuled(op, world, st);
    } else if IsTweak(op) {
      TweakRuled(op, world, st);
    } else {
      OthersRuled(op, world, st);
    }
  }

  lemma OthersRuled(op: Operation, world: PlanWorld, st: Preview)
    requires op.BadShape? || op.DuplicateModule? || op.UnknownOperation?
    ensures Ruled(op, world, st, Validate(op, world, st).1)
  {}
}
