/** The preview accumulated in place, operation by operation, as the validator does it.
    Every method is proved to do to `View()` what the function of the same step does. */
module PreviewStates {
  import opened Basics
  import opened DecimalIds
  import opened Layout
  import opened Plan
  import opened Validation

  class PreviewState {
    var aliases: map<string, int>
    var nextSyntheticId: int
    var addedModules: seq<(string, string, string)>
    var removedModules: seq<int>
    var movedModules: seq<int>
    var modifiedModules: seq<int>
    var addedCables: nat
    var removedCables: seq<int>
    var replacedInputs: seq<(int, int)>
    var claimedInputs: seq<(int, int)>
    var plannedBoxes: map<int, Box>
    var layoutUncertain: bool
    var removesBridge: bool
    var touchesAudio: bool
    var missingModule: bool
    var adapterUncertainty: bool

    function NamingView(): Naming
      reads this
    {
      Naming(aliases, nextSyntheticId, addedModules)
    }

    function RemovalsView(): Removals
      reads this
    {
      Removals(removedModules, removedCables, claimedInputs, replacedInputs)
    }

    function PlacesView(): Places
      reads this
    {
      Places(plannedBoxes, layoutUncertain)
    }

    function NotesView(): Notes
      reads this
    {
      Notes(removesBridge, touchesAudio, missingModule, adapterUncertainty)
    }

    function View(): Preview
      reads this
    {
      Preview(NamingView(), RemovalsView(), PlacesView(), NotesView(), movedModules, modifiedModules, addedCables)
    }

    constructor ()
      ensures View() == EMPTY_PREVIEW
    {
      aliases, nextSyntheticId, addedModules := map[], -1000, [];
      removedModules, movedModules, modifiedModules := [], [], [];
      addedCables, removedCables, replacedInputs, claimedInputs := 0, [], [], [];
      plannedBoxes, layoutUncertain := map[], false;
      removesBridge, touchesAudio, missingModule, adapterUncertainty := false, false, false, false;
    }

    method CableRemoved(cableId: int) returns (gone: bool)
      ensures gone <==> cableId in removedCables
    {
      for i := 0 to |removedCables|
        invariant forall k :: 0 <= k < i ==> removedCables[k] != cableId
      {
        if removedCables[i] == cableId {
          return true;
        }
      }
      return false;
    }

    method ModuleRemoved(moduleId: int) returns (gone: bool)
      ensures gone <==> moduleId in removedModules
    {
      for i := 0 to |removedModules|
        invariant forall k :: 0 <= k < i ==> removedModules[k] != moduleId
      {
        if removedModules[i] == moduleId {
          return true;
        }
      }
      return false;
    }

    method InputClaimed(moduleId: int, portId: int) returns (claimed: bool)
      ensures claimed <==> (moduleId, portId) in claimedInputs
    {
      for i := 0 to |claimedInputs|
        invariant forall k :: 0 <= k < i ==> claimedInputs[k] != (moduleId, portId)
      {
        if claimedInputs[i].0 == moduleId && claimedInputs[i].1 == portId {
          return true;
        }
      }
      return false;
    }

    /** Records a cable the plan removes, once. */
    method RemoveCable(cableId: int)
      modifies this`removedCables
      ensures RemovalsView() == old(RemovalsView()).(cables := AddOnce(old(removedCables), cableId))
    {
      var gone := CableRemoved(cableId);
      if !gone {
        removedCables := removedCables + [cableId];
      }
    }

    method RemoveCables(ids: seq<int>)
      modifies this`removedCables
      ensures RemovalsView() == ListCables(old(RemovalsView()), ids)
    {
      for i := 0 to |ids|
        invariant RemovalsView() == ListCables(old(RemovalsView()), ids[..i])
      {
        assert ids[..i + 1][..i] == ids[..i] && ids[..i + 1][i] == ids[i];
        RemoveCable(ids[i]);
      }
      assert ids[..|ids|] == ids;
    }

    method Live(world: PlanWorld, id: int) returns (r: Option<nat>)
      ensures r == LiveModule(world, RemovalsView(), id)
    {
      var gone := ModuleRemoved(id);
      if gone {
        return None;
      }
      var k := FindModule(world.modules, id);
      return if k == |world.modules| then None else Some(k);
    }

    method HearsOp(m: WorldModule)
      modifies this`touchesAudio
      ensures NotesView() == Hears(old(NotesView()), m)
    {
      if IsAudioModule(m) {
        touchesAudio := true;
      }
    }

    method DeclareOp(alias: string, pluginSlug: string, modelSlug: string)
      modifies this`aliases, this`nextSyntheticId, this`addedModules
      ensures NamingView() == Declare(old(NamingView()), alias, pluginSlug, modelSlug)
    {
      aliases := aliases[alias := nextSyntheticId];
      nextSyntheticId := nextSyntheticId - 1;
      addedModules := addedModules + [(alias, pluginSlug, modelSlug)];
    }

    method NoteAdditionOp(pluginSlug: string, modelSlug: string)
      modifies this`touchesAudio, this`adapterUncertainty
      ensures NotesView() == NoteAddition(old(NotesView()), pluginSlug, modelSlug)
    {
      if IsAudioModel(pluginSlug, modelSlug) {
        touchesAudio := true;
      }
      if IsThirdParty(pluginSlug) {
        adapterUncertainty := true;
      }
    }

    method AcceptAdditionOp(alias: string, pluginSlug: string, modelSlug: string)
      modifies this
      ensures View() == AcceptAddition(old(View()), alias, pluginSlug, modelSlug)
    {
      DeclareOp(alias, pluginSlug, modelSlug);
      layoutUncertain := true;
      NoteAdditionOp(pluginSlug, modelSlug);
    }

    method AddModuleOp(op: Operation, world: PlanWorld) returns (v: Verdict)
      requires op.AddModule?
      modifies this
      ensures (View(), v) == Add(op, world, old(View()))
    {
      if (op.pluginSlug, op.modelSlug) !in world.installedModels {
        missingModule := true;
        return Refused(ModelNotInstalled);
      }
      if op.alias == "" || op.alias in aliases {
        return Refused(BadRequest);
      }
      AcceptAdditionOp(op.alias, op.pluginSlug, op.modelSlug);
      return Accepted;
    }

    method NoteRemovalOp(m: WorldModule)
      modifies this`removesBridge, this`touchesAudio
      ensures NotesView() == NoteRemoval(old(NotesView()), m)
    {
      if IsBridgeModule(m) {
        removesBridge := true;
      }
      HearsOp(m);
    }

    method TakeModuleOp(world: PlanWorld, id: int, policy: CablePolicy) returns (v: Verdict)
      modifies this`removedCables, this`removedModules
      ensures (RemovalsView(), v) == TakeModule(world, old(RemovalsView()), id, policy)
    {
      var attached := CablesOnModule(world.cables, removedCables, id);
      if attached != [] && policy.FailIfAttached? {
        return Refused(ValidationFailed);
      }
      RemoveCables(attached);
      removedModules := removedModules + [id];
      return Accepted;
    }

    method RemoveLiveOp(op: Operation, world: PlanWorld, m: WorldModule) returns (v: Verdict)
      requires op.RemoveModule?
      modifies this
      ensures (View(), v) == RemoveLive(op, world, old(View()), m)
    {
      var bridgesLeft := RemainingBridgeCount(world.modules, removedModules);
      if IsBridgeModule(m) && !op.allowLastBridge && bridgesLeft <= 1 {
        removesBridge := true;
        return Refused(UnsupportedOperation);
      }
      NoteRemovalOp(m);
      v := TakeModuleOp(world, m.id, op.cablePolicy);
    }

    method RemoveModuleOp(op: Operation, world: PlanWorld) returns (v: Verdict)
      requires op.RemoveModule?
      modifies this
      ensures (View(), v) == Remove(op, world, old(View()))
    {
      var ref := Resolve(op.target, aliases);
      if ref.None? {
        return Refused(ModuleNotFound);
      }
      if ref.value >= 0 {
        var live := Live(world, ref.value);
        if live.None? {
          return Refused(ModuleNotFound);
        }
        v := RemoveLiveOp(op, world, world.modules[live.value]);
      } else {
        v := Accepted;
      }
    }

    method TweakOp(op: Operation, world: PlanWorld) returns (v: Verdict)
      requires IsTweak(op)
      modifies this`modifiedModules
      ensures (View(), v) == Tweak(op, world, old(View()))
    {
      var ref := Resolve(op.target, aliases);
      if ref.None? {
        return Refused(ModuleNotFound);
      }
      var id := ref.value;
      if id >= 0 {
        var live := Live(world, id);
        if live.None? {
          return Refused(ModuleNotFound);
        }
        if op.SetParameter? {
          if op.paramId.None? {
            return Refused(BadRequest);
          }
          if op.paramId.value < 0 || op.paramId.value >= world.modules[live.value].paramCount {
            return Refused(ParameterNotFound);
          }
        }
      }
      modifiedModules := modifiedModules + [id];
      return Accepted;
    }

    method PlaceOp(world: PlanWorld, id: int, self: int, target: Box, collision: CollisionPolicy) returns (v: Verdict)
      modifies this`plannedBoxes, this`layoutUncertain
      ensures (PlacesView(), v) == Place(world, RemovalsView(), old(PlacesView()), id, self, target, collision)
    {
      if collision.Fail? && !layoutUncertain {
        var free := PositionFree(world.occupants, self, target, removedModules, plannedBoxes);
        if !free {
          return Refused(ValidationFailed);
        }
      }
      if collision.Fail? || collision.Force? {
        plannedBoxes := plannedBoxes[id := target];
      } else {
        layoutUncertain := true;
      }
      return Accepted;
    }

    method MoveLiveOp(op: Operation, world: PlanWorld, id: int) returns (v: Verdict)
      requires op.MoveModule?
      modifies this`plannedBoxes, this`layoutUncertain
      ensures (PlacesView(), v) == MoveLive(op, world, RemovalsView(), old(PlacesView()), id)
    {
      var live := Live(world, id);
      if live.None? {
        return Refused(ModuleNotFound);
      }
      var self := FindWidget(world.occupants, id);
      if self == |world.occupants| {
        return Accepted;
      }
      var cell := ReadGrid(op.x, op.y);
      if cell.None? {
        return Refused(BadRequest);
      }
      v := PlaceOp(world, id, self, TargetBox(world, self, cell.value), op.collision);
    }

    method MoveModuleOp(op: Operation, world: PlanWorld) returns (v: Verdict)
      requires op.MoveModule?
      modifies this
      ensures (View(), v) == Move(op, world, old(View()))
    {
      var ref := Resolve(op.target, aliases);
      if ref.None? {
        return Refused(ModuleNotFound);
      }
      v := Accepted;
      if ref.value >= 0 {
        v := MoveLiveOp(op, world, ref.value);
      }
      if v.Accepted? {
        movedModules := movedModules + [ref.value];
      }
    }

    method ConnectEndOp(world: PlanWorld, id: int, portType: PortType, port: int) returns (v: Verdict)
      modifies this`touchesAudio
      ensures (NotesView(), v) == ConnectEnd(world, RemovalsView(), old(NotesView()), id, portType, port)
    {
      if id >= 0 {
        var live := Live(world, id);
        if live.None? || port < 0 || port >= PortCount(world.modules[live.value], portType) {
          return Refused(PortNotFound);
        }
        HearsOp(world.modules[live.value]);
      }
      return Accepted;
    }

    method ConnectEndsOp(world: PlanWorld, out: int, outPort: int, inp: int, inPort: int) returns (v: Verdict)
      modifies this`touchesAudio
      ensures (NotesView(), v) == ConnectEnds(world, RemovalsView(), old(NotesView()), out, outPort, inp, inPort)
    {
      v := ConnectEndOp(world, out, Output, outPort);
      if v.Accepted? {
        v := ConnectEndOp(world, inp, Input, inPort);
      }
    }

    method ClaimInputOp(world: PlanWorld, id: int, port: int, policy: InputPolicy) returns (v: Verdict)
      modifies this`removedCables, this`claimedInputs, this`replacedInputs
      ensures (RemovalsView(), v) == ClaimInput(world, old(RemovalsView()), id, port, policy)
    {
      var connected := InputClaimed(id, port);
      var existing := [];
      if id >= 0 {
        existing := CablesOnPort(world.cables, removedCables, id, Input, port);
      }
      if connected || existing != [] {
        if policy.FailIfConnected? {
          return Refused(ValidationFailed);
        }
        if policy.Stack? {
          return Refused(UnsupportedOperation);
        }
        if existing != [] {
          replacedInputs := replacedInputs + [(id, port)];
        }
      }
      RemoveCables(existing);
      claimedInputs := claimedInputs + [(id, port)];
      return Accepted;
    }

    method ConnectOp(op: Operation, world: PlanWorld) returns (v: Verdict)
      requires op.Connect?
      modifies this
      ensures (View(), v) == Connecting(op, world, old(View()))
    {
      hide Resolve, ConnectEnds, ClaimInput;
      var out, inp := Resolve(op.output.target, aliases), Resolve(op.input.target, aliases);
      if out.None? || inp.None? {
        return Refused(ModuleNotFound);
      }
      if op.output.portId.None? || op.input.portId.None? {
        return Refused(BadRequest);
      }
      v := ConnectEndsOp(world, out.value, op.output.portId.value, inp.value, op.input.portId.value);
      if v.Accepted? {
        v := ClaimInputOp(world, inp.value, op.input.portId.value, op.inputPolicy);
        if v.Accepted? {
          addedCables := addedCables + 1;
        }
      }
    }

    method DisconnectOp(cableId: string, world: PlanWorld) returns (v: Verdict)
      modifies this`removedCables
      ensures (RemovalsView(), v) == DisconnectCable(cableId, world, old(RemovalsView()))
    {
      var parsed := ParseDecimalId(cableId);
      if parsed.NotAnId? {
        return Refused(CableNotFound);
      }
      var found := FindCable(world.cables, parsed.value);
      if !found {
        return Refused(CableNotFound);
      }
      var gone := CableRemoved(parsed.value);
      if gone {
        return Refused(CableNotFound);
      }
      RemoveCables([parsed.value]);
      return Accepted;
    }

    method DisconnectPortOp(op: Operation, world: PlanWorld) returns (v: Verdict)
      requires op.DisconnectPort?
      modifies this
      ensures (View(), v) == DisconnectingPort(op, world, old(View()))
    {
      var ref := Resolve(op.port.target, aliases);
      if ref.None? {
        return Refused(ModuleNotFound);
      }
      var id := ref.value;
      if id >= 0 {
        var live := Live(world, id);
        if live.None? {
          return Refused(ModuleNotFound);
        }
        HearsOp(world.modules[live.value]);
        if op.port.portId.None? || !op.portType.Named? {
          return Refused(BadRequest);
        }
        var matches := CablesOnPort(world.cables, removedCables, id, op.portType.value, op.port.portId.value);
        if op.policy.Top? && matches != [] {
          matches := [matches[|matches| - 1]];
        }
        RemoveCables(matches);
      }
      return Accepted;
    }

    /** Checks one operation and records what it would do. */
    method ValidateOne(op: Operation, world: PlanWorld) returns (v: Verdict)
      modifies this
      ensures (View(), v) == Validate(op, world, old(View()))
    {
      match op
      case BadShape => v := Refused(BadRequest);
      case AddModule(_, _, _) => v := AddModuleOp(op, world);
      case RemoveModule(_, _, _) => v := RemoveModuleOp(op, world);
      case MoveModule(_, _, _, _) => v := MoveModuleOp(op, world);
      case Connect(_, _, _) => v := ConnectOp(op, world);
      case Disconnect(cableId) => v := DisconnectOp(cableId, world);
      case DisconnectPort(_, _, _) => v := DisconnectPortOp(op, world);
      case DuplicateModule => v := Refused(UnsupportedOperation);
      case UnknownOperation => v := Refused(UnsupportedOperation);
      case _ => v := TweakOp(op, world);
    }
  }

  /** Validates a whole plan, stopping at the first refusal. */
  method PreviewPlan(ops: seq<Operation>, world: PlanWorld) returns (st: PreviewState, accepted: bool)
    ensures fresh(st)
    ensures ValidatePlan(ops, world) == if accepted then Some(st.View()) else None
  {
    st := new PreviewState();
    for k := 0 to |ops|
      invariant fresh(st) && ValidatePlan(ops[..k], world) == Some(st.View())
    {
      assert ops[..k + 1][..k] == ops[..k] && ops[..k + 1][k] == ops[k];
      var v := st.ValidateOne(ops[k], world);
      if v.Refused? {
        RefusedPrefix(ops, k + 1, world);
        return st, false;
      }
    }
    assert ops[..|ops|] == ops;
    return st, true;
  }

  lemma {:induction false} RefusedPrefix(ops: seq<Operation>, k: nat, world: PlanWorld)
    requires k <= |ops| && ValidatePlan(ops[..k], world) == None
    ensures ValidatePlan(ops, world) == None
  {
    if k < |ops| {
      var rest := ops[..|ops| - 1];
      assert rest[..k] == ops[..k];
      RefusedPrefix(rest, k, world);
    } else {
      assert ops[..k] == ops;
    }
  }
}
