/** Transaction validation: one operation at a time over a snapshot, into the preview
    the client is shown. `Validate` gives the meaning of one operation as a function
    on preview values; the class does the same in place and is proved against it. */
module Validation {
  import opened Basics
  import opened DecimalIds
  import opened Layout
  import opened Plan

  /** How an operation names a module: by id text, by an alias an earlier add_module
      declared, or not in any readable way. */
  datatype ModuleRef = ById(text: string) | ByAlias(alias: string) | NoRef

  /** A port reference; the port id is absent when it is not an integer that fits. */
  datatype PortRef = PortRef(target: ModuleRef, portId: Option<int>)

  /** The text of a port type: absent, one of the two it can be, or something else. */
  datatype PortText = Missing | Named(value: PortType) | Unrecognised

  datatype CablePolicy = RemoveAttached | FailIfAttached
  datatype InputPolicy = FailIfConnected | Stack | ReplaceAll
  datatype CollisionPolicy = Fail | Nearest | Force | Squeeze
  datatype DisconnectPolicy = Top | All

  datatype Operation =
    | BadShape
    | AddModule(pluginSlug: string, modelSlug: string, alias: string)
    | RemoveModule(target: ModuleRef, cablePolicy: CablePolicy, allowLastBridge: bool)
    | SetParameter(target: ModuleRef, paramId: Option<int>)
    | SetBypass(target: ModuleRef)
    | ResetModule(target: ModuleRef)
    | RandomizeModule(target: ModuleRef)
    | MoveModule(target: ModuleRef, x: Option<int>, y: Option<int>, collision: CollisionPolicy)
    | Connect(output: PortRef, input: PortRef, inputPolicy: InputPolicy)
    | Disconnect(cableId: string)
    | DisconnectPort(port: PortRef, portType: PortText, policy: DisconnectPolicy)
    | DuplicateModule
    | UnknownOperation

  datatype ErrorCode =
    | BadRequest | ModelNotInstalled | ModuleNotFound | ParameterNotFound | PortNotFound | CableNotFound
    | ValidationFailed | UnsupportedOperation

  datatype Verdict = Accepted | Refused(code: ErrorCode)

  const GRID_X_MIN := -4096
  const GRID_X_MAX := 4096
  const GRID_Y_MIN := -256
  const GRID_Y_MAX := 256

  /** The aliases the plan has declared, standing for negative synthetic ids. */
  datatype Naming = Naming(aliases: map<string, int>, nextSyntheticId: int, added: seq<(string, string, string)>)

  /** What the plan takes away, and the inputs it has taken over. */
  datatype Removals = Removals(modules: seq<int>, cables: seq<int>, claimed: seq<(int, int)>, replaced: seq<(int, int)>)

  /** Where the plan has put modules, and whether some place is not known exactly. */
  datatype Places = Places(planned: map<int, Box>, uncertain: bool)

  datatype Notes = Notes(removesBridge: bool, touchesAudio: bool, missingModule: bool, adapterUncertainty: bool)

  /** What the plan has been found to do so far. */
  datatype Preview = Preview(
    naming: Naming, removals: Removals, places: Places, notes: Notes, moved: seq<int>, modified: seq<int>,
      addedCables: nat)

  const EMPTY_PREVIEW := Preview(
    Naming(map[], -1000, []), Removals([], [], [], []), Places(map[], false), Notes(false, false, false, false), [],
      [], 0)

  // ----- the meaning of one operation -----

  function Resolve(ref: ModuleRef, aliases: map<string, int>): Option<int> {
    match ref
    case ById(text) => (match ParseSpec(text) case NotAnId => None case Id(n) => Some(n))
    case ByAlias(alias) => if alias in aliases then Some(aliases[alias]) else None
    case NoRef => None
  }

  /** The live module with this id that the plan has not removed, as an index. */
  function LiveModule(world: PlanWorld, r: Removals, id: int): (k: Option<nat>)
    ensures k.Some? ==> k.value < |world.modules| && world.modules[k.value].id == id && id !in r.modules
  {
    var k := ModuleIndex(world.modules, id);
    if id in r.modules || k == |world.modules| then None else Some(k)
  }

  function AddOnce(removed: seq<int>, id: int): seq<int> {
    if id in removed then removed else removed + [id]
  }

  function AddAllOnce(removed: seq<int>, ids: seq<int>): seq<int> {
    if ids == [] then removed else AddOnce(AddAllOnce(removed, ids[..|ids| - 1]), ids[|ids| - 1])
  }

  function ListCables(r: Removals, ids: seq<int>): Removals {
    r.(cables := AddAllOnce(r.cables, ids))
  }

  function Hears(n: Notes, m: WorldModule): Notes {
    n.(touchesAudio := n.touchesAudio || IsAudioModule(m))
  }

  function Declare(n: Naming, alias: string, pluginSlug: string, modelSlug: string): Naming {
    Naming(n.aliases[alias := n.nextSyntheticId], n.nextSyntheticId - 1, n.added + [(alias, pluginSlug, modelSlug)])
  }

  function NoteAddition(n: Notes, pluginSlug: string, modelSlug: string): Notes {
    n.(touchesAudio := n.touchesAudio || IsAudioModel(pluginSlug, modelSlug),
       adapterUncertainty := n.adapterUncertainty || IsThirdParty(pluginSlug))
  }

  /** A new module's place is not known until it is made, so the layout is uncertain after. */
  function Add(op: Operation, world: PlanWorld, st: Preview): (Preview, Verdict)
    requires op.AddModule?
  {
    if (op.pluginSlug, op.modelSlug) !in world.installedModels then
      (st.(notes := st.notes.(missingModule := true)), Refused(ModelNotInstalled))
    else if op.alias == "" || op.alias in st.naming.aliases then (st, Refused(BadRequest))
    else (AcceptAddition(st, op.alias, op.pluginSlug, op.modelSlug), Accepted)
  }

  function AcceptAddition(st: Preview, alias: string, pluginSlug: string, modelSlug: string): Preview {
    st.(naming := Declare(st.naming, alias, pluginSlug, modelSlug),
        places := st.places.(uncertain := true), notes := NoteAddition(st.notes, pluginSlug, modelSlug))
  }

  function Remove(op: Operation, world: PlanWorld, st: Preview): (Preview, Verdict)
    requires op.RemoveModule?
  {
    match Resolve(op.target, st.naming.aliases)
    case None => (st, Refused(ModuleNotFound))
    case Some(id) =>
      if id < 0 then (st, Accepted) else
      match LiveModule(world, st.removals, id)
      case None => (st, Refused(ModuleNotFound))
      case Some(k) => RemoveLive(op, world, st, world.modules[k])
  }

  /** The Bridge count is taken against the plan so far, not against the snapshot. */
  predicate LastBridge(op: Operation, world: PlanWorld, r: Removals, m: WorldModule)
    requires op.RemoveModule?
  {
    IsBridgeModule(m) && !op.allowLastBridge && BridgesLeft(world.modules, r.modules) <= 1
  }

  function RemoveLive(op: Operation, world: PlanWorld, st: Preview, m: WorldModule): (Preview, Verdict)
    requires op.RemoveModule?
  {
    if LastBridge(op, world, st.removals, m) then
      (st.(notes := st.notes.(removesBridge := true)), Refused(UnsupportedOperation))
    else
      var (r, v) := TakeModule(world, st.removals, m.id, op.cablePolicy);
      (st.(notes := NoteRemoval(st.notes, m), removals := r), v)
  }

  function NoteRemoval(n: Notes, m: WorldModule): Notes {
    Hears(n.(removesBridge := n.removesBridge || IsBridgeModule(m)), m)
  }

  /** The attached cables go with the module, or keep it from going. */
  function TakeModule(world: PlanWorld, r: Removals, id: int, policy: CablePolicy): (Removals, Verdict) {
    var attached := OnModule(world.cables, r.cables, id);
    if attached != [] && policy.FailIfAttached? then (r, Refused(ValidationFailed))
    else (ListCables(r, attached).(modules := r.modules + [id]), Accepted)
  }

  predicate IsTweak(op: Operation) {
    op.SetParameter? || op.SetBypass? || op.ResetModule? || op.RandomizeModule?
  }

  /** set_parameter, set_bypass, reset_module and randomize_module. */
  function Tweak(op: Operation, world: PlanWorld, st: Preview): (Preview, Verdict)
    requires IsTweak(op)
  {
    match Resolve(op.target, st.naming.aliases)
    case None => (st, Refused(ModuleNotFound))
    case Some(id) =>
      var v := if id < 0 then Accepted else TweakVerdict(op, world, st.removals, id);
      (if v.Accepted? then st.(modified := st.modified + [id]) else st, v)
  }

  function TweakVerdict(op: Operation, world: PlanWorld, r: Removals, id: int): Verdict
    requires IsTweak(op)
  {
    match LiveModule(world, r, id)
    case None => Refused(ModuleNotFound)
    case Some(k) =>
      if op.SetParameter? && op.paramId.None? then Refused(BadRequest)
      else if op.SetParameter? && !(0 <= op.paramId.value < world.modules[k].paramCount) then Refused(ParameterNotFound)
      else Accepted
  }

  function ReadGrid(x: Option<int>, y: Option<int>): Option<(int, int)> {
    if x.Some? && GRID_X_MIN <= x.value <= GRID_X_MAX && y.Some? && GRID_Y_MIN <= y.value <= GRID_Y_MAX
    then Some((x.value, y.value)) else None
  }

  function TargetBox(world: PlanWorld, self: nat, cell: (int, int)): Box
    requires self < |world.occupants|
  {
    var (x, y) := GridToPixel(cell.0, cell.1, world.grid);
    Box(x, y, world.occupants[self].box.w, world.occupants[self].box.h)
  }

  /** "fail" and "force" land exactly on the target; the other policies leave it to the rack.
      Only "fail" can be refused, and only while the whole layout is known. */
  ghost function Place(world: PlanWorld, r: Removals, p: Places, id: int, self: int, target: Box,
          collision: CollisionPolicy): (Places, Verdict) {
    if collision.Fail? && !p.uncertain && !IsFree(world.occupants, self, target, r.modules, p.planned)
      then (p, Refused(ValidationFailed))
    else if collision.Fail? || collision.Force? then (p.(planned := p.planned[id := target]), Accepted)
    else (p.(uncertain := true), Accepted)
  }

  ghost function MoveLive(op: Operation, world: PlanWorld, r: Removals, p: Places, id: int): (Places, Verdict)
    requires op.MoveModule?
  {
    if LiveModule(world, r, id).None? then (p, Refused(ModuleNotFound))
    else
      var self := WidgetIndex(world.occupants, id);
      if self == |world.occupants| then (p, Accepted) else
      match ReadGrid(op.x, op.y)
      case None => (p, Refused(BadRequest))
      case Some(cell) => Place(world, r, p, id, self, TargetBox(world, self, cell), op.collision)
  }

  ghost function Move(op: Operation, world: PlanWorld, st: Preview): (Preview, Verdict)
    requires op.MoveModule?
  {
    match Resolve(op.target, st.naming.aliases)
    case None => (st, Refused(ModuleNotFound))
    case Some(id) =>
      var (p, v) := if id < 0 then (st.places, Accepted) else MoveLive(op, world, st.removals, st.places, id);
      (st.(places := p, moved := if v.Accepted? then st.moved + [id] else st.moved), v)
  }

  function PortCount(m: WorldModule, portType: PortType): nat {
    if portType.Input? then m.inputCount else m.outputCount
  }

  /** The bounds check on one end of a connect; a plan-made module's ports are unknown. */
  function ConnectEnd(world: PlanWorld, r: Removals, n: Notes, id: int, portType: PortType, port: int): (Notes,
          Verdict) {
    if id < 0 then (n, Accepted) else
    match LiveModule(world, r, id)
    case None => (n, Refused(PortNotFound))
    case Some(k) =>
      if 0 <= port < PortCount(world.modules[k], portType) then (Hears(n, world.modules[k]), Accepted)
        else (n, Refused(PortNotFound))
  }

  /** The output end is checked first, then the input end. */
  function ConnectEnds(world: PlanWorld, r: Removals, n: Notes, out: int, outPort: int, inp: int, inPort: int): (Notes,
          Verdict) {
    var (n', v) := ConnectEnd(world, r, n, out, Output, outPort);
    if v.Refused? then (n', v) else ConnectEnd(world, r, n', inp, Input, inPort)
  }

  /** The snapshot cables still on an input that a connect wants; none on a plan-made module. */
  function Existing(world: PlanWorld, r: Removals, id: int, port: int): seq<int> {
    if id >= 0 then OnPortIds(world.cables, r.cables, id, Input, port) else []
  }

  function ClaimInput(world: PlanWorld, r: Removals, id: int, port: int, policy: InputPolicy): (Removals, Verdict) {
    var existing := Existing(world, r, id, port);
    var connected := (id, port) in r.claimed || existing != [];
    if connected && policy.FailIfConnected? then (r, Refused(ValidationFailed))
    else if connected && policy.Stack? then (r, Refused(UnsupportedOperation))
    else
      (ListCables(r, existing).(claimed := r.claimed + [(id, port)],
        replaced := if existing != [] then r.replaced + [(id, port)] else r.replaced), Accepted)
  }

  function Connecting(op: Operation, world: PlanWorld, st: Preview): (Preview, Verdict)
    requires op.Connect?
  {
    var out, inp := Resolve(op.output.target, st.naming.aliases), Resolve(op.input.target, st.naming.aliases);
    if out.None? || inp.None? then (st, Refused(ModuleNotFound))
    else if op.output.portId.None? || op.input.portId.None? then (st, Refused(BadRequest))
    else
      var (n, v) := ConnectEnds(world, st.removals, st.notes, out.value, op.output.portId.value, inp.value,
        op.input.portId.value);
      if v.Refused? then (st.(notes := n), v) else
      var (r, v') := ClaimInput(world, st.removals, inp.value, op.input.portId.value, op.inputPolicy);
      (st.(notes := n, removals := r, addedCables := if v'.Accepted? then st.addedCables + 1 else st.addedCables), v')
  }

  ghost function DisconnectCable(cableId: string, world: PlanWorld, r: Removals): (Removals, Verdict) {
    match ParseSpec(cableId)
    case NotAnId => (r, Refused(CableNotFound))
    case Id(cid) =>
      if !HasCable(world.cables, cid) || cid in r.cables then (r, Refused(CableNotFound))
      else (ListCables(r, [cid]), Accepted)
  }

  /** The cables that disconnect_port takes off a live module's port. */
  function PortMatches(world: PlanWorld, r: Removals, id: int, portType: PortType, port: int,
          policy: DisconnectPolicy): seq<int> {
    var matches := OnPortIds(world.cables, r.cables, id, portType, port);
    if policy.Top? && matches != [] then [matches[|matches| - 1]] else matches
  }

  function DisconnectingPort(op: Operation, world: PlanWorld, st: Preview): (Preview, Verdict)
    requires op.DisconnectPort?
  {
    match Resolve(op.port.target, st.naming.aliases)
    case None => (st, Refused(ModuleNotFound))
    case Some(id) =>
      if id < 0 then (st, Accepted) else
      match LiveModule(world, st.removals, id)
      case None => (st, Refused(ModuleNotFound))
      case Some(k) =>
        var n := Hears(st.notes, world.modules[k]);
        if op.port.portId.None? || !op.portType.Named? then (st.(notes := n), Refused(BadRequest))
        else
          var matches := PortMatches(world, st.removals, id, op.portType.value, op.port.portId.value, op.policy);
          (st.(notes := n, removals := ListCables(st.removals, matches)), Accepted)
  }

  /** What one operation does to the preview, and whether it is accepted. */
  ghost function Validate(op: Operation, world: PlanWorld, st: Preview): (Preview, Verdict) {
    match op
    case BadShape => (st, Refused(BadRequest))
    case AddModule(_, _, _) => Add(op, world, st)
    case RemoveModule(_, _, _) => Remove(op, world, st)
    case MoveModule(_, _, _, _) => Move(op, world, st)
    case Connect(_, _, _) => Connecting(op, world, st)
    case Disconnect(cableId) => (var (r, v) := DisconnectCable(cableId, world, st.removals); (st.(removals := r), v))
    case DisconnectPort(_, _, _) => DisconnectingPort(op, world, st)
    case DuplicateModule => (st, Refused(UnsupportedOperation))
    case UnknownOperation => (st, Refused(UnsupportedOperation))
    case _ => Tweak(op, world, st)
  }

  /** The preview after an accepted plan; a plan is described only when all of it is valid. */
  ghost function ValidatePlan(ops: seq<Operation>, world: PlanWorld): Option<Preview> {
    if ops == [] then Some(EMPTY_PREVIEW)
    else
      match ValidatePlan(ops[..|ops| - 1], world)
      case None => None
      case Some(st) =>
        var (st', v) := Validate(ops[|ops| - 1], world, st);
        if v.Accepted? then Some(st') else None
  }

  /** What the risk verdict is computed from. No operation stacks an input or is taken
      to feed back, so those two effects are never reported. */
  function Effects(ops: seq<Operation>, st: Preview): PlanEffects {
    PlanEffects(st.notes.removesBridge, st.notes.touchesAudio, st.notes.missingModule, st.notes.adapterUncertainty,
      false,
      exists i :: 0 <= i < |ops| && ops[i].RandomizeModule?,
      |st.removals.modules|, |st.removals.cables|, |st.removals.replaced|, 0, |ops|)
  }
}
