/** The patch as transaction validation sees it, the cable and Bridge accounting over
    it, and the risk verdict shown with a preview. */
module Plan {
  import opened Layout

  datatype WorldModule = WorldModule(id: int, pluginSlug: string, modelSlug: string, paramCount: nat, inputCount: nat,
    outputCount: nat)

  /** A cable; an end can be detached, in which case its module and port mean nothing. */
  datatype PlanCable = PlanCable(id: int, hasOutput: bool, outputModuleId: int, outputId: int, hasInput: bool,
    inputModuleId: int, inputId: int)

  datatype PlanWorld = PlanWorld(
    installedModels: set<(string, string)>, modules: seq<WorldModule>, occupants: seq<Occupant>,
      cables: seq<PlanCable>, grid: Grid)

  datatype PortType = Input | Output

  /** A Core audio interface, by prefix: Audio-2, Audio-8 and Audio-16. */
  predicate IsAudioModel(pluginSlug: string, modelSlug: string) {
    pluginSlug == "Core" && "Audio" <= modelSlug
  }

  predicate IsThirdParty(pluginSlug: string) {
    pluginSlug != "Core" && pluginSlug != "Fundamental" && pluginSlug != "RackMCP"
  }

  predicate IsAudioModule(m: WorldModule) {
    IsAudioModel(m.pluginSlug, m.modelSlug)
  }

  predicate IsBridgeModule(m: WorldModule) {
    m.pluginSlug == "RackMCP" && m.modelSlug == "Bridge"
  }

  predicate Touches(c: PlanCable, moduleId: int) {
    (c.hasInput && c.inputModuleId == moduleId) || (c.hasOutput && c.outputModuleId == moduleId)
  }

  predicate OnPort(c: PlanCable, moduleId: int, portType: PortType, portId: int) {
    match portType
    case Input => c.hasInput && c.inputModuleId == moduleId && c.inputId == portId
    case Output => c.hasOutput && c.outputModuleId == moduleId && c.outputId == portId
  }

  // ----- lookups -----

  /** The position of the first module with this id, or the number of modules. */
  function ModuleIndex(modules: seq<WorldModule>, id: int): (k: nat)
    ensures k <= |modules| && (k < |modules| ==> modules[k].id == id)
    ensures forall i :: 0 <= i < k ==> modules[i].id != id
  {
    if modules == [] then 0 else if modules[0].id == id then 0 else 1 + ModuleIndex(modules[1..], id)
  }

  /** The index of the first panel belonging to this module, or the number of panels. */
  function WidgetIndex(occupants: seq<Occupant>, id: int): (k: nat)
    ensures k <= |occupants| && (k < |occupants| ==> occupants[k].hasModuleId && occupants[k].moduleId == id)
    ensures forall i :: 0 <= i < k ==> !(occupants[i].hasModuleId && occupants[i].moduleId == id)
  {
    if occupants == [] then 0
    else if occupants[0].hasModuleId && occupants[0].moduleId == id then 0
    else 1 + WidgetIndex(occupants[1..], id)
  }

  ghost predicate HasCable(cables: seq<PlanCable>, id: int) {
    exists c :: c in cables && c.id == id
  }

  method FindModule(modules: seq<WorldModule>, id: int) returns (k: nat)
    ensures k == ModuleIndex(modules, id)
  {
    k := 0;
    while k < |modules|
      invariant k <= |modules| && ModuleIndex(modules, id) == k + ModuleIndex(modules[k..], id)
    {
      if modules[k].id == id {
        return;
      }
      k := k + 1;
    }
  }

  method FindWidget(occupants: seq<Occupant>, id: int) returns (k: nat)
    ensures k == WidgetIndex(occupants, id)
  {
    k := 0;
    while k < |occupants|
      invariant k <= |occupants| && WidgetIndex(occupants, id) == k + WidgetIndex(occupants[k..], id)
    {
      if occupants[k].hasModuleId && occupants[k].moduleId == id {
        return;
      }
      k := k + 1;
    }
  }

  method FindCable(cables: seq<PlanCable>, id: int) returns (found: bool)
    ensures found <==> HasCable(cables, id)
  {
    for k := 0 to |cables|
      invariant forall i :: 0 <= i < k ==> cables[i].id != id
    {
      if cables[k].id == id {
        return true;
      }
    }
    return false;
  }

  // ----- cable accounting -----

  /** The ids, in cable order, of the cables on a module that are not already removed. */
  function OnModule(cables: seq<PlanCable>, removed: seq<int>, moduleId: int): seq<int> {
    if cables == [] then []
    else
      var c := cables[|cables| - 1];
      OnModule(cables[..|cables| - 1], removed, moduleId) + if c.id !in removed && Touches(c, moduleId) then [c.id]
        else []
  }

  function OnPortIds(cables: seq<PlanCable>, removed: seq<int>, moduleId: int, portType: PortType,
          portId: int): seq<int> {
    if cables == [] then []
    else
      var c := cables[|cables| - 1];
      OnPortIds(cables[..|cables| - 1], removed, moduleId, portType, portId)
      + if c.id !in removed && OnPort(c, moduleId, portType, portId) then [c.id] else []
  }

  lemma {:induction false} OnModuleIs(cables: seq<PlanCable>, removed: seq<int>, moduleId: int)
    ensures forall id :: id in OnModule(cables, removed, moduleId) <==>
      id !in removed && exists c :: c in cables && c.id == id && Touches(c, moduleId)
  {
    if cables != [] {
      var rest, last := cables[..|cables| - 1], cables[|cables| - 1];
      OnModuleIs(rest, removed, moduleId);
      assert cables == rest + [last];
    }
  }

  lemma {:induction false} OnPortIs(cables: seq<PlanCable>, removed: seq<int>, moduleId: int, portType: PortType,
          portId: int)
    ensures forall id :: id in OnPortIds(cables, removed, moduleId, portType, portId) <==>
      id !in removed && exists c :: c in cables && c.id == id && OnPort(c, moduleId, portType, portId)
  {
    if cables != [] {
      var rest, last := cables[..|cables| - 1], cables[|cables| - 1];
      OnPortIs(rest, removed, moduleId, portType, portId);
      assert cables == rest + [last];
    }
  }

  method CablesOnModule(cables: seq<PlanCable>, removed: seq<int>, moduleId: int) returns (hits: seq<int>)
    ensures hits == OnModule(cables, removed, moduleId)
  {
    hits := [];
    for k := 0 to |cables|
      invariant hits == OnModule(cables[..k], removed, moduleId)
    {
      var c := cables[k];
      assert cables[..k + 1][..k] == cables[..k] && cables[..k + 1][k] == c;
      if c.id !in removed {
        if Touches(c, moduleId) {
          hits := hits + [c.id];
        }
      }
    }
    assert cables[..|cables|] == cables;
  }

  method CablesOnPort(cables: seq<PlanCable>, removed: seq<int>, moduleId: int, portType: PortType,
          portId: int) returns (hits: seq<int>)
    ensures hits == OnPortIds(cables, removed, moduleId, portType, portId)
  {
    hits := [];
    for k := 0 to |cables|
      invariant hits == OnPortIds(cables[..k], removed, moduleId, portType, portId)
    {
      var c := cables[k];
      assert cables[..k + 1][..k] == cables[..k] && cables[..k + 1][k] == c;
      if c.id !in removed {
        if OnPort(c, moduleId, portType, portId) {
          hits := hits + [c.id];
        }
      }
    }
    assert cables[..|cables|] == cables;
  }

  // ----- Bridges -----

  /** The Bridge modules that outlive `removed`. */
  function BridgesLeft(modules: seq<WorldModule>, removed: seq<int>): nat {
    if modules == [] then 0
    else
      var m := modules[|modules| - 1];
      BridgesLeft(modules[..|modules| - 1], removed) + if IsBridgeModule(m) && m.id !in removed then 1 else 0
  }

  method RemainingBridgeCount(modules: seq<WorldModule>, removed: seq<int>) returns (n: nat)
    ensures n == BridgesLeft(modules, removed)
  {
    n := 0;
    for i := 0 to |modules|
      invariant n == BridgesLeft(modules[..i], removed)
    {
      assert modules[..i + 1][..i] == modules[..i] && modules[..i + 1][i] == modules[i];
      if IsBridgeModule(modules[i]) {
        var gone := false;
        for j := 0 to |removed|
          invariant gone <==> modules[i].id in removed[..j]
        {
          assert removed[..j + 1] == removed[..j] + [removed[j]];
          if removed[j] == modules[i].id {
            gone := true;
          }
        }
        assert removed[..|removed|] == removed;
        if !gone {
          n := n + 1;
        }
      }
    }
    assert modules[..|modules|] == modules;
  }

  /** Some Bridge outlives the removals exactly when the count says so. */
  lemma {:induction false} BridgesLeftPositive(modules: seq<WorldModule>, removed: seq<int>)
    ensures BridgesLeft(modules, removed) > 0 <==> exists m :: m in modules && IsBridgeModule(m) && m.id !in removed
  {
    if modules != [] {
      var rest, last := modules[..|modules| - 1], modules[|modules| - 1];
      BridgesLeftPositive(rest, removed);
      assert modules == rest + [last];
    }
  }

  ghost predicate DistinctModuleIds(modules: seq<WorldModule>) {
    forall i, j :: 0 <= i < j < |modules| ==> modules[i].id != modules[j].id
  }

  /** With distinct module ids, one removal costs at most one Bridge, and costs one
      only if it removes a Bridge. */
  lemma {:induction false} OneRemoval(modules: seq<WorldModule>, removed: seq<int>, id: int)
    requires DistinctModuleIds(modules)
    ensures BridgesLeft(modules, removed) <= BridgesLeft(modules, removed + [id]) + 1
    ensures (forall m :: m in modules && m.id == id ==> !IsBridgeModule(m))
      ==> BridgesLeft(modules, removed + [id]) == BridgesLeft(modules, removed)
  {
    if modules != [] {
      var rest, last := modules[..|modules| - 1], modules[|modules| - 1];
      assert modules == rest + [last];
      OneRemoval(rest, removed, id);
      if last.id == id {
        Untouched(rest, removed, id);
      }
    }
  }

  lemma {:induction false} Untouched(modules: seq<WorldModule>, removed: seq<int>, id: int)
    requires forall m :: m in modules ==> m.id != id
    ensures BridgesLeft(modules, removed + [id]) == BridgesLeft(modules, removed)
  {
    if modules != [] {
      var rest, last := modules[..|modules| - 1], modules[|modules| - 1];
      assert modules == rest + [last];
      Untouched(rest, removed, id);
    }
  }

  // ----- risk -----

  datatype RiskFlag =
    | RemovesBridge | RemovesModules | RemovesCables | ReplacesCables | StacksInputs | Randomize
    | AffectsAudioPath | MissingModules | AdapterUncertainty | PossibleFeedback | LargeTransaction

  datatype RiskLevel = Low | Destructive | High

  datatype PlanEffects = PlanEffects(
    removesBridge: bool, touchesAudio: bool, missingModule: bool, adapterUncertainty: bool, possibleFeedback: bool,
      randomizes: bool,
    removedModules: nat, removedCables: nat, replacedInputs: nat, stackedInputs: nat, operationCount: nat)

  datatype PlanRisk = PlanRisk(level: RiskLevel, confirmationRequired: bool, entries: seq<RiskFlag>)

  /** What must be true of a plan for each flag to be raised. */
  predicate Raised(flag: RiskFlag, e: PlanEffects, maxOperations: int) {
    match flag
    case RemovesBridge => e.removesBridge
    case RemovesModules => e.removedModules > 0
    case RemovesCables => e.removedCables > 0
    case ReplacesCables => e.replacedInputs > 0
    case StacksInputs => e.stackedInputs > 0
    case Randomize => e.randomizes
    case AffectsAudioPath => e.touchesAudio
    case MissingModules => e.missingModule
    case AdapterUncertainty => e.adapterUncertainty
    case PossibleFeedback => e.possibleFeedback
    case LargeTransaction => maxOperations > 0 && e.operationCount * 2 > maxOperations
  }

  /** The order in which flags are shown, most alarming first. */
  function Rank(flag: RiskFlag): nat {
    match flag
    case RemovesBridge => 0 case RemovesModules => 1 case RemovesCables => 2 case ReplacesCables => 3
    case StacksInputs => 4 case Randomize => 5 case AffectsAudioPath => 6 case MissingModules => 7
    case AdapterUncertainty => 8 case PossibleFeedback => 9 case LargeTransaction => 10
  }

  predicate TakesAway(e: PlanEffects) {
    e.removedModules > 0 || e.removedCables > 0 || e.replacedInputs > 0 || e.removesBridge || e.randomizes
  }

  /** `entries` lists the raised flags of rank below `bound`, in order, each once. */
  ghost predicate Noted(entries: seq<RiskFlag>, bound: nat, e: PlanEffects, maxOperations: int) {
    && (forall f :: f in entries <==> Rank(f) < bound && Raised(f, e, maxOperations))
    && (forall i, j :: 0 <= i < j < |entries| ==> Rank(entries[i]) < Rank(entries[j]))
  }

  /** Appends the flag if it is raised. */
  function Note(entries: seq<RiskFlag>, flag: RiskFlag, e: PlanEffects, maxOperations: int): (r: seq<RiskFlag>)
    requires Noted(entries, Rank(flag), e, maxOperations)
    ensures Noted(r, Rank(flag) + 1, e, maxOperations)
  {
    assert forall f :: Rank(f) < Rank(flag) + 1 <==> Rank(f) < Rank(flag) || f == flag;
    assert forall i :: 0 <= i < |entries| ==> entries[i] in entries;
    if Raised(flag, e, maxOperations) then entries + [flag] else entries
  }

  /** Lists exactly the raised flags, in order, each once; asks for confirmation exactly
      when something is taken away or randomised; and is "high" for a Bridge. */
  method ComputeRisk(e: PlanEffects, maxOperations: int) returns (risk: PlanRisk)
    ensures Noted(risk.entries, 11, e, maxOperations)
    ensures risk.confirmationRequired == TakesAway(e)
    ensures risk.level == if e.removesBridge then High else if TakesAway(e) then Destructive else Low
  {
    var destructive := e.removedModules > 0 || e.removedCables > 0 || e.replacedInputs > 0 || e.removesBridge;
    var entries := [];
    entries := Note(entries, RemovesBridge, e, maxOperations);
    entries := Note(entries, RemovesModules, e, maxOperations);
    entries := Note(entries, RemovesCables, e, maxOperations);
    entries := Note(entries, ReplacesCables, e, maxOperations);
    entries := Note(entries, StacksInputs, e, maxOperations);
    entries := Note(entries, Randomize, e, maxOperations);
    entries := Note(entries, AffectsAudioPath, e, maxOperations);
    entries := Note(entries, MissingModules, e, maxOperations);
    entries := Note(entries, AdapterUncertainty, e, maxOperations);
    entries := Note(entries, PossibleFeedback, e, maxOperations);
    entries := Note(entries, LargeTransaction, e, maxOperations);
    var level := if e.removesBridge then High else if destructive || e.randomizes then Destructive else Low;
    risk := PlanRisk(level, destructive || e.randomizes, entries);
  }
}
