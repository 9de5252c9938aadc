/** The risk verdict of an accepted plan, flag by flag, told from the plan and the snapshot. */
module PlanFlags {
  import opened Basics
  import opened DecimalIds
  import opened Plan
  import opened Validation
  import opened PlanProperties
  import opened PlanRules
  import opened PlanChanges
  import opened PlanSafety

  ghost predicate ReplacesAt(ops: seq<Operation>, world: PlanWorld, k: nat)
    requires k < |ops|
  {
    && ValidatePlan(ops[..k], world).Some? && ops[k].Connect? && ops[k].input.portId.Some?
    && var st := ValidatePlan(ops[..k], world).value;
       exists id ::
         && Refers(ops[k].input.target, st.naming.aliases, id)
         && Replaces(world, st.removals, id, ops[k].input.portId.value)
  }

  lemma ReplacesPrefix(ops: seq<Operation>, more: seq<Operation>, world: PlanWorld, k: nat)
    requires k < |ops|
    ensures ReplacesAt(ops + more, world, k) <==> ReplacesAt(ops, world, k)
  {
    hide ValidatePlan, Refers, Replaces;
    assert (ops + more)[..k] == ops[..k];
  }

  lemma ReplacedStep(ops: seq<Operation>, world: PlanWorld)
    requires WorldOk(world) && ValidatePlan(ops, world).Some? && ops != []
    ensures ValidatePlan(ops[..|ops| - 1], world).Some?
    ensures var before, after := ValidatePlan(ops[..|ops| - 1], world).value, ValidatePlan(ops, world).value;
      after.removals.replaced != [] <==> before.removals.replaced != [] || ReplacesAt(ops, world, |ops| - 1)
  {
    hide WorldOk, ValidatePlan, Allowed, Refers, Replaces, ListsTo, RemovesTo, NamesTo, RecordsTo, PlacesTo, NotesTo,
      AliasesFresh;
    var st, op := LastChanges(ops, world);
    if op.Connect? {
      RefersOnce(op.input.target, st.naming.aliases);
    }
  }

  /** Some input is replaced exactly if some connect, at its turn, finds a standing cable on it. */
  lemma {:induction false} ReplacedIff(ops: seq<Operation>, world: PlanWorld)
    requires WorldOk(world) && ValidatePlan(ops, world).Some?
    ensures ValidatePlan(ops, world).value.removals.replaced != [] <==>
      exists k: nat :: k < |ops| && ReplacesAt(ops, world, k)
  {
    hide WorldOk, ValidatePlan, ReplacesAt;
    if ops == [] {
      NothingPlanned(world);
    } else {
      var before, last := ops[..|ops| - 1], |ops| - 1;
      ReplacedStep(ops, world);
      ReplacedIff(before, world);
      assert before + ops[last..] == ops;
      forall k: nat | k < last {
        ReplacesPrefix(before, ops[last..], world, k);
      }
    }
  }

  lemma NothingPlanned(world: PlanWorld)
    ensures ValidatePlan([], world) == Some(EMPTY_PREVIEW)
  {}

  ghost predicate RemovesABridge(op: Operation, world: PlanWorld) {
    exists m :: m in world.modules && IsBridgeModule(m) && RemovesModule(op, m.id)
  }

  /** What each flag says of a plan. Nothing that validation does stacks an input, meets a
      missing model in a plan that is accepted, or finds feedback. */
  ghost predicate FlagMeans(flag: RiskFlag, ops: seq<Operation>, world: PlanWorld, maxOperations: int) {
    match flag
    case RemovesBridge => exists k: nat :: k < |ops| && RemovesABridge(ops[k], world)
    case RemovesModules => exists k: nat, id :: k < |ops| && RemovesModule(ops[k], id)
    case RemovesCables => exists k: nat, x :: k < |ops| && ListsAt(ops, world, k, x)
    case ReplacesCables => exists k: nat :: k < |ops| && ReplacesAt(ops, world, k)
    case StacksInputs => false
    case Randomize => exists k: nat :: k < |ops| && ops[k].RandomizeModule?
    case AffectsAudioPath => exists k: nat :: k < |ops| && AboutAudio(ops[k], world)
    case MissingModules => false
    case AdapterUncertainty => exists k: nat :: k < |ops| && AddsThirdParty(ops[k])
    case PossibleFeedback => false
    case LargeTransaction => maxOperations > 0 && |ops| * 2 > maxOperations
  }

  lemma BridgeFlag(ops: seq<Operation>, world: PlanWorld)
    requires WorldOk(world) && ValidatePlan(ops, world).Some?
    ensures ValidatePlan(ops, world).value.notes.removesBridge <==>
      exists k: nat :: k < |ops| && RemovesABridge(ops[k], world)
  {
    hide ValidatePlan, RemovesModule, IsBridgeModule;
    VerdictIsExact(ops, world);
    var removed := ValidatePlan(ops, world).value.removals.modules;
    forall m | m in world.modules
      ensures m.id in removed <==> exists k: nat :: k < |ops| && RemovesModule(ops[k], m.id)
    {
      RemovedExactly(ops, world, m.id);
    }
  }

  lemma ModulesFlag(ops: seq<Operation>, world: PlanWorld)
    requires WorldOk(world) && ValidatePlan(ops, world).Some?
    ensures ValidatePlan(ops, world).value.removals.modules != [] <==>
      exists k: nat, id :: k < |ops| && RemovesModule(ops[k], id)
  {
    hide ValidatePlan, RemovesModule;
    var removed := ValidatePlan(ops, world).value.removals.modules;
    if removed != [] {
      var id := removed[0];
      assert id in removed;
      RemovedExactly(ops, world, id);
    }
    if k: nat, id :| k < |ops| && RemovesModule(ops[k], id) {
      RemovedExactly(ops, world, id);
    }
  }

  lemma CablesFlag(ops: seq<Operation>, world: PlanWorld)
    requires WorldOk(world) && ValidatePlan(ops, world).Some?
    ensures ValidatePlan(ops, world).value.removals.cables != [] <==>
      exists k: nat, x :: k < |ops| && ListsAt(ops, world, k, x)
  {
    hide ValidatePlan, ListsAt;
    var listed := ValidatePlan(ops, world).value.removals.cables;
    if listed != [] {
      var x := listed[0];
      assert x in listed;
      ListedExactly(ops, world, x);
    }
    if k: nat, x :| k < |ops| && ListsAt(ops, world, k, x) {
      ListedExactly(ops, world, x);
    }
  }

  /** For every accepted plan, each flag of the risk verdict is raised exactly if what it says
      is true of the plan. */
  lemma FlagsAreExact(ops: seq<Operation>, world: PlanWorld, flag: RiskFlag, maxOperations: int)
    requires WorldOk(world) && ValidatePlan(ops, world).Some?
    ensures Raised(flag, Effects(ops, ValidatePlan(ops, world).value), maxOperations) <==>
      FlagMeans(flag, ops, world, maxOperations)
  {
    hide WorldOk, ValidatePlan, RemovesABridge, RemovesModule, ListsAt, ReplacesAt, AboutAudio, AddsThirdParty;
    BridgeFlag(ops, world);
    ModulesFlag(ops, world);
    CablesFlag(ops, world);
    ReplacedIff(ops, world);
    NotesAreExact(ops, world);
  }
}
