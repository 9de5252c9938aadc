/** What every accepted plan satisfies: properties of whole plans, proved for all plans
    by what each single operation keeps. */
module PlanProperties {
  import opened Basics
  import opened DecimalIds
  import opened Layout
  import opened Plan
  import opened Validation

  /** A snapshot as the engine gives it: ids are not negative and not shared. */
  ghost predicate WorldOk(world: PlanWorld) {
    && DistinctModuleIds(world.modules) && DistinctIds(world.occupants) && DistinctCableIds(world.cables)
    && (forall m :: m in world.modules ==> m.id >= 0)
    && (forall c :: c in world.cables ==>
       (c.hasInput ==> c.inputModuleId >= 0) && (c.hasOutput ==> c.outputModuleId >= 0))
  }

  ghost predicate DistinctCableIds(cables: seq<PlanCable>) {
    forall i, j :: 0 <= i < j < |cables| ==> cables[i].id != cables[j].id
  }

  ghost predicate HasModule(modules: seq<WorldModule>, id: int) {
    exists m :: m in modules && m.id == id
  }

  // ----- recording cables once -----

  lemma {:induction false} AddAllOnceIs(removed: seq<int>, ids: seq<int>)
    ensures forall x :: x in AddAllOnce(removed, ids) <==> x in removed || x in ids
    ensures NoRepeats(removed) ==> NoRepeats(AddAllOnce(removed, ids))
  {
    if ids != [] {
      var rest, last := ids[..|ids| - 1], ids[|ids| - 1];
      AddAllOnceIs(removed, rest);
      assert ids == rest + [last];
    }
  }

  // ----- disclosure -----

  ghost predicate ModulesListed(modules: seq<WorldModule>, removed: seq<int>) {
    NoRepeats(removed) && forall m :: m in removed ==> HasModule(modules, m)
  }

  ghost predicate CablesListed(cables: seq<PlanCable>, removed: seq<int>) {
    NoRepeats(removed) && forall id :: id in removed ==> HasCable(cables, id)
  }

  ghost predicate TouchingListed(cables: seq<PlanCable>, removedModules: seq<int>, removed: seq<int>) {
    forall c, m :: c in cables && m in removedModules && Touches(c, m) ==> c.id in removed
  }

  ghost predicate ClaimedListed(cables: seq<PlanCable>, claimed: seq<(int, int)>, removed: seq<int>) {
    forall c, e :: c in cables && e in claimed && OnPort(c, e.0, Input, e.1) ==> c.id in removed
  }

  /** Each replaced input is one the plan claimed, and is listed once. */
  ghost predicate ReplacedListed(replaced: seq<(int, int)>, claimed: seq<(int, int)>) {
    NoRepeats(replaced) && forall e :: e in replaced ==> e in claimed
  }

  /** Removed modules and cables are snapshot entities listed once; a removed module's
      cables and the cables of a claimed input are listed as removed; replaced inputs
      are listed once. */
  ghost predicate Disclosed(world: PlanWorld, r: Removals) {
    && ModulesListed(world.modules, r.modules) && CablesListed(world.cables, r.cables)
    && TouchingListed(world.cables, r.modules, r.cables) && ClaimedListed(world.cables, r.claimed, r.cables)
    && ReplacedListed(r.replaced, r.claimed)
  }

  /** Aliases stand for distinct negative ids that no snapshot module has. */
  ghost predicate AliasesFresh(n: Naming) {
    && n.nextSyntheticId <= -1000
    && (forall a :: a in n.aliases ==> n.nextSyntheticId < n.aliases[a] <= -1000)
    && (forall a, b :: a in n.aliases && b in n.aliases && n.aliases[a] == n.aliases[b] ==> a == b)
  }

  /** Listing more snapshot cables as removed keeps the disclosure. */
  lemma ListMoreCables(world: PlanWorld, r: Removals, ids: seq<int>)
    requires Disclosed(world, r) && forall id :: id in ids ==> HasCable(world.cables, id)
    ensures Disclosed(world, ListCables(r, ids))
  {
    AddAllOnceIs(r.cables, ids);
  }

  lemma OnModuleAreCables(cables: seq<PlanCable>, removed: seq<int>, id: int)
    ensures forall x :: x in OnModule(cables, removed, id) ==> HasCable(cables, x)
    ensures forall c :: c in cables && Touches(c, id) ==> c.id in removed || c.id in OnModule(cables, removed, id)
  {
    OnModuleIs(cables, removed, id);
  }

  lemma OnPortAreCables(cables: seq<PlanCable>, removed: seq<int>, id: int, portType: PortType, port: int)
    ensures forall x :: x in OnPortIds(cables, removed, id, portType, port) ==> HasCable(cables, x)
    ensures forall c :: c in cables && OnPort(c, id, portType, port) ==>
      c.id in removed || c.id in OnPortIds(cables, removed, id, portType, port)
    ensures (exists c :: c in cables && OnPort(c, id, portType, port) && c.id !in removed)
      <==> OnPortIds(cables, removed, id, portType, port) != []
  {
    OnPortIs(cables, removed, id, portType, port);
    var hits := OnPortIds(cables, removed, id, portType, port);
    if hits != [] {
      assert hits[0] in hits;
    }
  }

  lemma TakeModuleDiscloses(world: PlanWorld, r: Removals, id: int, policy: CablePolicy)
    requires Disclosed(world, r) && HasModule(world.modules, id) && id !in r.modules
    ensures Disclosed(world, TakeModule(world, r, id, policy).0)
  {
    var attached := OnModule(world.cables, r.cables, id);
    OnModuleAreCables(world.cables, r.cables, id);
    ListMoreCables(world, r, attached);
    AddAllOnceIs(r.cables, attached);
  }

  lemma ClaimInputDiscloses(world: PlanWorld, r: Removals, id: int, port: int, policy: InputPolicy)
    requires WorldOk(world) && Disclosed(world, r)
    ensures Disclosed(world, ClaimInput(world, r, id, port, policy).0)
  {
    var existing := Existing(world, r, id, port);
    OnPortAreCables(world.cables, r.cables, id, Input, port);
    ListMoreCables(world, r, existing);
    AddAllOnceIs(r.cables, existing);
  }

  lemma DisconnectDiscloses(cableId: string, world: PlanWorld, r: Removals)
    requires Disclosed(world, r)
    ensures Disclosed(world, DisconnectCable(cableId, world, r).0)
  {
    if DisconnectCable(cableId, world, r).1.Accepted? {
      ListMoreCables(world, r, [ParseSpec(cableId).value]);
    }
  }

  lemma PortMatchesDiscloses(world: PlanWorld, r: Removals, id: int, portType: PortType, port: int,
          policy: DisconnectPolicy)
    requires Disclosed(world, r)
    ensures Disclosed(world, ListCables(r, PortMatches(world, r, id, portType, port, policy)))
  {
    OnPortAreCables(world.cables, r.cables, id, portType, port);
    ListMoreCables(world, r, PortMatches(world, r, id, portType, port, policy));
  }

  /** The ways an operation can change what is removed. */
  ghost predicate Removing(op: Operation, world: PlanWorld, st: Preview, r: Removals) {
    || r == st.removals
    || (op.RemoveModule?
        && exists id :: id !in st.removals.modules && HasModule(world.modules, id)
                        && r == TakeModule(world, st.removals, id, op.cablePolicy).0)
    || (op.Connect? && exists id, port :: r == ClaimInput(world, st.removals, id, port, op.inputPolicy).0)
    || (op.Disconnect? && r == DisconnectCable(op.cableId, world, st.removals).0)
    || (op.DisconnectPort?
        && exists id, portType, port ::
             r == ListCables(st.removals, PortMatches(world, st.removals, id, portType, port, op.policy)))
  }

  lemma RemoveRemoves(op: Operation, world: PlanWorld, st: Preview)
    requires op.RemoveModule?
    ensures Removing(op, world, st, Remove(op, world, st).0.removals)
  {
    var ref := Resolve(op.target, st.naming.aliases);
    if ref.Some? && ref.value >= 0 && LiveModule(world, st.removals, ref.value).Some? {
      assert world.modules[LiveModule(world, st.removals, ref.value).value] in world.modules;
      assert HasModule(world.modules, ref.value);
    }
  }

  lemma StepRemoves(op: Operation, world: PlanWorld, st: Preview)
    ensures Removing(op, world, st, Validate(op, world, st).0.removals)
  {
    if op.RemoveModule? {
      RemoveRemoves(op, world, st);
    }
  }

  /** Every operation, accepted or refused, keeps the disclosure. */
  lemma StepDiscloses(op: Operation, world: PlanWorld, st: Preview)
    requires WorldOk(world) && Disclosed(world, st.removals)
    ensures Disclosed(world, Validate(op, world, st).0.removals)
  {
    StepRemoves(op, world, st);
    var r := Validate(op, world, st).0.removals;
    if r != st.removals {
      match op
      case RemoveModule(_, policy, _) =>
        var id :| HasModule(world.modules, id) && id !in st.removals.modules
          && r == TakeModule(world, st.removals, id, policy).0;
        TakeModuleDiscloses(world, st.removals, id, policy);
      case Connect(_, _, policy) =>
        var id, port :| r == ClaimInput(world, st.removals, id, port, policy).0;
        ClaimInputDiscloses(world, st.removals, id, port, policy);
      case Disconnect(cableId) => DisconnectDiscloses(cableId, world, st.removals);
      case DisconnectPort(_, _, policy) =>
        var id, portType, port :| r == ListCables(st.removals,
          PortMatches(world, st.removals, id, portType, port, policy));
        PortMatchesDiscloses(world, st.removals, id, portType, port, policy);
    }
  }

  /** After any accepted plan, and so after any accepted prefix of one, the preview
      discloses everything it removes and names new modules unambiguously. */
  lemma {:induction false} PlanDiscloses(ops: seq<Operation>, world: PlanWorld)
    requires WorldOk(world) && ValidatePlan(ops, world).Some?
    ensures Disclosed(world, ValidatePlan(ops, world).value.removals)
    ensures AliasesFresh(ValidatePlan(ops, world).value.naming)
  {
    if ops != [] {
      var st := ValidatePlan(ops[..|ops| - 1], world).value;
      PlanDiscloses(ops[..|ops| - 1], world);
      StepDiscloses(ops[|ops| - 1], world, st);
    }
  }
}
