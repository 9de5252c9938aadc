/** What an accepted operation changes in a preview, and what a whole accepted plan comes
    to, said of the snapshot and of the operations without going through validation. */
module PlanChanges {
  import opened Basics
  import opened DecimalIds
  import opened Layout
  import opened Plan
  import opened Validation
  import opened PlanProperties
  import opened PlanRules

  // ----- what one operation changes -----

  /** The cable a disconnect_port takes: any on the port, or for "top" the last of them. */
  ghost predicate TakenFromPort(world: PlanWorld, r: Removals, id: int, t: PortType, port: int,
          policy: DisconnectPolicy, k: int) {
    && 0 <= k < |world.cables| && CableStands(world, r, world.cables[k]) && OnPort(world.cables[k], id, t, port)
    && (policy.Top? ==>
          forall j :: k < j < |world.cables| && CableStands(world, r, world.cables[j]) ==>
            !OnPort(world.cables[j], id, t, port))
  }

  /** The operation lists the snapshot cable with this id as removed. */
  ghost predicate Lists(op: Operation, world: PlanWorld, st: Preview, x: int) {
    match op
    case RemoveModule(target, _, _) =>
      exists id, c ::
        && Refers(target, st.naming.aliases, id) && id >= 0
        && CableStands(world, st.removals, c) && Touches(c, id) && c.id == x
    case Connect(_, input, _) =>
      input.portId.Some? &&
      exists id, c ::
        && Refers(input.target, st.naming.aliases, id) && id >= 0
        && CableStands(world, st.removals, c) && OnPort(c, id, Input, input.portId.value) && c.id == x
    case Disconnect(text) => NamesCable(text, x)
    case DisconnectPort(port, t, policy) =>
      port.portId.Some? && t.Named? &&
      exists id, k ::
        && Refers(port.target, st.naming.aliases, id) && id >= 0
        && TakenFromPort(world, st.removals, id, t.value, port.portId.value, policy, k) && world.cables[k].id == x
    case _ => false
  }

  ghost predicate ListsTo(op: Operation, world: PlanWorld, st: Preview, cables: seq<int>) {
    forall x :: x in cables <==> x in st.removals.cables || Lists(op, world, st, x)
  }

  ghost predicate RemovesTo(op: Operation, st: Preview, modules: seq<int>) {
    if op.RemoveModule? then
      exists id :: Refers(op.target, st.naming.aliases, id)
        && modules == if id >= 0 then st.removals.modules + [id] else st.removals.modules
    else modules == st.removals.modules
  }

  ghost predicate Replaces(world: PlanWorld, r: Removals, id: int, port: int) {
    id >= 0 && exists c :: CableStands(world, r, c) && OnPort(c, id, Input, port)
  }

  ghost predicate ClaimsTo(op: Operation, world: PlanWorld, st: Preview, r: Removals) {
    if op.Connect? then
      op.input.portId.Some? &&
      exists id ::
        && Refers(op.input.target, st.naming.aliases, id)
        && r.claimed == st.removals.claimed + [(id, op.input.portId.value)]
        && r.replaced == st.removals.replaced
             + if Replaces(world, st.removals, id, op.input.portId.value) then [(id, op.input.portId.value)] else []
    else r.claimed == st.removals.claimed && r.replaced == st.removals.replaced
  }

  /** A new alias stands for an id that no other alias has. */
  ghost predicate NamesTo(op: Operation, n: Naming, n': Naming) {
    if op.AddModule? then
      && op.alias !in n.aliases && n'.aliases.Keys == n.aliases.Keys + {op.alias}
      && (forall a :: a in n.aliases ==> n'.aliases[a] == n.aliases[a] != n'.aliases[op.alias])
      && n'.aliases[op.alias] < 0 && n'.added == n.added + [(op.alias, op.pluginSlug, op.modelSlug)]
    else n' == n
  }

  ghost predicate RecordsTo(op: Operation, st: Preview, st': Preview) {
    && st'.addedCables == st.addedCables + (if op.Connect? then 1 else 0)
    && (if op.MoveModule? then
          exists id :: Refers(op.target, st.naming.aliases, id) && st'.moved == st.moved + [id]
        else st'.moved == st.moved)
    && (if IsTweak(op) then
          exists id :: Refers(op.target, st.naming.aliases, id) && st'.modified == st.modified + [id]
        else st'.modified == st.modified)
  }

  /** Only a move that lands exactly plans a place; an addition and the policies that leave
      the place to the rack make the layout uncertain. */
  ghost predicate MovesTo(op: Operation, world: PlanWorld, st: Preview, id: int, p: Places)
    requires op.MoveModule?
  {
    if id < 0 || forall self :: !PanelOf(world, id, self) then p == st.places
    else if op.collision.Fail? || op.collision.Force? then
      OnGrid(op) &&
      exists self ::
        && PanelOf(world, id, self)
        && p == st.places.(planned := st.places.planned[id := CellBox(op, world, self)])
    else p == st.places.(uncertain := true)
  }

  ghost predicate PlacesTo(op: Operation, world: PlanWorld, st: Preview, p: Places) {
    if op.MoveModule? then exists id :: Refers(op.target, st.naming.aliases, id) && MovesTo(op, world, st, id, p)
    else p == if op.AddModule? then st.places.(uncertain := true) else st.places
  }

  ghost predicate AudioAt(world: PlanWorld, r: Removals, ref: ModuleRef, aliases: map<string, int>) {
    exists id, m :: Refers(ref, aliases, id) && id >= 0 && Standing(world, r, id, m) && IsAudioModule(m)
  }

  /** The operation adds, removes or patches an audio interface. */
  ghost predicate Sounds(op: Operation, world: PlanWorld, st: Preview) {
    match op
    case AddModule(pluginSlug, modelSlug, _) => IsAudioModel(pluginSlug, modelSlug)
    case RemoveModule(target, _, _) => AudioAt(world, st.removals, target, st.naming.aliases)
    case DisconnectPort(port, _, _) => AudioAt(world, st.removals, port.target, st.naming.aliases)
    case Connect(output, input, _) =>
      AudioAt(world, st.removals, output.target, st.naming.aliases)
      || AudioAt(world, st.removals, input.target, st.naming.aliases)
    case _ => false
  }

  ghost predicate NotesTo(op: Operation, world: PlanWorld, st: Preview, n: Notes) {
    && n.missingModule == st.notes.missingModule
    && (n.touchesAudio <==> st.notes.touchesAudio || Sounds(op, world, st))
    && (n.adapterUncertainty <==> st.notes.adapterUncertainty || (op.AddModule? && IsThirdParty(op.pluginSlug)))
  }

  ghost predicate Changes(op: Operation, world: PlanWorld, st: Preview, st': Preview) {
    && ListsTo(op, world, st, st'.removals.cables) && RemovesTo(op, st, st'.removals.modules)
    && ClaimsTo(op, world, st, st'.removals) && NamesTo(op, st.naming, st'.naming)
    && RecordsTo(op, st, st') && PlacesTo(op, world, st, st'.places) && NotesTo(op, world, st, st'.notes)
  }

  // ----- the changes are the validation's -----

  lemma AddChanges(op: Operation, world: PlanWorld, st: Preview)
    requires op.AddModule? && AliasesFresh(st.naming) && Add(op, world, st).1.Accepted?
    ensures Changes(op, world, st, Add(op, world, st).0)
  {}

  /** The audio flag is raised by exactly the standing module looked at. */
  lemma HearsIs(world: PlanWorld, st: Preview, ref: ModuleRef, id: int, m: WorldModule)
    requires DistinctModuleIds(world.modules) && Refers(ref, st.naming.aliases, id) && id >= 0
    requires Standing(world, st.removals, id, m)
    ensures AudioAt(world, st.removals, ref, st.naming.aliases) <==> IsAudioModule(m)
  {
    hide Refers, IsAudioModule;
    RefersOnce(ref, st.naming.aliases);
    LiveIs(world, st.removals, id);
  }

  lemma SilentIs(world: PlanWorld, st: Preview, ref: ModuleRef, id: int)
    requires Refers(ref, st.naming.aliases, id) && id < 0
    ensures !AudioAt(world, st.removals, ref, st.naming.aliases)
  {
    hide Refers, Resolve;
    RefersOnce(ref, st.naming.aliases);
  }

  lemma RemoveLists(op: Operation, world: PlanWorld, st: Preview, id: int)
    requires op.RemoveModule? && Refers(op.target, st.naming.aliases, id)
    ensures forall x :: Lists(op, world, st, x) <==> id >= 0 && x in OnModule(world.cables, st.removals.cables, id)
  {
    hide Refers, Resolve, Touches, OnModule;
    RefersOnce(op.target, st.naming.aliases);
    OnModuleIs(world.cables, st.removals.cables, id);
    forall x | id >= 0 && x in OnModule(world.cables, st.removals.cables, id)
      ensures Lists(op, world, st, x)
    {
      var c :| c in world.cables && c.id == x && Touches(c, id);
      assert CableStands(world, st.removals, c);
    }
  }

  lemma RemoveChanges(op: Operation, world: PlanWorld, st: Preview)
    requires op.RemoveModule? && WorldOk(world) && Remove(op, world, st).1.Accepted?
    ensures Changes(op, world, st, Remove(op, world, st).0)
  {
    hide Refers, Resolve, LiveModule, Standing, Lists, AudioAt, OnModule, AddAllOnce, LastBridge, IsAudioModule;
    RefersOnce(op.target, st.naming.aliases);
    var id := Resolve(op.target, st.naming.aliases).value;
    assert Refers(op.target, st.naming.aliases, id);
    RemoveLists(op, world, st, id);
    if id >= 0 {
      LiveIs(world, st.removals, id);
      var m := world.modules[LiveModule(world, st.removals, id).value];
      assert Standing(world, st.removals, id, m);
      HearsIs(world, st, op.target, id, m);
      AddAllOnceIs(st.removals.cables, OnModule(world.cables, st.removals.cables, id));
    } else {
      SilentIs(world, st, op.target, id);
    }
  }

  lemma TweakChanges(op: Operation, world: PlanWorld, st: Preview)
    requires IsTweak(op) && Tweak(op, world, st).1.Accepted?
    ensures Changes(op, world, st, Tweak(op, world, st).0)
  {
    hide Refers, Resolve;
    RefersOnce(op.target, st.naming.aliases);
  }

  lemma MoveChanges(op: Operation, world: PlanWorld, st: Preview)
    requires op.MoveModule? && WorldOk(world) && Move(op, world, st).1.Accepted?
    ensures Changes(op, world, st, Move(op, world, st).0)
  {
    hide Refers, Resolve, PanelOf, WidgetIndex, LiveModule, IsFree, TargetBox, CellBox;
    RefersOnce(op.target, st.naming.aliases);
    var id := Resolve(op.target, st.naming.aliases).value;
    assert Refers(op.target, st.naming.aliases, id);
    PanelIs(world, id);
    var self := WidgetIndex(world.occupants, id);
    assert self < |world.occupants| ==> PanelOf(world, id, self);
    if self < |world.occupants| && OnGrid(op) {
      CellBoxIs(op, world, self);
    }
    assert MovesTo(op, world, st, id, Move(op, world, st).0.places);
  }

  lemma ConnectLists(op: Operation, world: PlanWorld, st: Preview, id: int)
    requires op.Connect? && op.input.portId.Some? && Refers(op.input.target, st.naming.aliases, id)
    ensures forall x ::
      Lists(op, world, st, x) <==> x in Existing(world, st.removals, id, op.input.portId.value)
    ensures Replaces(world, st.removals, id, op.input.portId.value)
      <==> Existing(world, st.removals, id, op.input.portId.value) != []
  {
    hide Refers, Resolve, OnPort, OnPortIds;
    RefersOnce(op.input.target, st.naming.aliases);
    var port := op.input.portId.value;
    OnPortIs(world.cables, st.removals.cables, id, Input, port);
    var hits := Existing(world, st.removals, id, port);
    forall x | x in hits
      ensures Lists(op, world, st, x) && Replaces(world, st.removals, id, port)
    {
      var c :| c in world.cables && c.id == x && OnPort(c, id, Input, port);
      assert CableStands(world, st.removals, c);
    }
    if hits != [] {
      var x := hits[0];
      assert x in hits;
    }
    assert forall c :: id >= 0 && CableStands(world, st.removals, c) && OnPort(c, id, Input, port) ==> c.id in hits;
  }

  /** What a connect hears of one of its ends. */
  lemma EndHears(world: PlanWorld, st: Preview, n: Notes, ref: ModuleRef, id: int, t: PortType, port: int)
    requires DistinctModuleIds(world.modules) && Refers(ref, st.naming.aliases, id)
    requires ConnectEnd(world, st.removals, n, id, t, port).1.Accepted?
    ensures var n' := ConnectEnd(world, st.removals, n, id, t, port).0;
      n' == n.(touchesAudio := n.touchesAudio || AudioAt(world, st.removals, ref, st.naming.aliases))
  {
    hide Refers, Standing, LiveModule, IsAudioModule, AudioAt;
    if id >= 0 {
      LiveIs(world, st.removals, id);
      var m := world.modules[LiveModule(world, st.removals, id).value];
      assert Standing(world, st.removals, id, m);
      HearsIs(world, st, ref, id, m);
    } else {
      SilentIs(world, st, ref, id);
    }
  }

  lemma ConnectChanges(op: Operation, world: PlanWorld, st: Preview)
    requires op.Connect? && WorldOk(world) && Connecting(op, world, st).1.Accepted?
    ensures Changes(op, world, st, Connecting(op, world, st).0)
  {
    hide Refers, Resolve, Lists, Replaces, Existing, ConnectEnd, AudioAt, AddAllOnce;
    RefersOnce(op.output.target, st.naming.aliases);
    RefersOnce(op.input.target, st.naming.aliases);
    var out := Resolve(op.output.target, st.naming.aliases).value;
    var inp := Resolve(op.input.target, st.naming.aliases).value;
    assert Refers(op.output.target, st.naming.aliases, out) && Refers(op.input.target, st.naming.aliases, inp);
    EndHears(world, st, st.notes, op.output.target, out, Output, op.output.portId.value);
    var n := ConnectEnd(world, st.removals, st.notes, out, Output, op.output.portId.value).0;
    EndHears(world, st, n, op.input.target, inp, Input, op.input.portId.value);
    ConnectLists(op, world, st, inp);
    AddAllOnceIs(st.removals.cables, Existing(world, st.removals, inp, op.input.portId.value));
  }

  lemma DisconnectChanges(op: Operation, world: PlanWorld, st: Preview)
    requires op.Disconnect? && Validate(op, world, st).1.Accepted?
    ensures Changes(op, world, st, Validate(op, world, st).0)
  {
    hide HasIdShape, Value, Numeral;
    forall n: nat {
      ParsesExactlyNumerals(op.cableId, n);
    }
    AddAllOnceIs(st.removals.cables, [ParseSpec(op.cableId).value]);
  }

  /** The last id listed for a port is that of the last cable standing on it. */
  lemma {:induction false} LastOnPortIs(cables: seq<PlanCable>, removed: seq<int>, id: int, t: PortType,
          port: int) returns (k: nat)
    requires OnPortIds(cables, removed, id, t, port) != []
    ensures k < |cables| && cables[k].id !in removed && OnPort(cables[k], id, t, port)
    ensures var hits := OnPortIds(cables, removed, id, t, port); hits[|hits| - 1] == cables[k].id
    ensures forall j :: k < j < |cables| && cables[j].id !in removed ==> !OnPort(cables[j], id, t, port)
  {
    hide OnPort;
    k := |cables| - 1;
    if cables[k].id in removed || !OnPort(cables[k], id, t, port) {
      k := LastOnPortIs(cables[..k], removed, id, t, port);
    }
  }

  lemma PortLists(op: Operation, world: PlanWorld, st: Preview, id: int)
    requires op.DisconnectPort? && Refers(op.port.target, st.naming.aliases, id) && id >= 0
    requires op.port.portId.Some? && op.portType.Named?
    ensures forall x ::
      Lists(op, world, st, x)
      <==> x in PortMatches(world, st.removals, id, op.portType.value, op.port.portId.value, op.policy)
  {
    hide Refers, Resolve, OnPort, OnPortIds;
    RefersOnce(op.port.target, st.naming.aliases);
    var cables, gone, t, port := world.cables, st.removals.cables, op.portType.value, op.port.portId.value;
    var hits := OnPortIds(cables, gone, id, t, port);
    OnPortIs(cables, gone, id, t, port);
    if op.policy.All? {
      forall x | x in hits
        ensures Lists(op, world, st, x)
      {
        var c :| c in cables && c.id == x && OnPort(c, id, t, port);
        var k :| 0 <= k < |cables| && cables[k] == c;
        assert TakenFromPort(world, st.removals, id, t, port, op.policy, k);
      }
    } else if hits != [] {
      var k := LastOnPortIs(cables, gone, id, t, port);
      assert TakenFromPort(world, st.removals, id, t, port, op.policy, k);
      assert forall j :: TakenFromPort(world, st.removals, id, t, port, op.policy, j) ==> j == k;
    }
    assert forall k :: TakenFromPort(world, st.removals, id, t, port, op.policy, k) ==> cables[k].id in hits;
  }

  lemma DisconnectPortChanges(op: Operation, world: PlanWorld, st: Preview)
    requires op.DisconnectPort? && WorldOk(world) && DisconnectingPort(op, world, st).1.Accepted?
    ensures Changes(op, world, st, DisconnectingPort(op, world, st).0)
  {
    hide Refers, Resolve, Standing, LiveModule, AudioAt, IsAudioModule, PortMatches, AddAllOnce, Lists;
    RefersOnce(op.port.target, st.naming.aliases);
    var id := Resolve(op.port.target, st.naming.aliases).value;
    assert Refers(op.port.target, st.naming.aliases, id);
    if id >= 0 {
      LiveIs(world, st.removals, id);
      var m := world.modules[LiveModule(world, st.removals, id).value];
      assert Standing(world, st.removals, id, m);
      HearsIs(world, st, op.port.target, id, m);
      PortLists(op, world, st, id);
      AddAllOnceIs(st.removals.cables,
        PortMatches(world, st.removals, id, op.portType.value, op.port.portId.value, op.policy));
    } else {
      SilentIs(world, st, op.port.target, id);
      PlanMadeLists(op, world, st, id);
    }
  }

  /** Nothing of the snapshot is on a module that the plan makes. */
  lemma PlanMadeLists(op: Operation, world: PlanWorld, st: Preview, id: int)
    requires op.DisconnectPort? && Refers(op.port.target, st.naming.aliases, id) && id < 0
    ensures forall x :: !Lists(op, world, st, x)
  {
    hide Refers, Resolve;
    RefersOnce(op.port.target, st.naming.aliases);
  }

  /** Every accepted operation changes the preview in exactly these ways. */
  lemma ChangesAre(op: Operation, world: PlanWorld, st: Preview)
    requires WorldOk(world) && AliasesFresh(st.naming) && Validate(op, world, st).1.Accepted?
    ensures Changes(op, world, st, Validate(op, world, st).0)
  {
    hide Changes, Add, Remove, Move, Tweak, Connecting, DisconnectCable, DisconnectingPort, WorldOk, AliasesFresh;
    if op.AddModule? {
      AddChanges(op, world, st);
    } else if op.RemoveModule? {
      RemoveChanges(op, world, st);
    } else if op.MoveModule? {
      MoveChanges(op, world, st);
    } else if op.Connect? {
      ConnectChanges(op, world, st);
    } else if op.Disconnect? {
      DisconnectChanges(op, world, st);
    } else if op.DisconnectPort? {
      DisconnectPortChanges(op, world, st);
    } else {
      TweakChanges(op, world, st);
    }
  }

  // ----- whole plans -----

  ghost predicate AllowedAt(ops: seq<Operation>, world: PlanWorld, k: nat)
    requires k < |ops|
  {
    ValidatePlan(ops[..k], world).Some? && Allowed(ops[k], world, ValidatePlan(ops[..k], world).value)
  }

  ghost predicate ListsAt(ops: seq<Operation>, world: PlanWorld, k: nat, x: int)
    requires k < |ops|
  {
    ValidatePlan(ops[..k], world).Some? && Lists(ops[k], world, ValidatePlan(ops[..k], world).value, x)
  }

  /** A plan is accepted exactly if each of its operations is allowed after those before it. */
  lemma {:induction false} PlanAcceptedIff(ops: seq<Operation>, world: PlanWorld)
    requires WorldOk(world)
    ensures ValidatePlan(ops, world).Some? <==> forall k: nat :: k < |ops| ==> AllowedAt(ops, world, k)
  {
    hide WorldOk, Validate, Allowed;
    if ops != [] {
      var before, last := ops[..|ops| - 1], |ops| - 1;
      PlanAcceptedIff(before, world);
      forall k: nat | k < last
        ensures AllowedAt(ops, world, k) <==> AllowedAt(before, world, k)
      {
        assert before[..k] == ops[..k];
      }
      if ValidatePlan(before, world).Some? {
        VerdictIs(ops[last], world, ValidatePlan(before, world).value);
      }
      if forall k: nat :: k < |ops| ==> AllowedAt(ops, world, k) {
        assert AllowedAt(ops, world, last);
      }
    }
  }

  /** What the last operation of an accepted plan changes. */
  lemma LastChanges(ops: seq<Operation>, world: PlanWorld) returns (st: Preview, op: Operation)
    requires WorldOk(world) && ops != [] && ValidatePlan(ops, world).Some?
    ensures ValidatePlan(ops[..|ops| - 1], world) == Some(st) && op == ops[|ops| - 1]
    ensures Allowed(op, world, st) && AliasesFresh(st.naming) && Changes(op, world, st, ValidatePlan(ops, world).value)
  {
    hide WorldOk, Validate, Allowed, Changes, AliasesFresh;
    op, st := ops[|ops| - 1], ValidatePlan(ops[..|ops| - 1], world).value;
    PlanDiscloses(ops[..|ops| - 1], world);
    VerdictIs(op, world, st);
    ChangesAre(op, world, st);
  }

  lemma ListedStep(ops: seq<Operation>, world: PlanWorld, x: int)
    requires WorldOk(world) && ValidatePlan(ops, world).Some? && ops != []
    ensures ValidatePlan(ops[..|ops| - 1], world).Some?
    ensures x in ValidatePlan(ops, world).value.removals.cables <==>
      x in ValidatePlan(ops[..|ops| - 1], world).value.removals.cables || ListsAt(ops, world, |ops| - 1, x)
  {
    hide WorldOk, ValidatePlan, Allowed, Lists, RemovesTo, ClaimsTo, NamesTo, RecordsTo, PlacesTo, NotesTo,
      AliasesFresh;
    var st, op := LastChanges(ops, world);
  }

  lemma ListsPrefix(ops: seq<Operation>, more: seq<Operation>, world: PlanWorld, k: nat, x: int)
    requires k < |ops|
    ensures ListsAt(ops + more, world, k, x) <==> ListsAt(ops, world, k, x)
  {
    hide ValidatePlan, Lists;
    assert (ops + more)[..k] == ops[..k];
  }

  /** Over a whole accepted plan the cables listed as removed are those that its operations
      list, each at its turn, and no others. */
  lemma {:induction false} ListedExactly(ops: seq<Operation>, world: PlanWorld, x: int)
    requires WorldOk(world) && ValidatePlan(ops, world).Some?
    ensures x in ValidatePlan(ops, world).value.removals.cables <==>
      exists k: nat :: k < |ops| && ListsAt(ops, world, k, x)
  {
    if ops != [] {
      hide WorldOk, ValidatePlan, ListsAt;
      var before, last := ops[..|ops| - 1], |ops| - 1;
      ListedStep(ops, world, x);
      ListedExactly(before, world, x);
      assert before + ops[last..] == ops;
      forall k: nat | k < last {
        ListsPrefix(before, ops[last..], world, k, x);
      }
    }
  }

  /** The reference is the numeral of a snapshot module. */
  predicate NamesModule(ref: ModuleRef, id: int) {
    ref.ById? && 0 <= id <= INT64_MAX && ref.text == Numeral(id)
  }

  lemma NamedRefers(ref: ModuleRef, aliases: map<string, int>, id: int)
    requires id >= 0 && forall a :: a in aliases ==> aliases[a] < 0
    ensures Refers(ref, aliases, id) <==> NamesModule(ref, id)
  {}

  lemma RemovedStep(ops: seq<Operation>, world: PlanWorld, id: int)
    requires WorldOk(world) && ValidatePlan(ops, world).Some? && ops != []
    ensures ValidatePlan(ops[..|ops| - 1], world).Some?
    ensures var op := ops[|ops| - 1];
      id in ValidatePlan(ops, world).value.removals.modules <==>
      id in ValidatePlan(ops[..|ops| - 1], world).value.removals.modules || RemovesModule(op, id)
  {
    hide WorldOk, ValidatePlan, Allowed, NamesModule, ListsTo, ClaimsTo, NamesTo, RecordsTo, PlacesTo, NotesTo,
      AliasesFresh;
    var st, op := LastChanges(ops, world);
    if op.RemoveModule? {
      RemovalNames(op, st, ValidatePlan(ops, world).value.removals.modules, id);
    }
  }

  predicate RemovesModule(op: Operation, id: int) {
    op.RemoveModule? && NamesModule(op.target, id)
  }

  /** A removed module is one that some remove_module of the plan names. */
  lemma {:induction false} RemovedExactly(ops: seq<Operation>, world: PlanWorld, id: int)
    requires WorldOk(world) && ValidatePlan(ops, world).Some?
    ensures id in ValidatePlan(ops, world).value.removals.modules
      <==> exists k: nat :: k < |ops| && RemovesModule(ops[k], id)
  {
    if ops != [] {
      hide WorldOk, ValidatePlan, RemovesModule;
      RemovedStep(ops, world, id);
      RemovedExactly(ops[..|ops| - 1], world, id);
    }
  }

  lemma RemovalNames(op: Operation, st: Preview, modules: seq<int>, id: int)
    requires op.RemoveModule? && AliasesFresh(st.naming) && RemovesTo(op, st, modules)
    ensures id in modules <==> id in st.removals.modules || NamesModule(op.target, id)
  {
    hide Numeral;
    var n :| Refers(op.target, st.naming.aliases, n)
      && modules == if n >= 0 then st.removals.modules + [n] else st.removals.modules;
    RefersOnce(op.target, st.naming.aliases);
    if id >= 0 {
      NamedRefers(op.target, st.naming.aliases, id);
    }
  }

  /** An operation that lists cables only where it says so: no connect, and no removal that
      is to fail if cables are attached. */
  predicate GentleOp(op: Operation) {
    !op.Connect? && (op.RemoveModule? ==> op.cablePolicy.RemoveAttached?)
  }

  lemma GentleLast(ops: seq<Operation>, world: PlanWorld)
    requires WorldOk(world) && ValidatePlan(ops, world).Some? && ops != []
    requires ops[|ops| - 1].Connect? ==> !ops[|ops| - 1].inputPolicy.ReplaceAll?
    ensures ValidatePlan(ops[..|ops| - 1], world).Some?
    ensures ValidatePlan(ops, world).value.removals.replaced
      == ValidatePlan(ops[..|ops| - 1], world).value.removals.replaced
    ensures var k := |ops| - 1; forall x :: ListsAt(ops, world, k, x) ==> GentleOp(ops[k])
  {
    hide WorldOk, ValidatePlan, Allowed, Lists, ListsTo, RemovesTo, NamesTo, RecordsTo, PlacesTo, NotesTo, AliasesFresh,
      Replaces;
    var st, op := LastChanges(ops, world);
    GentleStep(op, world, st);
  }

  /** If no connect of an accepted plan replaces, no input is replaced, none of its connects
      lists a cable, and neither does a removal that is to fail if cables are attached. */
  lemma {:induction false} GentlePlan(ops: seq<Operation>, world: PlanWorld)
    requires WorldOk(world) && ValidatePlan(ops, world).Some?
    requires forall k :: 0 <= k < |ops| && ops[k].Connect? ==> !ops[k].inputPolicy.ReplaceAll?
    ensures ValidatePlan(ops, world).value.removals.replaced == []
    ensures forall k: nat, x :: k < |ops| && ListsAt(ops, world, k, x) ==> GentleOp(ops[k])
  {
    if ops == [] {
      assert ValidatePlan(ops, world) == Some(EMPTY_PREVIEW);
    } else {
      hide WorldOk, ValidatePlan, ListsAt, GentleOp;
      var before, last := ops[..|ops| - 1], |ops| - 1;
      GentleLast(ops, world);
      GentlePlan(before, world);
      assert before + ops[last..] == ops;
      forall k: nat, x | k < |ops| && ListsAt(ops, world, k, x)
        ensures GentleOp(ops[k])
      {
        if k < last {
          ListsPrefix(before, ops[last..], world, k, x);
        }
      }
    }
  }

  /** An allowed operation with a "fail" policy lists nothing and replaces nothing. */
  lemma GentleStep(op: Operation, world: PlanWorld, st: Preview)
    requires Allowed(op, world, st)
    ensures op.Connect? && !op.inputPolicy.ReplaceAll? ==> forall x :: !Lists(op, world, st, x)
    ensures op.Connect? && !op.inputPolicy.ReplaceAll? ==>
      forall id :: Refers(op.input.target, st.naming.aliases, id) ==>
        !Replaces(world, st.removals, id, op.input.portId.value)
    ensures op.RemoveModule? && op.cablePolicy.FailIfAttached? ==> forall x :: !Lists(op, world, st, x)
  {
    hide Refers, Resolve, OnPort, Touches, CableStands, EndsOk, LeavesABridge;
    if op.Connect? {
      RefersOnce(op.input.target, st.naming.aliases);
    } else if op.RemoveModule? {
      RefersOnce(op.target, st.naming.aliases);
    }
  }

  ghost predicate NamesAudio(ref: ModuleRef, world: PlanWorld) {
    exists m :: m in world.modules && NamesModule(ref, m.id) && IsAudioModule(m)
  }

  /** The operation, by itself, is about an audio interface. */
  ghost predicate AboutAudio(op: Operation, world: PlanWorld) {
    match op
    case AddModule(pluginSlug, modelSlug, _) => IsAudioModel(pluginSlug, modelSlug)
    case RemoveModule(target, _, _) => NamesAudio(target, world)
    case DisconnectPort(port, _, _) => NamesAudio(port.target, world)
    case Connect(output, input, _) => NamesAudio(output.target, world) || NamesAudio(input.target, world)
    case _ => false
  }

  lemma AudioNamed(world: PlanWorld, st: Preview, ref: ModuleRef)
    requires AliasesFresh(st.naming) && WorldOk(world)
    requires exists id :: Refers(ref, st.naming.aliases, id) && (id < 0 || Stands(world, st.removals, id))
    ensures AudioAt(world, st.removals, ref, st.naming.aliases) <==> NamesAudio(ref, world)
  {
    hide Numeral, IsAudioModule, WorldOk;
    var id :| Refers(ref, st.naming.aliases, id) && (id < 0 || Stands(world, st.removals, id));
    RefersOnce(ref, st.naming.aliases);
    if NamesAudio(ref, world) {
      var m :| m in world.modules && NamesModule(ref, m.id) && IsAudioModule(m);
      NamedRefers(ref, st.naming.aliases, m.id);
      assert Standing(world, st.removals, m.id, m);
    }
    if AudioAt(world, st.removals, ref, st.naming.aliases) {
      NamedRefers(ref, st.naming.aliases, id);
    }
  }

  lemma EndStands(world: PlanWorld, st: Preview, ref: ModuleRef, id: int, t: PortType, port: int)
    requires Refers(ref, st.naming.aliases, id) && EndOk(world, st.removals, id, t, port)
    ensures exists n :: Refers(ref, st.naming.aliases, n) && (n < 0 || Stands(world, st.removals, n))
  {
    hide Refers;
    if id >= 0 {
      StandingStands(world, st.removals, id);
    }
  }

  lemma SoundsAlone(op: Operation, world: PlanWorld, st: Preview)
    requires WorldOk(world) && AliasesFresh(st.naming) && Allowed(op, world, st)
    ensures Sounds(op, world, st) <==> AboutAudio(op, world)
  {
    hide Refers, Stands, AudioAt, NamesAudio, EndOk, WorldOk, AliasesFresh, IsAudioModel, AllowedOn;
    if op.RemoveModule? || op.DisconnectPort? {
      AudioNamed(world, st, TargetOf(op));
    } else if op.Connect? {
      var out, inp :| Ends(op, st.naming.aliases, out, inp) && EndsOk(op, world, st.removals, out, inp);
      EndStands(world, st, op.output.target, out, Output, op.output.portId.value);
      EndStands(world, st, op.input.target, inp, Input, op.input.portId.value);
      AudioNamed(world, st, op.output.target);
      AudioNamed(world, st, op.input.target);
    }
  }

  predicate AddsThirdParty(op: Operation) {
    op.AddModule? && IsThirdParty(op.pluginSlug)
  }

  lemma NotesStep(ops: seq<Operation>, world: PlanWorld)
    requires WorldOk(world) && ValidatePlan(ops, world).Some? && ops != []
    ensures ValidatePlan(ops[..|ops| - 1], world).Some?
    ensures var op := ops[|ops| - 1];
      var n, n' := ValidatePlan(ops[..|ops| - 1], world).value.notes, ValidatePlan(ops, world).value.notes;
      && n'.missingModule == n.missingModule && (n'.touchesAudio <==> n.touchesAudio || AboutAudio(op, world))
      && (n'.adapterUncertainty <==> n.adapterUncertainty || AddsThirdParty(op))
  {
    hide WorldOk, ValidatePlan, Allowed, Sounds, AboutAudio, IsThirdParty, ListsTo, RemovesTo, ClaimsTo, NamesTo,
      RecordsTo, PlacesTo, AliasesFresh;
    var st, op := LastChanges(ops, world);
    SoundsAlone(op, world, st);
  }

  /** The remaining risk notes of an accepted plan, told from the plan and the snapshot alone:
      an audio interface is touched exactly if some operation is about one, an adapter is
      uncertain exactly if some third-party module is added, and no model is missing. */
  lemma {:induction false} NotesAreExact(ops: seq<Operation>, world: PlanWorld)
    requires WorldOk(world) && ValidatePlan(ops, world).Some?
    ensures var n := ValidatePlan(ops, world).value.notes;
      && !n.missingModule
      && (n.touchesAudio <==> exists k: nat :: k < |ops| && AboutAudio(ops[k], world))
      && (n.adapterUncertainty <==> exists k: nat :: k < |ops| && AddsThirdParty(ops[k]))
  {
    if ops == [] {
      assert ValidatePlan(ops, world) == Some(EMPTY_PREVIEW);
    } else {
      hide WorldOk, ValidatePlan, AboutAudio, AddsThirdParty;
      NotesStep(ops, world);
      NotesAreExact(ops[..|ops| - 1], world);
    }
  }
}
