/** Safety of whole accepted plans: the last Bridge, the verdict shown with the preview,
    and the layout the plan leaves behind. */
module PlanSafety {
  import opened Basics
  import opened DecimalIds
  import opened Layout
  import opened Plan
  import opened Validation
  import opened PlanProperties

  // ----- what one accepted operation can do to modules, notes and places -----

  /** Either nothing is removed, or one live module is, under the last-Bridge rule. */
  ghost predicate RemovalRule(op: Operation, world: PlanWorld, st: Preview, st': Preview) {
    || (st'.removals.modules == st.removals.modules && st'.notes.removesBridge == st.notes.removesBridge)
    || (op.RemoveModule? && exists m :: m in world.modules && TakesOne(op, world, st, st', m))
  }

  ghost predicate TakesOne(op: Operation, world: PlanWorld, st: Preview, st': Preview, m: WorldModule)
    requires op.RemoveModule?
  {
    && m.id !in st.removals.modules && !LastBridge(op, world, st.removals, m)
    && st'.removals.modules == st.removals.modules + [m.id]
    && st'.notes.removesBridge == (st.notes.removesBridge || IsBridgeModule(m))
  }

  lemma RemoveFollowsRule(op: Operation, world: PlanWorld, st: Preview)
    requires op.RemoveModule? && Remove(op, world, st).1.Accepted?
    ensures RemovalRule(op, world, st, Remove(op, world, st).0)
  {
    var ref := Resolve(op.target, st.naming.aliases);
    if ref.Some? && ref.value >= 0 && LiveModule(world, st.removals, ref.value).Some? {
      var m := world.modules[LiveModule(world, st.removals, ref.value).value];
      assert m in world.modules && TakesOne(op, world, st, Remove(op, world, st).0, m);
    }
  }

  lemma StepFollowsRule(op: Operation, world: PlanWorld, st: Preview)
    requires Validate(op, world, st).1.Accepted?
    ensures RemovalRule(op, world, st, Validate(op, world, st).0)
  {
    if op.RemoveModule? {
      RemoveFollowsRule(op, world, st);
    }
  }

  // ----- the last Bridge -----

  ghost predicate KeepsLastBridge(op: Operation) {
    op.RemoveModule? ==> !op.allowLastBridge
  }

  lemma StepKeepsBridge(op: Operation, world: PlanWorld, st: Preview)
    requires DistinctModuleIds(world.modules) && KeepsLastBridge(op) && Validate(op, world, st).1.Accepted?
    requires BridgesLeft(world.modules, st.removals.modules) > 0
    ensures BridgesLeft(world.modules, Validate(op, world, st).0.removals.modules) > 0
  {
    var st' := Validate(op, world, st).0;
    StepFollowsRule(op, world, st);
    if st'.removals.modules != st.removals.modules {
      var m :| m in world.modules && TakesOne(op, world, st, st', m);
      OneRemoval(world.modules, st.removals.modules, m.id);
    }
  }

  lemma {:induction false} PlanKeepsBridge(ops: seq<Operation>, world: PlanWorld)
    requires DistinctModuleIds(world.modules) && ValidatePlan(ops, world).Some?
    requires BridgesLeft(world.modules, []) > 0 && forall op :: op in ops ==> KeepsLastBridge(op)
    ensures BridgesLeft(world.modules, ValidatePlan(ops, world).value.removals.modules) > 0
  {
    if ops != [] {
      var before := ops[..|ops| - 1];
      PlanKeepsBridge(before, world);
      StepKeepsBridge(ops[|ops| - 1], world, ValidatePlan(before, world).value);
    }
  }

  /** A plan that never asks to remove the last Bridge leaves one standing, if there was one. */
  lemma ABridgeSurvives(ops: seq<Operation>, world: PlanWorld)
    requires DistinctModuleIds(world.modules) && ValidatePlan(ops, world).Some?
    requires (exists m :: m in world.modules && IsBridgeModule(m)) && forall op :: op in ops ==> KeepsLastBridge(op)
    ensures var st := ValidatePlan(ops, world).value;
      exists m :: m in world.modules && IsBridgeModule(m) && m.id !in st.removals.modules
  {
    BridgesLeftPositive(world.modules, []);
    PlanKeepsBridge(ops, world);
    BridgesLeftPositive(world.modules, ValidatePlan(ops, world).value.removals.modules);
  }

  // ----- the verdict -----

  ghost predicate ABridgeIsRemoved(modules: seq<WorldModule>, removed: seq<int>) {
    exists m :: m in modules && IsBridgeModule(m) && m.id in removed
  }

  lemma StepNotesBridges(op: Operation, world: PlanWorld, st: Preview)
    requires DistinctModuleIds(world.modules) && Validate(op, world, st).1.Accepted?
    requires st.notes.removesBridge <==> ABridgeIsRemoved(world.modules, st.removals.modules)
    ensures var st' := Validate(op, world, st).0; st'.notes.removesBridge <==>
      ABridgeIsRemoved(world.modules, st'.removals.modules)
  {
    var st' := Validate(op, world, st).0;
    StepFollowsRule(op, world, st);
    if st'.removals.modules != st.removals.modules {
      var m :| m in world.modules && TakesOne(op, world, st, st', m);
    }
  }

  lemma StepListsReplaced(op: Operation, world: PlanWorld, st: Preview)
    requires st.removals.replaced != [] ==> st.removals.cables != []
    ensures var r := Validate(op, world, st).0.removals; r.replaced != [] ==> r.cables != []
  {
    var r := Validate(op, world, st).0.removals;
    if op.Connect? {
      StepRemoves(op, world, st);
      if r != st.removals {
        var id, port :| r == ClaimInput(world, st.removals, id, port, op.inputPolicy).0;
      }
    } else {
      StepOnlyAddsCables(op, world, st);
      if st.removals.cables != [] {
        var c := st.removals.cables[0];
        assert c in st.removals.cables && c in r.cables;
      }
    }
  }

  lemma StepOnlyAddsCables(op: Operation, world: PlanWorld, st: Preview)
    ensures forall c :: c in st.removals.cables ==> c in Validate(op, world, st).0.removals.cables
    ensures !op.Connect? ==> Validate(op, world, st).0.removals.replaced == st.removals.replaced
  {
    StepRemoves(op, world, st);
    var r := Validate(op, world, st).0.removals;
    if r != st.removals {
      match op
      case RemoveModule(_, policy, _) =>
        var id :| HasModule(world.modules, id) && id !in st.removals.modules
          && r == TakeModule(world, st.removals, id, policy).0;
        AddAllOnceIs(st.removals.cables, OnModule(world.cables, st.removals.cables, id));
      case Connect(_, _, policy) =>
        var id, port :| r == ClaimInput(world, st.removals, id, port, policy).0;
        AddAllOnceIs(st.removals.cables, Existing(world, st.removals, id, port));
      case Disconnect(cableId) =>
        if DisconnectCable(cableId, world, st.removals).1.Accepted? {
          AddAllOnceIs(st.removals.cables, [ParseSpec(cableId).value]);
        }
      case DisconnectPort(_, _, policy) =>
        var id, portType, port :| r == ListCables(st.removals,
          PortMatches(world, st.removals, id, portType, port, policy));
        AddAllOnceIs(st.removals.cables, PortMatches(world, st.removals, id, portType, port, policy));
    }
  }

  lemma {:induction false} PlanNotes(ops: seq<Operation>, world: PlanWorld)
    requires DistinctModuleIds(world.modules) && ValidatePlan(ops, world).Some?
    ensures var st := ValidatePlan(ops, world).value;
      && (st.notes.removesBridge <==> ABridgeIsRemoved(world.modules, st.removals.modules))
      && (st.removals.replaced != [] ==> st.removals.cables != [])
  {
    if ops != [] {
      var before := ops[..|ops| - 1];
      PlanNotes(before, world);
      StepNotesBridges(ops[|ops| - 1], world, ValidatePlan(before, world).value);
      StepListsReplaced(ops[|ops| - 1], world, ValidatePlan(before, world).value);
    }
  }

  /** Confirmation is asked for exactly when the accepted plan removes some snapshot
      module or cable or randomises a module; the effects say "removes a Bridge", and so
      the level is "high", exactly when a Bridge is among the removed modules. */
  lemma VerdictIsExact(ops: seq<Operation>, world: PlanWorld)
    requires DistinctModuleIds(world.modules) && ValidatePlan(ops, world).Some?
    ensures var st := ValidatePlan(ops, world).value;
      TakesAway(Effects(ops, st)) <==>
        st.removals.modules != [] || st.removals.cables != [] || exists op :: op in ops && op.RandomizeModule?
    ensures var st := ValidatePlan(ops, world).value;
      Effects(ops, st).removesBridge <==> ABridgeIsRemoved(world.modules, st.removals.modules)
  {
    PlanNotes(ops, world);
    var st := ValidatePlan(ops, world).value;
    if exists op :: op in ops && op.RandomizeModule? {
      var op :| op in ops && op.RandomizeModule?;
      var i :| 0 <= i < |ops| && ops[i] == op;
      assert Effects(ops, st).randomizes;
    }
  }

  // ----- the layout -----

  /** The plan's operations whose landing places are all known: nothing is added, and
      every move asks to fail on a collision. */
  ghost predicate PlacesExactly(op: Operation) {
    !op.AddModule? && (op.MoveModule? ==> op.collision.Fail?)
  }

  /** Moved panels keep their size. */
  ghost predicate SizesKept(occupants: seq<Occupant>, planned: map<int, Box>) {
    forall o :: o in occupants && o.hasModuleId && o.moduleId in planned
      ==> planned[o.moduleId].w == o.box.w && planned[o.moduleId].h == o.box.h
  }

  ghost predicate Tidy(world: PlanWorld, removed: seq<int>, p: Places) {
    !p.uncertain && NoOverlaps(world.occupants, removed, p.planned) && SizesKept(world.occupants, p.planned)
  }

  lemma PlaceKeepsTidy(world: PlanWorld, r: Removals, p: Places, id: int, self: nat, cell: (int, int))
    requires DistinctIds(world.occupants) && Tidy(world, r.modules, p)
    requires self < |world.occupants| && world.occupants[self].hasModuleId && world.occupants[self].moduleId == id
    ensures Tidy(world, r.modules, Place(world, r, p, id, self, TargetBox(world, self, cell), Fail).0)
  {
    var target := TargetBox(world, self, cell);
    if IsFree(world.occupants, self, target, r.modules, p.planned) {
      MoveKeepsNoOverlaps(world.occupants, r.modules, p.planned, self, target);
    }
  }

  lemma MoveKeepsTidy(op: Operation, world: PlanWorld, r: Removals, p: Places, id: int)
    requires op.MoveModule? && op.collision.Fail? && DistinctIds(world.occupants) && Tidy(world, r.modules, p)
    ensures Tidy(world, r.modules, MoveLive(op, world, r, p, id).0)
  {
    var self := WidgetIndex(world.occupants, id);
    if LiveModule(world, r, id).Some? && self < |world.occupants| && ReadGrid(op.x, op.y).Some? {
      PlaceKeepsTidy(world, r, p, id, self, ReadGrid(op.x, op.y).value);
    }
  }

  lemma StepKeepsTidy(op: Operation, world: PlanWorld, st: Preview)
    requires DistinctIds(world.occupants) && PlacesExactly(op) && Tidy(world, st.removals.modules, st.places)
    ensures var st' := Validate(op, world, st).0; Tidy(world, st'.removals.modules, st'.places)
  {
    var st' := Validate(op, world, st).0;
    if op.MoveModule? {
      var ref := Resolve(op.target, st.naming.aliases);
      if ref.Some? && ref.value >= 0 {
        MoveKeepsTidy(op, world, st.removals, st.places, ref.value);
      }
    } else {
      StepOnlyRemoves(op, world, st);
    }
  }

  lemma StepOnlyRemoves(op: Operation, world: PlanWorld, st: Preview)
    requires PlacesExactly(op) && !op.MoveModule?
    ensures Validate(op, world, st).0.places == st.places
    ensures forall m :: m in st.removals.modules ==> m in Validate(op, world, st).0.removals.modules
  {
    StepRemoves(op, world, st);
  }

  /** If no two panels overlap, then after any accepted plan that adds nothing and moves
      only where it is free to, no two of the panels left overlap, and none changed size. */
  lemma {:induction false} PlanKeepsLayout(ops: seq<Operation>, world: PlanWorld)
    requires DistinctIds(world.occupants) && NoOverlaps(world.occupants, [], map[])
    requires (forall op :: op in ops ==> PlacesExactly(op)) && ValidatePlan(ops, world).Some?
    ensures var st := ValidatePlan(ops, world).value; Tidy(world, st.removals.modules, st.places)
  {
    if ops != [] {
      var before := ops[..|ops| - 1];
      PlanKeepsLayout(before, world);
      StepKeepsTidy(ops[|ops| - 1], world, ValidatePlan(before, world).value);
    }
  }

  /** The operation moves this snapshot module; only an id can name one. */
  predicate Moves(op: Operation, id: int) {
    op.MoveModule? && op.target.ById? && ParseSpec(op.target.text).Id? && ParseSpec(op.target.text).value == id
  }

  /** The cell the last move of a module asks for, if the plan moves it. */
  function LastCell(ops: seq<Operation>, id: int): Option<(int, int)> {
    if ops == [] then None
    else if Moves(ops[|ops| - 1], id) then ReadGrid(ops[|ops| - 1].x, ops[|ops| - 1].y)
    else LastCell(ops[..|ops| - 1], id)
  }

  ghost predicate PlacedAt(world: PlanWorld, planned: map<int, Box>, id: int, cell: Option<(int, int)>) {
    var self := WidgetIndex(world.occupants, id);
    self < |world.occupants| ==>
      if cell.None? then id !in planned else id in planned && planned[id] == TargetBox(world, self, cell.value)
  }

  lemma StepPlaces(op: Operation, world: PlanWorld, st: Preview, id: int, cell: Option<(int, int)>)
    requires AliasesFresh(st.naming) && PlacesExactly(op) && id >= 0 && PlacedAt(world, st.places.planned, id, cell)
    requires Validate(op, world, st).1.Accepted?
    ensures PlacedAt(world, Validate(op, world, st).0.places.planned, id, if Moves(op, id) then ReadGrid(op.x, op.y)
      else cell)
  {
    var st' := Validate(op, world, st).0;
    if op.MoveModule? {
      var ref := Resolve(op.target, st.naming.aliases);
      assert ref == Some(id) <==> Moves(op, id);
    } else {
      StepOnlyRemoves(op, world, st);
    }
  }

  /** Every panel stands where the last accepted move of its module asked, at its own
      size, and panels the plan never moves have no planned place. */
  lemma {:induction false} PlacedWhereAsked(ops: seq<Operation>, world: PlanWorld, id: int)
    requires (forall op :: op in ops ==> PlacesExactly(op)) && ValidatePlan(ops, world).Some? && id >= 0
    ensures AliasesFresh(ValidatePlan(ops, world).value.naming)
    ensures PlacedAt(world, ValidatePlan(ops, world).value.places.planned, id, LastCell(ops, id))
  {
    if ops != [] {
      var before, last := ops[..|ops| - 1], ops[|ops| - 1];
      PlacedWhereAsked(before, world, id);
      StepPlaces(last, world, ValidatePlan(before, world).value, id, LastCell(before, id));
    }
  }
}
