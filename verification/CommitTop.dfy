/** The one way a commit can fall short of its preview: a disconnect_port "top" on a port
    onto which the plan itself connected. A condition on the plan alone that rules it out,
    and a plan in which it happens. */
module CommitTop {
  import opened Basics
  import opened DecimalIds
  import opened Plan
  import opened Validation
  import opened PlanProperties
  import opened Commit
  import opened CommitProperties
  import Layout

  // ----- a condition on the plan alone -----

  predicate Names(ref: ModuleRef, id: int) {
    ref.ById? && ParseSpec(ref.text).Id? && ParseSpec(ref.text).value == id
  }

  /** Both name the same snapshot module and the same port of it. */
  predicate SamePort(a: PortRef, b: PortRef) {
    a.target.ById? && ParseSpec(a.target.text).Id? && Names(b.target, ParseSpec(a.target.text).value)
      && a.portId == b.portId
  }

  function EndOf(connect: Operation, t: PortType): PortRef
    requires connect.Connect?
  {
    if t.Output? then connect.output else connect.input
  }

  /** The connect puts a cable on the port that the "top" takes one off. */
  predicate ConnectsOnto(connect: Operation, top: Operation) {
    && connect.Connect? && top.DisconnectPort? && top.policy.Top? && top.portType.Named?
    && SamePort(EndOf(connect, top.portType.value), top.port)
  }

  predicate NoConnectBeforeTop(ops: seq<Operation>) {
    forall i, j :: 0 <= i < j < |ops| ==> !ConnectsOnto(ops[i], ops[j])
  }

  // ----- the cables the plan has made -----

  ghost predicate MadeEnd(world: PlanWorld, end: PortRef, m: int, port: int) {
    end.portId == Some(port) && (HasModule(world.modules, m) ==> Names(end.target, m))
  }

  /** The cable could be the work of this connect. */
  ghost predicate MadeBy(op: Operation, world: PlanWorld, c: PlanCable) {
    && op.Connect? && MadeEnd(world, op.output, c.outputModuleId, c.outputId)
    && MadeEnd(world, op.input, c.inputModuleId, c.inputId)
  }

  ghost predicate OldOrMade(ops: seq<Operation>, world: PlanWorld, c: PlanCable) {
    HasCable(world.cables, c.id) || exists k :: 0 <= k < |ops| && MadeBy(ops[k], world, c)
  }

  ghost predicate AllOldOrMade(ops: seq<Operation>, world: PlanWorld, cables: seq<PlanCable>) {
    forall c :: c in cables ==> OldOrMade(ops, world, c)
  }

  lemma OldOrMadeLater(ops: seq<Operation>, op: Operation, world: PlanWorld, c: PlanCable)
    requires OldOrMade(ops, world, c)
    ensures OldOrMade(ops + [op], world, c)
  {
    if !HasCable(world.cables, c.id) {
      var k :| 0 <= k < |ops| && MadeBy(ops[k], world, c);
      assert (ops + [op])[k] == ops[k];
    }
  }

  lemma NewCableMade(op: Operation, world: PlanWorld, named: map<string, int>, p: Patch, choice: Choice)
    requires op.Connect? && AliasesFollow(world, named, p.aliases) && Taken(op, p).Some?
    ensures MadeBy(op, world, NewCable(op, p, choice.newId))
  {
    hide Taken, HasModule;
    TakenConnects(op, p);
  }

  lemma TakenConnects(op: Operation, p: Patch)
    requires op.Connect? && Taken(op, p).Some?
    ensures op.output.portId.Some? && op.input.portId.Some?
    ensures Resolve(op.output.target, p.aliases).Some? && Resolve(op.input.target, p.aliases).Some?
  {}

  lemma ApplyKeepsOldOrMade(ops: seq<Operation>, op: Operation, world: PlanWorld, named: map<string, int>, p: Patch,
          choice: Choice)
    requires AllOldOrMade(ops, world, p.cables) && AliasesFollow(world, named, p.aliases) && Apply(op, p, choice).Some?
    ensures AllOldOrMade(ops + [op], world, Apply(op, p, choice).value.cables)
  {
    hide OldOrMade, AliasesFollow, Taken, Without;
    var kept := Without(p.cables, Taken(op, p).value);
    forall c | c in Apply(op, p, choice).value.cables
      ensures OldOrMade(ops + [op], world, c)
    {
      WithoutIs(p.cables, Taken(op, p).value, c);
      if c in kept {
        OldOrMadeLater(ops, op, world, c);
      } else {
        TakenConnects(op, p);
        NewCableMade(op, world, named, p, choice);
        MadeIsOldOrMade(ops, op, world, c);
      }
    }
  }

  lemma MadeIsOldOrMade(ops: seq<Operation>, op: Operation, world: PlanWorld, c: PlanCable)
    requires MadeBy(op, world, c)
    ensures OldOrMade(ops + [op], world, c)
  {
    assert (ops + [op])[|ops|] == op;
  }

  lemma {:induction false} CommittedOldOrMade(ops: seq<Operation>, world: PlanWorld, choices: seq<Choice>)
    requires WorldOk(world) && ValidatePlan(ops, world).Some? && |choices| == |ops| && AllNew(world, choices)
    requires Committed(ops, world, choices).Some?
    ensures AllOldOrMade(ops, world, Committed(ops, world, choices).value.cables)
  {
    hide WorldOk, Validate, Apply, NewTo, AllOldOrMade, CablesFollow, ModulesFollow, AliasesFollow;
    if ops == [] {
      SnapshotIsOld(world);
    } else {
      var before, earlier := ops[..|ops| - 1], choices[..|ops| - 1];
      var st := ValidatePlan(before, world).value;
      CommittedOldOrMade(before, world, earlier);
      PlanFollows(before, world, earlier);
      ApplyKeepsOldOrMade(before, ops[|ops| - 1], world, st.naming.aliases, Committed(before, world, earlier).value,
        choices[|ops| - 1]);
      assert before + [ops[|ops| - 1]] == ops;
    }
  }

  lemma SnapshotIsOld(world: PlanWorld)
    ensures AllOldOrMade([], world, world.cables)
  {
    forall c | c in world.cables
      ensures HasCable(world.cables, c.id)
    {}
  }

  /** A cable of the plan's on a snapshot module's port was connected onto that port. */
  lemma MadeConnectsOnto(connect: Operation, top: Operation, world: PlanWorld, c: PlanCable, id: int)
    requires top.DisconnectPort? && top.policy.Top? && top.portType.Named? && top.port.portId.Some?
    requires MadeBy(connect, world, c) && HasModule(world.modules, id) && Names(top.port.target, id)
    requires OnPort(c, id, top.portType.value, top.port.portId.value)
    ensures ConnectsOnto(connect, top)
  {}

  lemma TopNames(op: Operation, world: PlanWorld, st: Preview)
    requires TopLists(op, world, st) && AliasesFresh(st.naming) && Validate(op, world, st).1.Accepted?
    ensures var id := Resolve(op.port.target, st.naming.aliases).value;
      HasModule(world.modules, id) && Names(op.port.target, id)
  {
    var id := Resolve(op.port.target, st.naming.aliases).value;
    assert world.modules[LiveModule(world, st.removals, id).value] in world.modules;
  }

  /** With nothing connected onto its port before, a "top" sees a cable of the snapshot's. */
  lemma UntouchedTopSees(ops: seq<Operation>, op: Operation, world: PlanWorld, st: Preview, p: Patch, gone: seq<int>)
    requires Follows(world, st, p, gone) && AllOldOrMade(ops, world, p.cables) && AliasesFresh(st.naming)
    requires Validate(op, world, st).1.Accepted? && forall k :: 0 <= k < |ops| ==> !ConnectsOnto(ops[k], op)
    ensures TopSees(op, world, st, p)
  {
    hide Validate, OnPort, OnPortIds, CablesFollow, HasCable, HasModule, Names, ConnectsOnto, MadeBy;
    if TopLists(op, world, st) {
      TopNames(op, world, st);
      var id, t, port := Resolve(op.port.target, st.naming.aliases).value, op.portType.value, op.port.portId.value;
      var shown, ms := OnPortIds(world.cables, st.removals.cables, id, t, port), OnPortIds(p.cables, [], id, t, port);
      OnPortTaken(world.cables, st.removals.cables, p.cables, gone, id, t, port, shown[|shown| - 1]);
      var x := ms[|ms| - 1];
      assert x in ms;
      OnPortIs(p.cables, [], id, t, port);
      var c :| c in p.cables && c.id == x && OnPort(c, id, t, port);
      if !HasCable(world.cables, x) {
        var k :| 0 <= k < |ops| && MadeBy(ops[k], world, c);
        MadeConnectsOnto(ops[k], op, world, c, id);
      }
    }
  }

  /** What a client can look up before it asks for the commit: if no "top" comes after a
      connect onto its port, every "top" sees a cable of the snapshot's. */
  lemma {:induction false} NoConnectBeforeTopSees(ops: seq<Operation>, world: PlanWorld, choices: seq<Choice>)
    requires WorldOk(world) && ValidatePlan(ops, world).Some? && |choices| == |ops| && AllNew(world, choices)
    requires Committed(ops, world, choices).Some? && NoConnectBeforeTop(ops)
    ensures EveryTopSees(ops, world, choices)
  {
    if ops != [] {
      hide WorldOk, Validate, Apply, NewTo, AllOldOrMade, Follows, TopSees, ConnectsOnto, AliasesFresh;
      var before, earlier, last := ops[..|ops| - 1], choices[..|ops| - 1], ops[|ops| - 1];
      NoConnectBeforeTopSees(before, world, earlier);
      PlanFollows(before, world, earlier);
      PlanDiscloses(before, world);
      CommittedOldOrMade(before, world, earlier);
      UntouchedTopSees(before, last, world, ValidatePlan(before, world).value, Committed(before, world, earlier).value,
        Gone(before, world, earlier));
    }
  }

  /** So the preview of such a plan is exact, after every prefix of it. */
  lemma UntouchedPlanIsExact(ops: seq<Operation>, world: PlanWorld, choices: seq<Choice>)
    requires WorldOk(world) && ValidatePlan(ops, world).Some? && |choices| == |ops| && AllNew(world, choices)
    requires Committed(ops, world, choices).Some? && NoConnectBeforeTop(ops)
    ensures ExactThroughout(ops, world, choices)
  {
    NoConnectBeforeTopSees(ops, world, choices);
    ExactIffEveryTopSees(ops, world, choices);
  }

  // ----- where it happens -----

  /** Three modules, the first cabled to the second. */
  ghost function SmallWorld(): PlanWorld {
    PlanWorld({}, [WorldModule(1, "Fundamental", "VCO", 0, 1, 1), WorldModule(2, "Fundamental", "VCF", 0, 1, 1),
      WorldModule(3, "Fundamental", "VCA", 0, 1, 1)],
      [], [PlanCable(10, true, 1, 0, true, 2, 0)], Layout.Grid(15.0, 380.0))
  }

  function PortOf(id: string): PortRef {
    PortRef(ById(id), Some(0))
  }

  /** Cable the first module to the third as well, then take the top cable off its output. */
  function SmallPlan(): seq<Operation> {
    [Connect(PortOf("1"), PortOf("3"), FailIfConnected), DisconnectPort(PortOf("1"), Named(Output), Top)]
  }

  lemma SmallIds()
    ensures ParseSpec("1") == Id(1) && ParseSpec("3") == Id(3)
  {
    assert Numeral(1) == "1" && Numeral(3) == "3";
    ParsesExactlyNumerals("1", 1);
    ParsesExactlyNumerals("3", 3);
  }

  lemma SmallSetting()
    ensures WorldOk(SmallWorld()) && NewTo(SmallWorld(), 20) && NewTo(SmallWorld(), 21)
    ensures ConnectsOnto(SmallPlan()[0], SmallPlan()[1])
  {
    SmallIds();
  }

  lemma OneCable(c: PlanCable, removed: seq<int>, m: int, t: PortType, port: int)
    ensures OnPortIds([c], removed, m, t, port) == if c.id !in removed && OnPort(c, m, t, port) then [c.id] else []
  {
    assert [c][..0] == [];
  }

  lemma TwoCables(c: PlanCable, d: PlanCable, m: int, t: PortType, port: int)
    requires OnPort(c, m, t, port) && OnPort(d, m, t, port)
    ensures OnPortIds([c, d], [], m, t, port) == [c.id, d.id]
  {
    OneCable(c, [], m, t, port);
    assert [c, d] == [c] + [d];
    OnPortPush([c], d, [], m, t, port);
  }

  /** The last operation of a plan, previewed and committed. */
  lemma LastStep(ops: seq<Operation>, world: PlanWorld, choices: seq<Choice>)
    requires ops != [] && |choices| == |ops|
    ensures var before, op := ValidatePlan(ops[..|ops| - 1], world), ops[|ops| - 1];
      before.Some? && Validate(op, world, before.value).1.Accepted? ==>
        ValidatePlan(ops, world) == Some(Validate(op, world, before.value).0)
    ensures var p, k := Committed(ops[..|ops| - 1], world, choices[..|ops| - 1]), |ops| - 1;
      p.Some? ==> Committed(ops, world, choices) == Apply(ops[k], p.value, choices[k])
  {
    hide Validate, Apply;
  }

  /** The preview of the first operation: accepted, and nothing listed. */
  lemma SmallConnect() returns (st: Preview)
    ensures ValidatePlan(SmallPlan()[..1], SmallWorld()) == Some(st)
    ensures st.removals == Removals([], [], [(3, 0)], []) && st.naming == EMPTY_PREVIEW.naming
  {
    var world, op := SmallWorld(), SmallPlan()[0];
    assert SmallPlan()[..1][..0] == [];
    SmallIds();
    OneCable(world.cables[0], [], 3, Input, 0);
    assert Existing(world, EMPTY_PREVIEW.removals, 3, 0) == [];
    st := Connecting(op, world, EMPTY_PREVIEW).0;
    assert Connecting(op, world, EMPTY_PREVIEW).1.Accepted?;
  }

  lemma SmallTop(st: Preview)
    requires st.removals == Removals([], [], [(3, 0)], []) && st.naming == EMPTY_PREVIEW.naming
    ensures Validate(SmallPlan()[1], SmallWorld(), st).1.Accepted?
      && Validate(SmallPlan()[1], SmallWorld(), st).0.removals.cables == [10]
  {
    hide ParseSpec, LiveModule, PortMatches, AddAllOnce, Hears, SmallWorld;
    SmallIds();
    SmallLookups(st.removals);
  }

  /** What the second operation's validation looks up. */
  lemma SmallLookups(r: Removals)
    requires r.modules == [] && r.cables == []
    ensures LiveModule(SmallWorld(), r, 1) == Some(0)
    ensures PortMatches(SmallWorld(), r, 1, Output, 0, Top) == [10] && AddAllOnce([], [10]) == [10]
  {
    OneCable(SmallWorld().cables[0], [], 1, Output, 0);
    assert [10][..0] == [];
  }

  lemma SmallPreview() returns (st: Preview)
    ensures ValidatePlan(SmallPlan(), SmallWorld()) == Some(st) && st.removals.cables == [10]
  {
    hide ValidatePlan, Validate, SmallWorld;
    var st1 := SmallConnect();
    SmallTop(st1);
    assert SmallPlan()[..|SmallPlan()| - 1] == SmallPlan()[..1];
    LastStep(SmallPlan(), SmallWorld(), SMALL_CHOICES);
    st := Validate(SmallPlan()[1], SmallWorld(), st1).0;
  }

  const SMALL_CHOICES := [Choice(false, 20, 1), Choice(false, 21, 0)]

  lemma SmallCommitConnect() returns (p: Patch)
    ensures Committed(SmallPlan()[..1], SmallWorld(), SMALL_CHOICES[..1]) == Some(p)
    ensures p == Patch([1, 2, 3], [PlanCable(10, true, 1, 0, true, 2, 0), PlanCable(20, true, 1, 0, true, 3, 0)], map[])
  {
    var world, op := SmallWorld(), SmallPlan()[0];
    assert SmallPlan()[..1][..0] == [] && SMALL_CHOICES[..1][..0] == [];
    SmallIds();
    var live := Live(world);
    IdsOfThree(world.modules);
    OneCable(world.cables[0], [], 3, Input, 0);
    assert Taken(op, live) == Some([]);
    WithoutNothing(world.cables);
    p := Apply(op, live, SMALL_CHOICES[0]).value;
  }

  lemma IdsOfThree(modules: seq<WorldModule>)
    requires |modules| == 3
    ensures Ids(modules) == [modules[0].id, modules[1].id, modules[2].id]
  {}

  lemma SmallTopTakes(p: Patch)
    requires p == Patch([1, 2, 3], [PlanCable(10, true, 1, 0, true, 2, 0), PlanCable(20, true, 1, 0, true, 3, 0)],
      map[])
    ensures var r := Apply(SmallPlan()[1], p, SMALL_CHOICES[1]); r.Some? && r.value.cables == SmallWorld().cables
  {
    var first := SmallWorld().cables;
    SmallIds();
    TwoCables(p.cables[0], p.cables[1], 1, Output, 0);
    assert Taken(SmallPlan()[1], p) == Some([20]);
    assert p.cables == first + [p.cables[1]];
    WithoutPush(first, p.cables[1], [20]);
    assert Without(first, [20]) == first;
  }

  lemma SmallCommit() returns (p: Patch)
    ensures Committed(SmallPlan(), SmallWorld(), SMALL_CHOICES) == Some(p) && p.cables == SmallWorld().cables
  {
    hide Committed, Apply, SmallWorld;
    var p1 := SmallCommitConnect();
    SmallTopTakes(p1);
    assert SmallPlan()[..|SmallPlan()| - 1] == SmallPlan()[..1]
      && SMALL_CHOICES[..|SMALL_CHOICES| - 1] == SMALL_CHOICES[..1];
    LastStep(SmallPlan(), SmallWorld(), SMALL_CHOICES);
    p := Apply(SmallPlan()[1], p1, SMALL_CHOICES[1]).value;
  }

  /** The preview of this plan lists the snapshot's cable as removed, and a commit of it
      takes the plan's own cable and leaves the snapshot's. */
  lemma TopTakesThePlansCable() returns (st: Preview, p: Patch)
    ensures WorldOk(SmallWorld()) && |SMALL_CHOICES| == |SmallPlan()| && AllNew(SmallWorld(), SMALL_CHOICES)
    ensures ValidatePlan(SmallPlan(), SmallWorld()) == Some(st) && st.removals.cables == [10]
    ensures Committed(SmallPlan(), SmallWorld(), SMALL_CHOICES) == Some(p) && p.cables == SmallWorld().cables
    ensures !NoConnectBeforeTop(SmallPlan())
  {
    SmallSetting();
    st := SmallPreview();
    p := SmallCommit();
    hide WorldOk, ValidatePlan, Committed, ConnectsOnto;
  }
}
