/** Commit against preview: over whole plans, what a successful commit takes from the
    snapshot is what the preview disclosed, and nothing else. */
module CommitProperties {
  import opened Basics
  import opened DecimalIds
  import opened Plan
  import opened Validation
  import opened PlanProperties
  import opened PlanSafety
  import opened Commit

  // ----- the relation between a preview and a commit under way -----

  /** The snapshot cables left are the snapshot without `gone`, in order, and every snapshot
      cable in `gone` is disclosed. */
  ghost predicate CablesFollow(snapshot: seq<PlanCable>, removed: seq<int>, cables: seq<PlanCable>, gone: seq<int>) {
    Old(snapshot, cables) == Without(snapshot, gone) && Disclosing(snapshot, removed, gone)
  }

  ghost predicate Disclosing(snapshot: seq<PlanCable>, removed: seq<int>, gone: seq<int>) {
    forall i :: 0 <= i < |snapshot| && snapshot[i].id in gone ==> snapshot[i].id in removed
  }

  ghost predicate ModulesFollow(modules: seq<WorldModule>, removed: seq<int>, live: seq<int>) {
    forall i :: 0 <= i < |modules| && modules[i].id !in removed ==> modules[i].id in live
  }

  ghost predicate AliasesFollow(world: PlanWorld, named: map<string, int>, made: map<string, int>) {
    (forall a :: a in named <==> a in made) && forall a :: a in made ==> NewTo(world, made[a])
  }

  ghost predicate Follows(world: PlanWorld, st: Preview, p: Patch, gone: seq<int>) {
    && CablesFollow(world.cables, st.removals.cables, p.cables, gone)
    && ModulesFollow(world.modules, st.removals.modules, p.modules)
    && AliasesFollow(world, st.naming.aliases, p.aliases)
  }

  /** A snapshot cable still in the patch is in the snapshot, and not among the gone. */
  lemma StillThere(snapshot: seq<PlanCable>, removed: seq<int>, cables: seq<PlanCable>, gone: seq<int>, c: PlanCable)
    requires CablesFollow(snapshot, removed, cables, gone)
    ensures c in cables && HasCable(snapshot, c.id) <==> c in snapshot && c.id !in gone
  {
    hide Without, Old;
    OldIs(snapshot, cables, c);
    WithoutIs(snapshot, gone, c);
  }

  lemma OnPortDisclosed(snapshot: seq<PlanCable>, removed: seq<int>, cables: seq<PlanCable>, gone: seq<int>, m: int,
          t: PortType, port: int, x: int)
    requires CablesFollow(snapshot, removed, cables, gone) && HasCable(snapshot, x)
      && x in OnPortIds(cables, [], m, t, port)
    ensures x in removed || x in OnPortIds(snapshot, removed, m, t, port)
    ensures exists c :: c in snapshot && c.id == x && OnPort(c, m, t, port)
  {
    hide OnPort, CablesFollow, OnPortIds;
    OnPortIs(cables, [], m, t, port);
    OnPortIs(snapshot, removed, m, t, port);
    var c :| c in cables && c.id == x && OnPort(c, m, t, port);
    StillThere(snapshot, removed, cables, gone, c);
  }

  lemma OnModuleDisclosed(snapshot: seq<PlanCable>, removed: seq<int>, cables: seq<PlanCable>, gone: seq<int>, m: int,
          x: int)
    requires CablesFollow(snapshot, removed, cables, gone) && HasCable(snapshot, x) && x in OnModule(cables, [], m)
    ensures x in removed || x in OnModule(snapshot, removed, m)
    ensures exists c :: c in snapshot && c.id == x && Touches(c, m)
  {
    hide Touches, CablesFollow, OnModule;
    OnModuleIs(cables, [], m);
    OnModuleIs(snapshot, removed, m);
    var c :| c in cables && c.id == x && Touches(c, m);
    StillThere(snapshot, removed, cables, gone, c);
  }

  lemma NoSnapshotCable(world: PlanWorld, id: int, c: PlanCable)
    requires NewTo(world, id) && c in world.cables
    ensures !Touches(c, id)
  {}

  // ----- one operation: whatever it takes is disclosed -----

  lemma RemoveDisclosed(op: Operation, world: PlanWorld, st: Preview, p: Patch, gone: seq<int>, x: int)
    requires op.RemoveModule? && Follows(world, st, p, gone) && AliasesFresh(st.naming)
      && Remove(op, world, st).1.Accepted?
    requires Taken(op, p).Some? && x in Taken(op, p).value && HasCable(world.cables, x)
    ensures x in Remove(op, world, st).0.removals.cables
  {
    var id := Resolve(op.target, p.aliases).value;
    OnModuleDisclosed(world.cables, st.removals.cables, p.cables, gone, id, x);
    var c :| c in world.cables && c.id == x && Touches(c, id);
    if Resolve(op.target, st.naming.aliases).value >= 0 {
      AddAllOnceIs(st.removals.cables, OnModule(world.cables, st.removals.cables, id));
    } else {
      NoSnapshotCable(world, id, c);
    }
  }

  lemma ConnectDisclosed(op: Operation, world: PlanWorld, st: Preview, p: Patch, gone: seq<int>, x: int)
    requires op.Connect? && Follows(world, st, p, gone) && AliasesFresh(st.naming)
      && Connecting(op, world, st).1.Accepted?
    requires Taken(op, p).Some? && x in Taken(op, p).value && HasCable(world.cables, x)
    ensures x in Connecting(op, world, st).0.removals.cables
  {
    hide CablesFollow, OnPortIds;
    var id, port := Resolve(op.input.target, p.aliases).value, op.input.portId.value;
    OnPortDisclosed(world.cables, st.removals.cables, p.cables, gone, id, Input, port, x);
    var c :| c in world.cables && c.id == x && OnPort(c, id, Input, port);
    if Resolve(op.input.target, st.naming.aliases).value >= 0 {
      AddAllOnceIs(st.removals.cables, Existing(world, st.removals, id, port));
    } else {
      NoSnapshotCable(world, id, c);
    }
  }

  /** The last cable on a port is, if it is the snapshot's and not disclosed before, the very
      one the preview lists. */
  lemma TopDisclosed(snapshot: seq<PlanCable>, removed: seq<int>, cables: seq<PlanCable>, gone: seq<int>, m: int,
          t: PortType, port: int)
    requires CablesFollow(snapshot, removed, cables, gone)
    requires var ms := OnPortIds(cables, [], m, t, port);
      ms != [] && HasCable(snapshot, ms[|ms| - 1]) && ms[|ms| - 1] !in removed
    ensures var ms, shown := OnPortIds(cables, [], m, t, port), OnPortIds(snapshot, removed, m, t, port);
      shown != [] && shown[|shown| - 1] == ms[|ms| - 1]
  {
    hide OnPortIds, HasCable;
    LastOldOnPort(snapshot, cables, m, t, port);
    OnPortOfWithout(snapshot, gone, m, t, port);
    LastStays(snapshot, gone, removed, m, t, port);
  }

  lemma PortDisclosed(op: Operation, world: PlanWorld, st: Preview, p: Patch, gone: seq<int>, x: int)
    requires op.DisconnectPort? && Follows(world, st, p, gone) && AliasesFresh(st.naming)
      && DisconnectingPort(op, world, st).1.Accepted?
    requires Taken(op, p).Some? && x in Taken(op, p).value && HasCable(world.cables, x)
    ensures x in DisconnectingPort(op, world, st).0.removals.cables
  {
    hide CablesFollow, OnPortIds;
    var id, t, port := Resolve(op.port.target, p.aliases).value, ReadType(op.portType), op.port.portId.value;
    var ms := OnPortIds(p.cables, [], id, t, port);
    OnPortDisclosed(world.cables, st.removals.cables, p.cables, gone, id, t, port, x);
    var c :| c in world.cables && c.id == x && OnPort(c, id, t, port);
    if Resolve(op.port.target, st.naming.aliases).value < 0 {
      NoSnapshotCable(world, id, c);
    } else {
      var shown := PortMatches(world, st.removals, id, t, port, op.policy);
      AddAllOnceIs(st.removals.cables, shown);
      PortShows(world.cables, st.removals.cables, p.cables, gone, id, t, port, op.policy, x);
    }
  }

  lemma PortShows(snapshot: seq<PlanCable>, removed: seq<int>, cables: seq<PlanCable>, gone: seq<int>, m: int,
          t: PortType, port: int, policy: DisconnectPolicy, x: int)
    requires CablesFollow(snapshot, removed, cables, gone) && HasCable(snapshot, x)
    requires var ms := OnPortIds(cables, [], m, t, port); x in if policy.Top? && ms != [] then [ms[|ms| - 1]] else ms
    ensures var shown := OnPortIds(snapshot, removed, m, t, port);
      x in removed || x in if policy.Top? && shown != [] then [shown[|shown| - 1]] else shown
  {
    hide CablesFollow, OnPortIds, HasCable;
    var ms := OnPortIds(cables, [], m, t, port);
    OnPortDisclosed(snapshot, removed, cables, gone, m, t, port, x);
    if policy.Top? && x !in removed {
      assert x == ms[|ms| - 1];
      TopDisclosed(snapshot, removed, cables, gone, m, t, port);
    }
  }

  lemma TakenDisclosed(op: Operation, world: PlanWorld, st: Preview, p: Patch, gone: seq<int>, x: int)
    requires Follows(world, st, p, gone) && AliasesFresh(st.naming) && Validate(op, world, st).1.Accepted?
    requires Taken(op, p).Some? && x in Taken(op, p).value && HasCable(world.cables, x)
    ensures x in Validate(op, world, st).0.removals.cables
  {
    if op.RemoveModule? {
      RemoveDisclosed(op, world, st, p, gone, x);
    } else if op.Connect? {
      ConnectDisclosed(op, world, st, p, gone, x);
    } else if op.DisconnectPort? {
      PortDisclosed(op, world, st, p, gone, x);
    } else if op.Disconnect? {
      AddAllOnceIs(st.removals.cables, [ParseSpec(op.cableId).value]);
    }
  }

  // ----- one operation keeps the relation -----

  lemma StepCables(op: Operation, world: PlanWorld, st: Preview, p: Patch, gone: seq<int>, choice: Choice)
    requires Follows(world, st, p, gone) && AliasesFresh(st.naming) && Validate(op, world, st).1.Accepted?
    requires Apply(op, p, choice).Some? && NewTo(world, choice.newId)
    ensures CablesFollow(world.cables, Validate(op, world, st).0.removals.cables, Apply(op, p, choice).value.cables,
      gone + Taken(op, p).value)
  {
    hide Validate, Taken, Without, Old, HasCable;
    var taken, removed' := Taken(op, p).value, Validate(op, world, st).0.removals.cables;
    OldWithout(world.cables, p.cables, taken);
    WithoutTwice(world.cables, gone, taken);
    StepInserted(op, world, p, choice);
    StepOnlyAddsCables(op, world, st);
    forall i | 0 <= i < |world.cables| && world.cables[i].id in gone + taken
      ensures world.cables[i].id in removed'
    {
      var x := world.cables[i].id;
      if x in gone {
        assert x in st.removals.cables;
      } else {
        TakenDisclosed(op, world, st, p, gone, x);
      }
    }
  }

  lemma StepInserted(op: Operation, world: PlanWorld, p: Patch, choice: Choice)
    requires Apply(op, p, choice).Some? && NewTo(world, choice.newId)
    ensures Old(world.cables, Apply(op, p, choice).value.cables)
      == Old(world.cables, Without(p.cables, Taken(op, p).value))
  {
    hide Old, Without;
    if op.Connect? {
      OldInserted(world.cables, Without(p.cables, Taken(op, p).value), NewCable(op, p, choice.newId), choice.position);
    }
  }

  lemma StepModules(op: Operation, world: PlanWorld, st: Preview, p: Patch, choice: Choice)
    requires ModulesFollow(world.modules, st.removals.modules, p.modules)
    requires AliasesFresh(st.naming) && AliasesFollow(world, st.naming.aliases, p.aliases)
    requires Validate(op, world, st).1.Accepted? && Apply(op, p, choice).Some?
    ensures ModulesFollow(world.modules, Validate(op, world, st).0.removals.modules, Apply(op, p, choice).value.modules)
  {
    if op.RemoveModule? {
      var id, removed' := Resolve(op.target, p.aliases).value, Remove(op, world, st).0.removals.modules;
      forall i | 0 <= i < |world.modules| && world.modules[i].id !in removed'
        ensures world.modules[i].id in DropId(p.modules, id)
      {
        DropIdIs(p.modules, id, world.modules[i].id);
        assert world.modules[i] in world.modules;
      }
    } else {
      StepKeepsModules(op, world, st);
    }
  }

  lemma StepKeepsModules(op: Operation, world: PlanWorld, st: Preview)
    requires !op.RemoveModule?
    ensures Validate(op, world, st).0.removals.modules == st.removals.modules
  {
    StepRemoves(op, world, st);
  }

  lemma StepAliases(op: Operation, world: PlanWorld, st: Preview, p: Patch, choice: Choice)
    requires AliasesFollow(world, st.naming.aliases, p.aliases) && Validate(op, world, st).1.Accepted?
    requires Apply(op, p, choice).Some? && NewTo(world, choice.newId)
    ensures AliasesFollow(world, Validate(op, world, st).0.naming.aliases, Apply(op, p, choice).value.aliases)
  {
    hide NewTo, Taken;
  }

  lemma StepFollows(op: Operation, world: PlanWorld, st: Preview, p: Patch, gone: seq<int>, choice: Choice)
    requires Follows(world, st, p, gone) && AliasesFresh(st.naming) && Validate(op, world, st).1.Accepted?
    requires Apply(op, p, choice).Some? && NewTo(world, choice.newId)
    ensures Follows(world, Validate(op, world, st).0, Apply(op, p, choice).value, gone + Taken(op, p).value)
  {
    hide Validate, Taken, Apply, CablesFollow, ModulesFollow, AliasesFollow;
    StepCables(op, world, st, p, gone, choice);
    StepModules(op, world, st, p, choice);
    StepAliases(op, world, st, p, choice);
  }

  // ----- exactness -----

  /** Everything disclosed is really gone. */
  ghost predicate Exact(r: Removals, p: Patch, gone: seq<int>) {
    && (forall i :: 0 <= i < |r.cables| ==> r.cables[i] in gone)
    && (forall i :: 0 <= i < |r.modules| ==> r.modules[i] !in p.modules)
  }

  lemma OnPortTaken(snapshot: seq<PlanCable>, removed: seq<int>, cables: seq<PlanCable>, gone: seq<int>, m: int,
          t: PortType, port: int, x: int)
    requires CablesFollow(snapshot, removed, cables, gone) && x in OnPortIds(snapshot, removed, m, t, port)
    ensures x in OnPortIds(cables, [], m, t, port)
  {
    hide OnPort, OnPortIds, Old, Without;
    OnPortIs(snapshot, removed, m, t, port);
    OnPortIs(cables, [], m, t, port);
    var c :| c in snapshot && c.id == x && OnPort(c, m, t, port);
    StillThere(snapshot, removed, cables, gone, c);
  }

  lemma OnModuleTaken(snapshot: seq<PlanCable>, removed: seq<int>, cables: seq<PlanCable>, gone: seq<int>, m: int,
          x: int)
    requires CablesFollow(snapshot, removed, cables, gone) && x in OnModule(snapshot, removed, m)
    ensures x in OnModule(cables, [], m)
  {
    hide Touches, OnModule, Old, Without;
    OnModuleIs(snapshot, removed, m);
    OnModuleIs(cables, [], m);
    var c :| c in snapshot && c.id == x && Touches(c, m);
    StillThere(snapshot, removed, cables, gone, c);
  }

  // ----- disconnect_port "top" -----

  /** The operation is a "top" on a port of a snapshot module, and its preview lists a cable. */
  ghost predicate TopLists(op: Operation, world: PlanWorld, st: Preview) {
    && op.DisconnectPort? && op.policy.Top? && op.port.portId.Some? && op.portType.Named?
    && var id := Resolve(op.port.target, st.naming.aliases);
       id.Some? && id.value >= 0 && OnPortIds(world.cables, st.removals.cables, id.value, op.portType.value,
         op.port.portId.value) != []
  }

  /** The cable the commit finds last on the port is one of the snapshot's. */
  ghost predicate LastIsSnapshots(op: Operation, world: PlanWorld, p: Patch)
    requires op.DisconnectPort? && op.port.portId.Some? && op.portType.Named?
  {
    var id := Resolve(op.port.target, p.aliases);
    id.Some? &&
    var ms := OnPortIds(p.cables, [], id.value, op.portType.value, op.port.portId.value);
    ms != [] && HasCable(world.cables, ms[|ms| - 1])
  }

  ghost predicate TopSees(op: Operation, world: PlanWorld, st: Preview, p: Patch) {
    TopLists(op, world, st) ==> LastIsSnapshots(op, world, p)
  }

  lemma ShownIsLeft(snapshot: seq<PlanCable>, removed: seq<int>, gone: seq<int>, m: int, t: PortType, port: int, y: int)
    requires Disclosing(snapshot, removed, gone) && y in OnPortIds(snapshot, removed, m, t, port)
    ensures HasCable(snapshot, y) && y !in gone
  {
    hide OnPort, OnPortIds;
    OnPortIs(snapshot, removed, m, t, port);
    var c :| c in snapshot && c.id == y && OnPort(c, m, t, port);
    var i :| 0 <= i < |snapshot| && snapshot[i] == c;
  }

  lemma LastIsLeft(snapshot: seq<PlanCable>, removed: seq<int>, cables: seq<PlanCable>, gone: seq<int>, m: int,
          t: PortType, port: int)
    requires CablesFollow(snapshot, removed, cables, gone) && forall i :: 0 <= i < |removed| ==> removed[i] in gone
    requires var ms := OnPortIds(cables, [], m, t, port); ms != [] && HasCable(snapshot, ms[|ms| - 1])
    ensures var ms := OnPortIds(cables, [], m, t, port); ms[|ms| - 1] !in removed
  {
    hide OnPort, OnPortIds, Without, Old;
    var ms := OnPortIds(cables, [], m, t, port);
    var x := ms[|ms| - 1];
    assert x in ms;
    OnPortIs(cables, [], m, t, port);
    var c :| c in cables && c.id == x && OnPort(c, m, t, port);
    StillThere(snapshot, removed, cables, gone, c);
    InSeq(removed, x);
  }

  /** A "top" newly discloses only what it takes, if it takes a cable of the snapshot's. */
  lemma TopListed(op: Operation, world: PlanWorld, st: Preview, p: Patch, gone: seq<int>, x: int)
    requires op.DisconnectPort? && op.policy.Top? && Follows(world, st, p, gone) && AliasesFresh(st.naming)
      && Exact(st.removals, p, gone)
    requires DisconnectingPort(op, world, st).1.Accepted? && Taken(op, p).Some? && TopSees(op, world, st, p)
    requires x in DisconnectingPort(op, world, st).0.removals.cables
    ensures x in st.removals.cables || x in Taken(op, p).value
  {
    hide CablesFollow, OnPortIds, HasCable;
    var id := Resolve(op.port.target, st.naming.aliases).value;
    if id >= 0 {
      var t, port := op.portType.value, op.port.portId.value;
      AddAllOnceIs(st.removals.cables, PortMatches(world, st.removals, id, t, port, Top));
      if OnPortIds(world.cables, st.removals.cables, id, t, port) != [] {
        LastIsLeft(world.cables, st.removals.cables, p.cables, gone, id, t, port);
        TopDisclosed(world.cables, st.removals.cables, p.cables, gone, id, t, port);
      }
    }
  }

  /** What an operation newly discloses, it takes, unless it is a "top" that takes a cable of the plan's. */
  lemma ListedTaken(op: Operation, world: PlanWorld, st: Preview, p: Patch, gone: seq<int>, x: int)
    requires Follows(world, st, p, gone) && Exact(st.removals, p, gone) && AliasesFresh(st.naming)
      && TopSees(op, world, st, p)
    requires Validate(op, world, st).1.Accepted? && Taken(op, p).Some?
    requires x in Validate(op, world, st).0.removals.cables
    ensures x in st.removals.cables || x in Taken(op, p).value
  {
    hide CablesFollow, OnPortIds, OnModule;
    if op.RemoveModule? {
      RemoveListed(op, world, st, p, gone, x);
    } else if op.Connect? {
      ConnectListed(op, world, st, p, gone, x);
    } else if op.DisconnectPort? {
      if op.policy.All? {
        PortListed(op, world, st, p, gone, x);
      } else {
        TopListed(op, world, st, p, gone, x);
      }
    } else if op.Disconnect? {
      AddAllOnceIs(st.removals.cables, [ParseSpec(op.cableId).value]);
    }
  }

  lemma RemoveListed(op: Operation, world: PlanWorld, st: Preview, p: Patch, gone: seq<int>, x: int)
    requires op.RemoveModule? && Follows(world, st, p, gone) && AliasesFresh(st.naming)
      && Remove(op, world, st).1.Accepted? && Taken(op, p).Some?
    requires x in Remove(op, world, st).0.removals.cables
    ensures x in st.removals.cables || x in Taken(op, p).value
  {
    hide CablesFollow, OnModule;
    var id := Resolve(op.target, p.aliases).value;
    AddAllOnceIs(st.removals.cables, OnModule(world.cables, st.removals.cables, id));
    if x in OnModule(world.cables, st.removals.cables, id) {
      OnModuleTaken(world.cables, st.removals.cables, p.cables, gone, id, x);
    }
  }

  lemma ConnectListed(op: Operation, world: PlanWorld, st: Preview, p: Patch, gone: seq<int>, x: int)
    requires op.Connect? && Follows(world, st, p, gone) && AliasesFresh(st.naming)
      && Connecting(op, world, st).1.Accepted? && Taken(op, p).Some?
    requires x in Connecting(op, world, st).0.removals.cables
    ensures x in st.removals.cables || x in Taken(op, p).value
  {
    hide CablesFollow, OnPortIds;
    var shown, port := Resolve(op.input.target, st.naming.aliases).value, op.input.portId.value;
    AddAllOnceIs(st.removals.cables, Existing(world, st.removals, shown, port));
    if x in Existing(world, st.removals, shown, port) {
      OnPortTaken(world.cables, st.removals.cables, p.cables, gone, shown, Input, port, x);
    }
  }

  lemma PortListed(op: Operation, world: PlanWorld, st: Preview, p: Patch, gone: seq<int>, x: int)
    requires op.DisconnectPort? && op.policy.All? && Follows(world, st, p, gone) && AliasesFresh(st.naming)
    requires DisconnectingPort(op, world, st).1.Accepted? && Taken(op, p).Some?
      && x in DisconnectingPort(op, world, st).0.removals.cables
    ensures x in st.removals.cables || x in Taken(op, p).value
  {
    hide CablesFollow, OnPortIds;
    var id, t, port := Resolve(op.port.target, st.naming.aliases).value, ReadType(op.portType), op.port.portId.value;
    AddAllOnceIs(st.removals.cables, OnPortIds(world.cables, st.removals.cables, id, t, port));
    if x in OnPortIds(world.cables, st.removals.cables, id, t, port) {
      OnPortTaken(world.cables, st.removals.cables, p.cables, gone, id, t, port, x);
    }
  }

  lemma StepExactModules(op: Operation, world: PlanWorld, st: Preview, p: Patch, choice: Choice, m: int)
    requires AliasesFresh(st.naming) && AliasesFollow(world, st.naming.aliases, p.aliases)
      && Disclosed(world, Validate(op, world, st).0.removals)
    requires Validate(op, world, st).1.Accepted? && Apply(op, p, choice).Some? && NewTo(world, choice.newId)
    requires m in st.removals.modules ==> m !in p.modules
    requires m in Validate(op, world, st).0.removals.modules
    ensures m !in Apply(op, p, choice).value.modules
  {
    assert HasModule(world.modules, m);
    if op.RemoveModule? {
      DropIdIs(p.modules, Resolve(op.target, p.aliases).value, m);
    } else {
      StepKeepsModules(op, world, st);
    }
  }

  lemma StepExact(op: Operation, world: PlanWorld, st: Preview, p: Patch, gone: seq<int>, choice: Choice)
    requires Follows(world, st, p, gone) && Exact(st.removals, p, gone) && AliasesFresh(st.naming)
      && Disclosed(world, Validate(op, world, st).0.removals)
    requires Validate(op, world, st).1.Accepted? && Apply(op, p, choice).Some? && NewTo(world, choice.newId)
      && TopSees(op, world, st, p)
    ensures Exact(Validate(op, world, st).0.removals, Apply(op, p, choice).value, gone + Taken(op, p).value)
  {
    hide Validate, Taken, Disclosed, CablesFollow, ModulesFollow, NewTo;
    var r', p' := Validate(op, world, st).0.removals, Apply(op, p, choice).value;
    forall i | 0 <= i < |r'.cables|
      ensures r'.cables[i] in gone + Taken(op, p).value
    {
      var x := r'.cables[i];
      ListedTaken(op, world, st, p, gone, x);
      InSeq(st.removals.cables, x);
    }
    forall i | 0 <= i < |r'.modules|
      ensures r'.modules[i] !in p'.modules
    {
      var m := r'.modules[i];
      InSeq(st.removals.modules, m);
      StepExactModules(op, world, st, p, choice, m);
    }
  }

  /** A "top" that takes a cable of the plan's leaves the disclosed one. */
  lemma TopMisses(op: Operation, world: PlanWorld, st: Preview, p: Patch, gone: seq<int>)
    requires op.DisconnectPort? && op.policy.Top? && Follows(world, st, p, gone) && AliasesFresh(st.naming)
    requires DisconnectingPort(op, world, st).1.Accepted? && Taken(op, p).Some? && !TopSees(op, world, st, p)
    ensures exists x :: x in DisconnectingPort(op, world, st).0.removals.cables && x !in gone + Taken(op, p).value
  {
    hide CablesFollow, OnPortIds, HasCable;
    var id, t, port := Resolve(op.port.target, st.naming.aliases).value, op.portType.value, op.port.portId.value;
    var shown, ms := OnPortIds(world.cables, st.removals.cables, id, t, port), OnPortIds(p.cables, [], id, t, port);
    var y := shown[|shown| - 1];
    AddAllOnceIs(st.removals.cables, PortMatches(world, st.removals, id, t, port, Top));
    assert y in [y] && y in DisconnectingPort(op, world, st).0.removals.cables;
    OnPortTaken(world.cables, st.removals.cables, p.cables, gone, id, t, port, y);
    FollowsDiscloses(world, st, p, gone);
    ShownIsLeft(world.cables, st.removals.cables, gone, id, t, port, y);
    assert Taken(op, p).value == [ms[|ms| - 1]];
  }

  lemma FollowsDiscloses(world: PlanWorld, st: Preview, p: Patch, gone: seq<int>)
    requires Follows(world, st, p, gone)
    ensures Disclosing(world.cables, st.removals.cables, gone)
  {}

  /** One operation keeps the preview exact exactly if it is no "top" that takes a cable of
      the plan's in place of the one it disclosed. */
  lemma StepExactIff(op: Operation, world: PlanWorld, st: Preview, p: Patch, gone: seq<int>, choice: Choice)
    requires Follows(world, st, p, gone) && Exact(st.removals, p, gone) && AliasesFresh(st.naming)
    requires Disclosed(world, Validate(op, world, st).0.removals)
    requires Validate(op, world, st).1.Accepted? && Apply(op, p, choice).Some? && NewTo(world, choice.newId)
    ensures Exact(Validate(op, world, st).0.removals, Apply(op, p, choice).value, gone + Taken(op, p).value)
      <==> TopSees(op, world, st, p)
  {
    hide Taken, Disclosed, CablesFollow, ModulesFollow, NewTo;
    var r', p' := Validate(op, world, st).0.removals, Apply(op, p, choice).value;
    if TopSees(op, world, st, p) {
      StepExact(op, world, st, p, gone, choice);
    } else {
      TopMisses(op, world, st, p, gone);
      var x :| x in r'.cables && x !in gone + Taken(op, p).value;
      InSeq(r'.cables, x);
    }
  }

  lemma InSeq(s: seq<int>, x: int)
    ensures x in s <==> exists i :: 0 <= i < |s| && s[i] == x
  {}

  // ----- whole plans -----

  /** The ids of the cables a commit has taken off so far. */
  ghost function Gone(ops: seq<Operation>, world: PlanWorld, choices: seq<Choice>): seq<int>
    requires |choices| == |ops| && Committed(ops, world, choices).Some?
  {
    if ops == [] then []
    else
      var before, earlier := ops[..|ops| - 1], choices[..|ops| - 1];
      Gone(before, world, earlier) + Taken(ops[|ops| - 1], Committed(before, world, earlier).value).value
  }

  ghost predicate AllNew(world: PlanWorld, choices: seq<Choice>) {
    forall i :: 0 <= i < |choices| ==> NewTo(world, choices[i].newId)
  }

  lemma StartFollows(world: PlanWorld)
    ensures Follows(world, EMPTY_PREVIEW, Live(world), []) && Exact(EMPTY_PREVIEW.removals, Live(world), [])
  {
    OldAll(world.cables, |world.cables|);
    assert world.cables[..|world.cables|] == world.cables;
    WithoutNothing(world.cables);
    forall i | 0 <= i < |world.modules|
      ensures world.modules[i].id in Ids(world.modules)
    {
      assert Ids(world.modules)[i] == world.modules[i].id;
    }
  }

  lemma {:induction false} PlanFollows(ops: seq<Operation>, world: PlanWorld, choices: seq<Choice>)
    requires WorldOk(world) && ValidatePlan(ops, world).Some? && |choices| == |ops| && AllNew(world, choices)
    requires Committed(ops, world, choices).Some?
    ensures Follows(world, ValidatePlan(ops, world).value, Committed(ops, world, choices).value,
      Gone(ops, world, choices))
  {
    hide Follows, WorldOk, Validate, Apply, NewTo, Disclosed;
    if ops == [] {
      StartFollows(world);
    } else {
      var before, earlier := ops[..|ops| - 1], choices[..|ops| - 1];
      PlanFollows(before, world, earlier);
      PlanDiscloses(before, world);
      StepFollows(ops[|ops| - 1], world, ValidatePlan(before, world).value, Committed(before, world, earlier).value,
        Gone(before, world, earlier), choices[|ops| - 1]);
    }
  }

  /** After every prefix of the plan, everything disclosed so far is really gone. */
  ghost predicate ExactThroughout(ops: seq<Operation>, world: PlanWorld, choices: seq<Choice>)
    requires |choices| == |ops| && ValidatePlan(ops, world).Some? && Committed(ops, world, choices).Some?
  {
    && Exact(ValidatePlan(ops, world).value.removals, Committed(ops, world, choices).value, Gone(ops, world, choices))
    && (ops != [] ==> ExactThroughout(ops[..|ops| - 1], world, choices[..|ops| - 1]))
  }

  /** Every "top" of the plan that lists a cable takes a cable of the snapshot's. */
  ghost predicate EveryTopSees(ops: seq<Operation>, world: PlanWorld, choices: seq<Choice>)
    requires |choices| == |ops| && ValidatePlan(ops, world).Some? && Committed(ops, world, choices).Some?
  {
    ops == [] ||
    var before, earlier := ops[..|ops| - 1], choices[..|ops| - 1];
    && EveryTopSees(before, world, earlier)
    && TopSees(ops[|ops| - 1], world, ValidatePlan(before, world).value, Committed(before, world, earlier).value)
  }

  /** The preview of a plan is exact, prefix by prefix, exactly if every "top" in it that
      lists a cable finds a cable of the snapshot's last on its port. */
  lemma {:induction false} ExactIffEveryTopSees(ops: seq<Operation>, world: PlanWorld, choices: seq<Choice>)
    requires WorldOk(world) && ValidatePlan(ops, world).Some? && |choices| == |ops| && AllNew(world, choices)
    requires Committed(ops, world, choices).Some?
    ensures ExactThroughout(ops, world, choices) <==> EveryTopSees(ops, world, choices)
  {
    hide Follows, WorldOk, Validate, Apply, NewTo, Disclosed, Exact, TopSees;
    if ops == [] {
      StartFollows(world);
    } else {
      var before, earlier := ops[..|ops| - 1], choices[..|ops| - 1];
      ExactIffEveryTopSees(before, world, earlier);
      if ExactThroughout(before, world, earlier) {
        PlanFollows(before, world, earlier);
        PlanDiscloses(before, world);
        PlanDiscloses(ops, world);
        StepExactIff(ops[|ops| - 1], world, ValidatePlan(before, world).value, Committed(before, world, earlier).value,
          Gone(before, world, earlier), choices[|ops| - 1]);
      }
    }
  }

  /** A successful commit leaves every snapshot module and cable that the preview of the
      same plan did not list as removed. */
  lemma CommitTakesOnlyDisclosed(ops: seq<Operation>, world: PlanWorld, choices: seq<Choice>)
    requires WorldOk(world) && ValidatePlan(ops, world).Some? && |choices| == |ops| && AllNew(world, choices)
    requires Committed(ops, world, choices).Some?
    ensures var st, p := ValidatePlan(ops, world).value, Committed(ops, world, choices).value;
      && (forall i :: 0 <= i < |world.modules| && world.modules[i].id !in st.removals.modules ==>
         world.modules[i].id in p.modules)
      && (forall i :: 0 <= i < |world.cables| && world.cables[i].id !in st.removals.cables ==>
         world.cables[i] in p.cables)
  {
    hide WorldOk, ValidatePlan, Committed, Gone, Without, Old;
    PlanFollows(ops, world, choices);
    var st, p, gone := ValidatePlan(ops, world).value, Committed(ops, world, choices).value, Gone(ops, world, choices);
    forall i | 0 <= i < |world.cables| && world.cables[i].id !in st.removals.cables
      ensures world.cables[i] in p.cables
    {
      assert world.cables[i] in world.cables;
      StillThere(world.cables, st.removals.cables, p.cables, gone, world.cables[i]);
    }
  }

  /** If every "top" that lists a cable takes a cable of the snapshot's, a successful commit
      takes away every snapshot module and cable that the preview listed as removed. */
  lemma CommitTakesAllDisclosed(ops: seq<Operation>, world: PlanWorld, choices: seq<Choice>)
    requires WorldOk(world) && ValidatePlan(ops, world).Some? && |choices| == |ops| && AllNew(world, choices)
    requires Committed(ops, world, choices).Some? && EveryTopSees(ops, world, choices)
    ensures var st, p := ValidatePlan(ops, world).value, Committed(ops, world, choices).value;
      && (forall i :: 0 <= i < |world.modules| && world.modules[i].id in st.removals.modules ==>
         world.modules[i].id !in p.modules)
      && (forall i :: 0 <= i < |world.cables| && world.cables[i].id in st.removals.cables ==>
         world.cables[i] !in p.cables)
  {
    hide WorldOk, ValidatePlan, Committed, Gone, Without, Old, EveryTopSees;
    PlanFollows(ops, world, choices);
    ExactIffEveryTopSees(ops, world, choices);
    var st, p, gone := ValidatePlan(ops, world).value, Committed(ops, world, choices).value, Gone(ops, world, choices);
    forall i | 0 <= i < |world.cables| && world.cables[i].id in st.removals.cables
      ensures world.cables[i] !in p.cables
    {
      InSeq(st.removals.cables, world.cables[i].id);
      StillThere(world.cables, st.removals.cables, p.cables, gone, world.cables[i]);
    }
    forall i | 0 <= i < |world.modules| && world.modules[i].id in st.removals.modules
      ensures world.modules[i].id !in p.modules
    {
      InSeq(st.removals.modules, world.modules[i].id);
    }
  }

  /** A plan whose verdict asks for no confirmation loses nothing: after a successful commit
      every snapshot module and cable is still there, and the plan randomised nothing. */
  lemma NoConfirmationNoLoss(ops: seq<Operation>, world: PlanWorld, choices: seq<Choice>)
    requires WorldOk(world) && ValidatePlan(ops, world).Some? && |choices| == |ops| && AllNew(world, choices)
    requires Committed(ops, world, choices).Some? && !TakesAway(Effects(ops, ValidatePlan(ops, world).value))
    ensures var p := Committed(ops, world, choices).value;
      && (forall i :: 0 <= i < |world.modules| ==> world.modules[i].id in p.modules)
      && (forall i :: 0 <= i < |world.cables| ==> world.cables[i] in p.cables)
      && (forall op :: op in ops ==> !op.RandomizeModule?)
  {
    VerdictIsExact(ops, world);
    CommitTakesOnlyDisclosed(ops, world, choices);
  }

  /** A plan that never allows the last Bridge to go leaves a Bridge in the committed patch. */
  lemma CommitKeepsABridge(ops: seq<Operation>, world: PlanWorld, choices: seq<Choice>)
    requires WorldOk(world) && ValidatePlan(ops, world).Some? && |choices| == |ops| && AllNew(world, choices)
    requires Committed(ops, world, choices).Some? && forall op :: op in ops ==> KeepsLastBridge(op)
    requires exists m :: m in world.modules && IsBridgeModule(m)
    ensures exists m :: m in world.modules && IsBridgeModule(m) && m.id in Committed(ops, world, choices).value.modules
  {
    ABridgeSurvives(ops, world);
    CommitTakesOnlyDisclosed(ops, world, choices);
    var m :| m in world.modules && IsBridgeModule(m) && m.id !in ValidatePlan(ops, world).value.removals.modules;
    var i :| 0 <= i < |world.modules| && world.modules[i] == m;
  }
}
