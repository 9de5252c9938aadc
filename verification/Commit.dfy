/** What committing a plan does to the modules and cables of the live patch, and how that
    relates to what the preview of the same plan disclosed. The patch being committed to is
    the one the preview looked at. What the engine chooses by itself - the ids of new modules
    and cables, where a new cable stands in its list, whether an operation fails - is given
    by a choice per operation, and the results hold for every choice. */
module Commit {
  import opened Basics
  import opened DecimalIds
  import opened Plan
  import opened Validation
  import opened PlanProperties

  /** The live patch: module ids, cables in the engine's order, and the plan's aliases. */
  datatype Patch = Patch(modules: seq<int>, cables: seq<PlanCable>, aliases: map<string, int>)

  datatype Choice = Choice(fails: bool, newId: int, position: nat)

  /** The cables without those of the given ids. */
  function Without(cables: seq<PlanCable>, ids: seq<int>): (r: seq<PlanCable>)
    ensures |r| <= |cables|
  {
    if cables == [] then []
    else
      var last := cables[|cables| - 1];
      if last.id in ids then Without(cables[..|cables| - 1], ids) else Without(cables[..|cables| - 1], ids) + [last]
  }

  function DropId(ids: seq<int>, id: int): seq<int> {
    if ids == [] then []
    else if ids[|ids| - 1] == id then DropId(ids[..|ids| - 1], id)
    else DropId(ids[..|ids| - 1], id) + [ids[|ids| - 1]]
  }

  /** A commit reads an absent port type as an input; a preview refuses it. */
  function ReadType(text: PortText): PortType {
    if text.Named? then text.value else Input
  }

  /** The cables an operation takes off the patch, or nothing if it cannot be carried out. */
  ghost function Taken(op: Operation, p: Patch): Option<seq<int>> {
    match op
    case AddModule(_, _, _) => Some([])
    case RemoveModule(target, policy, _) =>
      (match Resolve(target, p.aliases)
       case None => None
       case Some(id) =>
         var attached := OnModule(p.cables, [], id);
         if id !in p.modules || (attached != [] && policy.FailIfAttached?) then None else Some(attached))
    case Connect(output, input, policy) =>
      var out, inp := Resolve(output.target, p.aliases), Resolve(input.target, p.aliases);
      if out.None? || inp.None? || output.portId.None? || input.portId.None? then None
      else if out.value !in p.modules || inp.value !in p.modules then None
      else
        var existing := OnPortIds(p.cables, [], inp.value, Input, input.portId.value);
        if existing != [] && !policy.ReplaceAll? then None else Some(existing)
    case Disconnect(cableId) =>
      (match ParseSpec(cableId)
       case NotAnId => None
       case Id(cid) => if HasCable(p.cables, cid) then Some([cid]) else None)
    case DisconnectPort(port, portType, policy) =>
      var id := Resolve(port.target, p.aliases);
      if id.None? || port.portId.None? then None
      else
        var matches := if portType.Unrecognised? then []
          else OnPortIds(p.cables, [], id.value, ReadType(portType), port.portId.value);
        Some(if policy.Top? && matches != [] then [matches[|matches| - 1]] else matches)
    case MoveModule(target, x, y, _) =>
      (match Resolve(target, p.aliases)
       case None => None
       case Some(id) => if id in p.modules && ReadGrid(x, y).Some? then Some([]) else None)
    case SetParameter(target, paramId) =>
      (match Resolve(target, p.aliases)
       case None => None
       case Some(id) => if id in p.modules && paramId.Some? then Some([]) else None)
    case _ =>
      var id := if IsTweak(op) then Resolve(op.target, p.aliases) else None;
      if id.Some? && id.value in p.modules then Some([]) else None
  }

  function Inserted<T>(s: seq<T>, x: T, at: nat): seq<T> {
    var k := if at <= |s| then at else |s|;
    s[..k] + [x] + s[k..]
  }

  function NewCable(op: Operation, p: Patch, id: int): PlanCable
    requires op.Connect? && op.output.portId.Some? && op.input.portId.Some?
    requires Resolve(op.output.target, p.aliases).Some? && Resolve(op.input.target, p.aliases).Some?
  {
    PlanCable(id, true, Resolve(op.output.target, p.aliases).value, op.output.portId.value,
      true, Resolve(op.input.target, p.aliases).value, op.input.portId.value)
  }

  /** Carries out one operation, or fails. */
  ghost function Apply(op: Operation, p: Patch, choice: Choice): Option<Patch> {
    var taken := Taken(op, p);
    if choice.fails || taken.None? then None
    else
      var kept := Without(p.cables, taken.value);
      if op.AddModule? then Some(Patch(p.modules + [choice.newId], kept, p.aliases[op.alias := choice.newId]))
      else if op.RemoveModule? then Some(Patch(DropId(p.modules, Resolve(op.target, p.aliases).value), kept, p.aliases))
      else if op.Connect? then Some(p.(cables := Inserted(kept, NewCable(op, p, choice.newId), choice.position)))
      else Some(p.(cables := kept))
  }

  function Ids(modules: seq<WorldModule>): (r: seq<int>)
    ensures |r| == |modules| && forall i :: 0 <= i < |r| ==> r[i] == modules[i].id
  {
    if modules == [] then [] else Ids(modules[..|modules| - 1]) + [modules[|modules| - 1].id]
  }

  function Live(world: PlanWorld): Patch {
    Patch(Ids(world.modules), world.cables, map[])
  }

  /** The patch after committing the plan, or nothing if some operation failed and all was rolled back. */
  ghost function Committed(ops: seq<Operation>, world: PlanWorld, choices: seq<Choice>): Option<Patch>
    requires |choices| == |ops|
  {
    if ops == [] then Some(Live(world))
    else
      match Committed(ops[..|ops| - 1], world, choices[..|ops| - 1])
      case None => None
      case Some(p) => Apply(ops[|ops| - 1], p, choices[|ops| - 1])
  }

  /** No snapshot module has this id, no snapshot cable is on it, and no snapshot cable bears it. */
  ghost predicate NewTo(world: PlanWorld, id: int) {
    && id >= 0 && !HasModule(world.modules, id) && !HasCable(world.cables, id)
    && forall i :: 0 <= i < |world.cables| ==> !Touches(world.cables[i], id)
  }

  // ----- the algebra of filters -----

  /** The snapshot's cables among these. */
  ghost function Old(snapshot: seq<PlanCable>, cables: seq<PlanCable>): seq<PlanCable> {
    if cables == [] then []
    else
      var last := cables[|cables| - 1];
      if HasCable(snapshot, last.id) then Old(snapshot, cables[..|cables| - 1]) + [last]
        else Old(snapshot, cables[..|cables| - 1])
  }

  lemma OldPush(snapshot: seq<PlanCable>, cables: seq<PlanCable>, c: PlanCable)
    ensures Old(snapshot, cables + [c]) == if HasCable(snapshot, c.id) then Old(snapshot, cables) + [c]
      else Old(snapshot, cables)
  {
    assert (cables + [c])[..|cables|] == cables;
  }

  lemma WithoutPush(cables: seq<PlanCable>, c: PlanCable, ids: seq<int>)
    ensures Without(cables + [c], ids) == if c.id in ids then Without(cables, ids) else Without(cables, ids) + [c]
  {
    assert (cables + [c])[..|cables|] == cables;
  }

  lemma {:induction false} OldAppend(snapshot: seq<PlanCable>, a: seq<PlanCable>, b: seq<PlanCable>)
    ensures Old(snapshot, a + b) == Old(snapshot, a) + Old(snapshot, b)
  {
    if b == [] {
      assert a + b == a;
    } else {
      var before := b[..|b| - 1];
      OldAppend(snapshot, a, before);
      assert (a + b)[..|a + b| - 1] == a + before;
    }
  }

  /** A cable the plan made does not count, wherever it stands. */
  lemma OldInserted(snapshot: seq<PlanCable>, cables: seq<PlanCable>, c: PlanCable, at: nat)
    requires !HasCable(snapshot, c.id)
    ensures Old(snapshot, Inserted(cables, c, at)) == Old(snapshot, cables)
  {
    var k := if at <= |cables| then at else |cables|;
    OldPush(snapshot, cables[..k], c);
    OldAppend(snapshot, cables[..k] + [c], cables[k..]);
    OldAppend(snapshot, cables[..k], cables[k..]);
    assert cables[..k] + cables[k..] == cables;
  }

  lemma {:induction false} OldWithout(snapshot: seq<PlanCable>, cables: seq<PlanCable>, ids: seq<int>)
    ensures Old(snapshot, Without(cables, ids)) == Without(Old(snapshot, cables), ids)
  {
    if cables != [] {
      hide HasCable;
      var before, last := cables[..|cables| - 1], cables[|cables| - 1];
      OldWithout(snapshot, before, ids);
      OldPush(snapshot, Without(before, ids), last);
      WithoutPush(Old(snapshot, before), last, ids);
    }
  }

  lemma {:induction false} WithoutTwice(cables: seq<PlanCable>, a: seq<int>, b: seq<int>)
    ensures Without(Without(cables, a), b) == Without(cables, a + b)
  {
    if cables != [] {
      var before, last := cables[..|cables| - 1], cables[|cables| - 1];
      WithoutTwice(before, a, b);
      WithoutPush(Without(before, a), last, b);
    }
  }

  lemma {:induction false} OldAll(snapshot: seq<PlanCable>, k: nat)
    requires k <= |snapshot|
    ensures Old(snapshot, snapshot[..k]) == snapshot[..k]
  {
    if k > 0 {
      OldAll(snapshot, k - 1);
      assert snapshot[..k] == snapshot[..k - 1] + [snapshot[k - 1]];
      OldPush(snapshot, snapshot[..k - 1], snapshot[k - 1]);
      assert snapshot[k - 1] in snapshot;
    }
  }

  lemma {:induction false} WithoutNothing(cables: seq<PlanCable>)
    ensures Without(cables, []) == cables
  {
    if cables != [] {
      WithoutNothing(cables[..|cables| - 1]);
    }
  }

  lemma {:induction false} WithoutIs(cables: seq<PlanCable>, ids: seq<int>, c: PlanCable)
    ensures c in Without(cables, ids) <==> c in cables && c.id !in ids
  {
    if cables != [] {
      var before, last := cables[..|cables| - 1], cables[|cables| - 1];
      WithoutIs(before, ids, c);
      assert cables == before + [last];
    }
  }

  lemma {:induction false} OldIs(snapshot: seq<PlanCable>, cables: seq<PlanCable>, c: PlanCable)
    ensures c in Old(snapshot, cables) <==> c in cables && HasCable(snapshot, c.id)
  {
    if cables != [] {
      hide HasCable;
      var before, last := cables[..|cables| - 1], cables[|cables| - 1];
      OldIs(snapshot, before, c);
      assert cables == before + [last];
    }
  }

  lemma {:induction false} DropIdIs(ids: seq<int>, id: int, x: int)
    ensures x in DropId(ids, id) <==> x in ids && x != id
  {
    if ids != [] {
      DropIdIs(ids[..|ids| - 1], id, x);
      assert ids == ids[..|ids| - 1] + [ids[|ids| - 1]];
    }
  }

  // ----- ports -----

  lemma {:induction false} OnPortOfWithout(cables: seq<PlanCable>, ids: seq<int>, m: int, t: PortType, port: int)
    ensures OnPortIds(Without(cables, ids), [], m, t, port) == OnPortIds(cables, ids, m, t, port)
  {
    if cables != [] {
      hide OnPort;
      var before, last := cables[..|cables| - 1], cables[|cables| - 1];
      OnPortOfWithout(before, ids, m, t, port);
      OnPortPush(before, last, ids, m, t, port);
      assert cables == before + [last];
      OnPortPush(Without(before, ids), last, [], m, t, port);
    }
  }

  lemma OnPortPush(cables: seq<PlanCable>, c: PlanCable, removed: seq<int>, m: int, t: PortType, port: int)
    ensures var ids := OnPortIds(cables, removed, m, t, port);
      OnPortIds(cables + [c], removed, m, t, port) == if c.id !in removed && OnPort(c, m, t, port) then ids + [c.id]
        else ids
  {
    hide OnPort;
    assert (cables + [c])[..|cables|] == cables;
    assert OnPortIds(cables, removed, m, t, port) + [] == OnPortIds(cables, removed, m, t, port);
  }

  lemma NoneOnPort(m: int, t: PortType, port: int)
    ensures OnPortIds([], [], m, t, port) == []
  {}

  /** If the last cable on a port is the snapshot's, it is the last of the snapshot's on that port. */
  lemma {:induction false} LastOldOnPort(snapshot: seq<PlanCable>, cables: seq<PlanCable>, m: int, t: PortType,
          port: int)
    requires var ms := OnPortIds(cables, [], m, t, port); ms != [] && HasCable(snapshot, ms[|ms| - 1])
    ensures var ms, olds := OnPortIds(cables, [], m, t, port), OnPortIds(Old(snapshot, cables), [], m, t, port);
      olds != [] && olds[|olds| - 1] == ms[|ms| - 1]
  {
    hide OnPort, HasCable, OnPortIds, Old;
    NoneOnPort(m, t, port);
    var before, last := cables[..|cables| - 1], cables[|cables| - 1];
    assert cables == before + [last];
    OnPortPush(before, last, [], m, t, port);
    OldPush(snapshot, before, last);
    OnPortPush(Old(snapshot, before), last, [], m, t, port);
    if !OnPort(last, m, t, port) {
      LastOldOnPort(snapshot, before, m, t, port);
    }
  }

  /** Taking more away does not change the last one, unless it is taken. */
  lemma {:induction false} LastStays(cables: seq<PlanCable>, some: seq<int>, more: seq<int>, m: int, t: PortType,
          port: int)
    requires forall i :: 0 <= i < |cables| && cables[i].id in some ==> cables[i].id in more
    requires var ms := OnPortIds(cables, some, m, t, port); ms != [] && ms[|ms| - 1] !in more
    ensures var ms, rest := OnPortIds(cables, some, m, t, port), OnPortIds(cables, more, m, t, port);
      rest != [] && rest[|rest| - 1] == ms[|ms| - 1]
  {
    hide OnPort;
    var before, last := cables[..|cables| - 1], cables[|cables| - 1];
    assert cables == before + [last];
    OnPortPush(before, last, some, m, t, port);
    OnPortPush(before, last, more, m, t, port);
    if last.id in some || !OnPort(last, m, t, port) {
      LastStays(before, some, more, m, t, port);
    }
  }
}
