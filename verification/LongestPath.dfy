/** The headline chain of a patch description: a longest cable path into a
    destination, found by an iterative memoised search with explicit work frames. */
module LongestPath {
  import opened Basics
  import opened Graph

  /** The cables into each module. */
  type Incoming<!Id(==)> = map<Id, seq<Cable<Id>>>

  function CablesInto<Id(==)>(incoming: Incoming<Id>, id: Id): seq<Cable<Id>> {
    if id in incoming then incoming[id] else []
  }

  ghost predicate EdgesInto<Id(!new)>(incoming: Incoming<Id>, E: Edges<Id>) {
    forall u, v :: (u, v) in E <==> exists c :: c in CablesInto(incoming, v) && c.outputModuleId == u
  }

  /** A repeat-free cable path ending at `x`. */
  ghost predicate SimplePathTo<Id>(E: Edges<Id>, p: seq<Id>, x: Id) {
    IsWalk(E, p) && p[|p| - 1] == x && NoRepeats(p)
  }

  /** No walk that ends at `x` visits more than `n` modules. */
  ghost predicate NoLonger<Id(!new)>(E: Edges<Id>, x: Id, n: nat) {
    forall q :: IsWalk(E, q) && q[|q| - 1] == x ==> |q| <= n
  }

  /** A walk none of whose cables lies on a cycle. */
  ghost predicate ForwardWalk<Id(!new)>(E: Edges<Id>, q: seq<Id>) {
    IsWalk(E, q) && forall i :: 0 <= i < |q| - 1 ==> !Reach(E, q[i + 1], q[i])
  }

  /** No walk to `x` free of feedback cables visits more than `n` modules. */
  ghost predicate NoForwardLonger<Id(!new)>(E: Edges<Id>, x: Id, n: nat) {
    forall q :: ForwardWalk(E, q) && q[|q| - 1] == x ==> |q| <= n
  }

  /** The path cannot be made longer at its start by a module that is not on a loop with it. */
  ghost predicate StartsAtSource<Id(!new)>(E: Edges<Id>, p: seq<Id>)
    requires p != []
  {
    forall s :: (s, p[0]) in E ==> Reach(E, p[0], s)
  }

  /** What a module's path promises on every graph. */
  ghost predicate GoodPath<Id(!new)>(E: Edges<Id>, p: seq<Id>, x: Id) {
    SimplePathTo(E, p, x) && StartsAtSource(E, p) && NoForwardLonger(E, x, |p|)
  }

  datatype Frame<Id> = Frame(id: Id, i: nat, best: seq<Id>)

  /** The work frames, the most recent one outermost. */
  datatype Stack<Id> = Empty | Level(top: Frame<Id>, below: Stack<Id>)

  ghost function Ids<Id>(st: Stack<Id>): set<Id> {
    match st
    case Empty => {}
    case Level(f, below) => Ids(below) + {f.id}
  }

  ghost function Works<Id>(st: Stack<Id>): seq<Frame<Id>> {
    match st
    case Empty => []
    case Level(f, below) => Works(below) + [f]
  }

  /** `f.best` can be extended to its module, and no walk through one of the first `n`
      cables beats it, unless that cable closes a loop. */
  ghost predicate FrameInv<Id(!new)>(incoming: Incoming<Id>, E: Edges<Id>, f: Frame<Id>, n: int) {
    && 0 <= n <= f.i <= |CablesInto(incoming, f.id)|
    && (f.best != [] ==>
          && SimplePathTo(E, f.best, f.best[|f.best| - 1]) && StartsAtSource(E, f.best)
          && (f.best[|f.best| - 1], f.id) in E && f.id !in f.best)
    && forall k :: 0 <= k < n ==> Beaten(E, CablesInto(incoming, f.id)[k].outputModuleId, f)
  }

  /** What a frame has made of a source it has looked at. */
  ghost predicate Beaten<Id(!new)>(E: Edges<Id>, src: Id, f: Frame<Id>) {
    Reach(E, f.id, src) || NoForwardLonger(E, src, |f.best|)
  }

  /** Frames under the top one wait for the module of the frame above them. */
  ghost predicate Waiting<Id(!new)>(incoming: Incoming<Id>, E: Edges<Id>, st: Stack<Id>, child: Id) {
    st.Level? ==>
      && st.top.i > 0 && FrameInv(incoming, E, st.top, st.top.i - 1)
      && CablesInto(incoming, st.top.id)[st.top.i - 1].outputModuleId == child
      && (child, st.top.id) in E
      && st.top.id !in Ids(st.below)
      && Waiting(incoming, E, st.below, st.top.id)
  }

  ghost predicate StackInv<Id(!new)>(incoming: Incoming<Id>, E: Edges<Id>, st: Stack<Id>) {
    st.Level? ==>
      && FrameInv(incoming, E, st.top, st.top.i)
      && st.top.id !in Ids(st.below)
      && Waiting(incoming, E, st.below, st.top.id)
  }

  ghost predicate MemoInv<Id(!new)>(E: Edges<Id>, memo: map<Id, seq<Id>>) {
    forall x :: x in memo ==> GoodPath(E, memo[x], x)
  }

  /** The module on top reaches every module that waits for it. */
  lemma {:induction false} TopReachesWaiting<Id(!new)>(incoming: Incoming<Id>, E: Edges<Id>, st: Stack<Id>, child: Id)
    requires Waiting(incoming, E, st, child)
    ensures forall y :: y in Ids(st) ==> Reach(E, child, y)
  {
    if st.Level? {
      ReachEdge(E, child, st.top.id);
      TopReachesWaiting(incoming, E, st.below, st.top.id);
      forall y | y in Ids(st.below)
        ensures Reach(E, child, y)
      {
        ReachTrans(E, child, st.top.id, y);
      }
    }
  }

  /** Without a cycle every walk is free of feedback cables. */
  lemma AcyclicForward<Id(!new)>(E: Edges<Id>, x: Id, n: nat)
    requires Acyclic(E) && NoForwardLonger(E, x, n)
    ensures NoLonger(E, x, n)
  {
    forall q | IsWalk(E, q) && q[|q| - 1] == x
      ensures |q| <= n
    {
      forall i | 0 <= i < |q| - 1
        ensures !Reach(E, q[i + 1], q[i])
      {
        assert (q[i], q[i + 1]) in E;
        CycleFirstEdge(E, q[i]);
      }
      assert ForwardWalk(E, q);
    }
  }

  lemma SuffixReaches<Id(!new)>(E: Edges<Id>, p: seq<Id>, k: nat)
    requires IsWalk(E, p) && k < |p|
    ensures Reach(E, p[k], p[|p| - 1])
  {
    var q := p[k..];
    forall i | 0 <= i < |q| - 1
      ensures (q[i], q[i + 1]) in E
    {
      assert (p[k + i], p[k + i + 1]) in E;
    }
    assert WalkFromTo(E, q, p[k], p[|p| - 1]);
  }

  /** A walk that gives up its last module is a walk to the one before. */
  lemma ForwardPrefix<Id(!new)>(E: Edges<Id>, q: seq<Id>)
    requires ForwardWalk(E, q) && |q| > 1
    ensures ForwardWalk(E, q[..|q| - 1]) && (q[|q| - 2], q[|q| - 1]) in E && !Reach(E, q[|q| - 1], q[|q| - 2])
  {
    var r := q[..|q| - 1];
    forall i | 0 <= i < |r| - 1
      ensures (r[i], r[i + 1]) in E && !Reach(E, r[i + 1], r[i])
    {
      assert (q[i], q[i + 1]) in E && !Reach(E, q[i + 1], q[i]);
    }
  }

  /** A frame that has seen all its cables has its module's path in `best + [id]`. */
  lemma FinishedFrame<Id(!new)>(incoming: Incoming<Id>, E: Edges<Id>, f: Frame<Id>)
    requires EdgesInto(incoming, E) && FrameInv(incoming, E, f, |CablesInto(incoming, f.id)|)
    ensures GoodPath(E, f.best + [f.id], f.id)
  {
    var p := f.best + [f.id];
    forall i | 0 <= i < |p| - 1
      ensures (p[i], p[i + 1]) in E
    {
      if i < |f.best| - 1 { assert (f.best[i], f.best[i + 1]) in E; }
    }
    FinishedStart(incoming, E, f);
    forall q | ForwardWalk(E, q) && q[|q| - 1] == f.id
      ensures |q| <= |f.best| + 1
    {
      if |q| > 1 {
        ForwardPrefix(E, q);
        LookedAtSource(incoming, E, f, q[|q| - 2]);
      }
    }
  }

  lemma LookedAtSource<Id(!new)>(incoming: Incoming<Id>, E: Edges<Id>, f: Frame<Id>, src: Id)
    requires EdgesInto(incoming, E) && FrameInv(incoming, E, f, |CablesInto(incoming, f.id)|) && (src, f.id) in E
    ensures Beaten(E, src, f)
  {
    var c :| c in CablesInto(incoming, f.id) && c.outputModuleId == src;
    var k :| 0 <= k < |CablesInto(incoming, f.id)| && CablesInto(incoming, f.id)[k] == c;
  }

  /** A finished frame without a path has no source that is not on a loop with it. */
  lemma FinishedStart<Id(!new)>(incoming: Incoming<Id>, E: Edges<Id>, f: Frame<Id>)
    requires EdgesInto(incoming, E) && FrameInv(incoming, E, f, |CablesInto(incoming, f.id)|)
    ensures StartsAtSource(E, f.best + [f.id])
  {
    var p := f.best + [f.id];
    forall s | (s, p[0]) in E
      ensures Reach(E, p[0], s)
    {
      if f.best == [] {
        LookedAtSource(incoming, E, f, s);
        assert ForwardWalk(E, [s]);
      }
    }
  }

  /** A path to one of the frame's sources is taken if it is longer than the best so
      far and does not already contain the frame's own module. */
  function Offer<Id(==)>(f: Frame<Id>, path: seq<Id>): Frame<Id> {
    if |path| > |f.best| && f.id !in path then f.(best := path) else f
  }

  lemma BeatenMore<Id(!new)>(E: Edges<Id>, src: Id, f: Frame<Id>, g: Frame<Id>)
    requires Beaten(E, src, f) && g.id == f.id && |f.best| <= |g.best|
    ensures Beaten(E, src, g)
  {}

  lemma OfferKeeps<Id(!new)>(incoming: Incoming<Id>, E: Edges<Id>, f: Frame<Id>, n: nat, path: seq<Id>, src: Id)
    requires FrameInv(incoming, E, f, n) && n < f.i && CablesInto(incoming, f.id)[n].outputModuleId == src
    requires (src, f.id) in E && GoodPath(E, path, src)
    ensures FrameInv(incoming, E, Offer(f, path), n + 1)
  {
    if f.id in path {
      var k :| 0 <= k < |path| && path[k] == f.id;
      SuffixReaches(E, path, k);
    }
    var g := Offer(f, path);
    forall k | 0 <= k < n + 1
      ensures Beaten(E, CablesInto(incoming, f.id)[k].outputModuleId, g)
    {
      if k < n {
        BeatenMore(E, CablesInto(incoming, f.id)[k].outputModuleId, f, g);
      }
    }
  }

  function Advance<Id>(f: Frame<Id>): Frame<Id> {
    f.(i := f.i + 1)
  }

  /** Skipping a source that is still being worked on: that cable closes a cycle. */
  lemma SkipKeeps<Id(!new)>(incoming: Incoming<Id>, E: Edges<Id>, st: Stack<Id>)
    requires EdgesInto(incoming, E) && StackInv(incoming, E, st)
    requires st.Level? && st.top.i < |CablesInto(incoming, st.top.id)|
    requires CablesInto(incoming, st.top.id)[st.top.i].outputModuleId in Ids(st)
    ensures StackInv(incoming, E, Level(Advance(st.top), st.below))
  {
    var f := st.top;
    var src := CablesInto(incoming, f.id)[f.i].outputModuleId;
    TopReachesWaiting(incoming, E, st.below, f.id);
    ReachSelf(E, f.id);
    assert Beaten(E, src, f);
  }

  lemma ReuseKeeps<Id(!new)>(incoming: Incoming<Id>, E: Edges<Id>, st: Stack<Id>, memo: map<Id, seq<Id>>)
    requires EdgesInto(incoming, E) && StackInv(incoming, E, st) && MemoInv(E, memo)
    requires st.Level? && st.top.i < |CablesInto(incoming, st.top.id)|
    requires CablesInto(incoming, st.top.id)[st.top.i].outputModuleId in memo
    ensures StackInv(incoming, E, Level(Offer(Advance(st.top),
      memo[CablesInto(incoming, st.top.id)[st.top.i].outputModuleId]), st.below))
  {
    var f := st.top;
    var src := CablesInto(incoming, f.id)[f.i].outputModuleId;
    assert FrameInv(incoming, E, Advance(f), f.i);
    OfferKeeps(incoming, E, Advance(f), f.i, memo[src], src);
  }

  lemma PushKeeps<Id(!new)>(incoming: Incoming<Id>, E: Edges<Id>, st: Stack<Id>)
    requires EdgesInto(incoming, E) && StackInv(incoming, E, st)
    requires st.Level? && st.top.i < |CablesInto(incoming, st.top.id)|
    requires CablesInto(incoming, st.top.id)[st.top.i].outputModuleId !in Ids(st)
    ensures StackInv(incoming, E, Level(Frame(CablesInto(incoming, st.top.id)[st.top.i].outputModuleId, 0, []),
      Level(Advance(st.top), st.below)))
  {
    assert FrameInv(incoming, E, Advance(st.top), st.top.i);
  }

  lemma PopKeeps<Id(!new)>(incoming: Incoming<Id>, E: Edges<Id>, st: Stack<Id>, memo: map<Id, seq<Id>>)
    requires EdgesInto(incoming, E) && StackInv(incoming, E, st) && MemoInv(E, memo)
    requires st.Level? && st.top.i == |CablesInto(incoming, st.top.id)|
    ensures var path := st.top.best + [st.top.id];
      && MemoInv(E, memo[st.top.id := path])
      && (st.below.Level? ==> StackInv(incoming, E, Level(Offer(st.below.top, path), st.below.below)))
  {
    FinishedFrame(incoming, E, st.top);
    if st.below.Level? {
      OfferKeeps(incoming, E, st.below.top, st.below.top.i - 1, st.top.best + [st.top.id], st.top.id);
    }
  }

  /** Work left: every frame's unread cables and its own pop. */
  ghost function Remaining<Id>(incoming: Incoming<Id>, st: Stack<Id>): nat {
    match st
    case Empty => 0
    case Level(f, below) =>
      1 + (if f.i <= |CablesInto(incoming, f.id)| then |CablesInto(incoming, f.id)| - f.i else 0)
        + Remaining(incoming, below)
  }

  lemma TopFrame<Id>(st: Stack<Id>)
    ensures (Works(st) == [] <==> st.Empty?)
    ensures st.Level? ==> Works(st)[|Works(st)| - 1] == st.top && Works(st)[..|Works(st)| - 1] == Works(st.below)
  {}

  /** The search's own variables: finished paths, modules being worked on, work frames. */
  datatype Vars<Id> = Vars(memo: map<Id, seq<Id>>, onStack: set<Id>, work: seq<Frame<Id>>)

  ghost predicate Tables<Id>(v: Vars<Id>, st: Stack<Id>) {
    v.work == Works(st) && v.onStack == Ids(st) && v.onStack !! v.memo.Keys
  }

  ghost predicate Inv<Id(!new)>(incoming: Incoming<Id>, E: Edges<Id>, v: Vars<Id>, st: Stack<Id>) {
    StackInv(incoming, E, st) && MemoInv(E, v.memo) && Tables(v, st)
  }

  /** Every module that has ever had a frame. */
  ghost function Visited<Id>(v: Vars<Id>): set<Id> {
    v.onStack + v.memo.Keys
  }

  /** The stack after the top frame looks at its next cable. */
  ghost function Looked<Id>(incoming: Incoming<Id>, memo: map<Id, seq<Id>>, st: Stack<Id>): Stack<Id>
    requires st.Level? && st.top.i < |CablesInto(incoming, st.top.id)|
  {
    var src := CablesInto(incoming, st.top.id)[st.top.i].outputModuleId;
    if src in Ids(st) then Level(Advance(st.top), st.below)
    else if src in memo then Level(Offer(Advance(st.top), memo[src]), st.below)
    else Level(Frame(src, 0, []), Level(Advance(st.top), st.below))
  }

  lemma LookedKeeps<Id(!new)>(incoming: Incoming<Id>, E: Edges<Id>, memo: map<Id, seq<Id>>, st: Stack<Id>)
    requires EdgesInto(incoming, E) && StackInv(incoming, E, st) && MemoInv(E, memo)
    requires st.Level? && st.top.i < |CablesInto(incoming, st.top.id)|
    ensures StackInv(incoming, E, Looked(incoming, memo, st))
    ensures (CablesInto(incoming, st.top.id)[st.top.i].outputModuleId, st.top.id) in E
  {
    var src := CablesInto(incoming, st.top.id)[st.top.i].outputModuleId;
    if src in Ids(st) {
      SkipKeeps(incoming, E, st);
    } else if src in memo {
      ReuseKeeps(incoming, E, st, memo);
    } else {
      PushKeeps(incoming, E, st);
    }
  }

  /** The top frame still has cables: look at the next one. A module is given a frame
      only if it has never had one. */
  method Look<Id(==, !new)>(incoming: Incoming<Id>, v0: Vars<Id>, ghost st0: Stack<Id>) returns (v: Vars<Id>,
          ghost pushed: set<Id>)
    requires Tables(v0, st0) && st0.Level? && st0.top.i < |CablesInto(incoming, st0.top.id)|
    ensures Tables(v, Looked(incoming, v0.memo, st0)) && v.memo == v0.memo
    ensures v.onStack == v0.onStack + pushed && pushed !! Visited(v0)
    ensures pushed == {} ==> Remaining(incoming, Looked(incoming, v0.memo, st0)) < Remaining(incoming, st0)
    ensures pushed <= {CablesInto(incoming, st0.top.id)[st0.top.i].outputModuleId}
  {
    TopFrame(st0);
    pushed := {};
    var k := |v0.work| - 1;
    var frame := v0.work[k];
    var src := CablesInto(incoming, frame.id)[frame.i].outputModuleId;
    frame := Advance(frame);
    v := v0.(work := v0.work[k := frame]);
    if src in v.onStack {
      // would close a cycle
    } else if src in v.memo {
      v := v.(work := v.work[k := Offer(frame, v.memo[src])]);
    } else {
      v := v.(onStack := v.onStack + {src}, work := v.work + [Frame(src, 0, [])]);
      pushed := {src};
    }
  }

  /** The stack after the top frame, out of cables, offers its path to its parent. */
  ghost function Finished<Id(!new)>(st: Stack<Id>): Stack<Id>
    requires st.Level?
  {
    if st.below.Empty? then Empty else Level(Offer(st.below.top, st.top.best + [st.top.id]), st.below.below)
  }

  lemma FinishedRemains<Id(!new)>(incoming: Incoming<Id>, st: Stack<Id>)
    requires st.Level?
    ensures Remaining(incoming, Finished(st)) < Remaining(incoming, st)
  {}

  /** The top frame has no cable left: its path is final and is offered to its parent. */
  method Finish<Id(==, !new)>(incoming: Incoming<Id>, v0: Vars<Id>, ghost st0: Stack<Id>) returns (v: Vars<Id>)
    requires Tables(v0, st0) && st0.Level? && st0.top.id !in Ids(st0.below)
    ensures Tables(v, Finished(st0)) && Visited(v) == Visited(v0)
    ensures v.memo == v0.memo[st0.top.id := st0.top.best + [st0.top.id]]
    ensures Remaining(incoming, Finished(st0)) < Remaining(incoming, st0)
  {
    hide Remaining;
    FinishedRemains(incoming, st0);
    TopFrame(st0);
    TopFrame(st0.below);
    var k := |v0.work| - 1;
    var frame := v0.work[k];
    var path := frame.best + [frame.id];
    v := Vars(v0.memo[frame.id := path], v0.onStack - {frame.id}, v0.work[..k]);
    if |v.work| > 0 {
      v := v.(work := v.work[k - 1 := Offer(v.work[k - 1], path)]);
    }
  }

  method Turn<Id(==, !new)>(incoming: Incoming<Id>, ghost E: Edges<Id>, v0: Vars<Id>, ghost st0: Stack<Id>)
    returns (v: Vars<Id>, ghost st: Stack<Id>, ghost pushed: set<Id>)
    requires EdgesInto(incoming, E) && Inv(incoming, E, v0, st0) && v0.work != []
    ensures Inv(incoming, E, v, st) && Visited(v) == Visited(v0) + pushed && pushed !! Visited(v0)
    ensures pushed == {} ==> Remaining(incoming, st) < Remaining(incoming, st0)
    ensures pushed <= Sources(E)
  {
    TopFrame(st0);
    var frame := v0.work[|v0.work| - 1];
    if frame.i < |CablesInto(incoming, frame.id)| {
      LookedKeeps(incoming, E, v0.memo, st0);
      st := Looked(incoming, v0.memo, st0);
      v, pushed := Look(incoming, v0, st0);
    } else {
      PopKeeps(incoming, E, st0, v0.memo);
      st, pushed := Finished(st0), {};
      v := Finish(incoming, v0, st0);
    }
  }

  ghost function Sources<Id>(E: Edges<Id>): set<Id> {
    set e | e in E :: e.0
  }

  /** One turn, within a universe that holds every module that can get a frame. */
  method CountedTurn<Id(==, !new)>(incoming: Incoming<Id>, ghost E: Edges<Id>, ghost universe: set<Id>, v0: Vars<Id>,
          ghost st0: Stack<Id>)
    returns (v: Vars<Id>, ghost st: Stack<Id>, ghost pushes: nat)
    requires EdgesInto(incoming, E) && Inv(incoming, E, v0, st0) && v0.work != []
    requires Visited(v0) <= universe && Sources(E) <= universe
    ensures Inv(incoming, E, v, st) && Visited(v0) <= Visited(v) <= universe
    ensures |Visited(v)| == |Visited(v0)| + pushes
    ensures |universe - Visited(v)| < |universe - Visited(v0)|
      || (Visited(v) == Visited(v0) && Remaining(incoming, st) < Remaining(incoming, st0))
  {
    hide Inv, Visited;
    ghost var pushed;
    v, st, pushed := Turn(incoming, E, v0, st0);
    pushes := |pushed|;
  }

  lemma NothingLeft<Id(!new)>(incoming: Incoming<Id>, E: Edges<Id>, v: Vars<Id>, st: Stack<Id>)
    requires Inv(incoming, E, v, st) && v.work == []
    ensures v.onStack == {} && MemoInv(E, v.memo) && Visited(v) == v.memo.Keys
  {
    TopFrame(st);
  }

  /** Turns of the search until no work frame is left, with a count of the frames pushed. */
  method Run<Id(==, !new)>(incoming: Incoming<Id>, ghost E: Edges<Id>, ghost universe: set<Id>, v0: Vars<Id>,
          ghost st0: Stack<Id>)
    returns (v: Vars<Id>, ghost pushes: nat)
    requires EdgesInto(incoming, E) && Inv(incoming, E, v0, st0)
    requires Visited(v0) <= universe && Sources(E) <= universe
    ensures v.onStack == {} && MemoInv(E, v.memo)
    ensures Visited(v0) <= v.memo.Keys <= universe && pushes + |Visited(v0)| == |v.memo.Keys|
  {
    hide Inv, Visited, Remaining, MemoInv, EdgesInto;
    ghost var st := st0;
    v, pushes := v0, 0;
    while |v.work| > 0
      invariant Inv(incoming, E, v, st) && Visited(v0) <= Visited(v) <= universe
      invariant pushes + |Visited(v0)| == |Visited(v)|
      decreases |universe - Visited(v)|, Remaining(incoming, st)
    {
      ghost var more;
      v, st, more := CountedTurn(incoming, E, universe, v, st);
      pushes := pushes + more;
    }
    NothingLeft(incoming, E, v, st);
  }

  lemma StartKeeps<Id(!new)>(incoming: Incoming<Id>, E: Edges<Id>, dest: Id)
    ensures var first := Frame(dest, 0, []);
      Inv(incoming, E, Vars(map[], {dest}, [first]), Level(first, Empty))
  {
    var first := Frame(dest, 0, []);
    var bottom: Stack<Id> := Empty;
    assert Works(bottom) == [] && Ids(bottom) == {};
    assert Works(Level(first, bottom)) == [first] && Ids(Level(first, bottom)) == {dest};
    assert FrameInv(incoming, E, first, 0);
  }

  /** The longest real cable path into `dest`: its consecutive modules are joined by
      cables, it ends at `dest` and repeats no module. On every patch it starts where nothing
      feeds in that is not on a loop with it, and no walk into `dest` without feedback cables
      visits more modules; on an acyclic patch that is every walk. `worked` holds the modules that had
      a work frame: as many as frames were pushed, so none had two. */
  method LongestCablePathTo<Id(==, !new)>(dest: Id, incoming: Incoming<Id>, ghost E: Edges<Id>)
    returns (path: seq<Id>, ghost worked: set<Id>, ghost pushes: nat)
    requires EdgesInto(incoming, E)
    ensures SimplePathTo(E, path, dest) && StartsAtSource(E, path)
    ensures NoForwardLonger(E, dest, |path|) && (Acyclic(E) ==> NoLonger(E, dest, |path|))
    ensures pushes == |worked| && worked <= {dest} + Sources(E)
  {
    var v := Vars(map[], {dest}, [Frame(dest, 0, [])]);
    ghost var st := Level(Frame(dest, 0, []), Empty);
    ghost var universe := {dest} + Sources(E);
    assert Visited(v) == {dest};
    StartKeeps(incoming, E, dest);
    v, pushes := Run(incoming, E, universe, v, st);
    pushes, worked := 1 + pushes, v.memo.Keys;
    path := if dest in v.memo then v.memo[dest] else [dest];
    if Acyclic(E) {
      AcyclicForward(E, dest, |path|);
    }
  }
}
