/** Modules on a feedback cycle, by an iterative strongly-connected-component
    search with explicit work frames.

    The loop keeps its frames in a work list and the modules not yet assigned to
    a component on a second stack. Both are described here by one nested value, a
    `Stack`, whose top level is the work frame on top together with the stretch of
    the second stack that belongs to it. */
module CycleSearch {
  import opened Graph

  type Adjacency<!Id(==)> = map<Id, seq<Id>>

  function Succ<Id(==)>(adj: Adjacency<Id>, u: Id): seq<Id> {
    if u in adj then adj[u] else []
  }

  /** One work frame: a module and the cursor into its successors. */
  datatype Frame<Id> = Frame(v: Id, i: nat)

  /** `v` and `i` are the top work frame; `low` is its low-link and `lowAt` the module
      having that index; `ms` is the stretch of stacked modules starting with `v`. */
  datatype Stack<Id> =
    | Empty
    | Level(v: Id, i: nat, low: nat, lowAt: Id, ms: seq<Id>, below: Stack<Id>)

  ghost function Members<Id>(st: Stack<Id>): set<Id> {
    match st
    case Empty => {}
    case Level(_, _, _, _, ms, below) => Members(below) + (set x | x in ms)
  }

  ghost function Works<Id>(st: Stack<Id>): seq<Frame<Id>> {
    match st
    case Empty => []
    case Level(v, i, _, _, _, below) => Works(below) + [Frame(v, i)]
  }

  ghost function Stacked<Id>(st: Stack<Id>): seq<Id> {
    match st
    case Empty => []
    case Level(_, _, _, _, ms, below) => Stacked(below) + ms
  }

  /** The successors that `x`, a module of the top level, has looked at so far. */
  ghost function LookedAt<Id>(adj: Adjacency<Id>, st: Stack<Id>, x: Id): seq<Id>
    requires st.Level?
  {
    if x == st.v && st.i <= |Succ(adj, x)| then Succ(adj, x)[..st.i] else Succ(adj, x)
  }

  ghost predicate Placed<Id>(index: map<Id, nat>, st: Stack<Id>)
    requires st.Level?
  {
    && |st.ms| > 0 && st.ms[0] == st.v && st.v !in st.ms[1..]
    && st.v in index
    && (forall x :: x in st.ms ==> x in index && x !in Members(st.below) && index[st.v] <= index[x])
    && (forall y :: y in Members(st.below) ==> y in index && index[y] < index[st.v])
  }

  ghost predicate Linked<Id>(R: Rel<Id>, index: map<Id, nat>, st: Stack<Id>)
    requires st.Level?
  {
    && (forall x :: x in st.ms ==> (st.v, x) in R && (x, st.v) in R)
    && (st.below.Level? ==> (st.below.v, st.v) in R)
    && st.lowAt in Members(st) && st.lowAt in index && st.v in index
    && index[st.lowAt] == st.low <= index[st.v]
    && (st.v, st.lowAt) in R
  }

  ghost predicate Looked<Id>(adj: Adjacency<Id>, index: map<Id, nat>, st: Stack<Id>)
    requires st.Level?
  {
    && st.i <= |Succ(adj, st.v)|
    && forall x, y :: x in st.ms && y in LookedAt(adj, st, x)
         ==> y in index && (y in Members(st) ==> st.low <= index[y])
  }

  ghost predicate StackInv<Id>(adj: Adjacency<Id>, R: Rel<Id>, index: map<Id, nat>, st: Stack<Id>) {
    st.Level? ==>
      && Placed(index, st) && Linked(R, index, st) && Looked(adj, index, st)
      && StackInv(adj, R, index, st.below)
  }

  /** Later discoveries leave everything said about the stack standing. */
  lemma {:induction false} StackInvExtends<Id>(adj: Adjacency<Id>, R: Rel<Id>, index: map<Id, nat>,
          index': map<Id, nat>, st: Stack<Id>)
    requires StackInv(adj, R, index, st)
    requires forall x :: x in index ==> x in index' && index'[x] == index[x]
    ensures StackInv(adj, R, index', st)
  {
    if st.Level? {
      StackInvExtends(adj, R, index, index', st.below);
    }
  }

  /** Every stacked module reaches the frame on top. */
  lemma {:induction false} MembersReachTop<Id(!new)>(adj: Adjacency<Id>, E: Edges<Id>, R: Rel<Id>, index: map<Id, nat>,
          st: Stack<Id>)
    requires StackInv(adj, R, index, st) && st.Level? && Preorder(E, R)
    ensures forall y :: y in Members(st) ==> (y, st.v) in R
  {
    if st.below.Level? {
      MembersReachTop(adj, E, R, index, st.below);
    }
  }

  /** Modules off the stack are finished, and lead only to finished modules. */
  ghost predicate DoneClosed<Id>(adj: Adjacency<Id>, index: map<Id, nat>, st: Stack<Id>) {
    forall x, y :: x in index && x !in Members(st) && y in Succ(adj, x) ==> y in index && y !in Members(st)
  }

  // ----- the transitions -----

  /** An undiscovered module `w` takes the next index and a level of its own. */
  ghost function Discover<Id>(st: Stack<Id>, w: Id, counter: nat): Stack<Id> {
    Level(w, 0, counter, w, [w], st)
  }

  /** The top frame moves its cursor past its next successor. */
  ghost function Bump<Id>(st: Stack<Id>): Stack<Id>
    requires st.Level?
  {
    st.(i := st.i + 1)
  }

  lemma BumpKeeps<Id(!new)>(adj: Adjacency<Id>, R: Rel<Id>, index: map<Id, nat>, st: Stack<Id>)
    requires StackInv(adj, R, index, st) && st.Level? && st.i < |Succ(adj, st.v)|
    requires var w := Succ(adj, st.v)[st.i]; w in index && (w in Members(st) ==> st.low <= index[w])
    ensures StackInv(adj, R, index, Bump(st)) && Members(Bump(st)) == Members(st)
  {
    var t := Bump(st);
    assert LookedAt(adj, t, st.v) == LookedAt(adj, st, st.v) + [Succ(adj, st.v)[st.i]];
    assert Looked(adj, index, t);
  }

  /** The top frame's low-link drops to the index of the stacked module `w`. */
  ghost function Lower<Id>(st: Stack<Id>, w: Id, at: nat): Stack<Id>
    requires st.Level?
  {
    st.(low := at, lowAt := w)
  }

  lemma LowerKeeps<Id(!new)>(adj: Adjacency<Id>, R: Rel<Id>, index: map<Id, nat>, st: Stack<Id>, w: Id)
    requires StackInv(adj, R, index, st) && st.Level?
    requires w in Members(st) && w in index && (st.v, w) in R && index[w] < st.low
    ensures StackInv(adj, R, index, Lower(st, w, index[w])) && Members(Lower(st, w, index[w])) == Members(st)
  {
    var t := Lower(st, w, index[w]);
    assert Looked(adj, index, t);
  }

  /** The finished top frame is no component root: its modules pass to the frame
      below, whose low-link becomes the lower of the two. */
  ghost function Merge<Id>(st: Stack<Id>): Stack<Id>
    requires st.Level? && st.below.Level?
  {
    var p := if st.low < st.below.low then Lower(st.below, st.lowAt, st.low) else st.below;
    p.(ms := p.ms + st.ms)
  }

  lemma MergeKeeps<Id(!new)>(adj: Adjacency<Id>, E: Edges<Id>, R: Rel<Id>, index: map<Id, nat>, st: Stack<Id>)
    requires StackInv(adj, R, index, st) && Preorder(E, R)
    requires st.Level? && st.i == |Succ(adj, st.v)| && st.low < index[st.v]
    ensures st.below.Level?
    ensures StackInv(adj, R, index, Merge(st)) && Members(Merge(st)) == Members(st)
  {
    assert st.lowAt in Members(st.below);
    MergeLinked(adj, E, R, index, st);
    var t, p := Merge(st), st.below;
    assert Members(t) == Members(st);
    assert Placed(index, t);
    MergeLooked(adj, R, index, st);
  }

  lemma MergeLooked<Id(!new)>(adj: Adjacency<Id>, R: Rel<Id>, index: map<Id, nat>, st: Stack<Id>)
    requires StackInv(adj, R, index, st)
    requires st.Level? && st.below.Level? && st.i == |Succ(adj, st.v)| && Members(Merge(st)) == Members(st)
    ensures Looked(adj, index, Merge(st))
  {
    var t, p := Merge(st), st.below;
    forall x, y | x in t.ms && y in LookedAt(adj, t, x)
      ensures y in index && (y in Members(t) ==> t.low <= index[y])
    {
      if x in p.ms {
        assert y in LookedAt(adj, p, x);
        assert y in Members(t) ==> y in Members(p) || index[st.v] <= index[y];
      } else {
        assert y in LookedAt(adj, st, x);
      }
    }
  }

  lemma MergeLinked<Id(!new)>(adj: Adjacency<Id>, E: Edges<Id>, R: Rel<Id>, index: map<Id, nat>, st: Stack<Id>)
    requires StackInv(adj, R, index, st) && Preorder(E, R)
    requires st.Level? && st.below.Level? && st.lowAt in Members(st.below)
    ensures Linked(R, index, Merge(st))
  {
    var t, p := Merge(st), st.below;
    MembersReachTop(adj, E, R, index, p);
    assert (st.v, p.v) in R;
    forall x | x in t.ms
      ensures (t.v, x) in R && (x, t.v) in R
    {
      if x in st.ms { assert (st.v, x) in R && (x, st.v) in R; }
    }
  }

  /** The finished top frame is the root of a component: its modules are done. */
  lemma PopKeeps<Id(!new)>(adj: Adjacency<Id>, R: Rel<Id>, index: map<Id, nat>, st: Stack<Id>)
    requires StackInv(adj, R, index, st) && DoneClosed(adj, index, st)
    requires st.Level? && st.i == |Succ(adj, st.v)| && st.low == index[st.v]
    ensures StackInv(adj, R, index, st.below) && DoneClosed(adj, index, st.below)
  {
    forall x, y | x in index && x !in Members(st.below) && y in Succ(adj, x)
      ensures y in index && y !in Members(st.below)
    {
      if x in st.ms { assert y in LookedAt(adj, st, x); }
    }
  }

  /** The answer so far is right about every finished module; `loops` holds the
      modules patched straight into themselves. */
  ghost predicate Answered<Id(!new)>(E: Edges<Id>, loops: set<Id>, index: map<Id, nat>, st: Stack<Id>,
          inCycle: set<Id>) {
    && loops <= inCycle
    && (forall x :: x in inCycle ==> x in loops || OnCycle(E, x))
    && (forall x :: x in index && x !in Members(st) && OnCycle(E, x) ==> x in inCycle)
  }

  ghost predicate EdgesOf<Id(!new)>(adj: Adjacency<Id>, E: Edges<Id>) {
    forall u, w :: (u, w) in E <==> w in Succ(adj, u)
  }

  /** The modules of a popped component that lie on a cycle: all, if it has at least two. */
  function Cyclic<Id(==)>(ms: seq<Id>): set<Id> {
    if |ms| > 1 then set x | x in ms else {}
  }

  lemma PopAnswers<Id(!new)>(adj: Adjacency<Id>, E: Edges<Id>, R: Rel<Id>, loops: set<Id>, index: map<Id, nat>,
          st: Stack<Id>, inCycle: set<Id>)
    requires StackInv(adj, R, index, st) && DoneClosed(adj, index, st) && Answered(E, loops, index, st, inCycle)
    requires EdgesOf(adj, E) && IsReachability(E, R) && forall x :: (x, x) in E ==> x in loops
    requires st.Level? && st.i == |Succ(adj, st.v)| && st.low == index[st.v]
    ensures Answered(E, loops, index, st.below, inCycle + Cyclic(st.ms))
  {
    if |st.ms| > 1 {
      forall x | x in st.ms
        ensures OnCycle(E, x)
      {
        assert st.ms[1] in st.ms[1..];
        MutualReachIsCycle(E, R, x, if x == st.v then st.ms[1] else st.v, st.v);
      }
    } else {
      PopKeeps(adj, R, index, st);
      if OnCycle(E, st.v) && st.v !in loops {
        SingletonNotOnCycle(adj, E, index, st);
      }
    }
  }

  lemma MutualReachIsCycle<Id(!new)>(E: Edges<Id>, R: Rel<Id>, x: Id, z: Id, v: Id)
    requires IsReachability(E, R) && x != z
    requires (x, v) in R && (v, x) in R && (z, v) in R && (v, z) in R
    ensures OnCycle(E, x)
  {
    ReachTrans(E, x, v, z);
    ReachTrans(E, z, v, x);
    var p :| WalkFromTo(E, p, x, z);
    var q :| WalkFromTo(E, q, z, x);
    JoinWalks(E, p, q, x, z, x);
  }

  /** A component of one module that is not patched into itself is on no cycle: every
      other module its successors lead to was finished before it. */
  lemma SingletonNotOnCycle<Id(!new)>(adj: Adjacency<Id>, E: Edges<Id>, index: map<Id, nat>, st: Stack<Id>)
    requires EdgesOf(adj, E) && st.Level? && st.v in Members(st)
    requires DoneClosed(adj, index, st) && DoneClosed(adj, index, st.below)
    requires st.v in index && st.v !in Members(st.below) && (forall x :: x in st.ms ==> x == st.v)
    requires (st.v, st.v) !in E
    ensures !OnCycle(E, st.v)
  {
    if OnCycle(E, st.v) {
      CycleFirstEdge(E, st.v);
      var y :| (st.v, y) in E && Reach(E, y, st.v);
      assert y in index && y !in Members(st);
      ClosedUnderReach(E, index.Keys - Members(st), y, st.v);
      assert false;
    }
  }

  // ----- the search itself -----

  ghost function Declared<Id>(snap: Snapshot<Id>): set<Id> {
    set m | m in snap.modules :: m.moduleId
  }

  /** The module pairs joined by a cable that leaves a declared module. */
  ghost function DeclaredPairs<Id>(snap: Snapshot<Id>): Edges<Id> {
    set e | e in JoinedPairs(snap.cables) && e.0 in Declared(snap)
  }

  ghost predicate EndpointsResolve<Id(!new)>(snap: Snapshot<Id>) {
    forall c :: c in snap.cables ==> c.outputModuleId in Declared(snap) && c.inputModuleId in Declared(snap)
  }

  /** The targets of the cables leaving `u`, in cable order. */
  function Targets<Id(==)>(cables: seq<Cable<Id>>, u: Id): seq<Id> {
    if cables == [] then []
    else
      var c := cables[|cables| - 1];
      Targets(cables[..|cables| - 1], u) + if c.outputModuleId == u then [c.inputModuleId] else []
  }

  lemma {:induction false} TargetsAreEdges<Id>(cables: seq<Cable<Id>>, u: Id)
    ensures forall w :: w in Targets(cables, u) <==> (u, w) in JoinedPairs(cables)
  {
    if cables != [] {
      var rest, c := cables[..|cables| - 1], cables[|cables| - 1];
      TargetsAreEdges(rest, u);
      assert cables == rest + [c];
      JoinedPairsPush(rest, c);
    }
  }

  lemma AdjacencyIsDeclaredPairs<Id(!new)>(snap: Snapshot<Id>, adj: Adjacency<Id>)
    requires adj.Keys == Declared(snap) && forall u :: u in adj ==> adj[u] == Targets(snap.cables, u)
    ensures EdgesOf(adj, DeclaredPairs(snap))
  {
    forall u, w
      ensures (u, w) in DeclaredPairs(snap) <==> w in Succ(adj, u)
    {
      TargetsAreEdges(snap.cables, u);
    }
  }

  lemma TargetsPush<Id>(cables: seq<Cable<Id>>, c: Cable<Id>, u: Id)
    ensures Targets(cables + [c], u) == if c.outputModuleId == u then Targets(cables, u) + [c.inputModuleId]
      else Targets(cables, u)
  {
    assert (cables + [c])[..|cables|] == cables;
    assert Targets(cables, u) + [] == Targets(cables, u);
  }

  /** Gives every declared module an empty list. */
  method DeclareModules<Id(==, !new)>(snap: Snapshot<Id>) returns (adj: Adjacency<Id>)
    ensures adj.Keys == Declared(snap) && forall x :: x in adj ==> adj[x] == []
  {
    adj := map[];
    for k := 0 to |snap.modules|
      invariant adj.Keys == set m | m in snap.modules[..k] :: m.moduleId
      invariant forall x :: x in adj ==> adj[x] == []
    {
      assert snap.modules[..k + 1] == snap.modules[..k] + [snap.modules[k]];
      adj := adj[snap.modules[k].moduleId := []];
    }
    assert snap.modules[..|snap.modules|] == snap.modules;
  }

  /** One more cable keeps the lists of targets and the self-loops. */
  lemma CableListed<Id(!new)>(cables: seq<Cable<Id>>, c: Cable<Id>, adj: Adjacency<Id>, selfLoop: set<Id>)
    requires Listed(cables, adj, selfLoop)
    ensures forall u :: u in adj ==>
      Targets(cables + [c], u) == if u == c.outputModuleId then adj[u] + [c.inputModuleId] else adj[u]
    ensures forall x :: (x, x) in JoinedPairs(cables + [c]) <==>
      x in selfLoop || (c.outputModuleId == c.inputModuleId && x == c.outputModuleId)
  {
    hide Targets, JoinedPairs;
    JoinedPairsPush(cables, c);
    forall u | u in adj {
      TargetsPush(cables, c, u);
    }
  }

  /** What the two tables hold after some of the cables. */
  ghost predicate Listed<Id(!new)>(cables: seq<Cable<Id>>, adj: Adjacency<Id>, selfLoop: set<Id>) {
    && (forall u :: u in adj ==> adj[u] == Targets(cables, u))
    && (forall x :: x in selfLoop <==> (x, x) in JoinedPairs(cables))
  }

  lemma NothingListed<Id(!new)>(adj: Adjacency<Id>)
    requires forall u :: u in adj ==> adj[u] == []
    ensures Listed([], adj, {})
  {}

  method BuildAdjacency<Id(==, !new)>(snap: Snapshot<Id>) returns (adj: Adjacency<Id>, selfLoop: set<Id>)
    ensures adj.Keys == Declared(snap) && EdgesOf(adj, DeclaredPairs(snap))
    ensures forall x :: x in selfLoop <==> (x, x) in JoinedPairs(snap.cables)
  {
    hide Targets, JoinedPairs, Declared, DeclaredPairs, EdgesOf;
    adj := DeclareModules(snap);
    selfLoop := {};
    NothingListed(adj);
    assert snap.cables[..0] == [];
    for k := 0 to |snap.cables|
      invariant adj.Keys == Declared(snap) && Listed(snap.cables[..k], adj, selfLoop)
    {
      var c := snap.cables[k];
      assert snap.cables[..k + 1] == snap.cables[..k] + [c];
      CableListed(snap.cables[..k], c, adj, selfLoop);
      if c.outputModuleId == c.inputModuleId {
        selfLoop := selfLoop + {c.outputModuleId};
      }
      if c.outputModuleId in adj {
        adj := adj[c.outputModuleId := adj[c.outputModuleId] + [c.inputModuleId]];
      }
    }
    assert snap.cables[..|snap.cables|] == snap.cables;
    AdjacencyIsDeclaredPairs(snap, adj);
  }

  /** The `low` table agrees with the low-links of the frames on the stack. */
  ghost predicate LowTable<Id>(low: map<Id, nat>, st: Stack<Id>) {
    st.Level? ==> st.v in low && low[st.v] == st.low && LowTable(low, st.below)
  }

  lemma {:induction false} LowTableExtends<Id>(adj: Adjacency<Id>, R: Rel<Id>, index: map<Id, nat>, low: map<Id, nat>,
          st: Stack<Id>, v: Id, n: nat)
    requires StackInv(adj, R, index, st) && LowTable(low, st) && v !in Members(st)
    ensures LowTable(low[v := n], st)
  {
    if st.Level? {
      assert st.ms[0] in st.ms;
      LowTableExtends(adj, R, index, low, st.below, v, n);
    }
  }

  /** What the search's own variables hold, in terms of the stack they describe. */
  ghost predicate Tables<Id>(index: map<Id, nat>, low: map<Id, nat>, onStack: set<Id>, tstack: seq<Id>,
          work: seq<Frame<Id>>, counter: nat, st: Stack<Id>) {
    && work == Works(st) && tstack == Stacked(st) && onStack == Members(st)
    && LowTable(low, st)
    && (forall x :: x in index ==> index[x] < counter)
    && onStack <= index.Keys
  }

  ghost predicate SearchInv<Id(!new)>(adj: Adjacency<Id>, E: Edges<Id>, R: Rel<Id>, loops: set<Id>,
          index: map<Id, nat>, st: Stack<Id>, inCycle: set<Id>) {
    && StackInv(adj, R, index, st) && DoneClosed(adj, index, st) && Answered(E, loops, index, st, inCycle)
  }

  /** The fixed facts about the graph under search. */
  ghost predicate Setting<Id(!new)>(adj: Adjacency<Id>, E: Edges<Id>, R: Rel<Id>, loops: set<Id>, universe: set<Id>) {
    && EdgesOf(adj, E) && IsReachability(E, R)
    && (forall x :: (x, x) in E ==> x in loops)
    && Within(adj, universe)
  }

  ghost predicate Within<Id>(adj: Adjacency<Id>, universe: set<Id>) {
    forall u, w :: u in adj && w in adj[u] ==> w in universe
  }

  /** Moves left on the stack: every frame's unread successors and its own pop. */
  ghost function Remaining<Id>(adj: Adjacency<Id>, st: Stack<Id>): nat {
    if st.Empty? then 0
    else 1 + (if st.i <= |Succ(adj, st.v)| then |Succ(adj, st.v)| - st.i else 0) + Remaining(adj, st.below)
  }

  /** Pops the top component off the module stack, one module at a time. */
  method PopComponent<Id(==)>(v: Id, tstack0: seq<Id>, onStack0: set<Id>, ghost kept: seq<Id>, ghost ms: seq<Id>)
    returns (tstack: seq<Id>, onStack: set<Id>, comp: seq<Id>)
    requires tstack0 == kept + ms && |ms| > 0 && ms[0] == v && v !in ms[1..]
    ensures tstack == kept && onStack == onStack0 - set x | x in ms
    ensures |comp| == |ms| && forall x :: x in comp <==> x in ms
  {
    tstack, onStack, comp := tstack0, onStack0, [];
    ghost var n := |ms|;
    while true
      invariant 0 < n <= |ms| && tstack == kept + ms[..n]
      invariant onStack == onStack0 - set x | x in ms[n..]
      invariant |comp| == |ms| - n && forall x :: x in comp <==> x in ms[n..]
      decreases n
    {
      var w := tstack[|tstack| - 1];
      tstack := tstack[..|tstack| - 1];
      onStack := onStack - {w};
      comp := comp + [w];
      n := n - 1;
      assert ms[n..] == [w] + ms[n + 1..];
      if w == v {
        break;
      }
    }
    assert ms[0..] == ms;
  }

  lemma TopFrame<Id>(st: Stack<Id>)
    ensures (Works(st) == [] <==> st.Empty?)
    ensures st.Level?
      ==> Works(st)[|Works(st)| - 1] == Frame(st.v, st.i) && Works(st)[..|Works(st)| - 1] == Works(st.below)
  {}

  function Min(a: nat, b: nat): nat {
    if a <= b then a else b
  }

  /** The `low` table once the popped frame's low-link has been offered to its parent. */
  function OfferLow<Id(==)>(low: map<Id, nat>, v: Id, parent: Id): map<Id, nat>
    requires v in low && parent in low
  {
    low[parent := Min(low[parent], low[v])]
  }

  /** The level left on top when the top frame goes: merged into its parent, unless it is a root. */
  ghost function Retreated<Id>(index: map<Id, nat>, st: Stack<Id>): Stack<Id>
    requires st.Level? && st.v in index && (st.low < index[st.v] ==> st.below.Level?)
  {
    if st.low < index[st.v] then Merge(st) else st.below
  }

  lemma RetreatLow<Id(!new)>(adj: Adjacency<Id>, R: Rel<Id>, index: map<Id, nat>, low: map<Id, nat>, st: Stack<Id>)
    requires StackInv(adj, R, index, st) && LowTable(low, st)
    requires st.Level? && st.below.Level?
    ensures st.v in low && st.below.v in low && st.v in index
    ensures LowTable(OfferLow(low, st.v, st.below.v), Retreated(index, st))
  {
    var p := st.below;
    assert p.ms[0] in p.ms;
    LowTableExtends(adj, R, index, low, p.below, p.v, Min(low[p.v], low[st.v]));
  }

  lemma RetreatShape<Id(!new)>(adj: Adjacency<Id>, R: Rel<Id>, index: map<Id, nat>, st: Stack<Id>)
    requires StackInv(adj, R, index, st) && st.Level? && st.i == |Succ(adj, st.v)|
    ensures st.low < index[st.v] ==> st.below.Level?
    ensures Members(Retreated(index, st)) == if st.low < index[st.v] then Members(st)
      else Members(st) - set x | x in st.ms
    ensures Stacked(Retreated(index, st)) == if st.low < index[st.v] then Stacked(st) else Stacked(st.below)
    ensures Works(Retreated(index, st)) == Works(st.below)
    ensures Remaining(adj, Retreated(index, st)) < Remaining(adj, st)
  {
    if st.low < index[st.v] {
      var p := st.below;
      assert st.lowAt in Members(p);
      assert Merge(st).below == p.below && Merge(st).ms == p.ms + st.ms && Merge(st).i == p.i;
      assert Stacked(Merge(st)) == Stacked(p.below) + p.ms + st.ms;
    } else {
      assert forall x :: x in st.ms ==> x !in Members(st.below);
    }
  }

  lemma RetreatKeeps<Id(!new)>(adj: Adjacency<Id>, E: Edges<Id>, R: Rel<Id>, loops: set<Id>, universe: set<Id>,
          index: map<Id, nat>, st: Stack<Id>, inCycle: set<Id>)
    requires Setting(adj, E, R, loops, universe) && SearchInv(adj, E, R, loops, index, st, inCycle)
    requires st.Level? && st.i == |Succ(adj, st.v)|
    ensures st.low < index[st.v] ==> st.below.Level?
    ensures var inCycle' := if st.low < index[st.v] then inCycle else inCycle + Cyclic(st.ms);
      SearchInv(adj, E, R, loops, index, Retreated(index, st), inCycle')
  {
    if st.low < index[st.v] {
      ReachabilityIsPreorder(E, R);
      MergeKeeps(adj, E, R, index, st);
    } else {
      PopKeeps(adj, R, index, st);
      PopAnswers(adj, E, R, loops, index, st, inCycle);
    }
  }

  /** One exhausted frame leaves the work list, closing its component if it is a root. */
  method Retreat<Id(==, !new)>(ghost adj: Adjacency<Id>, ghost R: Rel<Id>, index: map<Id, nat>, ghost counter: nat,
                               low0: map<Id, nat>, onStack0: set<Id>, tstack0: seq<Id>,
                               work0: seq<Frame<Id>>, inCycle0: set<Id>, ghost st0: Stack<Id>)
    returns (low: map<Id, nat>, onStack: set<Id>, tstack: seq<Id>, work: seq<Frame<Id>>, inCycle: set<Id>)
    requires StackInv(adj, R, index, st0) && st0.Level? && st0.i == |Succ(adj, st0.v)|
    requires Tables(index, low0, onStack0, tstack0, work0, counter, st0)
    ensures st0.low < index[st0.v] ==> st0.below.Level?
    ensures Tables(index, low, onStack, tstack, work, counter, Retreated(index, st0))
    ensures inCycle == if st0.low < index[st0.v] then inCycle0 else inCycle0 + Cyclic(st0.ms)
  {
    RetreatShape(adj, R, index, st0);
    low, onStack, tstack, inCycle := low0, onStack0, tstack0, inCycle0;
    TopFrame(st0);
    var frame := work0[|work0| - 1];
    if low[frame.v] == index[frame.v] {
      var comp;
      tstack, onStack, comp := PopComponent(frame.v, tstack0, onStack0, Stacked(st0.below), st0.ms);
      if |comp| > 1 {
        inCycle := inCycle + set c | c in comp;
      }
      assert inCycle == inCycle0 + Cyclic(st0.ms);
    }
    work := work0[..|work0| - 1];
    TopFrame(st0.below);
    if |work| > 0 {
      var parent := work[|work| - 1];
      RetreatLow(adj, R, index, low0, st0);
      low := OfferLow(low, frame.v, parent.v);
    }
  }

  /** Looking at an undiscovered successor `w`: the cursor moves on and `w` gets a level. */
  lemma DiscoverNext<Id(!new)>(adj: Adjacency<Id>, E: Edges<Id>, R: Rel<Id>, loops: set<Id>, universe: set<Id>,
          index: map<Id, nat>, counter: nat, st: Stack<Id>, inCycle: set<Id>)
    requires Setting(adj, E, R, loops, universe) && SearchInv(adj, E, R, loops, index, st, inCycle)
    requires Members(st) <= index.Keys && forall x :: x in index ==> index[x] < counter
    requires st.Level? && st.i < |Succ(adj, st.v)| && Succ(adj, st.v)[st.i] !in index
    ensures var w := Succ(adj, st.v)[st.i];
      SearchInv(adj, E, R, loops, index[w := counter], Discover(Bump(st), w, counter), inCycle)
  {
    var w := Succ(adj, st.v)[st.i];
    var index' := index[w := counter];
    StackInvExtends(adj, R, index, index', st);
    BumpKeeps(adj, R, index', st);
    ReachabilityIsPreorder(E, R);
  }

  /** The stack after looking at a successor `w` discovered earlier. */
  ghost function LookAgain<Id>(index: map<Id, nat>, st: Stack<Id>, w: Id): Stack<Id>
    requires st.Level? && w in index
  {
    Bump(if w in Members(st) && index[w] < st.low then Lower(st, w, index[w]) else st)
  }

  lemma LookAgainKeeps<Id(!new)>(adj: Adjacency<Id>, E: Edges<Id>, R: Rel<Id>, loops: set<Id>, universe: set<Id>,
          index: map<Id, nat>, st: Stack<Id>, inCycle: set<Id>)
    requires Setting(adj, E, R, loops, universe) && SearchInv(adj, E, R, loops, index, st, inCycle)
    requires st.Level? && st.i < |Succ(adj, st.v)| && Succ(adj, st.v)[st.i] in index
    ensures SearchInv(adj, E, R, loops, index, LookAgain(index, st, Succ(adj, st.v)[st.i]), inCycle)
  {
    var w := Succ(adj, st.v)[st.i];
    if w in Members(st) && index[w] < st.low {
      ReachEdge(E, st.v, w);
      LowerKeeps(adj, R, index, st, w);
      BumpKeeps(adj, R, index, Lower(st, w, index[w]));
    } else {
      BumpKeeps(adj, R, index, st);
    }
  }

  /** Whether the top frame still has a successor to look at. */
  ghost predicate HasNext<Id>(adj: Adjacency<Id>, st: Stack<Id>) {
    st.Level? && st.i < |Succ(adj, st.v)|
  }

  ghost function NextIndex<Id>(adj: Adjacency<Id>, index: map<Id, nat>, counter: nat, st: Stack<Id>): map<Id, nat> {
    if HasNext(adj, st) && Succ(adj, st.v)[st.i] !in index then index[Succ(adj, st.v)[st.i] := counter] else index
  }

  /** What one turn of the search does to the stack. */
  ghost function NextStack<Id>(adj: Adjacency<Id>, index: map<Id, nat>, counter: nat, st: Stack<Id>): Stack<Id>
    requires st.Level? && st.v in index && (st.low < index[st.v] ==> st.below.Level?)
  {
    if !HasNext(adj, st) then Retreated(index, st)
    else
      var w := Succ(adj, st.v)[st.i];
      if w in index then LookAgain(index, st, w) else Discover(Bump(st), w, counter)
  }

  ghost function NextAnswer<Id>(adj: Adjacency<Id>, index: map<Id, nat>, st: Stack<Id>, inCycle: set<Id>): set<Id>
    requires st.Level? && st.v in index
  {
    if HasNext(adj, st) || st.low < index[st.v] then inCycle else inCycle + Cyclic(st.ms)
  }

  /** One turn of the search on the top frame: look at its next successor, or retreat. */
  method Turn<Id(==, !new)>(adj: Adjacency<Id>, ghost R: Rel<Id>,
                            index0: map<Id, nat>, low0: map<Id, nat>, onStack0: set<Id>, tstack0: seq<Id>,
                            work0: seq<Frame<Id>>, counter0: nat, inCycle0: set<Id>, ghost st0: Stack<Id>)
    returns (index: map<Id, nat>, low: map<Id, nat>, onStack: set<Id>, tstack: seq<Id>,
             work: seq<Frame<Id>>, counter: nat, inCycle: set<Id>)
    requires StackInv(adj, R, index0, st0) && st0.Level? && (st0.low < index0[st0.v] ==> st0.below.Level?)
    requires Tables(index0, low0, onStack0, tstack0, work0, counter0, st0)
    ensures index == NextIndex(adj, index0, counter0, st0)
    ensures inCycle == NextAnswer(adj, index0, st0, inCycle0)
    ensures Tables(index, low, onStack, tstack, work, counter, NextStack(adj, index0, counter0, st0))
  {
    index, low, onStack, tstack, work, counter, inCycle := index0, low0, onStack0, tstack0, work0, counter0, inCycle0;
    TopFrame(st0);
    var k := |work| - 1;
    var frame := work[k];
    var neighbors := Succ(adj, frame.v);
    if frame.i < |neighbors| {
      var w := neighbors[frame.i];
      work := work[k := Frame(frame.v, frame.i + 1)];
      assert work == Works(Bump(st0));
      if w !in index {
        index := index[w := counter];
        low := low[w := counter];
        counter := counter + 1;
        tstack := tstack + [w];
        onStack := onStack + {w};
        work := work + [Frame(w, 0)];
        LowTableExtends(adj, R, index0, low0, st0, w, counter0);
      } else if w in onStack {
        assert st0.v in st0.ms;
        LowTableExtends(adj, R, index0, low0, st0.below, st0.v, Min(low[frame.v], index[w]));
        low := low[frame.v := Min(low[frame.v], index[w])];
      }
    } else {
      low, onStack, tstack, work, inCycle := Retreat(adj, R, index0, counter0, low0, onStack0, tstack0, work0,
        inCycle0, st0);
    }
  }

  lemma TurnKeeps<Id(!new)>(adj: Adjacency<Id>, E: Edges<Id>, R: Rel<Id>, loops: set<Id>, universe: set<Id>,
          index: map<Id, nat>, counter: nat, st: Stack<Id>, inCycle: set<Id>)
    requires Setting(adj, E, R, loops, universe) && SearchInv(adj, E, R, loops, index, st, inCycle) && st.Level?
    requires Members(st) <= index.Keys && forall x :: x in index ==> index[x] < counter
    ensures st.low < index[st.v] ==> st.below.Level?
    ensures SearchInv(adj, E, R, loops, NextIndex(adj, index, counter, st), NextStack(adj, index, counter, st),
      NextAnswer(adj, index, st, inCycle))
  {
    if !HasNext(adj, st) {
      RetreatKeeps(adj, E, R, loops, universe, index, st, inCycle);
    } else if Succ(adj, st.v)[st.i] in index {
      LookAgainKeeps(adj, E, R, loops, universe, index, st, inCycle);
    } else {
      DiscoverNext(adj, E, R, loops, universe, index, counter, st, inCycle);
    }
  }

  /** Every turn either discovers a module or leaves less to do on the stack. */
  lemma TurnProgress<Id(!new)>(adj: Adjacency<Id>, R: Rel<Id>, universe: set<Id>, index: map<Id, nat>, counter: nat,
          st: Stack<Id>)
    requires StackInv(adj, R, index, st) && st.Level? && (st.low < index[st.v] ==> st.below.Level?)
    requires Within(adj, universe) && index.Keys <= universe
    ensures var index' := NextIndex(adj, index, counter, st);
      index.Keys <= index'.Keys <= universe &&
      (|universe - index'.Keys| < |universe - index.Keys| ||
       (index' == index && Remaining(adj, NextStack(adj, index, counter, st)) < Remaining(adj, st)))
  {
    if !HasNext(adj, st) {
      RetreatShape(adj, R, index, st);
    } else {
      var w := Succ(adj, st.v)[st.i];
      if w !in index {
        assert universe - index.Keys == (universe - NextIndex(adj, index, counter, st).Keys) + {w};
      }
    }
  }

  /** One turn, with everything the search relies on carried over and progress made. */
  method Step<Id(==, !new)>(adj: Adjacency<Id>, ghost E: Edges<Id>, ghost R: Rel<Id>,
                            ghost loops: set<Id>, ghost universe: set<Id>,
                            index0: map<Id, nat>, low0: map<Id, nat>, onStack0: set<Id>, tstack0: seq<Id>,
                            work0: seq<Frame<Id>>, counter0: nat, inCycle0: set<Id>, ghost st0: Stack<Id>)
    returns (index: map<Id, nat>, low: map<Id, nat>, onStack: set<Id>, tstack: seq<Id>,
             work: seq<Frame<Id>>, counter: nat, inCycle: set<Id>, ghost st: Stack<Id>)
    requires Setting(adj, E, R, loops, universe) && SearchInv(adj, E, R, loops, index0, st0, inCycle0)
    requires Tables(index0, low0, onStack0, tstack0, work0, counter0, st0) && work0 != [] && index0.Keys <= universe
    ensures SearchInv(adj, E, R, loops, index, st, inCycle)
    ensures Tables(index, low, onStack, tstack, work, counter, st)
    ensures index0.Keys <= index.Keys <= universe
    ensures |universe - index.Keys| < |universe - index0.Keys|
      || (index == index0 && Remaining(adj, st) < Remaining(adj, st0))
  {
    TopFrame(st0);
    TurnKeeps(adj, E, R, loops, universe, index0, counter0, st0, inCycle0);
    TurnProgress(adj, R, universe, index0, counter0, st0);
    st := NextStack(adj, index0, counter0, st0);
    index, low, onStack, tstack, work, counter, inCycle :=
      Turn(adj, R, index0, low0, onStack0, tstack0, work0, counter0, inCycle0, st0);
  }

  lemma StartKeeps<Id(!new)>(adj: Adjacency<Id>, E: Edges<Id>, R: Rel<Id>, loops: set<Id>, universe: set<Id>,
          start: Id, index: map<Id, nat>, counter: nat, inCycle: set<Id>)
    requires Setting(adj, E, R, loops, universe) && SearchInv(adj, E, R, loops, index, Empty, inCycle)
      && start !in index
    ensures SearchInv(adj, E, R, loops, index[start := counter], Discover(Empty, start, counter), inCycle)
  {
    ReachabilityIsPreorder(E, R);
  }

  /** Turns of the search until the work list is empty. */
  method Run<Id(==, !new)>(adj: Adjacency<Id>, ghost E: Edges<Id>, ghost R: Rel<Id>,
                           ghost loops: set<Id>, ghost universe: set<Id>,
                           index0: map<Id, nat>, low0: map<Id, nat>, onStack0: set<Id>, tstack0: seq<Id>,
                           work0: seq<Frame<Id>>, counter0: nat, inCycle0: set<Id>, ghost st0: Stack<Id>)
    returns (index: map<Id, nat>, low: map<Id, nat>, onStack: set<Id>, tstack: seq<Id>,
             counter: nat, inCycle: set<Id>, ghost st: Stack<Id>)
    requires Setting(adj, E, R, loops, universe) && SearchInv(adj, E, R, loops, index0, st0, inCycle0)
    requires Tables(index0, low0, onStack0, tstack0, work0, counter0, st0) && index0.Keys <= universe
    ensures SearchInv(adj, E, R, loops, index, st, inCycle) && Tables(index, low, onStack, tstack, [], counter, st)
    ensures index0.Keys <= index.Keys <= universe
  {
    index, low, onStack, tstack, counter, inCycle, st := index0, low0, onStack0, tstack0, counter0, inCycle0, st0;
    var work := work0;
    while |work| > 0
      invariant SearchInv(adj, E, R, loops, index, st, inCycle)
      invariant Tables(index, low, onStack, tstack, work, counter, st)
      invariant index0.Keys <= index.Keys <= universe
      decreases |universe - index.Keys|, Remaining(adj, st)
    {
      index, low, onStack, tstack, work, counter, inCycle, st :=
        Step(adj, E, R, loops, universe, index, low, onStack, tstack, work, counter, inCycle, st);
    }
  }

  /** The search from one undiscovered module. */
  method SearchFrom<Id(==, !new)>(adj: Adjacency<Id>, ghost E: Edges<Id>, ghost R: Rel<Id>,
                                  ghost loops: set<Id>, ghost universe: set<Id>, start: Id,
                                  index0: map<Id, nat>, low0: map<Id, nat>, onStack0: set<Id>, tstack0: seq<Id>,
                                    counter0: nat, inCycle0: set<Id>)
    returns (index: map<Id, nat>, low: map<Id, nat>, onStack: set<Id>, tstack: seq<Id>, counter: nat, inCycle: set<Id>)
    requires Setting(adj, E, R, loops, universe) && SearchInv(adj, E, R, loops, index0, Empty, inCycle0)
    requires Tables(index0, low0, onStack0, tstack0, [], counter0, Empty)
    requires start !in index0 && start in universe && index0.Keys <= universe
    ensures SearchInv(adj, E, R, loops, index, Empty, inCycle)
    ensures Tables(index, low, onStack, tstack, [], counter, Empty)
    ensures index0.Keys + {start} <= index.Keys <= universe
  {
    index, low, counter := index0[start := counter0], low0[start := counter0], counter0 + 1;
    tstack, onStack, inCycle := tstack0 + [start], onStack0 + {start}, inCycle0;
    var work := [Frame(start, 0)];
    ghost var st := Discover(Empty, start, counter0);
    StartKeeps(adj, E, R, loops, universe, start, index0, counter0, inCycle0);
    index, low, onStack, tstack, counter, inCycle, st :=
      Run(adj, E, R, loops, universe, index, low, onStack, tstack, work, counter, inCycle, st);
    TopFrame(st);
  }

  lemma FinalAnswer<Id(!new)>(snap: Snapshot<Id>, adj: Adjacency<Id>, selfLoop: set<Id>, index: map<Id, nat>,
          inCycle: set<Id>)
    requires SearchInv(adj, DeclaredPairs(snap), Reachability(DeclaredPairs(snap)), selfLoop, index, Empty, inCycle)
    requires Declared(snap) <= index.Keys
    requires forall x :: x in selfLoop <==> (x, x) in JoinedPairs(snap.cables)
    ensures forall x :: x in inCycle <==> (x, x) in JoinedPairs(snap.cables) || OnCycle(DeclaredPairs(snap), x)
    ensures EndpointsResolve(snap) ==> forall x :: x in inCycle <==> OnCycle(JoinedPairs(snap.cables), x)
  {
    var E := DeclaredPairs(snap);
    forall x | OnCycle(E, x)
      ensures x in inCycle
    {
      CycleFirstEdge(E, x);
    }
    if EndpointsResolve(snap) {
      assert E == JoinedPairs(snap.cables);
      forall x | (x, x) in E
        ensures OnCycle(E, x)
      {
        assert WalkFromTo(E, [x, x], x, x);
      }
    }
  }

  /** The search can begin: nothing is indexed, and only the self-loops are answered. */
  lemma NothingSearched<Id(!new)>(snap: Snapshot<Id>, adj: Adjacency<Id>, selfLoop: set<Id>, universe: set<Id>)
    requires EdgesOf(adj, DeclaredPairs(snap)) && Within(adj, universe)
    requires forall x :: x in selfLoop <==> (x, x) in JoinedPairs(snap.cables)
    ensures var E := DeclaredPairs(snap);
      && Setting(adj, E, Reachability(E), selfLoop, universe)
      && SearchInv(adj, E, Reachability(E), selfLoop, map[], Empty, selfLoop)
    ensures Tables<Id>(map[], map[], {}, [], [], 0, Empty)
  {}

  /** The feedback modules of a patch: exactly those with a cable back into themselves,
      or with a cable path back to themselves through declared modules. */
  method ModulesInCycles<Id(==, !new)>(snap: Snapshot<Id>) returns (inCycle: set<Id>)
    ensures forall x :: x in inCycle <==> (x, x) in JoinedPairs(snap.cables) || OnCycle(DeclaredPairs(snap), x)
    ensures EndpointsResolve(snap) ==> forall x :: x in inCycle <==> OnCycle(JoinedPairs(snap.cables), x)
  {
    hide EdgesOf, DeclaredPairs, JoinedPairs, Reachability, Setting, SearchInv, Tables, EndpointsResolve, OnCycle;
    var adj, selfLoop := BuildAdjacency(snap);
    var index: map<Id, nat>, low: map<Id, nat> := map[], map[];
    var onStack: set<Id>, tstack: seq<Id> := {}, [];
    var counter := 0;
    inCycle := selfLoop;
    ghost var E := DeclaredPairs(snap);
    ghost var R := Reachability(E);
    ghost var universe := Declared(snap) + set u, w | u in adj && w in adj[u] :: w;
    NothingSearched(snap, adj, selfLoop, universe);
    for k := 0 to |snap.modules|
      invariant SearchInv(adj, E, R, selfLoop, index, Empty, inCycle)
      invariant Tables(index, low, onStack, tstack, [], counter, Empty)
      invariant index.Keys <= universe
      invariant forall m :: m in snap.modules[..k] ==> m.moduleId in index
    {
      var start := snap.modules[k].moduleId;
      assert snap.modules[..k + 1] == snap.modules[..k] + [snap.modules[k]];
      if start !in index {
        index, low, onStack, tstack, counter, inCycle :=
          SearchFrom(adj, E, R, selfLoop, universe, start, index, low, onStack, tstack, counter, inCycle);
      }
    }
    assert snap.modules[..|snap.modules|] == snap.modules;
    FinalAnswer(snap, adj, selfLoop, index, inCycle);
  }

  /** Why endpoints must resolve: a cable path that leaves the declared modules and
      comes back is a cycle the search does not see. */
  lemma DanglingCableHidesCycle()
    ensures var snap := Snapshot([PatchModule(1, "Fundamental", "VCO")],
      [Cable(10, 1, 0, 2, 0), Cable(11, 2, 0, 1, 0)]);
      OnCycle(JoinedPairs(snap.cables), 1) && !OnCycle(DeclaredPairs(snap), 1) && (1, 1) !in JoinedPairs(snap.cables)
  {
    var there, back := Cable(10, 1, 0, 2, 0), Cable(11, 2, 0, 1, 0);
    var snap := Snapshot([PatchModule(1, "Fundamental", "VCO")], [there, back]);
    var E := JoinedPairs(snap.cables);
    assert there in snap.cables && back in snap.cables;
    assert (1, 2) in E && (2, 1) in E;
    assert WalkFromTo(E, [1, 2, 1], 1, 1);
    var D := DeclaredPairs(snap);
    if OnCycle(D, 1) {
      CycleFirstEdge(D, 1);
      ClosedUnderReach(D, {2}, 2, 1);
    }
  }
}
