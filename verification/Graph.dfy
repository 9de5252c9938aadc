/** Patch cables as a directed graph: walks, reachability and cycles. Signal
    flows along a cable from its output module to its input module. Module ids
    are a type parameter: nothing in the analysis looks inside an id. */
module Graph {
  import opened Basics

  datatype Cable<Id> = Cable(cableId: Id, outputModuleId: Id, outputId: nat, inputModuleId: Id, inputId: nat)

  datatype PatchModule<Id> = PatchModule(moduleId: Id, pluginSlug: string, modelSlug: string)

  /** The part of a patch snapshot that the graph analysis reads. */
  datatype Snapshot<Id> = Snapshot(modules: seq<PatchModule<Id>>, cables: seq<Cable<Id>>)

  type Edges<!Id(==)> = set<(Id, Id)>

  /** The module pairs joined by at least one of `cables`. */
  ghost function JoinedPairs<Id>(cables: seq<Cable<Id>>): Edges<Id> {
    set c | c in cables :: (c.outputModuleId, c.inputModuleId)
  }

  lemma JoinedPairsPush<Id>(cables: seq<Cable<Id>>, c: Cable<Id>)
    ensures JoinedPairs(cables + [c]) == JoinedPairs(cables) + {(c.outputModuleId, c.inputModuleId)}
  {
    assert forall d :: d in cables + [c] <==> d in cables || d == c;
  }

  ghost predicate IsWalk<Id>(E: Edges<Id>, p: seq<Id>) {
    |p| > 0 && forall i :: 0 <= i < |p| - 1 ==> (p[i], p[i + 1]) in E
  }

  ghost predicate WalkFromTo<Id>(E: Edges<Id>, p: seq<Id>, u: Id, v: Id) {
    IsWalk(E, p) && p[0] == u && p[|p| - 1] == v
  }

  ghost predicate Reach<Id(!new)>(E: Edges<Id>, u: Id, v: Id) {
    exists p :: WalkFromTo(E, p, u, v)
  }

  /** `x` has a walk of at least one edge back to itself. */
  ghost predicate OnCycle<Id(!new)>(E: Edges<Id>, x: Id) {
    exists p :: WalkFromTo(E, p, x, x) && |p| >= 2
  }

  ghost predicate Acyclic<Id(!new)>(E: Edges<Id>) {
    forall x :: !OnCycle(E, x)
  }

  lemma ReachSelf<Id(!new)>(E: Edges<Id>, u: Id)
    ensures Reach(E, u, u)
  {
    assert WalkFromTo(E, [u], u, u);
  }

  lemma ReachEdge<Id(!new)>(E: Edges<Id>, u: Id, v: Id)
    requires (u, v) in E
    ensures Reach(E, u, v)
  {
    assert WalkFromTo(E, [u, v], u, v);
  }

  lemma JoinWalks<Id>(E: Edges<Id>, p: seq<Id>, q: seq<Id>, u: Id, v: Id, w: Id)
    requires WalkFromTo(E, p, u, v) && WalkFromTo(E, q, v, w)
    ensures WalkFromTo(E, p + q[1..], u, w)
  {
    var r := p + q[1..];
    forall i | 0 <= i < |r| - 1
      ensures (r[i], r[i + 1]) in E
    {
      if i >= |p| - 1 {
        assert r[i] == q[i - |p| + 1] && r[i + 1] == q[i - |p| + 2];
      }
    }
  }

  lemma ReachTrans<Id(!new)>(E: Edges<Id>, u: Id, v: Id, w: Id)
    requires Reach(E, u, v) && Reach(E, v, w)
    ensures Reach(E, u, w)
  {
    var p :| WalkFromTo(E, p, u, v);
    var q :| WalkFromTo(E, q, v, w);
    JoinWalks(E, p, q, u, v, w);
  }

  /** A cycle through `x` is an edge out of `x` whose target reaches `x`. */
  lemma CycleFirstEdge<Id(!new)>(E: Edges<Id>, x: Id)
    ensures OnCycle(E, x) <==> exists y :: (x, y) in E && Reach(E, y, x)
  {
    if OnCycle(E, x) {
      var p :| WalkFromTo(E, p, x, x) && |p| >= 2;
      assert (p[0], p[1]) in E;
      var q := p[1..];
      forall i | 0 <= i < |q| - 1
        ensures (q[i], q[i + 1]) in E
      {
        assert (p[i + 1], p[i + 2]) in E;
      }
      assert WalkFromTo(E, q, p[1], x);
    }
    if exists y :: (x, y) in E && Reach(E, y, x) {
      var y :| (x, y) in E && Reach(E, y, x);
      var q :| WalkFromTo(E, q, y, x);
      assert WalkFromTo(E, [x, y], x, y);
      JoinWalks(E, [x, y], q, x, y, x);
    }
  }

  /** A set that every edge stays inside keeps every walk inside as well. */
  lemma ClosedUnderReach<Id(!new)>(E: Edges<Id>, S: set<Id>, u: Id, v: Id)
    requires forall a, b :: (a, b) in E && a in S ==> b in S
    requires u in S && Reach(E, u, v)
    ensures v in S
  {
    var p :| WalkFromTo(E, p, u, v);
    var k := 0;
    while k < |p| - 1
      invariant 0 <= k < |p| && p[k] in S
    {
      assert (p[k], p[k + 1]) in E;
      k := k + 1;
    }
  }

  /** A set that every edge into it starts inside holds everything that reaches it. */
  lemma ClosedUnderReachedFrom<Id(!new)>(E: Edges<Id>, S: set<Id>, u: Id, v: Id)
    requires forall a, b :: (a, b) in E && b in S ==> a in S
    requires v in S && Reach(E, u, v)
    ensures u in S
  {
    var p :| WalkFromTo(E, p, u, v);
    var k := |p| - 1;
    while k > 0
      invariant 0 <= k < |p| && p[k] in S
    {
      assert (p[k - 1], p[k]) in E;
      k := k - 1;
    }
  }

  /** Reachability as a relation, so that proofs can use it without its walks. */
  type Rel<!Id(==)> = iset<(Id, Id)>

  ghost predicate IsReachability<Id(!new)>(E: Edges<Id>, R: Rel<Id>) {
    forall u, v :: (u, v) in R <==> Reach(E, u, v)
  }

  ghost predicate Preorder<Id(!new)>(E: Edges<Id>, R: Rel<Id>) {
    && (forall u :: (u, u) in R)
    && (forall u, v :: (u, v) in E ==> (u, v) in R)
    && (forall u, v, w :: (u, v) in R && (v, w) in R ==> (u, w) in R)
  }

  ghost function Reachability<Id(!new)>(E: Edges<Id>): (R: Rel<Id>)
    ensures IsReachability(E, R)
  {
    iset u, v | Reach(E, u, v) :: (u, v)
  }

  lemma ReachabilityIsPreorder<Id(!new)>(E: Edges<Id>, R: Rel<Id>)
    requires IsReachability(E, R)
    ensures Preorder(E, R)
  {
    forall u ensures (u, u) in R {
      ReachSelf(E, u);
    }
    forall u, v | (u, v) in E ensures (u, v) in R {
      ReachEdge(E, u, v);
    }
    forall u, v, w | (u, v) in R && (v, w) in R ensures (u, w) in R {
      ReachTrans(E, u, v, w);
    }
  }
}
