/** What feeds an audio destination: reverse reachability over the cables, and the
    description of it as one headline path plus the remaining module pairs. */
module SignalFlow {
  import opened Basics
  import opened Graph
  import opened LongestPath
  import opened DecimalIds

  // ----- the cables into each module -----

  function CablesTo<Id(==)>(cables: seq<Cable<Id>>, v: Id): seq<Cable<Id>> {
    if cables == [] then []
    else
      var c := cables[|cables| - 1];
      CablesTo(cables[..|cables| - 1], v) + if c.inputModuleId == v then [c] else []
  }

  lemma {:induction false} CablesToAreEdges<Id>(cables: seq<Cable<Id>>, v: Id)
    ensures forall u :: (u, v) in JoinedPairs(cables) <==> exists c :: c in CablesTo(cables, v) && c.outputModuleId == u
  {
    if cables != [] {
      var rest, last := cables[..|cables| - 1], cables[|cables| - 1];
      CablesToAreEdges(rest, v);
      assert cables == rest + [last];
      JoinedPairsPush(rest, last);
      assert forall c :: c in CablesTo(cables, v) <==> c in CablesTo(rest, v) || (c == last && last.inputModuleId == v);
    }
  }

  method BuildIncoming<Id(==, !new)>(cables: seq<Cable<Id>>) returns (incoming: Incoming<Id>)
    ensures EdgesInto(incoming, JoinedPairs(cables))
  {
    incoming := map[];
    for k := 0 to |cables|
      invariant forall v :: CablesInto(incoming, v) == CablesTo(cables[..k], v)
    {
      var c := cables[k];
      assert cables[..k + 1][..k] == cables[..k] && cables[..k + 1][k] == c;
      if c.inputModuleId in incoming {
        incoming := incoming[c.inputModuleId := incoming[c.inputModuleId] + [c]];
      } else {
        incoming := incoming[c.inputModuleId := [c]];
      }
    }
    assert cables[..|cables|] == cables;
    forall u, v
      ensures (u, v) in JoinedPairs(cables) <==> exists c :: c in CablesInto(incoming, v) && c.outputModuleId == u
    {
      CablesToAreEdges(cables, v);
    }
  }

  // ----- reverse reachability -----

  ghost predicate Feeds<Id(!new)>(E: Edges<Id>, starts: seq<Id>, x: Id) {
    exists d :: d in starts && Reach(E, x, d)
  }

  /** `F` holds the starts and, with any module, every source of a cable into it. */
  ghost predicate BackClosed<Id(!new)>(E: Edges<Id>, starts: seq<Id>, F: set<Id>) {
    (forall d :: d in starts ==> d in F) && (forall u, v :: (u, v) in E && v in F ==> u in F)
  }

  ghost function FeedingSet<Id(!new)>(E: Edges<Id>, starts: seq<Id>): set<Id> {
    set x | x in (set d | d in starts) + Sources(E) && Feeds(E, starts, x)
  }

  lemma FeedingSetIsBackClosed<Id(!new)>(E: Edges<Id>, starts: seq<Id>)
    ensures BackClosed(E, starts, FeedingSet(E, starts))
  {
    forall d | d in starts ensures Feeds(E, starts, d) {
      ReachSelf(E, d);
    }
    forall u, v | (u, v) in E && Feeds(E, starts, v) ensures Feeds(E, starts, u) && u in Sources(E) {
      var d :| d in starts && Reach(E, v, d);
      ReachEdge(E, u, v);
      ReachTrans(E, u, v, d);
    }
  }

  /** What the search keeps true: nothing reached or stacked is outside `F`, and what
      feeds a reached module is reached or stacked. */
  ghost predicate Searching<Id(!new)>(E: Edges<Id>, starts: seq<Id>, F: set<Id>, reached: set<Id>, stack: seq<Id>) {
    && (forall d :: d in starts ==> d in reached || d in stack)
    && (forall u, v :: (u, v) in E && v in reached ==> u in reached || u in stack)
    && reached <= F
    && (forall x :: x in stack ==> x in F)
  }

  lemma SearchDone<Id(!new)>(E: Edges<Id>, starts: seq<Id>, reached: set<Id>)
    requires Searching(E, starts, FeedingSet(E, starts), reached, [])
    ensures forall x :: x in reached <==> Feeds(E, starts, x)
  {
    forall x | Feeds(E, starts, x)
      ensures x in reached
    {
      var d :| d in starts && Reach(E, x, d);
      ClosedUnderReachedFrom(E, reached, x, d);
    }
  }

  method Search<Id(==, !new)>(starts: seq<Id>, incoming: Incoming<Id>, ghost E: Edges<Id>,
          ghost F: set<Id>) returns (reached: set<Id>)
    requires EdgesInto(incoming, E) && BackClosed(E, starts, F)
    ensures Searching(E, starts, F, reached, [])
  {
    reached := {};
    var stack := starts;
    while |stack| > 0
      invariant Searching(E, starts, F, reached, stack)
      decreases |F - reached|, |stack|
    {
      var id := stack[|stack| - 1];
      var rest := stack[..|stack| - 1];
      assert stack == rest + [id];
      stack := rest;
      if id !in reached {
        stack := PushSources(id, incoming, E, rest);
      }
      reached := reached + {id};
    }
  }

  /** The modules from which signal reaches one of `starts`: exactly those with a cable
      path to it, the starts themselves included. */
  method ModulesFeeding<Id(==, !new)>(starts: seq<Id>, incoming: Incoming<Id>,
          ghost E: Edges<Id>) returns (reached: set<Id>)
    requires EdgesInto(incoming, E)
    ensures forall x :: x in reached <==> Feeds(E, starts, x)
  {
    FeedingSetIsBackClosed(E, starts);
    reached := Search(starts, incoming, E, FeedingSet(E, starts));
    SearchDone(E, starts, reached);
  }

  /** Pushes the source of every cable into `id`. */
  method PushSources<Id(==, !new)>(id: Id, incoming: Incoming<Id>, ghost E: Edges<Id>,
          stack0: seq<Id>) returns (stack: seq<Id>)
    requires EdgesInto(incoming, E)
    ensures forall x :: x in stack <==> x in stack0 || (x, id) in E
  {
    stack := stack0;
    var cables := CablesInto(incoming, id);
    for k := 0 to |cables|
      invariant forall x :: x in stack <==> x in stack0 || exists i :: 0 <= i < k && cables[i].outputModuleId == x
    {
      stack := stack + [cables[k].outputModuleId];
    }
    forall x
      ensures (x, id) in E <==> exists i :: 0 <= i < |cables| && cables[i].outputModuleId == x
    {
      if (x, id) in E {
        var c :| c in cables && c.outputModuleId == x;
      }
    }
  }

  // ----- the description -----

  /** A consecutive pair of the headline path. */
  ghost predicate Step<Id>(path: seq<Id>, u: Id, v: Id) {
    exists i :: 0 < i < |path| && path[i - 1] == u && path[i] == v
  }

  /** The text under which a module pair is remembered. */
  function PairKey(u: string, v: string): string {
    u + "->" + v
  }

  /** Two pairs of ids never share a key: an id holds only digits, so the first dash
      ends the first id. */
  lemma PairKeyInjective(u: string, v: string, u': string, v': string)
    requires HasIdShape(u) && HasIdShape(u')
    ensures PairKey(u, v) == PairKey(u', v') <==> u == u' && v == v'
  {
    var k, k' := PairKey(u, v), PairKey(u', v');
    if k == k' {
      assert k[|u|] == '-' && k'[|u'|] == '-';
      assert u == k[..|u|] && u' == k'[..|u'|];
      assert v == k[|u| + 2..] && v' == k'[|u'| + 2..];
    }
  }

  /** Without the id shape the keys are ambiguous. */
  lemma PairKeyAmbiguousWithoutShape()
    ensures PairKey("1", "2->3") == PairKey("1->2", "3")
  {
    assert PairKey("1", "2->3") == "1->2->3" == PairKey("1->2", "3");
  }

  ghost predicate KeysOf(keys: set<string>, pairs: set<(string, string)>) {
    && (forall e :: e in pairs ==> HasIdShape(e.0) && PairKey(e.0, e.1) in keys)
    && (forall k :: k in keys ==> exists e :: e in pairs && k == PairKey(e.0, e.1))
  }

  lemma KeyLookup(keys: set<string>, pairs: set<(string, string)>, u: string, v: string)
    requires KeysOf(keys, pairs) && HasIdShape(u)
    ensures PairKey(u, v) in keys <==> (u, v) in pairs
  {
    if PairKey(u, v) in keys {
      var e :| e in pairs && PairKey(u, v) == PairKey(e.0, e.1);
      PairKeyInjective(u, v, e.0, e.1);
    }
  }

  ghost predicate IdsHaveShape(cables: seq<Cable<string>>) {
    forall c :: c in cables ==> HasIdShape(c.outputModuleId) && HasIdShape(c.inputModuleId)
  }

  /** The pairs are the first `n - 1` steps of the path. */
  ghost predicate FirstSteps(path: seq<string>, n: int, steps: set<(string, string)>) {
    forall u, v :: (u, v) in steps <==> exists k :: 0 < k < n && k < |path| && path[k - 1] == u && path[k] == v
  }

  lemma OneMoreStep(path: seq<string>, n: nat, steps: set<(string, string)>)
    requires 0 < n < |path| && FirstSteps(path, n, steps)
    ensures FirstSteps(path, n + 1, steps + {(path[n - 1], path[n])})
  {}

  lemma NoStepsYet(path: seq<string>)
    ensures KeysOf({}, {}) && FirstSteps(path, 1, {})
  {}

  lemma AllSteps(path: seq<string>, n: nat, steps: set<(string, string)>)
    requires FirstSteps(path, n, steps) && |path| <= n
    ensures forall u, v :: (u, v) in steps <==> Step(path, u, v)
  {}

  /** The keys of the headline path's steps. */
  method PathKeys(path: seq<string>) returns (onPath: set<string>, ghost steps: set<(string, string)>)
    requires forall i :: 0 <= i < |path| ==> HasIdShape(path[i])
    ensures KeysOf(onPath, steps) && forall u, v :: (u, v) in steps <==> Step(path, u, v)
  {
    hide KeysOf, FirstSteps, PairKey, Step;
    onPath, steps := {}, {};
    NoStepsYet(path);
    var i := 1;
    while i < |path|
      invariant 1 <= i && KeysOf(onPath, steps) && FirstSteps(path, i, steps)
    {
      KeysOfAdd(onPath, steps, path[i - 1], path[i]);
      OneMoreStep(path, i, steps);
      onPath := onPath + {PairKey(path[i - 1], path[i])};
      steps := steps + {(path[i - 1], path[i])};
      i := i + 1;
    }
    AllSteps(path, i, steps);
  }

  lemma KeysOfAdd(keys: set<string>, pairs: set<(string, string)>, u: string, v: string)
    requires KeysOf(keys, pairs) && HasIdShape(u)
    ensures KeysOf(keys + {PairKey(u, v)}, pairs + {(u, v)})
  {
    forall k | k in keys + {PairKey(u, v)}
      ensures exists e :: e in pairs + {(u, v)} && k == PairKey(e.0, e.1)
    {
      if k in keys {
        var e :| e in pairs && k == PairKey(e.0, e.1);
        assert e in pairs + {(u, v)};
      } else {
        assert (u, v) in pairs + {(u, v)};
      }
    }
  }

  /** The module pairs joined by a cable inside `ancestors` that are not steps of `path`,
      each listed once. */
  method Extras(cables: seq<Cable<string>>, ancestors: set<string>,
          path: seq<string>) returns (extras: seq<(string, string)>)
    requires IdsHaveShape(cables) && forall i :: 0 <= i < |path| ==> HasIdShape(path[i])
    ensures NoRepeats(extras)
    ensures forall u, v :: (u, v) in extras <==>
      (u, v) in JoinedPairs(cables) && u in ancestors && v in ancestors && !Step(path, u, v)
  {
    extras := [];
    var seenPair;
    ghost var steps;
    seenPair, steps := PathKeys(path);
    ghost var seen := steps;
    for k := 0 to |cables|
      invariant KeysOf(seenPair, seen)
      invariant NoRepeats(extras) && seen == steps + (set e | e in extras) && forall e :: e in extras ==> e !in steps
      invariant forall u, v :: (u, v) in seen <==>
        (u, v) in steps || ((u, v) in JoinedPairs(cables[..k]) && u in ancestors && v in ancestors)
    {
      var c := cables[k];
      var u, v := c.outputModuleId, c.inputModuleId;
      assert cables[..k + 1] == cables[..k] + [c];
      JoinedPairsPush(cables[..k], c);
      if u in ancestors && v in ancestors {
        var key := PairKey(u, v);
        KeyLookup(seenPair, seen, u, v);
        if key !in seenPair {
          KeysOfAdd(seenPair, seen, u, v);
          seenPair := seenPair + {key};
          seen := seen + {(u, v)};
          extras := extras + [(u, v)];
        }
      }
    }
    assert cables[..|cables|] == cables;
  }

  /** Every module of a walk into `dest` reaches it. */
  lemma WalkFeeds<Id(!new)>(E: Edges<Id>, path: seq<Id>, dest: Id)
    requires IsWalk(E, path) && path[|path| - 1] == dest
    ensures forall i :: 0 <= i < |path| ==> Reach(E, path[i], dest)
  {
    forall i | 0 <= i < |path| ensures Reach(E, path[i], dest) {
      SuffixReaches(E, path, i);
    }
  }

  lemma WalkIdsHaveShape(cables: seq<Cable<string>>, path: seq<string>)
    requires IdsHaveShape(cables) && IsWalk(JoinedPairs(cables), path) && HasIdShape(path[|path| - 1])
    ensures forall i :: 0 <= i < |path| ==> HasIdShape(path[i])
  {
    forall i | 0 <= i < |path| ensures HasIdShape(path[i]) {
      if i < |path| - 1 {
        assert (path[i], path[i + 1]) in JoinedPairs(cables);
      }
    }
  }

  /** The description of what feeds `dest`. Every pair of modules joined by a cable
      among the modules feeding `dest` is told exactly once: as a step of the headline
      path, which repeats no module, or as one extra pair. Nothing else is told. */
  method DescribeDestination(cables: seq<Cable<string>>, dest: string)
    returns (ancestors: set<string>, path: seq<string>, extras: seq<(string, string)>)
    requires IdsHaveShape(cables) && HasIdShape(dest)
    ensures forall x :: x in ancestors <==> Reach(JoinedPairs(cables), x, dest)
    ensures SimplePathTo(JoinedPairs(cables), path, dest) && forall i :: 0 <= i < |path| ==> path[i] in ancestors
    ensures StartsAtSource(JoinedPairs(cables), path) && NoForwardLonger(JoinedPairs(cables), dest, |path|)
    ensures Acyclic(JoinedPairs(cables)) ==> NoLonger(JoinedPairs(cables), dest, |path|)
    ensures NoRepeats(extras) && forall u, v :: Step(path, u, v) ==> (u, v) !in extras
    ensures forall u, v :: Step(path, u, v) || (u, v) in extras <==>
      (u, v) in JoinedPairs(cables) && Reach(JoinedPairs(cables), u, dest) && Reach(JoinedPairs(cables), v, dest)
  {
    ghost var E := JoinedPairs(cables);
    var incoming := BuildIncoming(cables);
    ancestors := ModulesFeeding([dest], incoming, E);
    forall x ensures x in ancestors <==> Reach(E, x, dest) {
      assert dest in [dest];
    }
    ghost var worked, pushes;
    path, worked, pushes := LongestCablePathTo(dest, incoming, E);
    WalkFeeds(E, path, dest);
    WalkIdsHaveShape(cables, path);
    extras := Extras(cables, ancestors, path);
  }

  function Lower(c: char): char {
    if 'A' <= c <= 'Z' then (c as int + 32) as char else c
  }

  predicate AudioAt(slug: string, i: nat) {
    i + 5 <= |slug| && Lower(slug[i]) == 'a' && Lower(slug[i + 1]) == 'u' && Lower(slug[i + 2]) == 'd'
    && Lower(slug[i + 3]) == 'i' && Lower(slug[i + 4]) == 'o'
  }

  /** Whether `slug` contains "audio" in any mixture of cases. */
  predicate NamesAudio(slug: string) {
    exists i :: 0 <= i < |slug| && AudioAt(slug, i)
  }

  predicate IsAudioDestination<Id>(m: PatchModule<Id>) {
    m.pluginSlug == "Core" && NamesAudio(m.modelSlug)
  }

  /** The modules from which signal can reach some audio destination. */
  method ModulesFeedingDestinations<Id(==, !new)>(snap: Snapshot<Id>) returns (reached: set<Id>)
    ensures forall x :: x in reached <==>
      exists m :: m in snap.modules && IsAudioDestination(m) && Reach(JoinedPairs(snap.cables), x, m.moduleId)
  {
    var incoming := BuildIncoming(snap.cables);
    var starts := [];
    for k := 0 to |snap.modules|
      invariant forall d :: d in starts <==>
        exists i :: 0 <= i < k && IsAudioDestination(snap.modules[i]) && snap.modules[i].moduleId == d
    {
      if IsAudioDestination(snap.modules[k]) {
        starts := starts + [snap.modules[k].moduleId];
      }
    }
    reached := ModulesFeeding(starts, incoming, JoinedPairs(snap.cables));
    forall x
      ensures Feeds(JoinedPairs(snap.cables), starts, x) <==>
        exists m :: m in snap.modules && IsAudioDestination(m) && Reach(JoinedPairs(snap.cables), x, m.moduleId)
    {
      if Feeds(JoinedPairs(snap.cables), starts, x) {
        var d :| d in starts && Reach(JoinedPairs(snap.cables), x, d);
        var i :| 0 <= i < |snap.modules| && IsAudioDestination(snap.modules[i]) && snap.modules[i].moduleId == d;
        assert snap.modules[i] in snap.modules;
      }
    }
  }
}
