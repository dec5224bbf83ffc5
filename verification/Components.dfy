/** Grouping of expressions into components before type inference
    (construct_sccs, bootstrap/analysis.c). */
module Components {
  import opened Common

  const DONE: nat := 0xFFFF_FFFF   // (unsigned int) -1, the lowlink of a grouped node

  // ----- reachability through dependencies -----

  type Graph = seq<seq<nat>>

  ghost predicate Closed(deps: Graph) {
    forall v, i :: 0 <= v < |deps| && 0 <= i < |deps[v]| ==> deps[v][i] < |deps|
  }

  ghost predicate Walk(deps: Graph, p: seq<nat>) {
    |p| > 0 && p[0] < |deps| && forall i :: 0 <= i < |p| - 1 ==> p[i] < |deps| && p[i + 1] in deps[p[i]]
  }

  ghost predicate Reaches(deps: Graph, u: nat, v: nat) {
    exists p :: Walk(deps, p) && p[0] == u && p[|p| - 1] == v
  }

  lemma {:induction false} ReachesSelf(deps: Graph, u: nat)
    requires u < |deps|
    ensures Reaches(deps, u, u)
  {
    assert Walk(deps, [u]);
  }

  lemma {:induction false} ReachesStep(deps: Graph, u: nat, v: nat)
    requires Closed(deps) && u < |deps| && v in deps[u]
    ensures v < |deps| && Reaches(deps, u, v)
  {
    assert Walk(deps, [u, v]);
  }

  lemma {:induction false} ReachesTransitive(deps: Graph, u: nat, v: nat, w: nat)
    requires Reaches(deps, u, v) && Reaches(deps, v, w)
    ensures Reaches(deps, u, w)
  {
    var p :| Walk(deps, p) && p[0] == u && p[|p| - 1] == v;
    var q :| Walk(deps, q) && q[0] == v && q[|q| - 1] == w;
    var r := p + q[1..];
    forall i | 0 <= i < |r| - 1 ensures r[i] < |deps| && r[i + 1] in deps[r[i]] {
      if i < |p| - 1 {
        assert r[i] == p[i] && r[i + 1] == p[i + 1];
      } else {
        assert r[i] == q[i - |p| + 1] && r[i + 1] == q[i - |p| + 2];
      }
    }
    assert Walk(deps, r);
  }

  /** A set that contains u and is closed under dependencies contains all that u reaches. */
  lemma {:induction false} ClosedSetContains(deps: Graph, s: set<nat>, p: seq<nat>)
    requires Walk(deps, p) && p[0] in s
    requires forall v, t :: v in s && v < |deps| && t in deps[v] ==> t in s
    ensures p[|p| - 1] in s
    decreases |p|
  {
    if |p| > 1 {
      var q := p[1..];
      assert p[1] in deps[p[0]];
      if |q| > 1 {
        forall i | 0 <= i < |q| - 1 ensures q[i] < |deps| && q[i + 1] in deps[q[i]] {
          assert q[i] == p[i + 1] && q[i + 1] == p[i + 2];
        }
        ClosedSetContains(deps, s, q);
      }
    }
  }

  ghost predicate Mutual(deps: Graph, group: seq<nat>) {
    forall u, v :: u in group && v in group ==> Reaches(deps, u, v)
  }

  // ----- the state between calls -----

  /** `path` holds the nodes whose calls are in progress, outermost first; its i-th node has
      preorder i + 1. */
  ghost predicate Colours(low: seq<nat>, stack: seq<nat>, path: seq<nat>) {
    && Distinct(stack) && Distinct(path)
    && (forall v :: v in stack || v in path ==> v < |low|)
    && (forall v :: v in stack ==> v !in path)
    && (forall v :: 0 <= v < |low| ==> ((low[v] != 0 && low[v] != DONE) <==> (v in stack || v in path)))
  }

  ghost predicate PathEdges(deps: Graph, low: seq<nat>, path: seq<nat>) {
    && (forall i :: 0 <= i < |path| ==> path[i] < |deps| == |low| && low[path[i]] <= i + 1)
    && (forall i :: 0 <= i < |path| - 1 ==> path[i + 1] in deps[path[i]])
  }

  /** v reaches a node in progress whose preorder is at most v's lowlink. */
  ghost predicate Anchored(deps: Graph, low: seq<nat>, path: seq<nat>, v: nat) {
    v < |low| && exists j :: 0 <= j < |path| && j + 1 <= low[v] && Reaches(deps, v, path[j])
  }

  ghost predicate AllAnchored(deps: Graph, low: seq<nat>, stack: seq<nat>, path: seq<nat>) {
    forall v :: v in stack || v in path ==> Anchored(deps, low, path, v)
  }

  /** Finished nodes have only visited dependencies. */
  ghost predicate Explored(deps: Graph, low: seq<nat>, path: seq<nat>) {
    |deps| == |low| &&
    forall v, t :: 0 <= v < |low| && low[v] != 0 && v !in path && t in deps[v] && t < |low| ==> low[t] != 0
  }

  ghost predicate Grouped(sccs: seq<seq<nat>>, v: nat) {
    exists i :: 0 <= i < |sccs| && v in sccs[i]
  }

  /** The groups are disjoint, without repetition, mutually reachable, and hold the finished nodes. */
  ghost predicate Groups(deps: Graph, low: seq<nat>, sccs: seq<seq<nat>>) {
    && (forall i :: 0 <= i < |sccs| ==> Distinct(sccs[i]) && Mutual(deps, sccs[i]))
    && (forall i, j, v :: 0 <= i < j < |sccs| && v in sccs[i] ==> v !in sccs[j])
    && (forall i, v :: 0 <= i < |sccs| && v in sccs[i] ==> v < |low|)
    && (forall v :: 0 <= v < |low| ==> (low[v] == DONE <==> Grouped(sccs, v)))
  }

  ghost predicate Inv(deps: Graph, low: seq<nat>, stack: seq<nat>, sccs: seq<seq<nat>>, path: seq<nat>) {
    && |low| == |deps| < DONE && Closed(deps)
    && Colours(low, stack, path) && PathEdges(deps, low, path)
    && AllAnchored(deps, low, stack, path) && Explored(deps, low, path) && Groups(deps, low, sccs)
  }

  /** What a call keeps: visited nodes keep their lowlink, and `pushed` lies on the old stack. */
  ghost predicate Keeps(deps: Graph, low: seq<nat>, stack: seq<nat>, low': seq<nat>, stack': seq<nat>, pushed: seq<nat>, s: nat) {
    && |low'| == |low|
    && stack' == pushed + stack
    && (forall v :: 0 <= v < |low| && low[v] != 0 ==> low'[v] == low[v])
    && (forall v :: v in pushed ==> v < |low| && low[v] == 0 && Reaches(deps, s, v))
    && (forall v :: 0 <= v < |low| && low[v] == 0 && low'[v] != 0 ==> Reaches(deps, s, v))
  }

  // ----- the steps of a call -----

  lemma {:induction false} PathReaches(deps: Graph, low: seq<nat>, path: seq<nat>, i: nat, j: nat)
    requires PathEdges(deps, low, path) && Closed(deps) && i <= j < |path|
    ensures Reaches(deps, path[i], path[j])
    decreases j - i
  {
    if i == j {
      ReachesSelf(deps, path[i]);
    } else {
      ReachesStep(deps, path[i], path[i + 1]);
      PathReaches(deps, low, path, i + 1, j);
      ReachesTransitive(deps, path[i], path[i + 1], path[j]);
    }
  }

  lemma {:induction false} DistinctIsShort(p: seq<nat>, n: nat)
    requires Distinct(p) && forall v :: v in p ==> v < n
    ensures |p| <= n
    decreases n
  {
    assert |p| > 0 ==> p[0] in p;
    if n == 0 {
    } else if n - 1 in p {
      var i :| 0 <= i < |p| && p[i] == n - 1;
      var q := p[..i] + p[i + 1..];
      assert forall k :: 0 <= k < |q| ==> q[k] == (if k < i then p[k] else p[k + 1]);
      forall v | v in q ensures v < n - 1 {
        var k :| 0 <= k < |q| && q[k] == v;
        assert v in p;
      }
      DistinctIsShort(q, n - 1);
    } else {
      DistinctIsShort(p, n - 1);
    }
  }

  /** Starting a call: s joins the path with its preorder as lowlink. */
  lemma {:induction false} EnterColours(low: seq<nat>, stack: seq<nat>, path: seq<nat>, s: nat)
    requires Colours(low, stack, path) && s < |low| < DONE && low[s] == 0 && |path| + 1 < DONE
    ensures Colours(low[s := |path| + 1], stack, path + [s])
  {
  }

  lemma {:induction false} EnterAnchored(deps: Graph, low: seq<nat>, stack: seq<nat>, path: seq<nat>, s: nat, v: nat)
    requires s < |low| == |deps| && low[s] == 0 && s !in stack && s !in path
    requires AllAnchored(deps, low, stack, path) && (v in stack || v in path || v == s)
    ensures Anchored(deps, low[s := |path| + 1], path + [s], v)
  {
    var low', path' := low[s := |path| + 1], path + [s];
    if v == s {
      ReachesSelf(deps, s);
      assert path'[|path|] == s;
    } else {
      assert Anchored(deps, low, path, v);
      var j :| 0 <= j < |path| && j + 1 <= low[v] && Reaches(deps, v, path[j]);
      assert path'[j] == path[j] && low'[v] == low[v];
    }
  }

  lemma {:induction false} EnterPath(deps: Graph, low: seq<nat>, path: seq<nat>, s: nat)
    requires PathEdges(deps, low, path) && s < |low| == |deps| && s !in path
    requires |path| > 0 ==> s in deps[path[|path| - 1]]
    ensures PathEdges(deps, low[s := |path| + 1], path + [s])
  {
    var path' := path + [s];
    forall i | 0 <= i < |path'| - 1 ensures path'[i + 1] in deps[path'[i]] {
      assert path'[i] == path[i];
    }
    forall i | 0 <= i < |path'| ensures path'[i] < |deps| && low[s := |path| + 1][path'[i]] <= i + 1 {
      if i < |path| { assert path'[i] == path[i] && path[i] in path; }
    }
  }

  lemma {:induction false} RelabelGroups(deps: Graph, low: seq<nat>, sccs: seq<seq<nat>>, s: nat, n: nat)
    requires Groups(deps, low, sccs) && s < |low| && low[s] != DONE && n != DONE
    ensures Groups(deps, low[s := n], sccs)
  {
    hide Mutual, Distinct, Grouped;
    var low' := low[s := n];
    assert forall v :: 0 <= v < |low| && v != s ==> low'[v] == low[v];
  }

  lemma {:induction false} EnterExplored(deps: Graph, low: seq<nat>, path: seq<nat>, s: nat, n: nat)
    requires Explored(deps, low, path) && s < |low| && n != 0
    ensures Explored(deps, low[s := n], path + [s])
  {}

  lemma {:induction false} Enter(deps: Graph, low: seq<nat>, stack: seq<nat>, sccs: seq<seq<nat>>, path: seq<nat>, s: nat)
    requires Inv(deps, low, stack, sccs, path) && s < |low| && low[s] == 0
    requires |path| > 0 ==> s in deps[path[|path| - 1]]
    ensures Inv(deps, low[s := |path| + 1], stack, sccs, path + [s]) && |path| + 1 < DONE
  {
    NotGrey(low, stack, path, s);
    EnterIsShort(low, stack, path, s);
    hide Colours, PathEdges, AllAnchored, Anchored, Explored, Groups, Closed;
    EnterColours(low, stack, path, s);
    EnterPath(deps, low, path, s);
    EnterExplored(deps, low, path, s, |path| + 1);
    RelabelGroups(deps, low, sccs, s, |path| + 1);
    EnterAllAnchored(deps, low, stack, path, s);
  }

  lemma {:induction false} EnterIsShort(low: seq<nat>, stack: seq<nat>, path: seq<nat>, s: nat)
    requires Colours(low, stack, path) && s < |low| && s !in path
    ensures |path| + 1 <= |low|
  {
    DistinctIsShort(path + [s], |low|);
  }

  lemma {:induction false} NotGrey(low: seq<nat>, stack: seq<nat>, path: seq<nat>, s: nat)
    requires Colours(low, stack, path) && s < |low| && (low[s] == 0 || low[s] == DONE)
    ensures s !in stack && s !in path
  {}

  lemma {:induction false} EnterAllAnchored(deps: Graph, low: seq<nat>, stack: seq<nat>, path: seq<nat>, s: nat)
    requires s < |low| == |deps| && low[s] == 0 && s !in stack && s !in path
    requires AllAnchored(deps, low, stack, path)
    ensures AllAnchored(deps, low[s := |path| + 1], stack, path + [s])
  {
    hide Anchored;
    forall v | v in stack || v in path + [s] ensures Anchored(deps, low[s := |path| + 1], path + [s], v) {
      EnterAnchored(deps, low, stack, path, s, v);
    }
  }

  // ----- lowering the caller's lowlink to that of a visited dependency -----

  lemma {:induction false} LowerAnchored(deps: Graph, low: seq<nat>, stack: seq<nat>, path: seq<nat>, s: nat, t: nat, v: nat)
    requires Closed(deps) && AllAnchored(deps, low, stack, path) && |low| == |deps|
    requires s < |low| && t in deps[s] && (t in stack || t in path) && low[t] < low[s]
    requires v in stack || v in path
    ensures Anchored(deps, low[s := low[t]], path, v)
  {
    assert Anchored(deps, low, path, v);
    if v == s {
      assert Anchored(deps, low, path, t);
      var j :| 0 <= j < |path| && j + 1 <= low[t] && Reaches(deps, t, path[j]);
      ReachesStep(deps, s, t);
      ReachesTransitive(deps, s, t, path[j]);
    }
  }

  lemma {:induction false} LowerAllAnchored(deps: Graph, low: seq<nat>, stack: seq<nat>, path: seq<nat>, s: nat, t: nat)
    requires Closed(deps) && AllAnchored(deps, low, stack, path) && |low| == |deps|
    requires s < |low| && t in deps[s] && (t in stack || t in path) && low[t] < low[s]
    ensures AllAnchored(deps, low[s := low[t]], stack, path)
  {
    hide Anchored;
    forall v | v in stack || v in path ensures Anchored(deps, low[s := low[t]], path, v) {
      LowerAnchored(deps, low, stack, path, s, t, v);
    }
  }

  lemma {:induction false} Relabel(deps: Graph, low: seq<nat>, stack: seq<nat>, path: seq<nat>, s: nat, n: nat)
    requires Colours(low, stack, path) && PathEdges(deps, low, path) && Explored(deps, low, path)
    requires s in path && s < |low| && 0 < n < low[s] && n < DONE
    ensures Colours(low[s := n], stack, path)
    ensures PathEdges(deps, low[s := n], path) && Explored(deps, low[s := n], path)
  {}

  lemma {:induction false} Grey(deps: Graph, low: seq<nat>, stack: seq<nat>, path: seq<nat>, v: nat)
    requires Colours(low, stack, path) && PathEdges(deps, low, path) && |low| < DONE
    requires v < |low| && low[v] != 0 && low[v] != DONE
    ensures v in stack || v in path
    ensures v in path ==> low[v] <= |low|
  {
    DistinctIsShort(path, |low|);
  }

  lemma {:induction false} Lower(deps: Graph, low: seq<nat>, stack: seq<nat>, sccs: seq<seq<nat>>, path: seq<nat>, s: nat, t: nat)
    requires Inv(deps, low, stack, sccs, path) && s in path
    requires s < |low| && t in deps[s] && t < |low| && low[t] != 0 && low[t] < low[s] && low[s] < DONE
    ensures Inv(deps, low[s := low[t]], stack, sccs, path)
  {
    Grey(deps, low, stack, path, t);
    hide Colours, PathEdges, AllAnchored, Anchored, Explored, Groups, Closed;
    LowerAllAnchored(deps, low, stack, path, s, t);
    Relabel(deps, low, stack, path, s, low[t]);
    RelabelGroups(deps, low, sccs, s, low[t]);
  }

  // ----- finishing a node without closing its group -----

  lemma {:induction false} FinishColours(low: seq<nat>, stack: seq<nat>, path: seq<nat>, s: nat)
    requires Colours(low, stack, path + [s])
    ensures Colours(low, [s] + stack, path)
  {
    var p := path + [s];
    assert p[|path|] == s;
    assert forall i :: 0 <= i < |path| ==> p[i] == path[i];
    assert forall v :: v in p <==> v in path || v == s;
    assert s !in path && s !in stack;
    assert Distinct([s] + stack);
  }

  lemma {:induction false} FinishPath(deps: Graph, low: seq<nat>, path: seq<nat>, s: nat)
    requires PathEdges(deps, low, path + [s])
    ensures PathEdges(deps, low, path)
  {
    var p := path + [s];
    forall i | 0 <= i < |path| ensures path[i] < |deps| == |low| && low[path[i]] <= i + 1 {
      assert p[i] == path[i];
    }
    forall i | 0 <= i < |path| - 1 ensures path[i + 1] in deps[path[i]] {
      assert p[i] == path[i] && p[i + 1] == path[i + 1];
    }
  }

  lemma {:induction false} FinishExplored(deps: Graph, low: seq<nat>, path: seq<nat>, s: nat)
    requires Explored(deps, low, path + [s]) && s < |low|
    requires forall t :: t in deps[s] && t < |low| ==> low[t] != 0
    ensures Explored(deps, low, path)
  {
    forall v, t | 0 <= v < |low| && low[v] != 0 && v !in path && t in deps[v] && t < |low| ensures low[t] != 0 {
      if v != s { assert v !in path + [s]; }
    }
  }

  lemma {:induction false} FinishAnchored(deps: Graph, low: seq<nat>, path: seq<nat>, s: nat, v: nat)
    requires s < |low| && low[s] <= |path| && Anchored(deps, low, path + [s], s) && Anchored(deps, low, path + [s], v)
    ensures Anchored(deps, low, path, v)
  {
    var p := path + [s];
    var i :| 0 <= i < |p| && i + 1 <= low[s] && Reaches(deps, s, p[i]);
    var j :| 0 <= j < |p| && j + 1 <= low[v] && Reaches(deps, v, p[j]);
    if j < |path| {
      assert p[j] == path[j];
    } else {
      assert p[j] == s && p[i] == path[i];
      ReachesTransitive(deps, v, s, path[i]);
    }
  }

  lemma {:induction false} FinishAllAnchored(deps: Graph, low: seq<nat>, stack: seq<nat>, path: seq<nat>, s: nat)
    requires s < |low| && low[s] <= |path| && AllAnchored(deps, low, stack, path + [s])
    ensures AllAnchored(deps, low, [s] + stack, path)
  {
    hide Anchored;
    assert s in path + [s];
    forall v | v in [s] + stack || v in path ensures Anchored(deps, low, path, v) {
      assert v in stack || v in path + [s];
      FinishAnchored(deps, low, path, s, v);
    }
  }

  lemma {:induction false} Finish(deps: Graph, low: seq<nat>, stack: seq<nat>, sccs: seq<seq<nat>>, path: seq<nat>, s: nat)
    requires Inv(deps, low, stack, sccs, path + [s]) && s < |low| && low[s] <= |path|
    requires forall t :: t in deps[s] && t < |low| ==> low[t] != 0
    ensures Inv(deps, low, [s] + stack, sccs, path)
  {
    hide Colours, PathEdges, AllAnchored, Anchored, Explored, Groups, Closed;
    FinishColours(low, stack, path, s);
    FinishPath(deps, low, path, s);
    FinishExplored(deps, low, path, s);
    FinishAllAnchored(deps, low, stack, path, s);
  }

  // ----- closing the group of a node whose lowlink is its preorder -----

  /** The lowlinks after every member of the group is marked. */
  ghost predicate Marked(low: seq<nat>, group: seq<nat>, low': seq<nat>) {
    |low'| == |low| && forall v :: 0 <= v < |low| ==> low'[v] == if v in group then DONE else low[v]
  }

  /** Everything pushed since s began, and s itself, reaches s; so it is one mutual group. */
  lemma {:induction false} CloseReaches(deps: Graph, low: seq<nat>, path: seq<nat>, s: nat, v: nat)
    requires Closed(deps) && PathEdges(deps, low, path + [s]) && Anchored(deps, low, path + [s], v)
    ensures Reaches(deps, v, s)
  {
    var p := path + [s];
    var j :| 0 <= j < |p| && j + 1 <= low[v] && Reaches(deps, v, p[j]);
    PathReaches(deps, low, p, j, |path|);
    ReachesTransitive(deps, v, p[j], s);
  }

  lemma {:induction false} CloseMutual(deps: Graph, low: seq<nat>, stack: seq<nat>, path: seq<nat>, s: nat, group: seq<nat>)
    requires Closed(deps) && PathEdges(deps, low, path + [s]) && AllAnchored(deps, low, stack, path + [s])
    requires forall v :: v in group ==> (v == s || v in stack) && Reaches(deps, s, v)
    ensures Mutual(deps, group)
  {
    hide Anchored, Reaches, PathEdges;
    assert s in path + [s];
    forall u, v | u in group && v in group ensures Reaches(deps, u, v) {
      CloseReaches(deps, low, path, s, u);
      ReachesTransitive(deps, u, s, v);
    }
  }

  lemma {:induction false} CloseColours(low: seq<nat>, pushed: seq<nat>, stack: seq<nat>, path: seq<nat>, s: nat, group: seq<nat>, low': seq<nat>)
    requires Colours(low, pushed + stack, path + [s])
    requires forall v :: v in group <==> v == s || v in pushed
    requires Marked(low, group, low')
    ensures Colours(low', stack, path)
  {
    var p, q := path + [s], pushed + stack;
    assert p[|path|] == s;
    assert forall i :: 0 <= i < |path| ==> p[i] == path[i];
    assert forall i :: 0 <= i < |stack| ==> q[|pushed| + i] == stack[i];
    assert s !in path;
    assert forall v :: v in p <==> v in path || v == s;
    assert forall v :: v in q <==> v in pushed || v in stack;
    forall v | v in stack ensures v !in pushed {
      var i :| 0 <= i < |stack| && stack[i] == v;
      forall j | 0 <= j < |pushed| ensures pushed[j] != v {
        assert q[j] == pushed[j] && q[|pushed| + i] == v;
      }
    }
    forall v | v in path || v in stack ensures v !in group && v < |low| {
      assert v in p || v in q;
    }
    assert Distinct(path) && Distinct(stack);
  }

  lemma {:induction false} ClosePath(deps: Graph, low: seq<nat>, path: seq<nat>, s: nat, group: seq<nat>, low': seq<nat>)
    requires PathEdges(deps, low, path + [s]) && Marked(low, group, low')
    requires forall v :: v in path ==> v !in group
    ensures PathEdges(deps, low', path)
  {
    var p := path + [s];
    forall i | 0 <= i < |path| ensures path[i] < |deps| == |low'| && low'[path[i]] <= i + 1 {
      assert p[i] == path[i] && path[i] in path;
    }
    forall i | 0 <= i < |path| - 1 ensures path[i + 1] in deps[path[i]] {
      assert p[i] == path[i] && p[i + 1] == path[i + 1];
    }
  }

  lemma {:induction false} CloseExplored(deps: Graph, low: seq<nat>, stack: seq<nat>, path: seq<nat>, s: nat, group: seq<nat>, low': seq<nat>)
    requires Explored(deps, low, path + [s]) && Marked(low, group, low') && s < |low|
    requires forall t :: t in deps[s] && t < |low| ==> low[t] != 0
    requires forall v :: v in group && v < |low| ==> low[v] != 0
    ensures Explored(deps, low', path)
  {
    forall v, t | 0 <= v < |low| && low'[v] != 0 && v !in path && t in deps[v] && t < |low| ensures low'[t] != 0 {
      assert low[v] != 0;
      if v != s { assert v !in path + [s]; }
    }
  }

  lemma {:induction false} CloseGroups(deps: Graph, low: seq<nat>, sccs: seq<seq<nat>>, group: seq<nat>, low': seq<nat>)
    requires Groups(deps, low, sccs) && Marked(low, group, low') && Distinct(group) && Mutual(deps, group)
    requires forall v :: v in group ==> v < |low| && low[v] != DONE
    ensures Groups(deps, low', [group] + sccs)
  {
    hide Mutual, Distinct;
    var all := [group] + sccs;
    assert forall i :: 0 < i < |all| ==> all[i] == sccs[i - 1];
    forall v | 0 <= v < |low'| ensures low'[v] == DONE <==> Grouped(all, v) {
      if v in group {
        assert all[0] == group;
      } else if Grouped(sccs, v) {
        var i :| 0 <= i < |sccs| && v in sccs[i];
        assert all[i + 1] == sccs[i];
      }
    }
    forall i, j, v | 0 <= i < j < |all| && v in all[i] ensures v !in all[j] {
      if i == 0 {
        assert v in sccs[j - 1] ==> Grouped(sccs, v);
      }
    }
  }

  /** Nodes below the marker keep the anchor they had before s began. */
  lemma {:induction false} OlderAnchored(deps: Graph, low: seq<nat>, stack: seq<nat>, path: seq<nat>, low': seq<nat>)
    requires AllAnchored(deps, low, stack, path) && |low'| == |low|
    requires forall v :: (v in stack || v in path) && v < |low| ==> low'[v] == low[v]
    ensures AllAnchored(deps, low', stack, path)
  {
    forall v | v in stack || v in path ensures Anchored(deps, low', path, v) {
      assert Anchored(deps, low, path, v);
    }
  }

  lemma {:induction false} Close(deps: Graph, low: seq<nat>, pushed: seq<nat>, stack: seq<nat>, sccs: seq<seq<nat>>, path: seq<nat>, s: nat, group: seq<nat>, low0: seq<nat>, low': seq<nat>)
    requires Inv(deps, low, pushed + stack, sccs, path + [s]) && s < |low|
    requires forall t :: t in deps[s] && t < |low| ==> low[t] != 0
    requires forall v :: v in group <==> v == s || v in pushed
    requires Distinct(group) && Marked(low, group, low') && Keeps(deps, low0, stack, low, pushed + stack, pushed, s)
    requires low0[s] == 0 && AllAnchored(deps, low0, stack, path)
    ensures Inv(deps, low', stack, [group] + sccs, path)
    ensures Keeps(deps, low0, stack, low', stack, [], s)
  {
    hide Colours, PathEdges, AllAnchored, Anchored, Explored, Groups, Closed, Reaches;
    GroupIsGrey(low, pushed, stack, path, s, group);
    CloseKeeps(deps, low, pushed, stack, s, group, low0, low');
    hide Keeps;
    CloseColours(low, pushed, stack, path, s, group, low');
    ClosePath(deps, low, path, s, group, low');
    CloseExplored(deps, low, stack, path, s, group, low');
    CloseMutual(deps, low, pushed + stack, path, s, group);
    CloseGroups(deps, low, sccs, group, low');
    OlderKeepLow(deps, low, pushed, stack, path, s, group, low0, low');
    OlderAnchored(deps, low0, stack, path, low');
  }

  lemma {:induction false} CloseKeeps(deps: Graph, low: seq<nat>, pushed: seq<nat>, stack: seq<nat>, s: nat, group: seq<nat>, low0: seq<nat>, low': seq<nat>)
    requires Marked(low, group, low') && Keeps(deps, low0, stack, low, pushed + stack, pushed, s)
    requires (forall v :: v in group <==> v == s || v in pushed) && s < |low| == |deps| && low0[s] == 0
    ensures Keeps(deps, low0, stack, low', stack, [], s)
    ensures forall v :: v in group ==> (v == s || v in pushed + stack) && Reaches(deps, s, v)
  {
    ReachesSelf(deps, s);
    hide Reaches;
  }

  lemma {:induction false} GroupIsGrey(low: seq<nat>, pushed: seq<nat>, stack: seq<nat>, path: seq<nat>, s: nat, group: seq<nat>)
    requires Colours(low, pushed + stack, path + [s])
    requires forall v :: v in group <==> v == s || v in pushed
    ensures forall v :: v in group ==> v < |low| && low[v] != 0 && low[v] != DONE
    ensures forall v :: v in path ==> v !in group
  {
    assert forall v :: v in pushed + stack <==> v in pushed || v in stack;
    var p := path + [s];
    assert p[|path|] == s;
    assert forall i :: 0 <= i < |path| ==> p[i] == path[i];
    assert s in p;
    assert forall v :: v in path ==> v in p;
  }

  lemma {:induction false} OlderKeepLow(deps: Graph, low: seq<nat>, pushed: seq<nat>, stack: seq<nat>, path: seq<nat>, s: nat, group: seq<nat>, low0: seq<nat>, low': seq<nat>)
    requires |low0| == |low| && s < |low| && low0[s] == 0 && Marked(low, group, low')
    requires forall v :: v in group <==> v == s || v in pushed
    requires forall v :: 0 <= v < |low| && low0[v] != 0 ==> low[v] == low0[v]
    requires forall v :: v in pushed ==> v < |low| && low0[v] == 0
    requires Colours(low, pushed + stack, path + [s]) && AllAnchored(deps, low0, stack, path)
    ensures forall v :: 0 <= v < |low| && low0[v] != 0 ==> low'[v] == low0[v]
    ensures forall v :: (v in stack || v in path) && v < |low| ==> low'[v] == low0[v]
  {
    assert forall v :: v in group && v < |low| ==> low0[v] == 0 || low[v] == low0[v];
    GroupIsGrey(low, pushed, stack, path, s, group);
    forall v | (v in stack || v in path) && v < |low| ensures low0[v] != 0 {
      assert Anchored(deps, low0, path, v);
    }
  }

  ghost function Unvisited(deps: Graph, low: seq<nat>): set<nat> {
    set v: nat | v < |low| && low[v] == 0
  }

  lemma {:induction false} KeepsSame(deps: Graph, low: seq<nat>, stack: seq<nat>, s: nat)
    ensures Keeps(deps, low, stack, low, stack, [], s)
  {}

  lemma {:induction false} InvSizes(deps: Graph, low: seq<nat>, stack: seq<nat>, sccs: seq<seq<nat>>, path: seq<nat>)
    requires Inv(deps, low, stack, sccs, path)
    ensures |low| == |deps| && Closed(deps) && AllAnchored(deps, low, stack, path)
  {}

  lemma {:induction false} EnterKeeps(deps: Graph, low: seq<nat>, stack: seq<nat>, s: nat, n: nat)
    requires s < |low| == |deps| && low[s] == 0 && n != 0
    ensures Keeps(deps, low, stack, low[s := n], stack, [], s)
    ensures Unvisited(deps, low[s := n]) < Unvisited(deps, low)
  {
    ReachesSelf(deps, s);
    assert s in Unvisited(deps, low) && s !in Unvisited(deps, low[s := n]);
  }

  lemma {:induction false} RelabelKeeps(deps: Graph, low0: seq<nat>, stack0: seq<nat>, low: seq<nat>, stack: seq<nat>, pushed: seq<nat>, s: nat, n: nat)
    requires Keeps(deps, low0, stack0, low, stack, pushed, s) && s < |low| && low0[s] == 0 && low[s] != 0 && n != 0
    ensures Keeps(deps, low0, stack0, low[s := n], stack, pushed, s)
    ensures Unvisited(deps, low[s := n]) == Unvisited(deps, low)
  {}

  lemma {:induction false} KeepsShrinks(deps: Graph, low0: seq<nat>, stack0: seq<nat>, low: seq<nat>, stack: seq<nat>, pushed: seq<nat>, s: nat)
    requires Keeps(deps, low0, stack0, low, stack, pushed, s)
    ensures Unvisited(deps, low) <= Unvisited(deps, low0)
  {}

  lemma {:induction false} KeepsCompose(deps: Graph, low0: seq<nat>, stack0: seq<nat>, low1: seq<nat>, stack1: seq<nat>, pushed: seq<nat>, s: nat, low: seq<nat>, stack: seq<nat>, more: seq<nat>, t: nat)
    requires Keeps(deps, low0, stack0, low1, stack1, pushed, s) && Keeps(deps, low1, stack1, low, stack, more, t)
    requires Closed(deps) && s < |deps| && t in deps[s]
    ensures Keeps(deps, low0, stack0, low, stack, more + pushed, s)
  {
    hide Reaches;
    ReachesStep(deps, s, t);
    forall v | Reaches(deps, t, v) ensures Reaches(deps, s, v) {
      ReachesTransitive(deps, s, t, v);
    }
  }

  lemma {:induction false} GreyNotDone(deps: Graph, low: seq<nat>, stack: seq<nat>, sccs: seq<seq<nat>>, path: seq<nat>, s: nat)
    requires Inv(deps, low, stack, sccs, path) && s in path
    ensures s < |low| && low[s] != 0 && low[s] < DONE && low[s] <= |path|
  {
    Grey(deps, low, stack, path, s);
  }

  lemma {:induction false} KeptLow(deps: Graph, low0: seq<nat>, stack0: seq<nat>, low: seq<nat>, stack: seq<nat>, pushed: seq<nat>, s: nat)
    requires Keeps(deps, low0, stack0, low, stack, pushed, s)
    ensures forall v :: 0 <= v < |low0| && low0[v] != 0 ==> v < |low| && low[v] != 0
  {}

  lemma {:induction false} PushKeeps(deps: Graph, low0: seq<nat>, stack0: seq<nat>, low: seq<nat>, stack: seq<nat>, pushed: seq<nat>, s: nat)
    requires Keeps(deps, low0, stack0, low, stack, pushed, s) && s < |deps| == |low| && low0[s] == 0
    ensures Keeps(deps, low0, stack0, low, [s] + stack, [s] + pushed, s)
  {
    hide Reaches;
    ReachesSelf(deps, s);
    assert [s] + stack == ([s] + pushed) + stack0;
  }

  lemma {:induction false} PushedSplit(deps: Graph, low0: seq<nat>, stack0: seq<nat>, low: seq<nat>, stack: seq<nat>, pushed: seq<nat>, s: nat, sccs: seq<seq<nat>>, path: seq<nat>)
    requires Keeps(deps, low0, stack0, low, stack, pushed, s) && Inv(deps, low, stack, sccs, path + [s])
    ensures stack == pushed + stack0 && [s] + stack == ([s] + pushed) + stack0
    ensures Distinct([s] + stack) && s < |low| && forall v :: v in [s] + pushed ==> v < |low|
  {
    hide Reaches, AllAnchored, PathEdges, Explored, Groups, Closed;
    FinishColours(low, stack, path, s);
    assert forall v :: v in pushed ==> v in stack;
    assert s in [s] + stack;
  }

  lemma {:induction false} StackIsEmpty(deps: Graph, low: seq<nat>, stack: seq<nat>, sccs: seq<seq<nat>>)
    requires Inv(deps, low, stack, sccs, [])
    ensures stack == []
  {
    assert stack != [] ==> stack[0] in stack && Anchored(deps, low, [], stack[0]);
  }

  /** Between top-level calls every visited node, and all it depends on, is in a group. */
  lemma {:induction false} ReachableIsGrouped(deps: Graph, low: seq<nat>, stack: seq<nat>, sccs: seq<seq<nat>>, r: nat, v: nat)
    requires Inv(deps, low, stack, sccs, []) && r < |low| && low[r] != 0 && Reaches(deps, r, v)
    ensures Grouped(sccs, v)
  {
    StackIsEmpty(deps, low, stack, sccs);
    hide AllAnchored, PathEdges, Mutual, Distinct;
    var p :| Walk(deps, p) && p[0] == r && p[|p| - 1] == v;
    var seen := set u: nat | u < |low| && low[u] != 0;
    ClosedSetContains(deps, seen, p);
    assert v in seen;
  }

  /** Whatever was newly visited is something that a root depends on. */
  ghost predicate FromRoots(deps: Graph, roots: seq<nat>, n: nat, low0: seq<nat>, low: seq<nat>) {
    |low| == |low0| && forall v :: 0 <= v < |low| && low0[v] == 0 && low[v] != 0 ==>
      exists i :: 0 <= i < n <= |roots| && Reaches(deps, roots[i], v)
  }

  lemma {:induction false} NextRoot(deps: Graph, roots: seq<nat>, n: nat, low0: seq<nat>, low1: seq<nat>, low: seq<nat>, stack1: seq<nat>, stack: seq<nat>, pushed: seq<nat>)
    requires n < |roots| && FromRoots(deps, roots, n, low0, low1) && Keeps(deps, low1, stack1, low, stack, pushed, roots[n])
    ensures FromRoots(deps, roots, n + 1, low0, low)
  {
    hide Reaches;
    forall v | 0 <= v < |low| && low0[v] == 0 && low[v] != 0
      ensures exists i :: 0 <= i < n + 1 <= |roots| && Reaches(deps, roots[i], v)
    {
      if low1[v] == 0 {
        assert Reaches(deps, roots[n], v);
      } else {
        var i :| 0 <= i < n && Reaches(deps, roots[i], v);
      }
    }
  }

  // ----- edges to open nodes -----

  /** Whatever was visited since low0 and depends on an open node is still on the stack, and b is at
      most that node's preorder: no call above the open node's closes a group before it does. */
  ghost predicate BackEdges(deps: Graph, low0: seq<nat>, low: seq<nat>, path: seq<nat>, pushed: seq<nat>, b: nat) {
    |low0| == |low| == |deps| &&
    forall x, i :: 0 <= x < |low| && low0[x] == 0 && low[x] != 0 && 0 <= i < |path| && path[i] in deps[x] ==> x in pushed && b <= i + 1
  }

  /** The same before s, the innermost open node, has seen more than its first n dependencies. */
  ghost predicate BackSoFar(deps: Graph, low0: seq<nat>, low: seq<nat>, path: seq<nat>, pushed: seq<nat>, s: nat, n: nat) {
    && s < |low| == |low0| == |deps| && n <= |deps[s]|
    && (forall x, i :: 0 <= x < |low| && x != s && low0[x] == 0 && low[x] != 0 && 0 <= i < |path| && path[i] in deps[x] ==>
          x in pushed && low[s] <= i + 1)
    && (forall i :: 0 <= i < |path| && path[i] in deps[s][..n] ==> low[s] <= i + 1)
  }

  /** Expressions that depend directly on each other are in one group. */
  ghost predicate Paired(deps: Graph, sccs: seq<seq<nat>>) {
    forall i, x, y :: 0 <= i < |sccs| && x in sccs[i] && x < |deps| && y < |deps| && y in deps[x] && x in deps[y] ==> y in sccs[i]
  }

  lemma {:induction false} NoBackEdges(deps: Graph, low: seq<nat>, path: seq<nat>, b: nat)
    requires |low| == |deps|
    ensures BackEdges(deps, low, low, path, [], b)
  {}

  lemma {:induction false} NoBackEdgesYet(deps: Graph, low: seq<nat>, path: seq<nat>, s: nat, n: nat)
    requires s < |low| == |deps|
    ensures BackSoFar(deps, low, low[s := n], path, [], s, 0)
  {}

  lemma {:induction false} OpenLow(deps: Graph, low: seq<nat>, stack: seq<nat>, sccs: seq<seq<nat>>, path: seq<nat>)
    requires Inv(deps, low, stack, sccs, path)
    ensures forall i :: 0 <= i < |path| ==> path[i] < |low| && low[path[i]] <= i + 1
  {}

  /** After visiting the n-th dependency and lowering s to it. */
  lemma {:induction false} BackNext(deps: Graph, low0: seq<nat>, low1: seq<nat>, low: seq<nat>, low2: seq<nat>, path: seq<nat>, pushed: seq<nat>, more: seq<nat>, s: nat, n: nat)
    requires BackSoFar(deps, low0, low1, path, pushed, s, n) && n < |deps[s]| && deps[s][n] < |low| && low1[s] != 0
    requires BackEdges(deps, low1, low, path, more, low[deps[s][n]])
    requires forall v :: 0 <= v < |low1| && low1[v] != 0 ==> low[v] == low1[v]
    requires forall i :: 0 <= i < |path| ==> path[i] < |low| && low[path[i]] <= i + 1
    requires low2 == low[s := if low[deps[s][n]] < low[s] then low[deps[s][n]] else low[s]]
    ensures BackSoFar(deps, low0, low2, path, more + pushed, s, n + 1)
  {
    var t := deps[s][n];
    assert low2[s] <= low[s] == low1[s] && low2[s] <= low[t];
    forall x, i | 0 <= x < |low2| && x != s && low0[x] == 0 && low2[x] != 0 && 0 <= i < |path| && path[i] in deps[x]
      ensures x in more + pushed && low2[s] <= i + 1
    {
      if low1[x] == 0 { assert x in more; } else { assert x in pushed; }
    }
    assert deps[s][..n + 1] == deps[s][..n] + [t];
  }

  /** When s keeps its own preorder as lowlink, nothing visited since depends on an older open node. */
  lemma {:induction false} NothingLeads(deps: Graph, low0: seq<nat>, low: seq<nat>, path: seq<nat>, pushed: seq<nat>, s: nat)
    requires s < |deps| && BackSoFar(deps, low0, low, path + [s], pushed, s, |deps[s]|) && low[s] == |path| + 1
    ensures LeadNowhere(deps, low0, low, path)
  {
    var p := path + [s];
    assert deps[s][..|deps[s]|] == deps[s];
    assert forall i :: 0 <= i < |path| ==> p[i] == path[i];
  }

  ghost predicate LeadNowhere(deps: Graph, low0: seq<nat>, low: seq<nat>, path: seq<nat>) {
    |low0| == |low| == |deps| && forall x, y :: 0 <= x < |low| && low0[x] == 0 && low[x] != 0 && y in path ==> y !in deps[x]
  }

  /** Otherwise s joins what is on the stack. */
  lemma {:induction false} BackFinish(deps: Graph, low0: seq<nat>, low: seq<nat>, path: seq<nat>, pushed: seq<nat>, s: nat)
    requires s < |deps| && BackSoFar(deps, low0, low, path + [s], pushed, s, |deps[s]|)
    ensures BackEdges(deps, low0, low, path, [s] + pushed, low[s])
  {
    var p := path + [s];
    assert deps[s][..|deps[s]|] == deps[s];
    assert forall i :: 0 <= i < |path| ==> p[i] == path[i];
  }

  lemma {:induction false} BackClosed(deps: Graph, low0: seq<nat>, low: seq<nat>, low': seq<nat>, path: seq<nat>, group: seq<nat>, b: nat)
    requires |low0| == |low| == |deps| && Marked(low, group, low') && forall v :: v in group && v < |low| ==> low[v] != 0
    requires LeadNowhere(deps, low0, low, path)
    ensures BackEdges(deps, low0, low', path, [], b)
  {
    assert forall x :: 0 <= x < |low| && low'[x] != 0 ==> low[x] != 0;
    assert forall i :: 0 <= i < |path| ==> path[i] in path;
  }

  lemma {:induction false} KeptAt(deps: Graph, low0: seq<nat>, stack0: seq<nat>, low: seq<nat>, stack: seq<nat>, pushed: seq<nat>, s: nat)
    requires Keeps(deps, low0, stack0, low, stack, pushed, s)
    ensures |low| == |low0| && forall v :: 0 <= v < |low0| && low0[v] != 0 ==> low[v] == low0[v]
  {}

  lemma {:induction false} PartnersGrouped(deps: Graph, sccs: seq<seq<nat>>, x: nat, y: nat)
    requires Paired(deps, sccs) && x < |deps| && y < |deps| && y in deps[x] && x in deps[y]
    ensures Grouped(sccs, y) ==> Grouped(sccs, x)
  {}

  /** An older node that waits on the stack had its dependencies visited before. */
  lemma {:induction false} OlderSeen(deps: Graph, low0: seq<nat>, stack: seq<nat>, path: seq<nat>, x: nat, y: nat)
    requires Colours(low0, stack, path) && Explored(deps, low0, path) && x < |low0| && y < |deps| && x in deps[y]
    ensures y in stack ==> low0[x] != 0
  {}

  lemma {:induction false} MemberSeen(deps: Graph, low: seq<nat>, pushed: seq<nat>, stack: seq<nat>, path: seq<nat>, s: nat, x: nat, y: nat)
    requires Colours(low, pushed + stack, path + [s]) && Explored(deps, low, path + [s]) && s < |low|
    requires forall t :: t in deps[s] && t < |low| ==> low[t] != 0
    requires (x == s || x in pushed) && x < |low| && y < |low| && y in deps[x]
    ensures low[y] != 0 && low[x] != 0 && low[x] != DONE
    ensures low[y] != DONE ==> y == s || y in pushed || y in stack || y in path
  {
    var p, q := path + [s], pushed + stack;
    assert p[|path|] == s && (forall i :: 0 <= i < |path| ==> p[i] == path[i]);
    assert forall v :: v in p <==> v in path || v == s;
    assert forall v :: v in q <==> v in pushed || v in stack;
  }

  /** A partner of a member of a closing group is in that group. */
  lemma {:induction false} PartnerJoins(deps: Graph, low0: seq<nat>, sccs0: seq<seq<nat>>, low: seq<nat>, pushed: seq<nat>, stack: seq<nat>, sccs: seq<seq<nat>>, path: seq<nat>, s: nat, x: nat, y: nat)
    requires Inv(deps, low0, stack, sccs0, path) && Inv(deps, low, pushed + stack, sccs, path + [s]) && Paired(deps, sccs)
    requires Keeps(deps, low0, stack, low, pushed + stack, pushed, s) && s < |low| && low0[s] == 0
    requires forall t :: t in deps[s] && t < |low| ==> low[t] != 0
    requires LeadNowhere(deps, low0, low, path)
    requires (x == s || x in pushed) && x < |deps| && y < |deps| && y in deps[x] && x in deps[y]
    ensures y == s || y in pushed
  {
    hide Reaches, Anchored, AllAnchored, Mutual, Colours, Explored, Paired, Distinct, Grouped;
    MemberSeen(deps, low, pushed, stack, path, s, x, y);
    PartnersGrouped(deps, sccs, x, y);
    OlderSeen(deps, low0, stack, path, x, y);
  }

  lemma {:induction false} GroupVisited(deps: Graph, low: seq<nat>, pushed: seq<nat>, stack: seq<nat>, sccs: seq<seq<nat>>, path: seq<nat>, s: nat, group: seq<nat>)
    requires Inv(deps, low, pushed + stack, sccs, path + [s]) && forall v :: v in group <==> v == s || v in pushed
    ensures forall v :: v in group && v < |low| ==> low[v] != 0
  {
    hide Reaches, Anchored, AllAnchored, Mutual, Groups, Explored;
    GroupIsGrey(low, pushed, stack, path, s, group);
  }

  lemma {:induction false} PairedClose(deps: Graph, low0: seq<nat>, sccs0: seq<seq<nat>>, low: seq<nat>, pushed: seq<nat>, stack: seq<nat>, sccs: seq<seq<nat>>, path: seq<nat>, s: nat, group: seq<nat>)
    requires Inv(deps, low0, stack, sccs0, path) && Inv(deps, low, pushed + stack, sccs, path + [s]) && Paired(deps, sccs)
    requires Keeps(deps, low0, stack, low, pushed + stack, pushed, s) && s < |low| && low0[s] == 0
    requires forall t :: t in deps[s] && t < |low| ==> low[t] != 0
    requires LeadNowhere(deps, low0, low, path)
    requires forall v :: v in group <==> v == s || v in pushed
    ensures Paired(deps, [group] + sccs)
  {
    hide Inv, Keeps;
    var all := [group] + sccs;
    forall i, x, y | 0 <= i < |all| && x in all[i] && x < |deps| && y < |deps| && y in deps[x] && x in deps[y] ensures y in all[i] {
      if i == 0 {
        PartnerJoins(deps, low0, sccs0, low, pushed, stack, sccs, path, s, x, y);
      } else {
        assert all[i] == sccs[i - 1];
      }
    }
  }

  /** The mutable state of the component search. The head of `stack` is its first element. */
  class Search {
    const deps: Graph
    var lowlink: seq<nat>
    var stack: seq<nat>
    var sccs: seq<seq<nat>>

    constructor (deps: Graph)
      requires Closed(deps) && |deps| < DONE
      ensures this.deps == deps && stack == [] && sccs == [] && lowlink == seq(|deps|, _ => 0)
      ensures Inv(deps, lowlink, stack, sccs, []) && Paired(deps, sccs)
    {
      this.deps := deps;
      lowlink, stack, sccs := seq(|deps|, _ => 0), [], [];
    }

    /** Moves everything above the marker into a group, marking each member as grouped. */
    method PopGroup(marker: seq<nat>, ghost front: seq<nat>) returns (scc: seq<nat>)
      requires stack == front + marker && Distinct(stack) && forall v :: v in front ==> v < |lowlink|
      modifies this`lowlink, this`stack
      ensures stack == marker && Distinct(scc) && Marked(old(lowlink), scc, lowlink)
      ensures forall v :: v in scc <==> v in front
    {
      scc := [];
      ghost var k := 0;
      while |stack| != |marker|
        invariant k <= |front| && stack == front[k..] + marker && |lowlink| == |old(lowlink)|
        invariant forall v :: v in scc <==> v in front[..k]
        invariant Distinct(scc) && Marked(old(lowlink), scc, lowlink)
        decreases |stack|
      {
        var u := stack[0];
        FrontStep(old(stack), front, marker, k);
        scc := [u] + scc;
        lowlink := lowlink[u := DONE];
        stack := stack[1..];
        k := k + 1;
      }
      assert front[..k] == front;
    }

    /** Visits s and everything it depends on. The caller's own path of open calls is `path`. */
    method ConstructSccs(s: nat, preorder: nat, ghost path: seq<nat>) returns (ghost pushed: seq<nat>)
      requires Inv(deps, lowlink, stack, sccs, path) && s < |deps| && preorder == |path| + 1
      requires Paired(deps, sccs) && (|path| > 0 ==> s in deps[path[|path| - 1]])
      modifies this
      ensures Inv(deps, lowlink, stack, sccs, path) && lowlink[s] != 0
      ensures Paired(deps, sccs) && BackEdges(deps, old(lowlink), lowlink, path, pushed, lowlink[s])
      ensures Keeps(deps, old(lowlink), old(stack), lowlink, stack, pushed, s)
      ensures old(lowlink)[s] == 0 && lowlink[s] == DONE ==> stack == old(stack)
      decreases Unvisited(deps, lowlink)
    {
      hide Inv, Keeps, AllAnchored, BackEdges, BackSoFar, Paired;
      pushed := [];
      KeepsSame(deps, lowlink, stack, s);
      InvSizes(deps, lowlink, stack, sccs, path);
      NoBackEdges(deps, lowlink, path, lowlink[s]);
      if lowlink[s] == 0 {
        ghost var low0, stack0, sccs0, open := lowlink, stack, sccs, path + [s];
        var marker := stack;
        Enter(deps, lowlink, stack, sccs, path, s);
        EnterKeeps(deps, lowlink, stack, s, preorder);
        NoBackEdgesYet(deps, lowlink, open, s, preorder);
        lowlink := lowlink[s := preorder];
        for i := 0 to |deps[s]|
          invariant Inv(deps, lowlink, stack, sccs, open) && Paired(deps, sccs) && s < |lowlink| && lowlink[s] != 0
          invariant BackSoFar(deps, low0, lowlink, open, pushed, s, i)
          invariant Keeps(deps, low0, stack0, lowlink, stack, pushed, s)
          invariant Unvisited(deps, lowlink) < Unvisited(deps, low0)
          invariant forall j :: 0 <= j < i ==> deps[s][j] < |lowlink| && lowlink[deps[s][j]] != 0
        {
          var t := deps[s][i];
          InvSizes(deps, lowlink, stack, sccs, open);
          ghost var low1, stack1 := lowlink, stack;
          ghost var more := ConstructSccs(t, preorder + 1, open);
          KeepsCompose(deps, low0, stack0, low1, stack1, pushed, s, lowlink, stack, more, t);
          KeepsShrinks(deps, low1, stack1, lowlink, stack, more, t);
          KeptLow(deps, low1, stack1, lowlink, stack, more, t);
          ghost var was, low := pushed, lowlink;
          OpenLow(deps, lowlink, stack, sccs, open);
          pushed := more + pushed;
          InvSizes(deps, lowlink, stack, sccs, open);
          if lowlink[t] < lowlink[s] {
            GreyNotDone(deps, lowlink, stack, sccs, open, s);
            Lower(deps, lowlink, stack, sccs, open, s, t);
            RelabelKeeps(deps, low0, stack0, lowlink, stack, pushed, s, lowlink[t]);
            lowlink := lowlink[s := lowlink[t]];
          }
          KeptAt(deps, low1, stack1, low, stack, more, t);
          BackNext(deps, low0, low1, low, lowlink, open, was, more, s, i);
        }
        GreyNotDone(deps, lowlink, stack, sccs, open, s);
        InvSizes(deps, lowlink, stack, sccs, open);
        ghost var low2, stack2 := lowlink, stack;
        stack := [s] + stack;
        if lowlink[s] == preorder {
          PushedSplit(deps, low0, stack0, low2, stack2, pushed, s, sccs, path);
          var scc := PopGroup(marker, [s] + pushed);
          Close(deps, low2, pushed, stack0, sccs, path, s, scc, low0, lowlink);
          NothingLeads(deps, low0, low2, path, pushed, s);
          PairedClose(deps, low0, sccs0, low2, pushed, stack0, sccs, path, s, scc);
          GroupVisited(deps, low2, pushed, stack0, sccs, path, s, scc);
          BackClosed(deps, low0, low2, lowlink, path, scc, lowlink[s]);
          sccs := [scc] + sccs;
          pushed := [];
        } else {
          Finish(deps, lowlink, stack2, sccs, path, s);
          PushKeeps(deps, low0, stack0, lowlink, stack2, pushed, s);
          BackFinish(deps, low0, lowlink, path, pushed, s);
          pushed := [s] + pushed;
        }
      }
    }

    /** Groups everything that the given expressions depend on. */
    method GroupAll(roots: seq<nat>)
      requires Inv(deps, lowlink, stack, sccs, []) && Paired(deps, sccs) && forall r :: r in roots ==> r < |deps|
      modifies this
      ensures Inv(deps, lowlink, stack, sccs, []) && stack == [] && Paired(deps, sccs)
      ensures forall r, v :: r in roots && Reaches(deps, r, v) ==> Grouped(sccs, v)
      ensures FromRoots(deps, roots, |roots|, old(lowlink), lowlink)
    {
      hide Inv, Keeps, Reaches, Grouped, AllAnchored, Paired, BackEdges;
      for i := 0 to |roots|
        invariant Inv(deps, lowlink, stack, sccs, []) && Paired(deps, sccs) && FromRoots(deps, roots, i, old(lowlink), lowlink)
        invariant forall j :: 0 <= j < i ==> roots[j] < |lowlink| && lowlink[roots[j]] != 0
      {
        InvSizes(deps, lowlink, stack, sccs, []);
        ghost var low0, stack0 := lowlink, stack;
        assert roots[i] in roots;
        ghost var pushed := ConstructSccs(roots[i], 1, []);
        InvSizes(deps, lowlink, stack, sccs, []);
        KeptLow(deps, low0, stack0, lowlink, stack, pushed, roots[i]);
        NextRoot(deps, roots, i, old(lowlink), low0, lowlink, stack0, stack, pushed);
      }
      forall r, v | r in roots && Reaches(deps, r, v) ensures Grouped(sccs, v) {
        ReachableIsGrouped(deps, lowlink, stack, sccs, r, v);
      }
      StackIsEmpty(deps, lowlink, stack, sccs);
    }
  }

  lemma {:induction false} FrontStep(all: seq<nat>, front: seq<nat>, marker: seq<nat>, k: nat)
    requires all == front + marker && Distinct(all) && k < |front|
    ensures front[k..] + marker == [front[k]] + (front[k + 1..] + marker)
    ensures front[k] !in front[..k] && front[k] in front
    ensures front[..k + 1] == front[..k] + [front[k]]
  {
    assert forall i :: 0 <= i < |front| ==> all[i] == front[i];
  }
}
