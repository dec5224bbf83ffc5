/** The dependencies that decide how expressions are grouped for type inference
    (vfind_dependencies and visit_expressions, bootstrap/analysis.c). */
module Dependencies {
  import opened Fragments
  import opened Inference
  import opened Components

  /** The expressions inside an expression. The symbols that binders introduce are not visited. */
  function Parts(node: Node): seq<nat> {
    match node
    case Function(_, _, body) => [body]
    case Continuation(_, _, body) => [body]
    case With(_, body) => [body]
    case Constrain(body) => [body]
    case Invoke(target, args) => [target] + args
    case Jump(target, args) => [target] + args
    case If(cond, consequent, alternate) => [cond, consequent, alternate]
    case Storage(_, args) => args
    case Symbol(_, _) => []
    case Literal => []
  }

  /** Expressions are finite trees: parts are numbered before what they are part of. */
  predicate PartsFirst(nodes: seq<Node>) {
    forall e, i :: 0 <= e < |nodes| && 0 <= i < |Parts(nodes[e])| ==> Parts(nodes[e])[i] < e
  }

  predicate WellNumbered(nodes: seq<Node>) {
    NodesOk(nodes) && PartsFirst(nodes)
  }

  // ----- what depends on what -----

  /** An expression that is not a continuation depends on its parts, a storage also on its symbol,
      and a symbol on the expression it stands for. */
  predicate Needs(nodes: seq<Node>, u: nat, v: nat) {
    u < |nodes| &&
    ((!nodes[u].Continuation? && v in Parts(nodes[u]))
     || (nodes[u].Storage? && v == nodes[u].ref)
     || (nodes[u].Symbol? && v == nodes[u].definition))
  }

  /** Besides, an expression depends on the symbols that stand for it, a constrained expression on
      its constraint and a jump's target on the jump. */
  predicate NeededBack(nodes: seq<Node>, u: nat, v: nat) {
    v < |nodes| &&
    ((nodes[v].Symbol? && u == nodes[v].definition)
     || (nodes[v].Constrain? && u == nodes[v].body)
     || (nodes[v].Jump? && u == nodes[v].target))
  }

  /** The dependencies that visiting s introduces. */
  predicate Adds(nodes: seq<Node>, s: nat, u: nat, v: nat) {
    (u == s && Needs(nodes, u, v)) || (v == s && NeededBack(nodes, u, v))
  }

  /** w is s or lies inside it. */
  ghost predicate Within(nodes: seq<Node>, s: nat, w: nat)
    requires WellNumbered(nodes) && s < |nodes|
    decreases s
  {
    w == s || exists i :: 0 <= i < |Parts(nodes[s])| && Within(nodes, Parts(nodes[s])[i], w)
  }

  ghost predicate Visited(nodes: seq<Node>, roots: seq<nat>, w: nat)
    requires WellNumbered(nodes) && AllBelow(roots, |nodes|)
  {
    exists i :: 0 <= i < |roots| && Within(nodes, roots[i], w)
  }

  /** What visiting the expressions xs passes through. */
  ghost function Seen(nodes: seq<Node>, xs: seq<nat>): set<nat>
    requires WellNumbered(nodes) && AllBelow(xs, |nodes|)
  {
    set w: nat | w < |nodes| && Visited(nodes, xs, w)
  }

  /** The graph holds the dependencies introduced by the visited expressions and no others. */
  ghost predicate Describes(deps: Graph, nodes: seq<Node>, roots: seq<nat>)
    requires WellNumbered(nodes) && AllBelow(roots, |nodes|)
  {
    |deps| == |nodes| &&
    forall u, v :: 0 <= u < |deps| ==> (v in deps[u] <==> exists w :: Visited(nodes, roots, w) && Adds(nodes, w, u, v))
  }

  ghost predicate Added(nodes: seq<Node>, before: Graph, after: Graph, seen: set<nat>) {
    |before| == |after| == |nodes| &&
    forall u, v :: 0 <= u < |after| ==> (v in after[u] <==> v in before[u] || exists w :: w in seen && Adds(nodes, w, u, v))
  }

  lemma {:induction false} AddedTwice(nodes: seq<Node>, a: Graph, b: Graph, c: Graph, seen: set<nat>, more: set<nat>)
    requires Added(nodes, a, b, seen) && Added(nodes, b, c, more)
    ensures Added(nodes, a, c, seen + more)
  {
    hide Adds;
    forall u, v | 0 <= u < |c| ensures v in c[u] <==> v in a[u] || exists w :: w in seen + more && Adds(nodes, w, u, v) {
      if w :| w in seen + more && Adds(nodes, w, u, v) {
        assert w in seen || w in more;
      }
    }
  }

  /** The dependency lists of the expressions, written while visiting them. */
  class Finder {
    const nodes: seq<Node>
    var deps: Graph

    constructor (nodes: seq<Node>)
      requires WellNumbered(nodes)
      ensures this.nodes == nodes && deps == seq(|nodes|, _ => [])
    {
      this.nodes := nodes;
      deps := seq(|nodes|, _ => []);
    }

    method Prepend(v: nat, u: nat)
      requires u < |deps|
      modifies this
      ensures deps == old(deps)[u := [v] + old(deps)[u]]
    {
      deps := deps[u := [v] + deps[u]];
    }

    method PrependAll(args: seq<nat>, u: nat)
      requires u < |deps|
      modifies this
      ensures |deps| == |old(deps)|
      ensures deps == old(deps)[u := deps[u]]
      ensures forall v :: v in deps[u] <==> v in old(deps)[u] || v in args
    {
      for i := 0 to |args|
        invariant |deps| == |old(deps)|
        invariant deps == old(deps)[u := deps[u]]
        invariant forall v :: v in deps[u] <==> v in old(deps)[u] || v in args[..i]
      {
        Prepend(args[i], u);
        assert args[..i + 1] == args[..i] + [args[i]];
      }
      assert args[..|args|] == args;
    }

    method FindDependencies(s: nat)
      requires WellNumbered(nodes) && s < |nodes| == |deps|
      modifies this
      ensures Added(nodes, old(deps), deps, {s})
    {
      match nodes[s]
      case If(cond, consequent, alternate) =>
        Prepend(cond, s);
        Prepend(consequent, s);
        Prepend(alternate, s);
      case Function(_, _, body) =>
        Prepend(body, s);
      case With(_, body) =>
        Prepend(body, s);
      case Continuation(_, _, _) =>
      case Storage(ref, args) =>
        Prepend(ref, s);
        PrependAll(args, s);
      case Jump(target, args) =>
        Prepend(target, s);
        Prepend(s, target);
        PrependAll(args, s);
      case Invoke(target, args) =>
        Prepend(target, s);
        PrependAll(args, s);
      case Symbol(_, definition) =>
        Prepend(definition, s);
        Prepend(s, definition);
      case Constrain(body) =>
        Prepend(body, s);
        Prepend(s, body);
      case Literal =>
    }

    /** Visits the parts first, then the expression itself. */
    method Visit(s: nat)
      requires WellNumbered(nodes) && s < |nodes| == |deps|
      modifies this
      ensures Added(nodes, old(deps), deps, Seen(nodes, [s]))
      decreases s, 1
    {
      hide Added, Seen;
      var parts := Parts(nodes[s]);
      assert AllBelow(parts, s);
      VisitEach(parts, s);
      ghost var deps0 := deps;
      AddedSize(nodes, old(deps), deps, Seen(nodes, parts));
      FindDependencies(s);
      AddedTwice(nodes, old(deps), deps0, deps, Seen(nodes, parts), {s});
      SeenWhole(nodes, s);
    }

    method VisitEach(xs: seq<nat>, ghost bound: nat)
      requires WellNumbered(nodes) && |nodes| == |deps| && AllBelow(xs, bound) && bound <= |nodes|
      modifies this
      ensures AllBelow(xs, |nodes|) && Added(nodes, old(deps), deps, Seen(nodes, xs))
      decreases bound, 0
    {
      hide Added, Seen;
      SeenNothing(nodes);
      AddedNothing(nodes, deps);
      for i := 0 to |xs|
        invariant |deps| == |nodes| && Added(nodes, old(deps), deps, Seen(nodes, xs[..i]))
      {
        ghost var deps0 := deps;
        Visit(xs[i]);
        AddedTwice(nodes, old(deps), deps0, deps, Seen(nodes, xs[..i]), Seen(nodes, [xs[i]]));
        AddedSize(nodes, deps0, deps, Seen(nodes, [xs[i]]));
        SeenNext(nodes, xs, i);
      }
      assert xs[..|xs|] == xs;
    }
  }

  lemma {:induction false} SeenNothing(nodes: seq<Node>)
    requires WellNumbered(nodes)
    ensures Seen(nodes, []) == {}
  {}

  lemma {:induction false} SeenNext(nodes: seq<Node>, xs: seq<nat>, i: nat)
    requires WellNumbered(nodes) && AllBelow(xs, |nodes|) && i < |xs|
    ensures Seen(nodes, xs[..i + 1]) == Seen(nodes, xs[..i]) + Seen(nodes, [xs[i]])
  {
    hide Within;
    var init, one, all := xs[..i], [xs[i]], xs[..i + 1];
    forall w: nat | Visited(nodes, all, w) ensures Visited(nodes, init, w) || Visited(nodes, one, w) {
      var j :| 0 <= j < |all| && Within(nodes, all[j], w);
      if j < i { assert init[j] == all[j]; } else { assert one[0] == all[j]; }
    }
    forall w: nat | Visited(nodes, init, w) ensures Visited(nodes, all, w) {
      var j :| 0 <= j < |init| && Within(nodes, init[j], w);
      assert all[j] == init[j];
    }
    forall w: nat | Visited(nodes, one, w) ensures Visited(nodes, all, w) {
      assert all[i] == one[0];
    }
  }

  lemma {:induction false} SeenWhole(nodes: seq<Node>, s: nat)
    requires WellNumbered(nodes) && s < |nodes|
    ensures AllBelow(Parts(nodes[s]), |nodes|)
    ensures Seen(nodes, [s]) == Seen(nodes, Parts(nodes[s])) + {s}
  {
    var parts := Parts(nodes[s]);
    forall w: nat ensures Visited(nodes, [s], w) <==> w == s || Visited(nodes, parts, w) {
      assert Within(nodes, [s][0], w) <==> w == s || Visited(nodes, parts, w);
    }
  }

  lemma {:induction false} AddedNothing(nodes: seq<Node>, deps: Graph)
    requires |deps| == |nodes|
    ensures Added(nodes, deps, deps, {})
  {}

  lemma {:induction false} AddedSize(nodes: seq<Node>, a: Graph, b: Graph, seen: set<nat>)
    requires Added(nodes, a, b, seen)
    ensures |a| == |b| == |nodes|
  {}

  lemma {:induction false} AddsBelow(nodes: seq<Node>, w: nat, u: nat, v: nat)
    requires WellNumbered(nodes) && Adds(nodes, w, u, v) && w < |nodes|
    ensures v < |nodes|
  {
    if u == w && Needs(nodes, u, v) {
      assert NodeOk(nodes[u], |nodes|);
    }
  }

  lemma {:induction false} WithinBelow(nodes: seq<Node>, s: nat, w: nat)
    requires WellNumbered(nodes) && s < |nodes| && Within(nodes, s, w)
    ensures w <= s
    decreases s
  {
    if w != s {
      var i :| 0 <= i < |Parts(nodes[s])| && Within(nodes, Parts(nodes[s])[i], w);
      WithinBelow(nodes, Parts(nodes[s])[i], w);
    }
  }

  lemma {:induction false} VisitedBelow(nodes: seq<Node>, roots: seq<nat>)
    requires WellNumbered(nodes) && AllBelow(roots, |nodes|)
    ensures forall w: nat :: Visited(nodes, roots, w) ==> w < |nodes|
  {
    hide Within;
    forall w: nat | Visited(nodes, roots, w) ensures w < |nodes| {
      var j :| 0 <= j < |roots| && Within(nodes, roots[j], w);
      WithinBelow(nodes, roots[j], w);
    }
  }

  lemma {:induction false} AddedFromEmpty(nodes: seq<Node>, roots: seq<nat>, a: Graph, b: Graph)
    requires WellNumbered(nodes) && AllBelow(roots, |nodes|) && a == seq(|nodes|, _ => [])
    requires Added(nodes, a, b, Seen(nodes, roots))
    ensures Describes(b, nodes, roots) && Closed(b)
  {
    hide Adds, Within;
    VisitedBelow(nodes, roots);
    forall u, v | 0 <= u < |b|
      ensures v in b[u] <==> exists w :: Visited(nodes, roots, w) && Adds(nodes, w, u, v)
    {
      if w :| Visited(nodes, roots, w) && Adds(nodes, w, u, v) {
        assert w in Seen(nodes, roots);
      }
    }
    forall u, i | 0 <= u < |b| && 0 <= i < |b[u]| ensures b[u][i] < |b| {
      assert b[u][i] in b[u];
      var w: nat :| Visited(nodes, roots, w) && Adds(nodes, w, u, b[u][i]);
      AddsBelow(nodes, w, u, b[u][i]);
    }
  }

  // ----- which expressions are grouped -----

  ghost predicate FromRoot(deps: Graph, roots: seq<nat>, v: nat) {
    exists r :: r in roots && Reaches(deps, r, v)
  }

  /** w lies inside s, and no continuation other than w itself lies around it within s. */
  ghost predicate Exposed(nodes: seq<Node>, s: nat, w: nat)
    requires WellNumbered(nodes) && s < |nodes|
    decreases s
  {
    w == s || (!nodes[s].Continuation? && exists i :: 0 <= i < |Parts(nodes[s])| && Exposed(nodes, Parts(nodes[s])[i], w))
  }

  lemma {:induction false} PartVisited(nodes: seq<Node>, s: nat, t: nat, w: nat)
    requires WellNumbered(nodes) && s < |nodes| && Within(nodes, s, t) && t < |nodes|
    requires w in Parts(nodes[t])
    ensures Within(nodes, s, w)
    decreases s
  {
    if t == s {
      var i :| 0 <= i < |Parts(nodes[s])| && Parts(nodes[s])[i] == w;
      assert Within(nodes, Parts(nodes[s])[i], w);
    } else {
      var i :| 0 <= i < |Parts(nodes[s])| && Within(nodes, Parts(nodes[s])[i], t);
      PartVisited(nodes, Parts(nodes[s])[i], t, w);
    }
  }

  lemma {:induction false} NeedsReached(deps: Graph, nodes: seq<Node>, roots: seq<nat>, u: nat, v: nat)
    requires WellNumbered(nodes) && AllBelow(roots, |nodes|) && Describes(deps, nodes, roots) && Closed(deps)
    requires Visited(nodes, roots, u) && Needs(nodes, u, v)
    ensures Reaches(deps, u, v)
  {
    hide Visited;
    assert Adds(nodes, u, u, v);
    assert v in deps[u];
    ReachesStep(deps, u, v);
  }

  lemma {:induction false} NeededBackReached(deps: Graph, nodes: seq<Node>, roots: seq<nat>, u: nat, v: nat)
    requires WellNumbered(nodes) && AllBelow(roots, |nodes|) && Describes(deps, nodes, roots) && Closed(deps)
    requires Visited(nodes, roots, v) && NeededBack(nodes, u, v)
    ensures Reaches(deps, u, v)
  {
    hide Visited;
    assert Adds(nodes, v, u, v);
    assert NodeOk(nodes[v], |nodes|);
    assert v in deps[u];
    ReachesStep(deps, u, v);
  }

  /** Whatever lies in a visited expression outside continuation bodies is a dependency of it. */
  lemma {:induction false} ExposedReached(deps: Graph, nodes: seq<Node>, roots: seq<nat>, s: nat, w: nat)
    requires WellNumbered(nodes) && AllBelow(roots, |nodes|) && Describes(deps, nodes, roots) && Closed(deps)
    requires s < |nodes| && Visited(nodes, roots, s) && Exposed(nodes, s, w)
    ensures Reaches(deps, s, w)
    decreases s
  {
    hide Describes, Reaches;
    if w == s {
      DescribesSize(deps, nodes, roots);
      ReachesSelf(deps, s);
    } else {
      var i :| 0 <= i < |Parts(nodes[s])| && Exposed(nodes, Parts(nodes[s])[i], w);
      var t := Parts(nodes[s])[i];
      NeedsReached(deps, nodes, roots, s, t);
      var j :| 0 <= j < |roots| && Within(nodes, roots[j], s);
      PartVisited(nodes, roots[j], s, t);
      ExposedReached(deps, nodes, roots, t, w);
      ReachesTransitive(deps, s, t, w);
    }
  }

  lemma {:induction false} DescribesSize(deps: Graph, nodes: seq<Node>, roots: seq<nat>)
    requires WellNumbered(nodes) && AllBelow(roots, |nodes|) && Describes(deps, nodes, roots)
    ensures |deps| == |nodes|
  {}

  /** A visited jump, even one in a continuation's body, hangs on what its target stands for: both
      it and its arguments are dependencies of the target's definition. */
  lemma {:induction false} JumpReached(deps: Graph, nodes: seq<Node>, roots: seq<nat>, j: nat, w: nat)
    requires WellNumbered(nodes) && AllBelow(roots, |nodes|) && Describes(deps, nodes, roots) && Closed(deps)
    requires j < |nodes| && Visited(nodes, roots, j) && nodes[j].Jump? && (w == j || w in Parts(nodes[j]))
    requires nodes[j].target < |nodes| && nodes[nodes[j].target].Symbol?
    ensures Reaches(deps, nodes[nodes[j].target].definition, w)
  {
    hide Describes, Reaches;
    var t := nodes[j].target;
    var d := nodes[t].definition;
    assert t == Parts(nodes[j])[0];
    var i :| 0 <= i < |roots| && Within(nodes, roots[i], j);
    PartVisited(nodes, roots[i], j, t);
    NeededBackReached(deps, nodes, roots, d, t);
    NeededBackReached(deps, nodes, roots, t, j);
    ReachesTransitive(deps, d, t, j);
    if w != j {
      NeedsReached(deps, nodes, roots, j, w);
      ReachesTransitive(deps, d, j, w);
    }
  }

  /** Symbols stand for binding expressions, and a storage is bound by a symbol. */
  predicate BindersOk(nodes: seq<Node>) {
    forall e :: 0 <= e < |nodes| ==>
      && (nodes[e].Symbol? && nodes[e].definition < |nodes| ==>
        var d := nodes[nodes[e].definition]; d.Function? || d.Continuation? || d.With? || d.Storage?)
      && (nodes[e].Storage? && nodes[e].ref < |nodes| ==> nodes[nodes[e].ref].Symbol?)
  }

  lemma {:induction false} LastStep(deps: Graph, u: nat, v: nat)
    requires Reaches(deps, u, v) && u != v
    ensures exists w: nat :: w < |deps| && Reaches(deps, u, w) && v in deps[w]
  {
    var p :| Walk(deps, p) && p[0] == u && p[|p| - 1] == v;
    var q := p[..|p| - 1];
    assert Walk(deps, q);
    assert q[|q| - 1] == p[|p| - 2] && v in deps[p[|p| - 2]];
  }

  /** A visited expression that is not a continuation and has v among its parts. */
  ghost predicate Parent(nodes: seq<Node>, roots: seq<nat>, p: nat, v: nat)
    requires WellNumbered(nodes) && AllBelow(roots, |nodes|)
  {
    p < |nodes| && Visited(nodes, roots, p) && !nodes[p].Continuation? && v in Parts(nodes[p])
  }

  lemma {:induction false} OnlyParentsNeed(nodes: seq<Node>, roots: seq<nat>, w: nat, u: nat, v: nat)
    requires WellNumbered(nodes) && BindersOk(nodes) && AllBelow(roots, |nodes|) && v < |nodes|
    requires nodes[v].If? || nodes[v].Invoke? || nodes[v].Literal?
    requires Visited(nodes, roots, w) && Adds(nodes, w, u, v)
    ensures Parent(nodes, roots, u, v)
  {
    assert u < |nodes| ==> NodeOk(nodes[u], |nodes|);
  }

  /** Exactly when an if, an invoke or a literal is grouped: it is a root, or a part of a grouped
      expression that is not a continuation. */
  lemma {:induction false} GroupedThroughParents(deps: Graph, nodes: seq<Node>, roots: seq<nat>, v: nat)
    requires WellNumbered(nodes) && BindersOk(nodes) && AllBelow(roots, |nodes|)
    requires Describes(deps, nodes, roots) && Closed(deps) && v < |nodes|
    requires nodes[v].If? || nodes[v].Invoke? || nodes[v].Literal?
    ensures FromRoot(deps, roots, v) <==> v in roots || exists p :: Parent(nodes, roots, p, v) && FromRoot(deps, roots, p)
  {
    hide Reaches, Visited, BindersOk;
    if v in roots {
      ReachesSelf(deps, v);
    } else if FromRoot(deps, roots, v) {
      var r :| r in roots && Reaches(deps, r, v);
      LastStep(deps, r, v);
      var u: nat :| u < |deps| && Reaches(deps, r, u) && v in deps[u];
      var w: nat :| Visited(nodes, roots, w) && Adds(nodes, w, u, v);
      OnlyParentsNeed(nodes, roots, w, u, v);
      assert FromRoot(deps, roots, u);
    } else if p :| Parent(nodes, roots, p, v) && FromRoot(deps, roots, p) {
      var r :| r in roots && Reaches(deps, r, p);
      NeedsReached(deps, nodes, roots, p, v);
      ReachesTransitive(deps, r, p, v);
    }
  }

  /** So the body of a continuation, when it is an if, an invoke or a literal, is never grouped,
      although the documentation speaks of all expressions. */
  lemma {:induction false} BodyNotGrouped(deps: Graph, nodes: seq<Node>, roots: seq<nat>, c: nat)
    requires WellNumbered(nodes) && BindersOk(nodes) && AllBelow(roots, |nodes|)
    requires Describes(deps, nodes, roots) && Closed(deps) && c < |nodes| && nodes[c].Continuation?
    requires nodes[c].body < |nodes| && nodes[c].body !in roots
    requires nodes[nodes[c].body].If? || nodes[nodes[c].body].Invoke? || nodes[nodes[c].body].Literal?
    requires forall p :: 0 <= p < |nodes| && nodes[c].body in Parts(nodes[p]) ==> p == c
    ensures !FromRoot(deps, roots, nodes[c].body)
  {
    hide Describes, BindersOk, FromRoot;
    GroupedThroughParents(deps, nodes, roots, nodes[c].body);
  }

  /** `(function f () (continuation k () (if a b c)))`, the symbols f and k first. */
  const SKIPPED: seq<Node> :=
    [Symbol(0, 7), Symbol(1, 6), Literal, Literal, Literal, If(2, 3, 4), Continuation(1, [], 5), Function(0, [], 6)]

  lemma {:induction false} SkippedIsVisited()
    ensures WellNumbered(SKIPPED) && AllBelow([7], |SKIPPED|) && Visited(SKIPPED, [7], 5)
  {
    assert Within(SKIPPED, Parts(SKIPPED[6])[0], 5);
    assert Within(SKIPPED, Parts(SKIPPED[7])[0], 5);
    assert Within(SKIPPED, [7][0], 5);
  }

  /** The if is visited, and whatever dependencies the visits find, it is not grouped. */
  lemma {:induction false} SkippedIsNotGrouped(deps: Graph)
    requires |deps| == |SKIPPED| && Closed(deps)
    ensures WellNumbered(SKIPPED) && AllBelow([7], |SKIPPED|) && Visited(SKIPPED, [7], 5)
    ensures Describes(deps, SKIPPED, [7]) ==> !FromRoot(deps, [7], 5)
  {
    hide Describes, FromRoot;
    SkippedIsVisited();
    if Describes(deps, SKIPPED, [7]) {
      BodyNotGrouped(deps, SKIPPED, [7], 6);
    }
  }

  /** A symbol is grouped with the expression it stands for, a constraint with what it constrains and a
      jump with its target. */
  ghost predicate Coupled(nodes: seq<Node>, roots: seq<nat>, groups: seq<seq<nat>>)
    requires WellNumbered(nodes) && AllBelow(roots, |nodes|)
  {
    forall i, x :: 0 <= i < |groups| && x in groups[i] && x < |nodes| && Visited(nodes, roots, x) ==>
      && (nodes[x].Symbol? ==> nodes[x].definition in groups[i])
      && (nodes[x].Constrain? ==> nodes[x].body in groups[i])
      && (nodes[x].Jump? ==> nodes[x].target in groups[i])
  }

  lemma {:induction false} PairedIsCoupled(deps: Graph, nodes: seq<Node>, roots: seq<nat>, groups: seq<seq<nat>>)
    requires WellNumbered(nodes) && AllBelow(roots, |nodes|) && Describes(deps, nodes, roots) && Paired(deps, groups)
    ensures Coupled(nodes, roots, groups)
  {
    hide Visited;
    forall i, x | 0 <= i < |groups| && x in groups[i] && x < |nodes| && Visited(nodes, roots, x) && (nodes[x].Symbol? || nodes[x].Constrain? || nodes[x].Jump?)
      ensures Partner(nodes[x]) in groups[i]
    {
      var y := Partner(nodes[x]);
      assert NodeOk(nodes[x], |nodes|);
      assert Adds(nodes, x, x, y) && Adds(nodes, x, y, x);
      assert y in deps[x] && x in deps[y];
    }
  }

  /** The expression that a symbol, a constraint or a jump depends on and that depends on it. */
  function Partner(node: Node): nat
    requires node.Symbol? || node.Constrain? || node.Jump?
  {
    match node
    case Symbol(_, definition) => definition
    case Constrain(body) => body
    case Jump(target, _) => target
  }

  // ----- the whole pass, from the expressions -----

  /** Finds the dependencies of the given expressions, groups what they depend on and types it.
      Everything in them outside continuation bodies is typed. */
  method InferExpressions(checker: Checker, roots: seq<nat>) returns (ok: bool, groups: seq<seq<nat>>, ghost deps: Graph, ghost trail: seq<Stage>)
    requires checker.Valid() && checker.eqs == [] && checker.store.bound == map[]
    requires WellNumbered(checker.nodes) && AllBelow(roots, |checker.nodes|) && |checker.nodes| < DONE
    modifies checker, checker.store
    ensures checker.Valid() && Grouping(groups, |checker.nodes|)
    ensures Describes(deps, checker.nodes, roots) && Closed(deps)
    ensures forall i :: 0 <= i < |groups| ==> Mutual(deps, groups[i])
    ensures Paired(deps, groups) && Coupled(checker.nodes, roots, groups)
    ensures forall v :: Grouped(groups, v) <==> FromRoot(deps, roots, v)
    ensures forall r, w :: r in roots && r < |checker.nodes| && Exposed(checker.nodes, r, w) ==> Grouped(groups, w)
    ensures Trail(checker.nodes, groups, trail) && trail[0] == old(checker.Now())
    ensures ok ==> |trail| == |groups| + 1 && trail[|groups|] == checker.Now() && Principal(checker.eqs, checker.store.bound)
    ensures ok ==> AllFit(Types(checker.store.sol, old(checker.sig)), checker.nodes, groups, trail)
    ensures !ok ==> forall R: Subst :: !AllFit(Types(R, old(checker.sig)), checker.nodes, groups, trail)
    ensures !ok ==> |trail| <= |groups| && BrokeOff(checker.nodes, groups[|trail| - 1], trail[|trail| - 1], checker.eqs)
    ensures !ok ==> Unsolvable(checker.eqs)
  {
    hide Reaches, Mutual, Grouped, Describes, Paired, Coupled, AllFit, Unsolvable, Grouping, BrokeOff, Principal, Sound, Processed;
    var finder := new Finder(checker.nodes);
    finder.VisitEach(roots, |checker.nodes|);
    AddedFromEmpty(checker.nodes, roots, seq(|checker.nodes|, _ => []), finder.deps);
    deps := finder.deps;
    DescribesSize(deps, checker.nodes, roots);
    ok, groups, trail := InferProgram(checker, finder.deps, roots);
    PairedIsCoupled(deps, checker.nodes, roots, groups);
    forall r, w | r in roots && r < |checker.nodes| && Exposed(checker.nodes, r, w) ensures Grouped(groups, w) {
      RootVisited(checker.nodes, roots, r);
      ExposedReached(deps, checker.nodes, roots, r, w);
    }
  }

  lemma {:induction false} RootVisited(nodes: seq<Node>, roots: seq<nat>, r: nat)
    requires WellNumbered(nodes) && AllBelow(roots, |nodes|) && r in roots
    ensures r < |nodes| && Visited(nodes, roots, r)
  {
    var i :| 0 <= i < |roots| && roots[i] == r;
    assert Within(nodes, roots[i], r);
  }
}
