/** Destructive unification over self-looping variable cells
    (bootstrap/lexer.c, bootstrap/analysis.c). */
module Unification {
  import opened Common
  import opened Fragments

  /** sol is the fully resolved form of the bindings b. */
  ghost predicate Solved(b: Subst, sol: Subst) {
    && sol.Keys == b.Keys
    && (forall v :: v in b ==> sol[v] == Apply(sol, b[v]))
    && (forall v, w: nat :: v in b && Occurs(w, sol[v]) ==> w !in b)
  }

  /** Following a binding strictly lowers the rank: no chain of bindings loops. */
  ghost predicate Ranked(b: Subst, rank: map<nat, nat>) {
    && rank.Keys == b.Keys
    && (forall v, w :: v in b && w in b && Occurs(w, b[v]) ==> rank[w] < rank[v])
  }

  /** theta gives equal values to both sides of every binding. */
  ghost predicate Satisfies(theta: Subst, b: Subst) {
    forall v :: v in b ==> Apply(theta, Var(v)) == Apply(theta, b[v])
  }

  ghost predicate Equates(theta: Subst, x: Frag, y: Frag) {
    Apply(theta, x) == Apply(theta, y)
  }

  /** c keeps every binding of b. */
  ghost predicate Extends(b: Subst, c: Subst) {
    b.Keys <= c.Keys && forall v :: v in b ==> c[v] == b[v]
  }

  /** The solutions of the bindings b together with the equation x = y are exactly those of c;
      when `ok` is false there are none. */
  ghost predicate SolutionsAre(b: Subst, x: Frag, y: Frag, ok: bool, c: Subst) {
    forall theta: Subst :: (Satisfies(theta, b) && Equates(theta, x, y)) <==> (ok && Satisfies(theta, c))
  }

  /** v is still present in x or y as resolved by s. */
  ghost predicate Mentions(v: nat, s: Subst, x: Frag, y: Frag) {
    Occurs(v, Apply(s, x)) || Occurs(v, Apply(s, y))
  }

  /** Going from bindings b (resolved by s) to c (resolved by t) binds only variables that x and y
      mentioned, and to values made of such variables. */
  ghost predicate BindsOnly(b: Subst, s: Subst, x: Frag, y: Frag, c: Subst, t: Subst) {
    forall v :: v in c && v !in b ==>
      Mentions(v, s, x, y) && v in t && forall u: nat :: Occurs(u, t[v]) ==> Mentions(u, s, x, y)
  }

  /** The cells allocated below `next` that are still unbound. */
  ghost function Unbound(next: nat, b: Subst): set<nat> {
    set v: nat | v < next && v !in b
  }

  lemma {:induction false} ResolvedIsUnbound(b: Subst, sol: Subst, f: Frag)
    requires Solved(b, sol)
    ensures forall v: nat :: Occurs(v, Apply(sol, f)) ==> v !in b
  {
    forall v: nat | Occurs(v, Apply(sol, f)) ensures v !in b {
      OccursApply(sol, v, f);
      var w: nat :| Occurs(w, f) && Occurs(v, Apply(sol, Var(w)));
    }
  }

  lemma {:induction false} UnboundStays(b: Subst, sol: Subst, v: nat)
    requires Solved(b, sol) && v !in b
    ensures Apply(sol, Var(v)) == Var(v)
  {}

  lemma {:induction false} ResolveTwice(b: Subst, sol: Subst, f: Frag)
    requires Solved(b, sol)
    ensures Apply(sol, Apply(sol, f)) == Apply(sol, f)
  {
    ResolvedIsUnbound(b, sol, f);
    ApplyUntouched(sol, Apply(sol, f));
  }

  /** Resolution is determined by the bindings alone. */
  lemma {:induction false} ResolutionIsUnique(b: Subst, rank: map<nat, nat>, s: Subst, t: Subst, v: nat)
    requires Ranked(b, rank) && Solved(b, s) && Solved(b, t) && v in b
    ensures s[v] == t[v]
    decreases rank[v]
  {
    forall w: nat | Occurs(w, b[v]) ensures Apply(s, Var(w)) == Apply(t, Var(w)) {
      if w in b {
        ResolutionIsUnique(b, rank, s, t, w);
      }
    }
    ApplyAgree(s, t, b[v]);
  }

  /** Every solution of the bindings factors through their resolved form. */
  lemma {:induction false} SolutionAbsorbsVar(b: Subst, sol: Subst, rank: map<nat, nat>, theta: Subst, v: nat)
    requires Solved(b, sol) && Ranked(b, rank) && Satisfies(theta, b) && v in b
    ensures Apply(theta, sol[v]) == Apply(theta, Var(v))
    decreases rank[v]
  {
    forall w: nat | Occurs(w, b[v]) ensures Apply(theta, Apply(sol, Var(w))) == Apply(theta, Var(w)) {
      if w in b {
        SolutionAbsorbsVar(b, sol, rank, theta, w);
      }
    }
    ApplyAbsorb(sol, theta, b[v]);
  }

  lemma {:induction false} SolutionAbsorbs(b: Subst, sol: Subst, rank: map<nat, nat>, theta: Subst, f: Frag)
    requires Solved(b, sol) && Ranked(b, rank) && Satisfies(theta, b)
    ensures Apply(theta, Apply(sol, f)) == Apply(theta, f)
  {
    forall w: nat | Occurs(w, f) ensures Apply(theta, Apply(sol, Var(w))) == Apply(theta, Var(w)) {
      if w in b {
        SolutionAbsorbsVar(b, sol, rank, theta, w);
      }
    }
    ApplyAbsorb(sol, theta, f);
  }

  /** A resolved form is itself a solution. */
  lemma {:induction false} ResolvedSatisfies(b: Subst, sol: Subst)
    requires Solved(b, sol)
    ensures Satisfies(sol, b)
  {}

  /** Resolution under later bindings factors through resolution under earlier ones. */
  lemma {:induction false} LaterAbsorbsEarlier(b: Subst, sol: Subst, rank: map<nat, nat>, b': Subst, sol': Subst, f: Frag)
    requires Solved(b, sol) && Ranked(b, rank) && Solved(b', sol')
    requires b.Keys <= b'.Keys && forall v :: v in b ==> b'[v] == b[v]
    ensures Apply(sol', Apply(sol, f)) == Apply(sol', f)
  {
    assert Satisfies(sol', b);
    SolutionAbsorbs(b, sol, rank, sol', f);
  }

  lemma {:induction false} OccursMeansLarger(theta: Subst, v: nat, f: Frag)
    requires Occurs(v, f)
    ensures Size(Apply(theta, Var(v))) <= Size(Apply(theta, f))
    ensures f.Lst? ==> Size(Apply(theta, Var(v))) < Size(Apply(theta, f))
    decreases f
  {
    if f.Lst? {
      var i :| 0 <= i < |f.items| && Occurs(v, f.items[i]);
      OccursMeansLarger(theta, v, f.items[i]);
      ItemIsSmaller(Apply(theta, f).items, i);
    }
  }

  // ----- one binding -----

  ghost function BindSol(sol: Subst, v: nat, r: Frag): Subst {
    (map w | w in sol :: Apply(map[v := r], sol[w]))[v := r]
  }

  lemma {:induction false} BindSolComposes(sol: Subst, v: nat, r: Frag, f: Frag)
    requires v !in sol
    ensures Apply(BindSol(sol, v, r), f) == Apply(map[v := r], Apply(sol, f))
    decreases f
  {
    match f
    case Var(_) =>
    case Tok(_) =>
    case Lst(items) =>
      forall i | 0 <= i < |items|
        ensures Apply(BindSol(sol, v, r), items[i]) == Apply(map[v := r], Apply(sol, items[i]))
      {
        BindSolComposes(sol, v, r, items[i]);
      }
      assert Apply(BindSol(sol, v, r), f).items == Apply(map[v := r], Apply(sol, f)).items;
  }

  lemma {:induction false} BindResolves(b: Subst, sol: Subst, v: nat, t: Frag, w: nat)
    requires Solved(b, sol) && v !in b && !Occurs(v, Apply(sol, t))
    requires w == v || w in b
    ensures BindSol(sol, v, Apply(sol, t))[w] == Apply(BindSol(sol, v, Apply(sol, t)), b[v := t][w])
  {
    var r := Apply(sol, t);
    if w == v {
      BindSolComposes(sol, v, r, t);
      ApplyUntouched(map[v := r], r);
    } else {
      BindSolComposes(sol, v, r, b[w]);
    }
  }

  lemma {:induction false} BindLeavesUnbound(b: Subst, sol: Subst, v: nat, t: Frag, w: nat, u: nat)
    requires Solved(b, sol) && v !in b && !Occurs(v, Apply(sol, t))
    requires w == v || w in b
    requires Occurs(u, BindSol(sol, v, Apply(sol, t))[w])
    ensures u !in b && u != v
  {
    var r := Apply(sol, t);
    ResolvedIsUnbound(b, sol, t);
    if w != v {
      OccursApply(map[v := r], u, sol[w]);
      var x: nat :| Occurs(x, sol[w]) && Occurs(u, Apply(map[v := r], Var(x)));
      assert x !in b;
    }
  }

  lemma {:induction false} BindKeepsSolved(b: Subst, sol: Subst, v: nat, t: Frag)
    requires Solved(b, sol) && v !in b && !Occurs(v, Apply(sol, t))
    ensures Solved(b[v := t], BindSol(sol, v, Apply(sol, t)))
  {
    var b', sol' := b[v := t], BindSol(sol, v, Apply(sol, t));
    forall w | w in b' ensures sol'[w] == Apply(sol', b'[w]) {
      BindResolves(b, sol, v, t, w);
    }
    forall w, u: nat | w in b' && Occurs(u, sol'[w]) ensures u !in b' {
      BindLeavesUnbound(b, sol, v, t, w, u);
    }
  }

  /** v is placed above everything its value reaches and below everything that reaches v. */
  ghost function BindRank(sol: Subst, rank: map<nat, nat>, top: nat, v: nat): map<nat, nat> {
    (map w | w in rank :: if w in sol && Occurs(v, sol[w]) then rank[w] + top + 1 else rank[w])[v := top]
  }

  lemma {:induction false} BindRankDescends(b: Subst, sol: Subst, rank: map<nat, nat>, top: nat, v: nat, t: Frag, x: nat, w: nat)
    requires Solved(b, sol) && Ranked(b, rank) && v !in b && !Occurs(v, Apply(sol, t))
    requires forall u :: u in rank ==> rank[u] < top
    requires x in b[v := t] && w in b[v := t] && Occurs(w, b[v := t][x])
    ensures BindRank(sol, rank, top, v)[w] < BindRank(sol, rank, top, v)[x]
  {
    OccursApply(sol, v, b[v := t][x]);
    if w == v || Occurs(v, sol[w]) {
      assert Occurs(v, Apply(sol, Var(w)));
      assert Occurs(v, Apply(sol, b[v := t][x]));
      assert x != v;
    }
  }

  lemma {:induction false} BindKeepsRanked(b: Subst, sol: Subst, rank: map<nat, nat>, top: nat, v: nat, t: Frag)
    requires Solved(b, sol) && Ranked(b, rank) && v !in b && !Occurs(v, Apply(sol, t))
    requires forall w :: w in rank ==> rank[w] < top
    ensures Ranked(b[v := t], BindRank(sol, rank, top, v))
  {
    var b', rank' := b[v := t], BindRank(sol, rank, top, v);
    assert rank'.Keys == b'.Keys;
    hide Solved, Apply, Occurs, BindRank;
    forall x, w | x in b' && w in b' && Occurs(w, b'[x]) ensures rank'[w] < rank'[x] {
      BindRankDescends(b, sol, rank, top, v, t, x, w);
    }
  }

  ghost function Above(rank: map<nat, nat>): (top: nat)
    ensures forall w :: w in rank ==> rank[w] < top
  {
    if rank == map[] then 0 else
      var w :| w in rank;
      var rest := map x | x in rank && x != w :: rank[x];
      assert rest.Keys == rank.Keys - {w};
      var n := Above(rest);
      assert forall x :: x in rank && x != w ==> x in rest && rank[x] == rest[x];
      if n > rank[w] then n else rank[w] + 1
  }

  // ----- the solutions of one equation -----

  lemma {:induction false} HeadsAreEquivalent(b: Subst, sol: Subst, rank: map<nat, nat>, theta: Subst, x: Frag, xl: Frag)
    requires Solved(b, sol) && Ranked(b, rank) && Satisfies(theta, b) && Apply(sol, x) == Apply(sol, xl)
    ensures Apply(theta, x) == Apply(theta, xl)
  {
    SolutionAbsorbs(b, sol, rank, theta, x);
    SolutionAbsorbs(b, sol, rank, theta, xl);
  }

  lemma {:induction false} HeadsHaveSameSolutions(b: Subst, sol: Subst, rank: map<nat, nat>, x: Frag, y: Frag, xl: Frag, yl: Frag, ok: bool, c: Subst)
    requires Solved(b, sol) && Ranked(b, rank) && Extends(b, c)
    requires Apply(sol, x) == Apply(sol, xl) && Apply(sol, y) == Apply(sol, yl)
    requires SolutionsAre(b, xl, yl, ok, c)
    ensures SolutionsAre(b, x, y, ok, c)
  {
    forall theta: Subst
      ensures (Satisfies(theta, b) && Equates(theta, x, y)) <==> (ok && Satisfies(theta, c))
    {
      if Satisfies(theta, b) {
        HeadsAreEquivalent(b, sol, rank, theta, x, xl);
        HeadsAreEquivalent(b, sol, rank, theta, y, yl);
        assert Equates(theta, x, y) == Equates(theta, xl, yl);
      }
    }
  }

  lemma {:induction false} BindSolutions(b: Subst, v: nat, t: Frag)
    requires v !in b
    ensures SolutionsAre(b, Var(v), t, true, b[v := t])
  {
    var c := b[v := t];
    forall theta: Subst
      ensures (Satisfies(theta, b) && Equates(theta, Var(v), t)) <==> Satisfies(theta, c)
    {
      if Satisfies(theta, c) {
        assert c[v] == t;
        forall w | w in b ensures Apply(theta, Var(w)) == Apply(theta, b[w]) { assert w in c && c[w] == b[w]; }
      }
    }
  }

  /** A variable equal to a fragment that properly contains it has no finite value. */
  lemma {:induction false} OccursHasNoSolution(b: Subst, sol: Subst, rank: map<nat, nat>, v: nat, t: Frag)
    requires Solved(b, sol) && Ranked(b, rank) && v !in b && !t.Var? && Occurs(v, Apply(sol, t))
    ensures SolutionsAre(b, Var(v), t, false, b)
  {
    forall theta: Subst | Satisfies(theta, b) ensures !Equates(theta, Var(v), t) {
      SolutionAbsorbs(b, sol, rank, theta, t);
      OccursMeansLarger(theta, v, Apply(sol, t));
    }
  }

  lemma {:induction false} SymmetricSolutions(b: Subst, x: Frag, y: Frag, ok: bool, c: Subst)
    requires SolutionsAre(b, y, x, ok, c)
    ensures SolutionsAre(b, x, y, ok, c)
  {
    forall theta: Subst
      ensures (Satisfies(theta, b) && Equates(theta, x, y)) <==> (ok && Satisfies(theta, c))
    {
      assert Equates(theta, x, y) == Equates(theta, y, x);
    }
  }

  /** Equations between items of two lists, up to index n. */
  ghost predicate EquatesItems(theta: Subst, xs: seq<Frag>, ys: seq<Frag>, n: nat) {
    n <= |xs| && n <= |ys| && forall i :: 0 <= i < n ==> Equates(theta, xs[i], ys[i])
  }

  ghost predicate ItemSolutionsAre(b: Subst, xs: seq<Frag>, ys: seq<Frag>, n: nat, ok: bool, c: Subst) {
    forall theta: Subst :: (Satisfies(theta, b) && EquatesItems(theta, xs, ys, n)) <==> (ok && Satisfies(theta, c))
  }

  lemma {:induction false} ItemSolutionsStep(b: Subst, xs: seq<Frag>, ys: seq<Frag>, n: nat, c: Subst, ok: bool, d: Subst)
    requires n < |xs| == |ys|
    requires ItemSolutionsAre(b, xs, ys, n, true, c) && SolutionsAre(c, xs[n], ys[n], ok, d)
    ensures ItemSolutionsAre(b, xs, ys, n + 1, ok, d)
  {
    forall theta: Subst
      ensures (Satisfies(theta, b) && EquatesItems(theta, xs, ys, n + 1)) <==> (ok && Satisfies(theta, d))
    {
      assert EquatesItems(theta, xs, ys, n + 1) <==> EquatesItems(theta, xs, ys, n) && Equates(theta, xs[n], ys[n]);
    }
  }

  lemma {:induction false} ListSolutions(b: Subst, xs: seq<Frag>, ys: seq<Frag>, n: nat, ok: bool, c: Subst)
    requires n <= |xs| == |ys| && (ok ==> n == |xs|)
    requires ItemSolutionsAre(b, xs, ys, n, ok, c)
    ensures SolutionsAre(b, Lst(xs), Lst(ys), ok, c)
  {
    forall theta: Subst
      ensures (Satisfies(theta, b) && Equates(theta, Lst(xs), Lst(ys))) <==> (ok && Satisfies(theta, c))
    {
      var fx, fy := Apply(theta, Lst(xs)).items, Apply(theta, Lst(ys)).items;
      if Equates(theta, Lst(xs), Lst(ys)) {
        forall i | 0 <= i < n ensures Equates(theta, xs[i], ys[i]) { assert fx[i] == fy[i]; }
      }
      if n == |xs| && EquatesItems(theta, xs, ys, n) {
        forall i | 0 <= i < n ensures fx[i] == fy[i] { assert Equates(theta, xs[i], ys[i]); }
        assert fx == fy;
      }
    }
  }

  lemma {:induction false} SameSolutions(b: Subst, x: Frag)
    ensures SolutionsAre(b, x, x, true, b)
  {}

  lemma {:induction false} TokenSolutions(b: Subst, x: Frag, y: Frag)
    requires !x.Var? && !y.Var? && (x.Tok? || y.Tok?)
    ensures SolutionsAre(b, x, y, x == y, b)
  {}

  lemma {:induction false} LengthSolutions(b: Subst, xs: seq<Frag>, ys: seq<Frag>)
    requires |xs| != |ys|
    ensures SolutionsAre(b, Lst(xs), Lst(ys), false, b)
  {
    forall theta: Subst ensures !Equates(theta, Lst(xs), Lst(ys)) {
      assert |Apply(theta, Lst(xs)).items| != |Apply(theta, Lst(ys)).items|;
    }
  }

  lemma {:induction false} SolutionEquates(b: Subst, x: Frag, y: Frag, c: Subst, theta: Subst)
    requires SolutionsAre(b, x, y, true, c) && Satisfies(theta, c)
    ensures Apply(theta, x) == Apply(theta, y)
  {
    assert Equates(theta, x, y);
  }

  // ----- which variables get bound -----

  /** A fragment that shares no resolved variable with either side of a solved equation still
      resolves to what it did. */
  lemma {:induction false} SolvingIsolates(b: Subst, s: Subst, r: map<nat, nat>, x: Frag, y: Frag, c: Subst, t: Subst, g: Frag)
    requires Solved(b, s) && Ranked(b, r) && Solved(c, t) && Extends(b, c) && BindsOnly(b, s, x, y, c, t)
    requires forall v: nat :: Occurs(v, Apply(s, g)) ==> !Mentions(v, s, x, y)
    ensures Apply(t, g) == Apply(s, g)
    ensures forall v: nat :: Occurs(v, Apply(s, g)) ==> v !in c
  {
    hide Mentions;
    LaterAbsorbsEarlier(b, s, r, c, t, g);
    ResolvedIsUnbound(b, s, g);
    forall v: nat | Occurs(v, Apply(s, g)) ensures v !in c && v !in t {}
    ApplyUntouched(t, Apply(s, g));
  }

  lemma {:induction false} SymmetricBinds(b: Subst, s: Subst, x: Frag, y: Frag, c: Subst, t: Subst)
    requires BindsOnly(b, s, x, y, c, t)
    ensures BindsOnly(b, s, y, x, c, t)
  {
    forall v: nat ensures Mentions(v, s, x, y) == Mentions(v, s, y, x) {}
  }

  lemma {:induction false} SameHeadsBind(b: Subst, s: Subst, x: Frag, y: Frag, xl: Frag, yl: Frag, c: Subst, t: Subst)
    requires Apply(s, x) == Apply(s, xl) && Apply(s, y) == Apply(s, yl)
    ensures BindsOnly(b, s, xl, yl, c, t) ==> BindsOnly(b, s, x, y, c, t)
    ensures c == b ==> BindsOnly(b, s, x, y, c, t)
  {
    forall v: nat ensures Mentions(v, s, x, y) == Mentions(v, s, xl, yl) {}
  }

  lemma {:induction false} NoItems(b: Subst, sol: Subst, xs: seq<Frag>, ys: seq<Frag>)
    requires |xs| == |ys|
    ensures ItemSolutionsAre(b, xs, ys, 0, true, b) && BindsOnly(b, sol, Lst(xs), Lst(ys), b, sol)
  {}

  lemma {:induction false} FewerUnbound(next: nat, b: Subst, c: Subst)
    requires Extends(b, c)
    requires forall v :: v in c ==> v < next
    ensures c == b || Unbound(next, c) < Unbound(next, b)
  {
    if c != b {
      var v :| v in c && v !in b;
      assert v in Unbound(next, b) && v !in Unbound(next, c);
      assert Unbound(next, c) <= Unbound(next, b);
    }
  }

  lemma {:induction false} BindOneBindsOnly(b: Subst, s: Subst, v: nat, r: Frag)
    requires Solved(b, s) && v !in b
    ensures BindsOnly(b, s, Var(v), r, b[v := r], BindSol(s, v, Apply(s, r)))
  {
    UnboundStays(b, s, v);
    assert Mentions(v, s, Var(v), r);
    forall u: nat | Occurs(u, Apply(s, r)) ensures Mentions(u, s, Var(v), r) {}
  }

  /** What resolves out of an item under later bindings was in the list to begin with. */
  lemma {:induction false} LaterItemMention(b: Subst, s: Subst, r: map<nat, nat>, x: Frag, y: Frag, c: Subst, t: Subst, f: Frag, u: nat)
    requires Solved(b, s) && Ranked(b, r) && Solved(c, t) && Extends(b, c) && BindsOnly(b, s, x, y, c, t)
    requires forall w: nat :: Occurs(w, Apply(s, f)) ==> Mentions(w, s, x, y)
    requires Occurs(u, Apply(t, f))
    ensures Mentions(u, s, x, y)
  {
    hide Mentions;
    LaterAbsorbsEarlier(b, s, r, c, t, f);
    OccursApply(t, u, Apply(s, f));
    var w: nat :| Occurs(w, Apply(s, f)) && Occurs(u, Apply(t, Var(w)));
    ResolvedIsUnbound(b, s, f);
    if w !in c {
      UnboundStays(c, t, w);
    }
  }

  lemma {:induction false} ItemMention(s: Subst, xs: seq<Frag>, ys: seq<Frag>, i: nat, u: nat)
    requires i < |xs| == |ys|
    ensures Occurs(u, Apply(s, xs[i])) ==> Mentions(u, s, Lst(xs), Lst(ys))
    ensures Occurs(u, Apply(s, ys[i])) ==> Mentions(u, s, Lst(xs), Lst(ys))
  {
    assert Apply(s, Lst(xs)).items[i] == Apply(s, xs[i]);
    assert Apply(s, Lst(ys)).items[i] == Apply(s, ys[i]);
  }

  lemma {:induction false} LaterMention(b: Subst, s: Subst, r: map<nat, nat>, c: Subst, t: Subst, xs: seq<Frag>, ys: seq<Frag>, i: nat, u: nat)
    requires i < |xs| == |ys| && Solved(b, s) && Ranked(b, r) && Solved(c, t) && Extends(b, c)
    requires BindsOnly(b, s, Lst(xs), Lst(ys), c, t)
    requires Mentions(u, t, xs[i], ys[i])
    ensures Mentions(u, s, Lst(xs), Lst(ys))
  {
    hide Solved, Ranked, BindsOnly, Occurs;
    forall w: nat ensures Occurs(w, Apply(s, xs[i])) || Occurs(w, Apply(s, ys[i])) ==> Mentions(w, s, Lst(xs), Lst(ys)) {
      ItemMention(s, xs, ys, i, w);
    }
    if Occurs(u, Apply(t, xs[i])) {
      LaterItemMention(b, s, r, Lst(xs), Lst(ys), c, t, xs[i], u);
    } else {
      LaterItemMention(b, s, r, Lst(xs), Lst(ys), c, t, ys[i], u);
    }
  }

  /** Binding more in a second round keeps to the variables of the first round's fragments. */
  lemma {:induction false} BindsOnlyCompose(b: Subst, s: Subst, x: Frag, y: Frag, c: Subst, t: Subst, q: map<nat, nat>, x': Frag, y': Frag, d: Subst, w: Subst)
    requires Solved(c, t) && Ranked(c, q) && Solved(d, w) && Extends(c, d)
    requires BindsOnly(b, s, x, y, c, t) && BindsOnly(c, t, x', y', d, w)
    requires forall u: nat :: Mentions(u, t, x', y') ==> Mentions(u, s, x, y)
    ensures BindsOnly(b, s, x, y, d, w)
  {
    hide Mentions;
    forall v | v in d && v !in b
      ensures Mentions(v, s, x, y) && v in w && forall u: nat :: Occurs(u, w[v]) ==> Mentions(u, s, x, y)
    {
      if v in c {
        forall u: nat | Occurs(u, w[v]) ensures Mentions(u, s, x, y) {
          BoundValueMention(b, s, x, y, c, t, q, x', y', d, w, v, u);
        }
      }
    }
  }

  lemma {:induction false} BoundValueMention(b: Subst, s: Subst, x: Frag, y: Frag, c: Subst, t: Subst, q: map<nat, nat>, x': Frag, y': Frag, d: Subst, w: Subst, v: nat, u: nat)
    requires Solved(c, t) && Ranked(c, q) && Solved(d, w) && Extends(c, d)
    requires BindsOnly(b, s, x, y, c, t) && BindsOnly(c, t, x', y', d, w)
    requires forall u: nat :: Mentions(u, t, x', y') ==> Mentions(u, s, x, y)
    requires v in c && v !in b && Occurs(u, w[v])
    ensures Mentions(u, s, x, y)
  {
    hide Mentions;
    LaterAbsorbsEarlier(c, t, q, d, w, Var(v));
    OccursApply(w, u, t[v]);
    var z: nat :| Occurs(z, t[v]) && Occurs(u, Apply(w, Var(z)));
    if z !in d {
      UnboundStays(d, w, z);
    }
  }

  /** What the i-th pair binds occurs in the two lists as they resolved at the start. */
  lemma {:induction false} ItemBinds(b: Subst, s: Subst, r: map<nat, nat>, c: Subst, t: Subst, q: map<nat, nat>, xs: seq<Frag>, ys: seq<Frag>, i: nat, d: Subst, w: Subst)
    requires i < |xs| == |ys| && Solved(b, s) && Ranked(b, r) && Solved(c, t) && Ranked(c, q) && Solved(d, w)
    requires Extends(b, c) && Extends(c, d)
    requires BindsOnly(b, s, Lst(xs), Lst(ys), c, t) && BindsOnly(c, t, xs[i], ys[i], d, w)
    ensures BindsOnly(b, s, Lst(xs), Lst(ys), d, w)
  {
    hide Solved, Ranked, BindsOnly, Mentions;
    forall u: nat | Mentions(u, t, xs[i], ys[i]) ensures Mentions(u, s, Lst(xs), Lst(ys)) {
      LaterMention(b, s, r, c, t, xs, ys, i, u);
    }
    BindsOnlyCompose(b, s, Lst(xs), Lst(ys), c, t, q, xs[i], ys[i], d, w);
  }

  // ----- renaming apart -----

  /** ren sends the i-th old variable to the i-th new one; new variables are distinct and lie in
      [base, limit). */
  ghost predicate Names(ren: Subst, olds: seq<nat>, news: seq<nat>, base: nat, limit: nat) {
    && |olds| == |news|
    && (forall i :: 0 <= i < |olds| ==> olds[i] in ren && ren[olds[i]] == Var(news[i]))
    && (forall v :: v in ren ==> v in olds)
    && (forall i, j :: 0 <= i < j < |olds| ==> olds[i] != olds[j] && news[i] != news[j])
    && (forall i :: 0 <= i < |olds| ==> base <= news[i] < limit)
  }

  /** c is f with its variables, and no others, renamed by ren. */
  ghost predicate Renames(ren0: Subst, ren: Subst, f: Frag, c: Frag) {
    && Extends(ren0, ren) && c == Apply(ren, f)
    && (forall v: nat :: Occurs(v, f) ==> v in ren)
    && (forall v :: v in ren && v !in ren0 ==> Occurs(v, f))
  }

  /** Distinct variables get distinct names. */
  lemma {:induction false} NamesInjective(ren: Subst, olds: seq<nat>, news: seq<nat>, base: nat, limit: nat, v: nat, w: nat)
    requires Names(ren, olds, news, base, limit) && v in ren && w in ren && ren[v] == ren[w]
    ensures v == w && ren[v].Var? && base <= ren[v].id < limit
  {
    var i :| 0 <= i < |olds| && olds[i] == v;
    var j :| 0 <= j < |olds| && olds[j] == w;
  }

  lemma {:induction false} NamesPrepend(ren: Subst, olds: seq<nat>, news: seq<nat>, base: nat, limit: nat, v: nat)
    requires Names(ren, olds, news, base, limit) && v !in olds && base <= limit
    ensures Names(ren[v := Var(limit)], [v] + olds, [limit] + news, base, limit + 1)
    ensures Renames(ren, ren[v := Var(limit)], Var(v), Var(limit))
  {
    assert v !in ren;
  }

  /** The first n items of a list are renamed. */
  ghost predicate RenamesItems(ren0: Subst, ren: Subst, items: seq<Frag>, n: nat, out: seq<Frag>) {
    && n <= |items| && |out| == n && Extends(ren0, ren)
    && (forall i :: 0 <= i < n ==> out[i] == Apply(ren, items[i]))
    && (forall i, v: nat :: 0 <= i < n && Occurs(v, items[i]) ==> v in ren)
    && (forall v :: v in ren && v !in ren0 ==> Occurs(v, Lst(items)))
  }

  lemma {:induction false} RenamesItem(r0: Subst, r1: Subst, r2: Subst, items: seq<Frag>, n: nat, out: seq<Frag>, d: Frag)
    requires n < |items| && RenamesItems(r0, r1, items, n, out) && Renames(r1, r2, items[n], d)
    ensures RenamesItems(r0, r2, items, n + 1, out + [d])
  {
    forall i | 0 <= i < n ensures out[i] == Apply(r2, items[i]) {
      forall v: nat | Occurs(v, items[i]) ensures Apply(r1, Var(v)) == Apply(r2, Var(v)) {}
      ApplyAgree(r1, r2, items[i]);
    }
  }

  lemma {:induction false} RenamesList(r0: Subst, r1: Subst, items: seq<Frag>, out: seq<Frag>)
    requires RenamesItems(r0, r1, items, |items|, out)
    ensures Renames(r0, r1, Lst(items), Lst(out))
  {
    assert Apply(r1, Lst(items)).items == out;
  }

  lemma {:induction false} NoItemsRenamed(ren: Subst, items: seq<Frag>)
    ensures RenamesItems(ren, ren, items, 0, [])
  {}

  lemma {:induction false} RenamesToken(ren: Subst, text: seq<char>)
    ensures Renames(ren, ren, Tok(text), Tok(text))
  {}

  lemma {:induction false} SearchNames(ren: Subst, olds: seq<nat>, news: seq<nat>, base: nat, limit: nat, v: nat)
    requires Names(ren, olds, news, base, limit)
    ensures |olds| == |news|
    ensures forall i :: 0 <= i < |olds| && olds[i] == v ==> Renames(ren, ren, Var(v), Var(news[i]))
  {}

  lemma {:induction false} RenamedBelow(ren: Subst, olds: seq<nat>, news: seq<nat>, base: nat, limit: nat, r0: Subst, f: Frag, c: Frag)
    requires Names(ren, olds, news, base, limit) && Renames(r0, ren, f, c)
    ensures Below(c, limit)
    ensures forall v: nat :: Occurs(v, c) ==> v >= base
  {
    forall v: nat | Occurs(v, c) ensures base <= v < limit {
      OccursApply(ren, v, f);
      var w: nat :| Occurs(w, f) && Occurs(v, Apply(ren, Var(w)));
      NamesInjective(ren, olds, news, base, limit, w, w);
    }
    BelowIsOccurs(c, limit);
  }

  /** The variable cells and their bindings. An unbound cell is one whose value is itself. */
  class Store {
    var next: nat            // cells allocated so far
    var bound: Subst         // the cells that set_val has pointed elsewhere
    ghost var sol: Subst
    ghost var rank: map<nat, nat>

    ghost predicate Valid()
      reads this
    {
      && Solved(bound, sol) && Ranked(bound, rank)
      && (forall v :: v in bound ==> v < next && Below(bound[v], next))
    }

    constructor ()
      ensures Valid() && next == 0 && bound == map[]
    {
      next, bound, sol, rank := 0, map[], map[], map[];
    }

    method NewVar() returns (f: Frag)
      requires Valid()
      modifies this`next
      ensures Valid() && next == old(next) + 1 && f == Var(old(next)) && f.id !in bound
      ensures forall g :: Below(g, old(next)) ==> Below(g, next)
    {
      f := Var(next);
      forall g | Below(g, next) ensures Below(g, next + 1) {
        BelowIsOccurs(g, next);
        BelowIsOccurs(g, next + 1);
      }
      next := next + 1;
      forall v | v in bound ensures Below(bound[v], next) {
        BelowIsOccurs(bound[v], next - 1);
        BelowIsOccurs(bound[v], next);
      }
    }

    /** Copies f with its variables renamed apart, reusing the names given so far. Bound cells are
        copied like unbound ones: their values are not followed. */
    method CopyFragment(f: Frag, olds: seq<nat>, news: seq<nat>, ghost ren: Subst, ghost base: nat)
      returns (c: Frag, olds': seq<nat>, news': seq<nat>, ghost ren': Subst)
      requires Valid() && Names(ren, olds, news, base, next) && base <= next
      modifies this`next
      ensures Valid() && next >= old(next)
      ensures Names(ren', olds', news', base, next) && Renames(ren, ren', f, c)
      decreases f
    {
      hide Solved, Ranked, Names, Renames, RenamesItems, Occurs;
      match f
      case Var(v) =>
        SearchNames(ren, olds, news, base, next, v);
        for i := 0 to |olds|
          invariant forall j :: 0 <= j < i ==> olds[j] != v
        {
          if olds[i] == v {
            return Var(news[i]), olds, news, ren;
          }
        }
        NamesPrepend(ren, olds, news, base, next, v);
        c := NewVar();
        olds', news', ren' := [v] + olds, [c.id] + news, ren[v := c];
      case Tok(text) =>
        RenamesToken(ren, text);
        c, olds', news', ren' := Tok(text), olds, news, ren;
      case Lst(items) =>
        olds', news', ren' := olds, news, ren;
        var out: seq<Frag> := [];
        NoItemsRenamed(ren, items);
        for i := 0 to |items|
          invariant Valid() && next >= old(next)
          invariant Names(ren', olds', news', base, next) && RenamesItems(ren, ren', items, i, out)
        {
          ghost var r1 := ren';
          var d;
          d, olds', news', ren' := CopyFragment(items[i], olds', news', ren', base);
          RenamesItem(ren, r1, ren', items, i, out, d);
          out := out + [d];
        }
        RenamesList(ren, ren', items, out);
        c := Lst(out);
    }

    /** Follows a chain of bound variables to its end. */
    method Evaluate(f: Frag) returns (r: Frag)
      requires Valid()
      ensures Apply(sol, r) == Apply(sol, f)
      ensures r.Var? ==> r.id !in bound
      ensures Below(f, next) ==> Below(r, next)
    {
      r := f;
      while r.Var? && r.id in bound
        invariant Apply(sol, r) == Apply(sol, f)
        invariant Below(f, next) ==> Below(r, next)
        decreases if r.Var? && r.id in bound then rank[r.id] + 1 else 0
      {
        assert bound[r.id].Var? ==> Occurs(bound[r.id].id, bound[r.id]);
        r := bound[r.id];
      }
    }

    method OccursIn(v: nat, f: Frag) returns (yes: bool)
      requires Valid() && v !in bound
      ensures yes <==> Occurs(v, Apply(sol, f))
      decreases Size(Apply(sol, f))
    {
      hide Solved, Ranked;
      var e := Evaluate(f);
      UnboundStays(bound, sol, v);
      if e.Var? { UnboundStays(bound, sol, e.id); }
      match e
      case Var(w) => yes := v == w;
      case Tok(_) => yes := false;
      case Lst(items) =>
        ghost var res := Apply(sol, e).items;
        for i := 0 to |items|
          invariant forall j :: 0 <= j < i ==> !Occurs(v, res[j])
        {
          ItemIsSmaller(res, i);
          var found := OccursIn(v, items[i]);
          if found {
            assert Occurs(v, res[i]);
            return true;
          }
        }
        yes := false;
    }

    method RecursiveEvaluate(f: Frag) returns (r: Frag)
      requires Valid()
      ensures r == Apply(sol, f)
      ensures forall v: nat :: Occurs(v, r) ==> v !in bound
      decreases Size(Apply(sol, f))
    {
      hide Solved, Ranked, Occurs;
      var d := Evaluate(f);
      if d.Var? { UnboundStays(bound, sol, d.id); }
      ResolvedIsUnbound(bound, sol, f);
      match d
      case Var(_) => r := d;
      case Tok(_) => r := d;
      case Lst(items) =>
        ghost var res := Apply(sol, d).items;
        var out: seq<Frag> := [];
        for i := 0 to |items|
          invariant out == res[..i]
        {
          ItemIsSmaller(res, i);
          var t := RecursiveEvaluate(items[i]);
          out := out + [t];
        }
        assert res[..|items|] == res;
        r := Lst(out);
    }

    method UnifyVar(v: nat, t: Frag) returns (ok: bool)
      requires Valid() && v < next && v !in bound && Below(t, next)
      requires t.Var? ==> t.id != v && t.id !in bound
      modifies this
      ensures Valid() && next == old(next) && Extends(old(bound), bound)
      ensures bound == old(bound) ==> sol == old(sol)
      ensures ok ==> Apply(sol, Var(v)) == Apply(sol, t)
      ensures SolutionsAre(old(bound), Var(v), t, ok, bound)
      ensures BindsOnly(old(bound), old(sol), Var(v), t, bound, sol)
    {
      hide Solved, Ranked, SolutionsAre, BindsOnly;
      var yes := OccursIn(v, t);
      if t.Var? { UnboundStays(bound, sol, t.id); }
      if yes {
        OccursHasNoSolution(bound, sol, rank, v, t);
        SameHeadsBind(bound, sol, Var(v), t, Var(v), t, bound, sol);
        ok := false;
      } else {
        BindKeepsSolved(bound, sol, v, t);
        BindKeepsRanked(bound, sol, rank, Above(rank), v, t);
        BindSolutions(bound, v, t);
        BindResolves(bound, sol, v, t, v);
        BindOneBindsOnly(bound, sol, v, t);
        UnboundStays(bound, sol, v);
        bound, sol, rank := bound[v := t], BindSol(sol, v, Apply(sol, t)), BindRank(sol, rank, Above(rank), v);
        ok := true;
      }
    }

    /** Makes x and y equal by binding variables, or reports that no assignment can. */
    method Unify(x: Frag, y: Frag) returns (ok: bool)
      requires Valid() && Below(x, next) && Below(y, next)
      modifies this
      ensures Valid() && next == old(next) && Extends(old(bound), bound)
      ensures bound == old(bound) ==> sol == old(sol)
      ensures ok ==> Apply(sol, x) == Apply(sol, y)
      ensures SolutionsAre(old(bound), x, y, ok, bound)
      ensures BindsOnly(old(bound), old(sol), x, y, bound, sol)
      decreases Unbound(next, bound), Size(Apply(sol, x)), 1
    {
      hide Solved, Ranked, SolutionsAre, Satisfies, BindsOnly, Occurs;
      var xl := Evaluate(x);
      var yl := Evaluate(y);
      ghost var b, s, r := bound, sol, rank;
      if xl.Var? && yl.Var? && xl.id == yl.id {
        SameSolutions(b, xl);
        ok := true;
      } else if xl.Var? {
        ok := UnifyVar(xl.id, yl);
      } else if yl.Var? {
        ok := UnifyVar(yl.id, xl);
        SymmetricSolutions(b, xl, yl, ok, bound);
        SymmetricBinds(b, s, yl, xl, bound, sol);
      } else if xl.Tok? && yl.Tok? {
        ok := xl.text == yl.text;
        TokenSolutions(b, xl, yl);
      } else if xl.Tok? || yl.Tok? {
        ok := false;
        TokenSolutions(b, xl, yl);
      } else if |xl.items| == |yl.items| {
        ok := UnifyItems(xl.items, yl.items);
      } else {
        ok := false;
        LengthSolutions(b, xl.items, yl.items);
      }
      HeadsHaveSameSolutions(b, s, r, x, y, xl, yl, ok, bound);
      SameHeadsBind(b, s, x, y, xl, yl, bound, sol);
      if ok {
        LaterAbsorbsEarlier(b, s, r, bound, sol, x);
        LaterAbsorbsEarlier(b, s, r, bound, sol, y);
        LaterAbsorbsEarlier(b, s, r, bound, sol, xl);
        LaterAbsorbsEarlier(b, s, r, bound, sol, yl);
      }
    }

    method UnifyItems(xs: seq<Frag>, ys: seq<Frag>) returns (ok: bool)
      requires Valid() && |xs| == |ys| && Below(Lst(xs), next) && Below(Lst(ys), next)
      modifies this
      ensures Valid() && next == old(next) && Extends(old(bound), bound)
      ensures bound == old(bound) ==> sol == old(sol)
      ensures ok ==> Apply(sol, Lst(xs)) == Apply(sol, Lst(ys))
      ensures SolutionsAre(old(bound), Lst(xs), Lst(ys), ok, bound)
      ensures BindsOnly(old(bound), old(sol), Lst(xs), Lst(ys), bound, sol)
      decreases Unbound(next, bound), Size(Apply(sol, Lst(xs))), 0
    {
      hide Solved, Ranked, SolutionsAre, Satisfies, BindsOnly, Occurs, ItemSolutionsAre;
      ghost var b, s, r := bound, sol, rank;
      NoItems(b, s, xs, ys);
      for i := 0 to |xs|
        invariant Valid() && next == old(next) && Extends(b, bound)
        invariant bound == b ==> sol == s
        invariant ItemSolutionsAre(b, xs, ys, i, true, bound)
        invariant BindsOnly(b, s, Lst(xs), Lst(ys), bound, sol)
      {
        ghost var c, t, q := bound, sol, rank;
        ItemIsSmaller(Apply(s, Lst(xs)).items, i);
        FewerUnbound(next, b, c);
        var more := Unify(xs[i], ys[i]);
        ItemSolutionsStep(b, xs, ys, i, c, more, bound);
        ItemBinds(b, s, r, c, t, q, xs, ys, i, bound, sol);
        if !more {
          ListSolutions(b, xs, ys, i + 1, false, bound);
          return false;
        }
      }
      ListSolutions(b, xs, ys, |xs|, true, bound);
      ResolvedSatisfies(bound, sol);
      SolutionEquates(b, Lst(xs), Lst(ys), bound, sol);
      ok := true;
    }
  }
}
