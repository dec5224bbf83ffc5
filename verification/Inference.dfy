/** Type inference by solving signature equations one component at a time
    (scoped_signature and infer_types, bootstrap/analysis.c). */
module Inference {
  import opened Common
  import opened Fragments
  import opened Unification
  import Components

  /** An expression node; children, binders and bound symbols are indices of other nodes. */
  datatype Node =
    | Function(ref: nat, params: seq<nat>, body: nat)
    | Continuation(ref: nat, params: seq<nat>, body: nat)
    | With(ref: nat, body: nat)
    | Constrain(body: nat)
    | Invoke(target: nat, args: seq<nat>)
    | Jump(target: nat, args: seq<nat>)
    | If(cond: nat, consequent: nat, alternate: nat)
    | Storage(ref: nat, args: seq<nat>)
    | Symbol(binder: nat, definition: nat)   // the binding's own symbol and the expression it stands for
    | Literal

  predicate AllBelow(s: seq<nat>, n: nat) {
    forall i :: 0 <= i < |s| ==> s[i] < n
  }

  predicate NodeOk(node: Node, n: nat) {
    match node
    case Function(ref, params, body) => ref < n && AllBelow(params, n) && body < n
    case Continuation(ref, params, body) => ref < n && AllBelow(params, n) && body < n
    case With(ref, body) => ref < n && body < n
    case Constrain(body) => body < n
    case Invoke(target, args) => target < n && AllBelow(args, n)
    case Jump(target, args) => target < n && AllBelow(args, n)
    case If(cond, consequent, alternate) => cond < n && consequent < n && alternate < n
    case Storage(ref, args) => ref < n && AllBelow(args, n)
    case Symbol(binder, definition) => binder < n && definition < n
    case Literal => true
  }

  predicate NodesOk(nodes: seq<Node>) {
    forall i :: 0 <= i < |nodes| ==> NodeOk(nodes[i], |nodes|)
  }

  const FUNCTION := Tok("function")
  const CONTINUATION := Tok("continuation")

  // ----- what it means for an expression to be well typed -----

  ghost predicate InstanceOf(u: Frag, f: Frag) {
    exists m: Subst :: u == Apply(m, f)
  }

  /** u is a type at which x may be used: its own type inside its group, an instance of its
      signature outside. */
  ghost predicate UsedAt(types: seq<Frag>, sig: seq<Frag>, group: seq<nat>, x: nat, u: Frag)
    requires x < |sig| == |types|
  {
    if x in group then u == types[x] else InstanceOf(u, sig[x])
  }

  ghost predicate AllUsedAt(types: seq<Frag>, sig: seq<Frag>, group: seq<nat>, xs: seq<nat>, us: seq<Frag>) {
    && |us| == |xs| && |types| == |sig|
    && forall i :: 0 <= i < |xs| ==> xs[i] < |sig| && UsedAt(types, sig, group, xs[i], us[i])
  }

  function Pick(sig: seq<Frag>, xs: seq<nat>): seq<Frag>
    requires AllBelow(xs, |sig|)
  {
    seq(|xs|, i requires 0 <= i < |xs| => sig[xs[i]])
  }

  /** The typing rule of expression e when every expression x has the type types[x]. */
  ghost predicate Fits(types: seq<Frag>, nodes: seq<Node>, sig: seq<Frag>, group: seq<nat>, e: nat)
    requires |types| == |sig| == |nodes| && NodesOk(nodes) && e < |nodes|
  {
    match nodes[e]
    case Function(ref, params, body) => types[e] == types[ref] == Lst([FUNCTION, Lst(Pick(types, params)), types[body]])
    case Continuation(ref, params, _) => types[e] == types[ref] == Lst([CONTINUATION, Lst(Pick(types, params))])
    case With(ref, body) => types[e] == types[body] && types[ref] == Lst([CONTINUATION, Lst([types[e]])])
    case Constrain(body) => types[e] == types[body]
    case Invoke(target, args) =>
      exists us :: AllUsedAt(types, sig, group, args, us) && UsedAt(types, sig, group, target, Lst([FUNCTION, Lst(us), types[e]]))
    case Jump(target, args) =>
      exists us :: AllUsedAt(types, sig, group, args, us) && UsedAt(types, sig, group, target, Lst([CONTINUATION, Lst(us)]))
    case If(_, consequent, alternate) =>
      UsedAt(types, sig, group, consequent, types[e]) && UsedAt(types, sig, group, alternate, types[e])
    case Symbol(binder, _) => types[e] == types[binder]
    case Storage(_, _) => true
    case Literal => true
  }

  /** The types that an assignment gives to expressions with these signatures. */
  ghost function Types(R: Subst, sig: seq<Frag>): (r: seq<Frag>) {
    seq(|sig|, i requires 0 <= i < |sig| => Apply(R, sig[i]))
  }

  ghost predicate Typed(R: Subst, nodes: seq<Node>, sig: seq<Frag>, group: seq<nat>, e: nat)
    requires |sig| == |nodes| && NodesOk(nodes) && e < |nodes|
  {
    Fits(Types(R, sig), nodes, sig, group, e)
  }

  // ----- equations -----

  type Equation = (Frag, Frag)

  ghost predicate Solves(R: Subst, eqs: seq<Equation>) {
    forall i :: 0 <= i < |eqs| ==> Equates(R, eqs[i].0, eqs[i].1)
  }

  ghost predicate EqsBelow(eqs: seq<Equation>, n: nat) {
    forall i :: 0 <= i < |eqs| ==> Below(eqs[i].0, n) && Below(eqs[i].1, n)
  }

  ghost predicate SigBelow(sig: seq<Frag>, n: nat) {
    forall i :: 0 <= i < |sig| ==> Below(sig[i], n)
  }

  /** The bindings have exactly the solutions of the equations. */
  ghost predicate Principal(eqs: seq<Equation>, b: Subst) {
    forall theta: Subst :: Solves(theta, eqs) <==> Satisfies(theta, b)
  }

  ghost predicate Unsolvable(eqs: seq<Equation>) {
    forall theta: Subst :: !Solves(theta, eqs)
  }

  /** Whatever solves the equations types e. */
  ghost predicate Justified(eqs: seq<Equation>, nodes: seq<Node>, sig: seq<Frag>, group: seq<nat>, e: nat)
    requires |sig| == |nodes| && NodesOk(nodes) && e < |nodes|
  {
    forall R: Subst :: Solves(R, eqs) ==> Typed(R, nodes, sig, group, e)
  }

  lemma {:induction false} BelowLater(f: Frag, m: nat, n: nat)
    requires Below(f, m) && m <= n
    ensures Below(f, n)
  {
    BelowIsOccurs(f, m);
    BelowIsOccurs(f, n);
  }

  lemma {:induction false} SigBelowLater(sig: seq<Frag>, m: nat, n: nat)
    requires SigBelow(sig, m) && m <= n
    ensures SigBelow(sig, n)
  {
    forall i | 0 <= i < |sig| ensures Below(sig[i], n) { BelowLater(sig[i], m, n); }
  }

  lemma {:induction false} EqsBelowLater(eqs: seq<Equation>, m: nat, n: nat)
    requires EqsBelow(eqs, m) && m <= n
    ensures EqsBelow(eqs, n)
  {
    forall i | 0 <= i < |eqs| ensures Below(eqs[i].0, n) && Below(eqs[i].1, n) {
      BelowLater(eqs[i].0, m, n);
      BelowLater(eqs[i].1, m, n);
    }
  }

  ghost function Compose(R: Subst, m: Subst): Subst {
    map v | v in R.Keys + m.Keys :: Apply(R, Apply(m, Var(v)))
  }

  lemma {:induction false} ComposeApply(R: Subst, m: Subst, f: Frag)
    ensures Apply(Compose(R, m), f) == Apply(R, Apply(m, f))
    decreases f
  {
    match f
    case Var(_) =>
    case Tok(_) =>
    case Lst(items) =>
      forall i | 0 <= i < |items| ensures Apply(Compose(R, m), items[i]) == Apply(R, Apply(m, items[i])) {
        ComposeApply(R, m, items[i]);
      }
      assert Apply(Compose(R, m), f).items == Apply(R, Apply(m, f)).items;
  }

  // ----- scoped signatures -----

  /** m sends different variables to different variables allocated between lo and hi. */
  ghost predicate FreshNames(m: Subst, lo: nat, hi: nat) {
    && (forall v :: v in m ==> m[v].Var? && lo <= m[v].id < hi)
    && (forall v, w :: v in m && w in m && m[v] == m[w] ==> v == w)
  }

  /** u is f with exactly its variables renamed to different fresh ones. */
  ghost predicate CopyOf(f: Frag, u: Frag, lo: nat, hi: nat) {
    exists m: Subst :: FreshNames(m, lo, hi) && (forall v: nat :: v in m <==> Occurs(v, f)) && u == Apply(m, f)
  }

  /** u is x's signature itself within the group, and outside it a copy with variables of its own. */
  ghost predicate Scoped(sig: seq<Frag>, group: seq<nat>, x: nat, u: Frag, lo: nat, hi: nat)
    requires x < |sig|
  {
    lo <= hi && if x in group then u == sig[x] else CopyOf(sig[x], u, lo, hi)
  }

  lemma {:induction false} ScopedIsUsed(R: Subst, sig: seq<Frag>, group: seq<nat>, x: nat, u: Frag, lo: nat, hi: nat)
    requires x < |sig| && Scoped(sig, group, x, u, lo, hi)
    ensures UsedAt(Types(R, sig), sig, group, x, Apply(R, u))
  {
    if x !in group {
      var m: Subst :| FreshNames(m, lo, hi) && (forall v: nat :: v in m <==> Occurs(v, sig[x])) && u == Apply(m, sig[x]);
      ComposeApply(R, m, sig[x]);
    }
  }

  /** The scoped signatures of several expressions, each with fresh variables of its own. */
  ghost predicate AllScoped(sig: seq<Frag>, group: seq<nat>, xs: seq<nat>, us: seq<Frag>, marks: seq<nat>) {
    && |us| <= |xs| && |marks| == |us| + 1
    && forall i :: 0 <= i < |us| ==> xs[i] < |sig| && Scoped(sig, group, xs[i], us[i], marks[i], marks[i + 1])
  }

  lemma {:induction false} AllScopedAreUsed(R: Subst, sig: seq<Frag>, group: seq<nat>, xs: seq<nat>, us: seq<Frag>, marks: seq<nat>)
    requires AllScoped(sig, group, xs, us, marks) && |us| == |xs|
    ensures Apply(R, Lst(us)).Lst? && AllUsedAt(Types(R, sig), sig, group, xs, Apply(R, Lst(us)).items)
  {
    hide Scoped, UsedAt;
    var vs := Apply(R, Lst(us)).items;
    forall i | 0 <= i < |xs| ensures xs[i] < |sig| && UsedAt(Types(R, sig), sig, group, xs[i], vs[i]) {
      ScopedIsUsed(R, sig, group, xs[i], us[i], marks[i], marks[i + 1]);
    }
  }

  lemma {:induction false} ApplyPair(R: Subst, a: Frag, b: Frag)
    ensures Apply(R, Lst([a, b])) == Lst([Apply(R, a), Apply(R, b)])
  {
    assert Apply(R, Lst([a, b])).items == [Apply(R, a), Apply(R, b)];
  }

  lemma {:induction false} ApplyTriple(R: Subst, a: Frag, b: Frag, c: Frag)
    ensures Apply(R, Lst([a, b, c])) == Lst([Apply(R, a), Apply(R, b), Apply(R, c)])
  {
    assert Apply(R, Lst([a, b, c])).items == [Apply(R, a), Apply(R, b), Apply(R, c)];
  }

  // ----- the equations that are prescribed for an expression -----

  /** The equations of the expressions whose parts are not scoped. */
  function PlainEquations(nodes: seq<Node>, sig: seq<Frag>, e: nat): seq<Equation>
    requires |sig| == |nodes| && NodesOk(nodes) && e < |nodes|
  {
    match nodes[e]
    case Function(ref, params, body) =>
      [(sig[e], sig[ref]), (sig[e], Lst([FUNCTION, Lst(Pick(sig, params)), sig[body]]))]
    case Continuation(ref, params, _) =>
      [(sig[e], sig[ref]), (sig[e], Lst([CONTINUATION, Lst(Pick(sig, params))]))]
    case Constrain(body) => [(sig[e], sig[body])]
    case With(ref, body) =>
      [(sig[e], sig[body]), (sig[ref], Lst([CONTINUATION, Lst([sig[e]])]))]
    case Symbol(binder, _) => [(sig[e], sig[binder])]
    case _ => []
  }

  ghost predicate PrescribedCall(sig: seq<Frag>, group: seq<nat>, target: nat, args: seq<nat>, head: Frag, tail: seq<Frag>, out: seq<Equation>, lo: nat, hi: nat)
    requires target < |sig|
  {
    exists us, marks, t ::
      && AllScoped(sig, group, args, us, marks) && |us| == |args| && |marks| == |us| + 1 && marks[0] == lo
      && Scoped(sig, group, target, t, marks[|us|], hi) && out == [(t, Lst([head, Lst(us)] + tail))]
  }

  /** What the documentation prescribes for e, in the order in which it is solved; copies are made of
      variables allocated between lo and hi. */
  ghost predicate Prescribed(nodes: seq<Node>, sig: seq<Frag>, group: seq<nat>, e: nat, out: seq<Equation>, lo: nat, hi: nat)
    requires |sig| == |nodes| && NodesOk(nodes) && e < |nodes|
  {
    match nodes[e]
    case Invoke(target, args) => PrescribedCall(sig, group, target, args, FUNCTION, [sig[e]], out, lo, hi)
    case Jump(target, args) => PrescribedCall(sig, group, target, args, CONTINUATION, [], out, lo, hi)
    case If(_, consequent, alternate) =>
      exists c, mid, a ::
        && Scoped(sig, group, consequent, c, lo, mid) && Scoped(sig, group, alternate, a, mid, hi)
        && out == [(sig[e], c), (c, a)]
    case _ => lo == hi && out == PlainEquations(nodes, sig, e)
  }

  // ----- each kind of expression is typed by its equations -----

  lemma {:induction false} InvokeJustified(nodes: seq<Node>, sig: seq<Frag>, group: seq<nat>, e: nat, out: seq<Equation>, lo: nat, hi: nat)
    requires |sig| == |nodes| && NodesOk(nodes) && e < |nodes| && nodes[e].Invoke?
    requires Prescribed(nodes, sig, group, e, out, lo, hi)
    ensures Justified(out, nodes, sig, group, e)
  {
    hide Scoped, AllScoped, UsedAt, AllUsedAt;
    var us, marks, t :| AllScoped(sig, group, nodes[e].args, us, marks) && |us| == |nodes[e].args| && |marks| == |us| + 1 && marks[0] == lo
      && Scoped(sig, group, nodes[e].target, t, marks[|us|], hi) && out == [(t, Lst([FUNCTION, Lst(us)] + [sig[e]]))];
    forall R: Subst | Solves(R, out) ensures Typed(R, nodes, sig, group, e) {
      assert Equates(R, out[0].0, out[0].1) && [FUNCTION, Lst(us)] + [sig[e]] == [FUNCTION, Lst(us), sig[e]];
      ApplyTriple(R, FUNCTION, Lst(us), sig[e]);
      ScopedIsUsed(R, sig, group, nodes[e].target, t, marks[|us|], hi);
      AllScopedAreUsed(R, sig, group, nodes[e].args, us, marks);
      var vs := Apply(R, Lst(us)).items;
      assert AllUsedAt(Types(R, sig), sig, group, nodes[e].args, vs);
    }
  }

  lemma {:induction false} JumpJustified(nodes: seq<Node>, sig: seq<Frag>, group: seq<nat>, e: nat, out: seq<Equation>, lo: nat, hi: nat)
    requires |sig| == |nodes| && NodesOk(nodes) && e < |nodes| && nodes[e].Jump?
    requires Prescribed(nodes, sig, group, e, out, lo, hi)
    ensures Justified(out, nodes, sig, group, e)
  {
    hide Scoped, AllScoped, UsedAt, AllUsedAt;
    var us, marks, t :| AllScoped(sig, group, nodes[e].args, us, marks) && |us| == |nodes[e].args| && |marks| == |us| + 1 && marks[0] == lo
      && Scoped(sig, group, nodes[e].target, t, marks[|us|], hi) && out == [(t, Lst([CONTINUATION, Lst(us)] + []))];
    forall R: Subst | Solves(R, out) ensures Typed(R, nodes, sig, group, e) {
      assert Equates(R, out[0].0, out[0].1) && [CONTINUATION, Lst(us)] + [] == [CONTINUATION, Lst(us)];
      ApplyPair(R, CONTINUATION, Lst(us));
      ScopedIsUsed(R, sig, group, nodes[e].target, t, marks[|us|], hi);
      AllScopedAreUsed(R, sig, group, nodes[e].args, us, marks);
      var vs := Apply(R, Lst(us)).items;
      assert AllUsedAt(Types(R, sig), sig, group, nodes[e].args, vs);
    }
  }

  lemma {:induction false} IfJustified(nodes: seq<Node>, sig: seq<Frag>, group: seq<nat>, e: nat, out: seq<Equation>, lo: nat, hi: nat)
    requires |sig| == |nodes| && NodesOk(nodes) && e < |nodes| && nodes[e].If?
    requires Prescribed(nodes, sig, group, e, out, lo, hi)
    ensures Justified(out, nodes, sig, group, e)
  {
    hide Scoped, UsedAt;
    var c, mid, a :| Scoped(sig, group, nodes[e].consequent, c, lo, mid) && Scoped(sig, group, nodes[e].alternate, a, mid, hi)
      && out == [(sig[e], c), (c, a)];
    forall R: Subst | Solves(R, out) ensures Typed(R, nodes, sig, group, e) {
      assert Equates(R, out[0].0, out[0].1) && Equates(R, out[1].0, out[1].1);
      ScopedIsUsed(R, sig, group, nodes[e].consequent, c, lo, mid);
      ScopedIsUsed(R, sig, group, nodes[e].alternate, a, mid, hi);
    }
  }

  lemma {:induction false} ApplyPick(R: Subst, sig: seq<Frag>, xs: seq<nat>)
    requires AllBelow(xs, |sig|)
    ensures Apply(R, Lst(Pick(sig, xs))) == Lst(Pick(Types(R, sig), xs))
  {
    assert Apply(R, Lst(Pick(sig, xs))).items == Pick(Types(R, sig), xs);
  }

  lemma {:induction false} ApplyOne(R: Subst, a: Frag)
    ensures Apply(R, Lst([a])) == Lst([Apply(R, a)])
  {
    assert Apply(R, Lst([a])).items == [Apply(R, a)];
  }

  /** The equations without copies say exactly that the expression is typed. */
  lemma {:induction false} PlainMeans(nodes: seq<Node>, sig: seq<Frag>, group: seq<nat>, e: nat, R: Subst)
    requires |sig| == |nodes| && NodesOk(nodes) && e < |nodes|
    requires !nodes[e].Invoke? && !nodes[e].Jump? && !nodes[e].If?
    ensures Solves(R, PlainEquations(nodes, sig, e)) <==> Typed(R, nodes, sig, group, e)
  {
    var eqs, types := PlainEquations(nodes, sig, e), Types(R, sig);
    assert Solves(R, eqs) <==> (|eqs| > 0 ==> Equates(R, eqs[0].0, eqs[0].1)) && (|eqs| > 1 ==> Equates(R, eqs[1].0, eqs[1].1));
    match nodes[e]
    case Function(_, params, body) =>
      ApplyTriple(R, FUNCTION, Lst(Pick(sig, params)), sig[body]);
      ApplyPick(R, sig, params);
    case Continuation(_, params, _) =>
      ApplyPair(R, CONTINUATION, Lst(Pick(sig, params)));
      ApplyPick(R, sig, params);
    case With(_, _) =>
      ApplyPair(R, CONTINUATION, Lst([sig[e]]));
      ApplyOne(R, sig[e]);
    case _ =>
  }

  lemma {:induction false} PlainJustified(nodes: seq<Node>, sig: seq<Frag>, group: seq<nat>, e: nat)
    requires |sig| == |nodes| && NodesOk(nodes) && e < |nodes|
    requires !nodes[e].Invoke? && !nodes[e].Jump? && !nodes[e].If?
    ensures Justified(PlainEquations(nodes, sig, e), nodes, sig, group, e)
  {
    hide Typed, Solves;
    forall R: Subst | Solves(R, PlainEquations(nodes, sig, e)) ensures Typed(R, nodes, sig, group, e) {
      PlainMeans(nodes, sig, group, e, R);
    }
  }

  /** Whatever solves the equations prescribed for an expression types it. */
  lemma {:induction false} PrescribedJustified(nodes: seq<Node>, sig: seq<Frag>, group: seq<nat>, e: nat, out: seq<Equation>, lo: nat, hi: nat)
    requires |sig| == |nodes| && NodesOk(nodes) && e < |nodes| && Prescribed(nodes, sig, group, e, out, lo, hi)
    ensures Justified(out, nodes, sig, group, e)
  {
    match nodes[e]
    case Invoke(_, _) => InvokeJustified(nodes, sig, group, e, out, lo, hi);
    case Jump(_, _) => JumpJustified(nodes, sig, group, e, out, lo, hi);
    case If(_, _, _) => IfJustified(nodes, sig, group, e, out, lo, hi);
    case _ => PlainJustified(nodes, sig, group, e);
  }

  lemma {:induction false} PlainBelow(nodes: seq<Node>, sig: seq<Frag>, e: nat, n: nat)
    requires |sig| == |nodes| && NodesOk(nodes) && e < |nodes| && SigBelow(sig, n)
    ensures EqsBelow(PlainEquations(nodes, sig, e), n)
  {}

  // ----- runs of the solving loop -----

  lemma {:induction false} JustifiedMore(eqs: seq<Equation>, more: seq<Equation>, nodes: seq<Node>, sig: seq<Frag>, group: seq<nat>, e: nat)
    requires |sig| == |nodes| && NodesOk(nodes) && e < |nodes|
    ensures Justified(eqs, nodes, sig, group, e) ==> Justified(eqs + more, nodes, sig, group, e)
    ensures Justified(more, nodes, sig, group, e) ==> Justified(eqs + more, nodes, sig, group, e)
  {
    hide Typed, Equates;
    forall R: Subst | Solves(R, eqs + more) ensures Solves(R, eqs) && Solves(R, more) {
      assert forall i :: 0 <= i < |eqs| ==> (eqs + more)[i] == eqs[i];
      assert forall i :: 0 <= i < |more| ==> (eqs + more)[|eqs| + i] == more[i];
    }
  }

  lemma {:induction false} SolveStep(eqs: seq<Equation>, b: Subst, x: Frag, y: Frag, ok: bool, c: Subst)
    requires Principal(eqs, b) && SolutionsAre(b, x, y, ok, c)
    ensures if ok then Principal(eqs + [(x, y)], c) else Unsolvable(eqs + [(x, y)])
  {
    hide Satisfies, Equates;
    var all := eqs + [(x, y)];
    forall theta: Subst ensures Solves(theta, all) <==> Solves(theta, eqs) && Equates(theta, x, y) {
      assert forall i :: 0 <= i < |eqs| ==> all[i] == eqs[i];
      assert all[|eqs|] == (x, y);
    }
  }

  lemma {:induction false} NoEquations()
    ensures Principal([], map[])
  {}

  function Concat(more: seq<seq<Equation>>): seq<Equation> {
    if more == [] then [] else Concat(more[..|more| - 1]) + more[|more| - 1]
  }

  lemma {:induction false} ConcatSnoc(more: seq<seq<Equation>>, out: seq<Equation>)
    ensures Concat(more + [out]) == Concat(more) + out
  {
    assert (more + [out])[..|more|] == more;
  }

  /** The checker between two groups. */
  datatype Stage = Stage(eqs: seq<Equation>, bound: Subst, sol: Subst, rank: map<nat, nat>, sig: seq<Frag>, next: nat)

  /** The bindings have the solutions of the equations so far, and are acyclic and resolved by sol. */
  ghost predicate Sound(s: Stage) {
    && Principal(s.eqs, s.bound) && Solved(s.bound, s.sol) && Ranked(s.bound, s.rank)
    && SigBelow(s.sig, s.next) && EqsBelow(s.eqs, s.next) && (forall v :: v in s.bound ==> v < s.next && Below(s.bound[v], s.next))
  }

  /** more[i] are the equations prescribed for group[i], with copies made of variables from marks[i] on. */
  ghost predicate Given(nodes: seq<Node>, sig: seq<Frag>, group: seq<nat>, more: seq<seq<Equation>>, marks: seq<nat>) {
    && |sig| == |nodes| && NodesOk(nodes) && |more| <= |group| && |marks| == |more| + 1
    && forall i :: 0 <= i < |more| ==> group[i] < |nodes| && Prescribed(nodes, sig, group, group[i], more[i], marks[i], marks[i + 1])
  }

  /** Solving a group went from stage a to these equations. */
  ghost predicate Posed(nodes: seq<Node>, group: seq<nat>, a: Stage, eqs: seq<Equation>, next: nat) {
    exists more, marks ::
      && Given(nodes, a.sig, group, more, marks) && |more| == |group| && |marks| == |more| + 1
      && marks[0] == a.next && marks[|more|] == next
      && eqs == a.eqs + Concat(more)
  }

  /** Solving a group broke off: eqs end within the equations of one of its expressions. */
  ghost predicate BrokeOff(nodes: seq<Node>, group: seq<nat>, a: Stage, eqs: seq<Equation>) {
    exists more, marks, out, n: nat ::
      && Given(nodes, a.sig, group, more + [out], marks) && |marks| == |more| + 2 && marks[0] == a.next
      && 0 < n <= |out| && eqs == a.eqs + Concat(more) + out[..n]
  }

  // ----- which variables a group may bind -----

  /** The expressions whose signatures occur uncopied in the equations of an expression. */
  function Plainly(node: Node): seq<nat> {
    match node
    case Function(ref, params, body) => [ref, body] + params
    case Continuation(ref, params, _) => [ref] + params
    case With(ref, body) => [ref, body]
    case Constrain(body) => [body]
    case Symbol(binder, _) => [binder]
    case _ => []
  }

  ghost predicate Touches(nodes: seq<Node>, group: seq<nat>, y: nat) {
    y in group || exists e :: e in group && e < |nodes| && y in Plainly(nodes[e])
  }

  /** Variables allocated since stage a, and those of the signatures that the group touches. */
  ghost function Own(nodes: seq<Node>, group: seq<nat>, a: Stage): iset<nat> {
    iset v: nat | Owns(nodes, group, a, v)
  }

  ghost predicate Owns(nodes: seq<Node>, group: seq<nat>, a: Stage, v: nat) {
    v >= a.next || exists y: nat :: Touches(nodes, group, y) && y < |a.sig| && Occurs(v, Apply(a.sol, a.sig[y]))
  }

  ghost predicate Inside(f: Frag, A: iset<nat>) {
    forall v: nat :: Occurs(v, f) ==> v in A
  }

  ghost predicate AllInside(sol: Subst, out: seq<Equation>, A: iset<nat>) {
    forall i :: 0 <= i < |out| ==> Inside(Apply(sol, out[i].0), A) && Inside(Apply(sol, out[i].1), A)
  }

  /** From b to c only variables of A were bound, to values over A. */
  ghost predicate Confined(b: Subst, c: Subst, t: Subst, A: iset<nat>) {
    forall v :: v in c && v !in b ==> v in A && v in t && Inside(t[v], A)
  }

  lemma {:induction false} StillInside(b: Subst, s: Subst, r: map<nat, nat>, c: Subst, t: Subst, f: Frag, A: iset<nat>)
    requires Solved(b, s) && Ranked(b, r) && Solved(c, t) && Extends(b, c) && Confined(b, c, t, A) && Inside(Apply(s, f), A)
    ensures Inside(Apply(t, f), A)
  {
    LaterAbsorbsEarlier(b, s, r, c, t, f);
    ResolvedIsUnbound(b, s, f);
    forall u: nat | Occurs(u, Apply(t, f)) ensures u in A {
      OccursApply(t, u, Apply(s, f));
      var w: nat :| Occurs(w, Apply(s, f)) && Occurs(u, Apply(t, Var(w)));
      if w !in c { UnboundStays(c, t, w); }
    }
  }

  /** One more equation over A keeps the bindings confined to A. */
  lemma {:induction false} ConfinedStep(b: Subst, s: Subst, r: map<nat, nat>, c: Subst, t: Subst, q: map<nat, nat>, x: Frag, y: Frag, d: Subst, w: Subst, A: iset<nat>)
    requires Solved(b, s) && Ranked(b, r) && Solved(c, t) && Ranked(c, q) && Solved(d, w) && Extends(b, c) && Extends(c, d)
    requires Confined(b, c, t, A) && BindsOnly(c, t, x, y, d, w) && Inside(Apply(s, x), A) && Inside(Apply(s, y), A)
    ensures Confined(b, d, w, A)
  {
    StillInside(b, s, r, c, t, x, A);
    StillInside(b, s, r, c, t, y, A);
    MentionsInside(c, t, x, y, d, w, A);
    hide BindsOnly, Solved, Ranked, Extends, Inside;
    forall v | v in d && v !in b && v in c ensures v in A && v in w && Inside(w[v], A) {
      EarlierInside(b, c, t, q, d, w, v, A);
    }
  }

  lemma {:induction false} MentionsInside(c: Subst, t: Subst, x: Frag, y: Frag, d: Subst, w: Subst, A: iset<nat>)
    requires BindsOnly(c, t, x, y, d, w) && Inside(Apply(t, x), A) && Inside(Apply(t, y), A)
    ensures Confined(c, d, w, A)
  {}

  lemma {:induction false} EarlierInside(b: Subst, c: Subst, t: Subst, q: map<nat, nat>, d: Subst, w: Subst, v: nat, A: iset<nat>)
    requires Solved(c, t) && Ranked(c, q) && Solved(d, w) && Extends(c, d) && Confined(b, c, t, A) && Confined(c, d, w, A)
    requires v in c && v !in b
    ensures v in A && v in w && Inside(w[v], A)
  {
    StillInside(c, t, q, d, w, Var(v), A);
  }

  lemma {:induction false} InsideList(sol: Subst, items: seq<Frag>, A: iset<nat>)
    requires forall i :: 0 <= i < |items| ==> Inside(Apply(sol, items[i]), A)
    ensures Inside(Apply(sol, Lst(items)), A)
  {
    forall v: nat | Occurs(v, Apply(sol, Lst(items))) ensures v in A {
      var i :| 0 <= i < |items| && Occurs(v, Apply(sol, Lst(items)).items[i]);
      assert Inside(Apply(sol, items[i]), A);
    }
  }

  lemma {:induction false} InsideToken(sol: Subst, text: string, A: iset<nat>)
    ensures Inside(Apply(sol, Tok(text)), A)
  {}

  /** Copies consist of new variables, which no binding mentions yet. */
  lemma {:induction false} CopyIsNew(f: Frag, u: Frag, lo: nat, hi: nat, sol: Subst)
    requires CopyOf(f, u, lo, hi) && forall v :: v in sol ==> v < lo
    ensures Apply(sol, u) == u && forall v: nat :: Occurs(v, u) ==> lo <= v < hi
  {
    var m: Subst :| FreshNames(m, lo, hi) && (forall v: nat :: v in m <==> Occurs(v, f)) && u == Apply(m, f);
    forall v: nat | Occurs(v, u) ensures lo <= v < hi {
      OccursApply(m, v, f);
      var w: nat :| Occurs(w, f) && Occurs(v, Apply(m, Var(w)));
    }
    ApplyUntouched(sol, u);
  }

  lemma {:induction false} TouchedInside(nodes: seq<Node>, group: seq<nat>, a: Stage, y: nat)
    requires y < |a.sig| && Touches(nodes, group, y)
    ensures Inside(Apply(a.sol, a.sig[y]), Own(nodes, group, a))
  {}

  lemma {:induction false} ScopedInside(nodes: seq<Node>, group: seq<nat>, a: Stage, x: nat, u: Frag, lo: nat, hi: nat)
    requires Sound(a) && x < |a.sig| && a.next <= lo && Scoped(a.sig, group, x, u, lo, hi)
    ensures Inside(Apply(a.sol, u), Own(nodes, group, a))
  {
    if x in group {
      TouchedInside(nodes, group, a, x);
    } else {
      CopyIsNew(a.sig[x], u, lo, hi, a.sol);
    }
  }

  lemma {:induction false} MarksAscend(sig: seq<Frag>, group: seq<nat>, xs: seq<nat>, us: seq<Frag>, marks: seq<nat>, i: nat)
    requires AllScoped(sig, group, xs, us, marks) && i <= |us|
    ensures marks[0] <= marks[i]
    decreases i
  {
    hide CopyOf;
    if i > 0 {
      MarksAscend(sig, group, xs, us, marks, i - 1);
      assert Scoped(sig, group, xs[i - 1], us[i - 1], marks[i - 1], marks[i]);
    }
  }

  lemma {:induction false} CallInside(nodes: seq<Node>, group: seq<nat>, a: Stage, target: nat, args: seq<nat>, head: string, tail: seq<Frag>, out: seq<Equation>, lo: nat, hi: nat)
    requires Sound(a) && target < |a.sig| && a.next <= lo
    requires PrescribedCall(a.sig, group, target, args, Tok(head), tail, out, lo, hi)
    requires forall i :: 0 <= i < |tail| ==> Inside(Apply(a.sol, tail[i]), Own(nodes, group, a))
    ensures AllInside(a.sol, out, Own(nodes, group, a)) && lo <= hi
  {
    hide Sound, Own, Inside, Scoped, AllScoped;
    var A := Own(nodes, group, a);
    var us, marks, t :| AllScoped(a.sig, group, args, us, marks) && |us| == |args| && |marks| == |us| + 1 && marks[0] == lo
      && Scoped(a.sig, group, target, t, marks[|us|], hi) && out == [(t, Lst([Tok(head), Lst(us)] + tail))];
    forall i | 0 <= i < |us| ensures Inside(Apply(a.sol, us[i]), A) {
      MarksAscend(a.sig, group, args, us, marks, i);
      ScopedItem(a.sig, group, args, us, marks, i);
      ScopedInside(nodes, group, a, args[i], us[i], marks[i], marks[i + 1]);
    }
    MarksAscend(a.sig, group, args, us, marks, |us|);
    ScopedInside(nodes, group, a, target, t, marks[|us|], hi);
    ScopedOrder(a.sig, group, target, t, marks[|us|], hi);
    InsideList(a.sol, us, A);
    InsideToken(a.sol, head, A);
    InsideList(a.sol, [Tok(head), Lst(us)] + tail, A);
  }

  lemma {:induction false} ScopedItem(sig: seq<Frag>, group: seq<nat>, xs: seq<nat>, us: seq<Frag>, marks: seq<nat>, i: nat)
    requires AllScoped(sig, group, xs, us, marks) && i < |us|
    ensures xs[i] < |sig| && Scoped(sig, group, xs[i], us[i], marks[i], marks[i + 1])
  {}

  lemma {:induction false} ScopedOrder(sig: seq<Frag>, group: seq<nat>, x: nat, u: Frag, lo: nat, hi: nat)
    requires x < |sig| && Scoped(sig, group, x, u, lo, hi)
    ensures lo <= hi
  {}

  lemma {:induction false} IfInside(nodes: seq<Node>, group: seq<nat>, a: Stage, e: nat, out: seq<Equation>, lo: nat, hi: nat)
    requires Sound(a) && |a.sig| == |nodes| && NodesOk(nodes) && e < |nodes| && e in group && nodes[e].If? && a.next <= lo
    requires Prescribed(nodes, a.sig, group, e, out, lo, hi)
    ensures AllInside(a.sol, out, Own(nodes, group, a)) && lo <= hi
  {
    hide Sound, Own, Inside, Scoped;
    var c, mid, d :| Scoped(a.sig, group, nodes[e].consequent, c, lo, mid) && Scoped(a.sig, group, nodes[e].alternate, d, mid, hi)
      && out == [(a.sig[e], c), (c, d)];
    ScopedOrder(a.sig, group, nodes[e].consequent, c, lo, mid);
    ScopedOrder(a.sig, group, nodes[e].alternate, d, mid, hi);
    ScopedInside(nodes, group, a, nodes[e].consequent, c, lo, mid);
    ScopedInside(nodes, group, a, nodes[e].alternate, d, mid, hi);
    TouchedInside(nodes, group, a, e);
  }

  lemma {:induction false} PlainInside(nodes: seq<Node>, group: seq<nat>, a: Stage, e: nat)
    requires |a.sig| == |nodes| && NodesOk(nodes) && e < |nodes| && e in group
    ensures AllInside(a.sol, PlainEquations(nodes, a.sig, e), Own(nodes, group, a))
  {
    hide Own, Inside;
    var A := Own(nodes, group, a);
    forall y | y in Plainly(nodes[e]) || y == e ensures y < |a.sig| && Inside(Apply(a.sol, a.sig[y]), A) {
      PlainlyBelow(nodes, e, y);
      TouchedInside(nodes, group, a, y);
    }
    match nodes[e]
    case Function(ref, params, body) =>
      PickInside(nodes, group, a, params);
      InsideToken(a.sol, "function", A);
      InsideList(a.sol, [FUNCTION, Lst(Pick(a.sig, params)), a.sig[body]], A);
    case Continuation(ref, params, _) =>
      PickInside(nodes, group, a, params);
      InsideToken(a.sol, "continuation", A);
      InsideList(a.sol, [CONTINUATION, Lst(Pick(a.sig, params))], A);
    case With(_, _) =>
      InsideToken(a.sol, "continuation", A);
      InsideList(a.sol, [a.sig[e]], A);
      InsideList(a.sol, [CONTINUATION, Lst([a.sig[e]])], A);
    case _ =>
  }

  lemma {:induction false} PlainlyBelow(nodes: seq<Node>, e: nat, y: nat)
    requires NodesOk(nodes) && e < |nodes| && (y in Plainly(nodes[e]) || y == e)
    ensures y < |nodes|
  {}

  lemma {:induction false} PickInside(nodes: seq<Node>, group: seq<nat>, a: Stage, params: seq<nat>)
    requires AllBelow(params, |a.sig|)
    requires forall y :: y in params ==> y < |a.sig| && Inside(Apply(a.sol, a.sig[y]), Own(nodes, group, a))
    ensures Inside(Apply(a.sol, Lst(Pick(a.sig, params))), Own(nodes, group, a))
  {
    hide Own, Inside;
    InsideList(a.sol, Pick(a.sig, params), Own(nodes, group, a));
  }

  /** The equations of a member of the group are over the group's own variables. */
  lemma {:induction false} PrescribedInside(nodes: seq<Node>, group: seq<nat>, a: Stage, e: nat, out: seq<Equation>, lo: nat, hi: nat)
    requires Sound(a) && |a.sig| == |nodes| && NodesOk(nodes) && e < |nodes| && e in group && a.next <= lo
    requires Prescribed(nodes, a.sig, group, e, out, lo, hi)
    ensures AllInside(a.sol, out, Own(nodes, group, a)) && lo <= hi
  {
    hide Sound, Own, Inside, AllInside, PrescribedCall;
    match nodes[e]
    case Invoke(target, args) =>
      TouchedInside(nodes, group, a, e);
      CallInside(nodes, group, a, target, args, "function", [a.sig[e]], out, lo, hi);
    case Jump(target, args) => CallInside(nodes, group, a, target, args, "continuation", [], out, lo, hi);
    case If(_, _, _) => IfInside(nodes, group, a, e, out, lo, hi);
    case _ => PlainInside(nodes, group, a, e);
  }

  // ----- whoever types an expression can solve its equations -----

  /** The assignments agree on all variables but those allocated between lo and hi. */
  ghost predicate AgreeOutside(R: Subst, S: Subst, lo: nat, hi: nat) {
    forall v: nat :: !(lo <= v < hi) ==> Apply(S, Var(v)) == Apply(R, Var(v))
  }

  lemma {:induction false} AgreeBelow(R: Subst, S: Subst, lo: nat, hi: nat, f: Frag, n: nat)
    requires AgreeOutside(R, S, lo, hi) && Below(f, n) && n <= lo
    ensures Apply(S, f) == Apply(R, f)
  {
    BelowIsOccurs(f, n);
    ApplyAgree(S, R, f);
  }

  lemma {:induction false} SameTypes(R: Subst, S: Subst, lo: nat, hi: nat, sig: seq<Frag>)
    requires AgreeOutside(R, S, lo, hi) && SigBelow(sig, lo)
    ensures Types(S, sig) == Types(R, sig)
  {
    forall i | 0 <= i < |sig| ensures Apply(S, sig[i]) == Apply(R, sig[i]) {
      AgreeBelow(R, S, lo, hi, sig[i], lo);
    }
  }

  lemma {:induction false} StillSolves(R: Subst, S: Subst, lo: nat, hi: nat, eqs: seq<Equation>)
    requires AgreeOutside(R, S, lo, hi) && EqsBelow(eqs, lo) && Solves(R, eqs)
    ensures Solves(S, eqs)
  {
    forall i | 0 <= i < |eqs| ensures Equates(S, eqs[i].0, eqs[i].1) {
      assert Equates(R, eqs[i].0, eqs[i].1);
      AgreeBelow(R, S, lo, hi, eqs[i].0, lo);
      AgreeBelow(R, S, lo, hi, eqs[i].1, lo);
    }
  }

  lemma {:induction false} AgreeThen(R: Subst, S: Subst, T: Subst, lo: nat, mid: nat, hi: nat)
    requires AgreeOutside(R, S, lo, mid) && AgreeOutside(S, T, mid, hi) && lo <= mid <= hi
    ensures AgreeOutside(R, T, lo, hi)
  {
    forall v: nat | !(lo <= v < hi) ensures Apply(T, Var(v)) == Apply(R, Var(v)) {
      assert Apply(S, Var(v)) == Apply(R, Var(v));
    }
  }

  lemma {:induction false} AgreeSelf(R: Subst, lo: nat, hi: nat)
    ensures AgreeOutside(R, R, lo, hi)
  {}

  /** Sends the copy of each variable to what k gives the variable. */
  ghost function Inverted(m: Subst, k: Subst, lo: nat, hi: nat): Subst
    requires FreshNames(m, lo, hi)
  {
    map v | v in m :: m[v].id := Apply(k, Var(v))
  }

  lemma {:induction false} InvertedAt(m: Subst, k: Subst, lo: nat, hi: nat, R: Subst)
    requires FreshNames(m, lo, hi)
    ensures forall v :: v in m ==> Apply(R + Inverted(m, k, lo, hi), m[v]) == Apply(k, Var(v))
    ensures AgreeOutside(R, R + Inverted(m, k, lo, hi), lo, hi)
  {
    var own := Inverted(m, k, lo, hi);
    forall v | v in m ensures Apply(R + own, m[v]) == Apply(k, Var(v)) {
      assert m[v].id in own;
    }
    assert forall x :: x in own ==> lo <= x < hi;
  }

  /** A copy can be given the value of any instance of the original by choosing its own variables. */
  lemma {:induction false} CopyReaches(R: Subst, f: Frag, u: Frag, lo: nat, hi: nat, w: Frag) returns (S: Subst)
    requires CopyOf(f, u, lo, hi) && InstanceOf(w, f)
    ensures AgreeOutside(R, S, lo, hi) && Apply(S, u) == w
  {
    var m: Subst :| FreshNames(m, lo, hi) && (forall v: nat :: v in m <==> Occurs(v, f)) && u == Apply(m, f);
    var k: Subst :| w == Apply(k, f);
    hide FreshNames, AgreeOutside, Inverted, Occurs, Compose;
    S := R + Inverted(m, k, lo, hi);
    InvertedAt(m, k, lo, hi, R);
    forall v: nat | Occurs(v, f) ensures Apply(Compose(S, m), Var(v)) == Apply(k, Var(v)) {
      ComposeApply(S, m, Var(v));
    }
    ApplyAgree(Compose(S, m), k, f);
    ComposeApply(S, m, f);
  }

  lemma {:induction false} ScopedReaches(R: Subst, sig: seq<Frag>, group: seq<nat>, x: nat, u: Frag, lo: nat, hi: nat, w: Frag) returns (S: Subst)
    requires x < |sig| && Scoped(sig, group, x, u, lo, hi) && UsedAt(Types(R, sig), sig, group, x, w)
    ensures AgreeOutside(R, S, lo, hi) && Apply(S, u) == w
  {
    if x in group {
      AgreeSelf(R, lo, hi);
      S := R;
    } else {
      S := CopyReaches(R, sig[x], u, lo, hi, w);
    }
  }

  lemma {:induction false} ScopedBelow(sig: seq<Frag>, group: seq<nat>, x: nat, u: Frag, lo: nat, hi: nat, n: nat)
    requires x < |sig| && Scoped(sig, group, x, u, lo, hi) && SigBelow(sig, n) && n <= lo
    ensures Below(u, hi)
  {
    if x in group {
      BelowLater(u, n, hi);
    } else {
      CopyIsNew(sig[x], u, lo, hi, map[]);
      BelowIsOccurs(u, hi);
    }
  }

  /** The first n of several scoped signatures can be given the values at which they are used. */
  lemma {:induction false} AllScopedReach(R: Subst, sig: seq<Frag>, group: seq<nat>, xs: seq<nat>, us: seq<Frag>, marks: seq<nat>, ws: seq<Frag>, n: nat) returns (S: Subst)
    requires AllScoped(sig, group, xs, us, marks) && AllUsedAt(Types(R, sig), sig, group, xs, ws)
    requires n <= |us| == |xs| && |marks| == |us| + 1 && SigBelow(sig, marks[0])
    ensures marks[0] <= marks[n] && AgreeOutside(R, S, marks[0], marks[n])
    ensures forall i :: 0 <= i < n ==> Apply(S, us[i]) == ws[i] && Below(us[i], marks[n])
    decreases n
  {
    hide Scoped, UsedAt, SigBelow, Below, AgreeOutside, Types;
    if n == 0 {
      AgreeSelf(R, marks[0], marks[0]);
      S := R;
    } else {
      var k := n - 1;
      var Q := AllScopedReach(R, sig, group, xs, us, marks, ws, k);
      SameTypes(R, Q, marks[0], marks[k], sig);
      ScopedOrder(sig, group, xs[k], us[k], marks[k], marks[n]);
      S := ScopedReaches(Q, sig, group, xs[k], us[k], marks[k], marks[n], ws[k]);
      ScopedBelow(sig, group, xs[k], us[k], marks[k], marks[n], marks[0]);
      AgreeThen(R, Q, S, marks[0], marks[k], marks[n]);
      forall i | 0 <= i < n ensures Apply(S, us[i]) == ws[i] && Below(us[i], marks[n]) {
        if i < k {
          AgreeBelow(Q, S, marks[k], marks[n], us[i], marks[k]);
          BelowLater(us[i], marks[k], marks[n]);
        }
      }
    }
  }

  lemma {:induction false} CallSolvable(R: Subst, sig: seq<Frag>, group: seq<nat>, target: nat, args: seq<nat>, head: string, tail: seq<Frag>, out: seq<Equation>, lo: nat, hi: nat, ws: seq<Frag>) returns (S: Subst)
    requires target < |sig| && SigBelow(sig, lo) && PrescribedCall(sig, group, target, args, Tok(head), tail, out, lo, hi)
    requires forall i :: 0 <= i < |tail| ==> Below(tail[i], lo)
    requires AllUsedAt(Types(R, sig), sig, group, args, ws)
    requires UsedAt(Types(R, sig), sig, group, target, Lst([Tok(head), Lst(ws)] + Types(R, tail)))
    ensures lo <= hi && AgreeOutside(R, S, lo, hi) && Solves(S, out)
  {
    hide Scoped, AllScoped, UsedAt, AllUsedAt, SigBelow, Below, AgreeOutside;
    var us, marks, t :| AllScoped(sig, group, args, us, marks) && |us| == |args| && |marks| == |us| + 1 && marks[0] == lo
      && Scoped(sig, group, target, t, marks[|us|], hi) && out == [(t, Lst([Tok(head), Lst(us)] + tail))];
    var mid := marks[|us|];
    var w := Lst([Tok(head), Lst(ws)] + Types(R, tail));
    var Q := AllScopedReach(R, sig, group, args, us, marks, ws, |us|);
    SameTypes(R, Q, lo, mid, sig);
    S := ScopedReaches(Q, sig, group, target, t, mid, hi, w);
    ScopedOrder(sig, group, target, t, mid, hi);
    AgreeThen(R, Q, S, lo, mid, hi);
    var side := [Tok(head), Lst(us)] + tail;
    UsedLength(Types(R, sig), sig, group, args, ws);
    forall i | 0 <= i < |us| ensures Apply(S, us[i]) == ws[i] { AgreeBelow(Q, S, mid, hi, us[i], mid); }
    forall i | 0 <= i < |tail| ensures Apply(S, tail[i]) == Types(R, tail)[i] { AgreeBelow(R, S, lo, hi, tail[i], lo); }
    ItemsAre(S, us, ws);
    ItemsAre(S, side, w.items);
  }

  lemma {:induction false} UsedLength(types: seq<Frag>, sig: seq<Frag>, group: seq<nat>, xs: seq<nat>, us: seq<Frag>)
    requires AllUsedAt(types, sig, group, xs, us)
    ensures |us| == |xs|
  {}

  lemma {:induction false} ItemsAre(S: Subst, us: seq<Frag>, ws: seq<Frag>)
    requires |us| == |ws| && forall i :: 0 <= i < |us| ==> Apply(S, us[i]) == ws[i]
    ensures Apply(S, Lst(us)) == Lst(ws)
  {
    assert Apply(S, Lst(us)).items == ws;
  }

  lemma {:induction false} IfSolvable(R: Subst, nodes: seq<Node>, sig: seq<Frag>, group: seq<nat>, e: nat, out: seq<Equation>, lo: nat, hi: nat) returns (S: Subst)
    requires |sig| == |nodes| && NodesOk(nodes) && e < |nodes| && nodes[e].If? && SigBelow(sig, lo)
    requires Prescribed(nodes, sig, group, e, out, lo, hi) && Typed(R, nodes, sig, group, e)
    ensures lo <= hi && AgreeOutside(R, S, lo, hi) && Solves(S, out)
  {
    hide Scoped, UsedAt, SigBelow, Below, AgreeOutside;
    var c, mid, a :| Scoped(sig, group, nodes[e].consequent, c, lo, mid) && Scoped(sig, group, nodes[e].alternate, a, mid, hi)
      && out == [(sig[e], c), (c, a)];
    var w := Types(R, sig)[e];
    ScopedOrder(sig, group, nodes[e].consequent, c, lo, mid);
    ScopedOrder(sig, group, nodes[e].alternate, a, mid, hi);
    var Q := ScopedReaches(R, sig, group, nodes[e].consequent, c, lo, mid, w);
    SameTypes(R, Q, lo, mid, sig);
    S := ScopedReaches(Q, sig, group, nodes[e].alternate, a, mid, hi, w);
    AgreeThen(R, Q, S, lo, mid, hi);
    ScopedBelow(sig, group, nodes[e].consequent, c, lo, mid, lo);
    AgreeBelow(Q, S, mid, hi, c, mid);
    SameTypes(R, S, lo, hi, sig);
    assert Types(S, sig)[e] == Apply(S, sig[e]);
  }

  /** Whoever types an expression can solve the equations prescribed for it, by choosing values for
      the variables of the copies alone. */
  lemma {:induction false} PrescribedSolvable(R: Subst, nodes: seq<Node>, sig: seq<Frag>, group: seq<nat>, e: nat, out: seq<Equation>, lo: nat, hi: nat) returns (S: Subst)
    requires |sig| == |nodes| && NodesOk(nodes) && e < |nodes| && SigBelow(sig, lo)
    requires Prescribed(nodes, sig, group, e, out, lo, hi) && Typed(R, nodes, sig, group, e)
    ensures lo <= hi && AgreeOutside(R, S, lo, hi) && Solves(S, out)
  {
    hide PrescribedCall, UsedAt, AllUsedAt, Scoped, Solves, AgreeOutside, SigBelow;
    match nodes[e]
    case Invoke(target, args) =>
      var ws :| AllUsedAt(Types(R, sig), sig, group, args, ws) && UsedAt(Types(R, sig), sig, group, target, Lst([FUNCTION, Lst(ws), Types(R, sig)[e]]));
      assert [FUNCTION, Lst(ws)] + Types(R, [sig[e]]) == [FUNCTION, Lst(ws), Types(R, sig)[e]];
      MemberBelow(sig, e, lo);
      S := CallSolvable(R, sig, group, target, args, "function", [sig[e]], out, lo, hi, ws);
    case Jump(target, args) =>
      var ws :| AllUsedAt(Types(R, sig), sig, group, args, ws) && UsedAt(Types(R, sig), sig, group, target, Lst([CONTINUATION, Lst(ws)]));
      assert [CONTINUATION, Lst(ws)] + Types(R, []) == [CONTINUATION, Lst(ws)];
      S := CallSolvable(R, sig, group, target, args, "continuation", [], out, lo, hi, ws);
    case If(_, _, _) => S := IfSolvable(R, nodes, sig, group, e, out, lo, hi);
    case _ =>
      PlainMeans(nodes, sig, group, e, R);
      AgreeSelf(R, lo, hi);
      S := R;
  }

  lemma {:induction false} MemberBelow(sig: seq<Frag>, e: nat, n: nat)
    requires e < |sig| && SigBelow(sig, n)
    ensures Below(sig[e], n)
  {}

  lemma {:induction false} AllScopedBelow(sig: seq<Frag>, group: seq<nat>, xs: seq<nat>, us: seq<Frag>, marks: seq<nat>, n: nat)
    requires AllScoped(sig, group, xs, us, marks) && n <= |us| && |marks| == |us| + 1 && SigBelow(sig, marks[0])
    ensures marks[0] <= marks[n] && forall i :: 0 <= i < n ==> Below(us[i], marks[n])
    decreases n
  {
    hide Scoped, SigBelow, Below;
    if n > 0 {
      var k := n - 1;
      AllScopedBelow(sig, group, xs, us, marks, k);
      ScopedOrder(sig, group, xs[k], us[k], marks[k], marks[n]);
      ScopedBelow(sig, group, xs[k], us[k], marks[k], marks[n], marks[0]);
      forall i | 0 <= i < k ensures Below(us[i], marks[n]) { BelowLater(us[i], marks[k], marks[n]); }
    }
  }

  lemma {:induction false} CallBelow(sig: seq<Frag>, group: seq<nat>, target: nat, args: seq<nat>, head: string, tail: seq<Frag>, out: seq<Equation>, lo: nat, hi: nat)
    requires target < |sig| && SigBelow(sig, lo) && PrescribedCall(sig, group, target, args, Tok(head), tail, out, lo, hi)
    requires forall i :: 0 <= i < |tail| ==> Below(tail[i], lo)
    ensures EqsBelow(out, hi)
  {
    hide Scoped, AllScoped, SigBelow;
    var us, marks, t :| AllScoped(sig, group, args, us, marks) && |us| == |args| && |marks| == |us| + 1 && marks[0] == lo
      && Scoped(sig, group, target, t, marks[|us|], hi) && out == [(t, Lst([Tok(head), Lst(us)] + tail))];
    AllScopedBelow(sig, group, args, us, marks, |us|);
    ScopedOrder(sig, group, target, t, marks[|us|], hi);
    ScopedBelow(sig, group, target, t, marks[|us|], hi, lo);
    forall i | 0 <= i < |us| ensures Below(us[i], hi) { BelowLater(us[i], marks[|us|], hi); }
    forall i | 0 <= i < |tail| ensures Below(tail[i], hi) { BelowLater(tail[i], lo, hi); }
    assert Below(Lst(us), hi) && Below(Tok(head), hi);
    var side := [Tok(head), Lst(us)] + tail;
    forall i | 0 <= i < |side| ensures Below(side[i], hi) {
      if i >= 2 { assert side[i] == tail[i - 2]; }
    }
    assert Below(Lst(side), hi);
  }

  lemma {:induction false} PrescribedBelow(nodes: seq<Node>, sig: seq<Frag>, group: seq<nat>, e: nat, out: seq<Equation>, lo: nat, hi: nat)
    requires |sig| == |nodes| && NodesOk(nodes) && e < |nodes| && SigBelow(sig, lo)
    requires Prescribed(nodes, sig, group, e, out, lo, hi) && lo <= hi
    ensures EqsBelow(out, hi)
  {
    hide PrescribedCall, Scoped;
    MemberBelow(sig, e, lo);
    match nodes[e]
    case Invoke(target, args) => CallBelow(sig, group, target, args, "function", [sig[e]], out, lo, hi);
    case Jump(target, args) => CallBelow(sig, group, target, args, "continuation", [], out, lo, hi);
    case If(_, consequent, alternate) =>
      var c, mid, a :| Scoped(sig, group, consequent, c, lo, mid) && Scoped(sig, group, alternate, a, mid, hi) && out == [(sig[e], c), (c, a)];
      ScopedOrder(sig, group, consequent, c, lo, mid);
      ScopedOrder(sig, group, alternate, a, mid, hi);
      ScopedBelow(sig, group, consequent, c, lo, mid, lo);
      ScopedBelow(sig, group, alternate, a, mid, hi, lo);
      BelowLater(c, mid, hi);
      BelowLater(sig[e], lo, hi);
    case _ => PlainBelow(nodes, sig, e, lo);
  }

  lemma {:induction false} SolvesBoth(S: Subst, a: seq<Equation>, b: seq<Equation>)
    ensures Solves(S, a + b) <==> Solves(S, a) && Solves(S, b)
  {
    assert forall i :: 0 <= i < |a| ==> (a + b)[i] == a[i];
    assert forall i :: 0 <= i < |b| ==> (a + b)[|a| + i] == b[i];
  }

  lemma {:induction false} BelowBoth(a: seq<Equation>, b: seq<Equation>, n: nat)
    requires EqsBelow(a, n) && EqsBelow(b, n)
    ensures EqsBelow(a + b, n)
  {}

  lemma {:induction false} GivenFront(nodes: seq<Node>, sig: seq<Frag>, group: seq<nat>, more: seq<seq<Equation>>, marks: seq<nat>)
    requires Given(nodes, sig, group, more, marks) && more != []
    ensures |marks| == |more| + 1 && Given(nodes, sig, group, more[..|more| - 1], marks[..|more|])
    ensures |more| <= |group| && group[|more| - 1] < |nodes|
    ensures Prescribed(nodes, sig, group, group[|more| - 1], more[|more| - 1], marks[|more| - 1], marks[|more|])
  {
    hide Prescribed;
  }

  lemma {:induction false} GivenBase(nodes: seq<Node>, sig: seq<Frag>, group: seq<nat>, more: seq<seq<Equation>>, marks: seq<nat>)
    requires Given(nodes, sig, group, more, marks)
    ensures |sig| == |nodes| && NodesOk(nodes) && |marks| == |more| + 1 && |more| <= |group|
    ensures forall i :: 0 <= i < |more| ==> group[i] < |nodes|
  {
    hide Prescribed;
  }

  /** Whoever types the first members of a group can solve the equations given for them. */
  lemma {:induction false} GivenSolvable(R: Subst, nodes: seq<Node>, sig: seq<Frag>, group: seq<nat>, more: seq<seq<Equation>>, marks: seq<nat>) returns (S: Subst)
    requires Given(nodes, sig, group, more, marks) && |marks| > 0 && SigBelow(sig, marks[0])
    requires |sig| == |nodes| && NodesOk(nodes) && |more| <= |group| && forall i :: 0 <= i < |more| ==> group[i] < |nodes| && Typed(R, nodes, sig, group, group[i])
    ensures |marks| == |more| + 1 && marks[0] <= marks[|more|] && AgreeOutside(R, S, marks[0], marks[|more|])
    ensures Solves(S, Concat(more)) && EqsBelow(Concat(more), marks[|more|])
    decreases |more|
  {
    hide Given, Prescribed, Fits, SigBelow, EqsBelow, Solves, AgreeOutside;
    GivenBase(nodes, sig, group, more, marks);
    if more == [] {
      AgreeSelf(R, marks[0], marks[0]);
      NothingToSolve(R, marks[0]);
      S := R;
    } else {
      var k := |more| - 1;
      GivenFront(nodes, sig, group, more, marks);
      var Q := GivenSolvable(R, nodes, sig, group, more[..k], marks[..k + 1]);
      SigBelowLater(sig, marks[0], marks[k]);
      SameTypes(R, Q, marks[0], marks[k], sig);
      S := PrescribedSolvable(Q, nodes, sig, group, group[k], more[k], marks[k], marks[k + 1]);
      PrescribedBelow(nodes, sig, group, group[k], more[k], marks[k], marks[k + 1]);
      StillSolves(Q, S, marks[k], marks[k + 1], Concat(more[..k]));
      EqsBelowLater(Concat(more[..k]), marks[k], marks[k + 1]);
      SolvesBoth(S, Concat(more[..k]), more[k]);
      BelowBoth(Concat(more[..k]), more[k], marks[k + 1]);
      AgreeThen(R, Q, S, marks[0], marks[k], marks[k + 1]);
    }
  }

  lemma {:induction false} NothingToSolve(R: Subst, n: nat)
    ensures Solves(R, Concat([])) && EqsBelow(Concat([]), n)
  {}

  // ----- what a run of the loop is -----

  /** Between a and b one group was solved and its signatures resolved. */
  ghost predicate Processed(nodes: seq<Node>, group: seq<nat>, a: Stage, b: Stage) {
    && Posed(nodes, group, a, b.eqs, b.next) && |b.sig| == |a.sig| && a.next <= b.next
    && (forall x :: 0 <= x < |a.sig| ==> b.sig[x] == if x in group then Apply(b.sol, a.sig[x]) else a.sig[x])
    && Extends(a.bound, b.bound) && Confined(a.bound, b.bound, b.sol, Own(nodes, group, a))
  }

  /** trail[k] is the stage before group k. */
  ghost predicate Trail(nodes: seq<Node>, groups: seq<seq<nat>>, trail: seq<Stage>) {
    && 0 < |trail| <= |groups| + 1 && NodesOk(nodes)
    && (forall k :: 0 <= k < |trail| ==> Sound(trail[k]) && |trail[k].sig| == |nodes|)
    && (forall k :: 0 <= k < |trail| - 1 ==> Processed(nodes, groups[k], trail[k], trail[k + 1]))
  }

  ghost predicate Grouping(groups: seq<seq<nat>>, n: nat) {
    && (forall i :: 0 <= i < |groups| ==> AllBelow(groups[i], n))
    && (forall i, j, v :: 0 <= i < j < |groups| && v in groups[i] ==> v !in groups[j])
  }

  lemma {:induction false} FollowBinding(b: Subst, sol: Subst, rank: map<nat, nat>, v: nat)
    requires Solved(b, sol) && Ranked(b, rank) && v in b
    ensures v in sol && v in rank && sol[v] == Apply(sol, b[v])
    ensures forall w: nat :: Occurs(w, b[v]) && w in rank ==> w in b && rank[w] < rank[v]
  {}

  lemma {:induction false} ResolvedVarBelow(b: Subst, sol: Subst, rank: map<nat, nat>, v: nat, n: nat)
    requires Solved(b, sol) && Ranked(b, rank) && v < n && forall w :: w in b ==> Below(b[w], n)
    ensures Below(Apply(sol, Var(v)), n)
    decreases if v in rank then rank[v] + 1 else 0
  {
    if v in b {
      FollowBinding(b, sol, rank, v);
      OccursBelow(b[v], n);
      hide Solved, Ranked, Below, Occurs;
      forall w: nat | Occurs(w, b[v]) ensures Below(Apply(sol, Var(w)), n) {
        ResolvedVarBelow(b, sol, rank, w, n);
      }
      ApplyBelow(sol, b[v], n);
    } else {
      UnboundStays(b, sol, v);
    }
  }

  lemma {:induction false} OccursBelow(f: Frag, n: nat)
    requires Below(f, n)
    ensures forall v: nat :: Occurs(v, f) ==> v < n
  {
    BelowIsOccurs(f, n);
  }

  lemma {:induction false} ResolvedBelow(b: Subst, sol: Subst, rank: map<nat, nat>, sig: seq<Frag>, e: nat, n: nat)
    requires Solved(b, sol) && Ranked(b, rank) && e < |sig| && SigBelow(sig, n)
    requires forall w :: w in b ==> Below(b[w], n)
    ensures Below(Apply(sol, sig[e]), n) && SigBelow(sig[e := Apply(sol, sig[e])], n)
  {
    OccursBelow(sig[e], n);
    hide Solved, Ranked, Occurs;
    forall w: nat | Occurs(w, sig[e]) ensures Below(Apply(sol, Var(w)), n) {
      ResolvedVarBelow(b, sol, rank, w, n);
    }
    ApplyBelow(sol, sig[e], n);
  }

  // ----- what a run achieves -----

  lemma {:induction false} ConcatJustified(nodes: seq<Node>, sig: seq<Frag>, group: seq<nat>, e: nat, more: seq<seq<Equation>>, i: nat)
    requires |sig| == |nodes| && NodesOk(nodes) && e < |nodes| && i < |more| && Justified(more[i], nodes, sig, group, e)
    ensures Justified(Concat(more), nodes, sig, group, e)
    decreases |more|
  {
    hide Justified;
    var init, last := more[..|more| - 1], more[|more| - 1];
    if i < |more| - 1 { ConcatJustified(nodes, sig, group, e, init, i); }
    JustifiedMore(Concat(init), last, nodes, sig, group, e);
  }

  /** Every member of a solved group is typed by whatever solves the equations. */
  lemma {:induction false} PosedJustified(nodes: seq<Node>, group: seq<nat>, a: Stage, eqs: seq<Equation>, next: nat, e: nat)
    requires |a.sig| == |nodes| && NodesOk(nodes) && Posed(nodes, group, a, eqs, next) && e in group
    ensures e < |nodes| && Justified(eqs, nodes, a.sig, group, e)
  {
    hide Justified, Prescribed;
    var more, marks :| Given(nodes, a.sig, group, more, marks) && |more| == |group| && |marks| == |more| + 1
      && marks[0] == a.next && marks[|more|] == next && eqs == a.eqs + Concat(more);
    var i :| 0 <= i < |group| && group[i] == e;
    PrescribedJustified(nodes, a.sig, group, e, more[i], marks[i], marks[i + 1]);
    ConcatJustified(nodes, a.sig, group, e, more, i);
    JustifiedMore(a.eqs, Concat(more), nodes, a.sig, group, e);
  }

  lemma {:induction false} TrailStep(nodes: seq<Node>, groups: seq<seq<nat>>, trail: seq<Stage>, k: nat)
    requires Trail(nodes, groups, trail) && k < |trail| - 1
    ensures k < |groups| && Processed(nodes, groups[k], trail[k], trail[k + 1])
    ensures Sound(trail[k]) && Sound(trail[k + 1]) && |trail[k].sig| == |trail[k + 1].sig| == |nodes|
  {}

  lemma {:induction false} PosedExtends(nodes: seq<Node>, group: seq<nat>, a: Stage, eqs: seq<Equation>, next: nat)
    requires Posed(nodes, group, a, eqs, next)
    ensures exists rest :: eqs == a.eqs + rest
  {
    hide Given;
    var more, marks :| Given(nodes, a.sig, group, more, marks) && |more| == |group| && |marks| == |more| + 1
      && marks[0] == a.next && marks[|more|] == next && eqs == a.eqs + Concat(more);
  }

  /** Later stages have all the equations of earlier ones. */
  lemma {:induction false} TrailGrows(nodes: seq<Node>, groups: seq<seq<nat>>, trail: seq<Stage>, i: nat, j: nat)
    requires Trail(nodes, groups, trail) && i <= j < |trail|
    ensures exists rest :: trail[j].eqs == trail[i].eqs + rest
    ensures trail[i].next <= trail[j].next
    decreases j - i
  {
    hide Sound, Posed, Own, Confined;
    if i == j {
      assert trail[j].eqs == trail[i].eqs + [];
    } else {
      TrailGrows(nodes, groups, trail, i, j - 1);
      TrailStep(nodes, groups, trail, j - 1);
      PosedExtends(nodes, groups[j - 1], trail[j - 1], trail[j].eqs, trail[j].next);
      var rest :| trail[j - 1].eqs == trail[i].eqs + rest;
      var more :| trail[j].eqs == trail[j - 1].eqs + more;
      assert trail[j].eqs == trail[i].eqs + (rest + more);
    }
  }

  /** At the end of a run every grouped expression obeys its typing rule, under the final bindings and
      the signatures that were current when its group was solved. */
  lemma {:induction false} FinallyTyped(nodes: seq<Node>, groups: seq<seq<nat>>, trail: seq<Stage>, j: nat, e: nat)
    requires Trail(nodes, groups, trail) && j < |trail| - 1 && e in groups[j]
    ensures e < |nodes| && |trail[j].sig| == |nodes| && Typed(trail[|trail| - 1].sol, nodes, trail[j].sig, groups[j], e)
  {
    var last := trail[|trail| - 1];
    TrailStep(nodes, groups, trail, j);
    TrailGrows(nodes, groups, trail, j + 1, |trail| - 1);
    assert Principal(last.eqs, last.bound) && Solved(last.bound, last.sol);
    ResolvedSatisfies(last.bound, last.sol);
    hide Typed, Solved, Satisfies, Solves, Sound, Posed, Own, Confined;
    PosedJustified(nodes, groups[j], trail[j], trail[j + 1].eqs, trail[j + 1].next, e);
    var rest :| last.eqs == trail[j + 1].eqs + rest;
    JustifiedMore(trail[j + 1].eqs, rest, nodes, trail[j].sig, groups[j], e);
  }

  predicate Earlier(groups: seq<seq<nat>>, k: nat, x: nat) {
    exists j :: 0 <= j < k && j < |groups| && x in groups[j]
  }

  /** A signature is resolved when its group is finished and stays so; before that it is the initial one. */
  lemma {:induction false} TrailSignatures(nodes: seq<Node>, groups: seq<seq<nat>>, trail: seq<Stage>, k: nat, x: nat)
    requires Trail(nodes, groups, trail) && Grouping(groups, |nodes|) && k < |trail| && x < |nodes|
    ensures |trail[k].sig| == |trail[0].sig| == |nodes|
    ensures !Earlier(groups, k, x) ==> trail[k].sig[x] == trail[0].sig[x]
    ensures forall i :: 0 <= i < k && x in groups[i] ==>
      |trail[i + 1].sig| == |nodes| && trail[k].sig[x] == trail[i + 1].sig[x] == Apply(trail[i + 1].sol, trail[0].sig[x])
    decreases k
  {
    hide Sound, Posed, Own, Confined;
    if k > 0 {
      TrailSignatures(nodes, groups, trail, k - 1, x);
      TrailStep(nodes, groups, trail, k - 1);
      if x in groups[k - 1] {
        assert !Earlier(groups, k - 1, x);
        assert Earlier(groups, k, x);
      } else {
        assert Earlier(groups, k - 1, x) ==> Earlier(groups, k, x);
      }
    }
  }

  /** An expression of an earlier group is used at an instance of its final signature. */
  lemma {:induction false} EarlierUseIsFinal(nodes: seq<Node>, groups: seq<seq<nat>>, trail: seq<Stage>, i: nat, j: nat, x: nat, types: seq<Frag>, u: Frag)
    requires Trail(nodes, groups, trail) && Grouping(groups, |nodes|) && i < j < |groups| && j < |trail| && x in groups[i]
    requires x < |trail[j].sig| == |types| && UsedAt(types, trail[j].sig, groups[j], x, u)
    ensures |trail[|trail| - 1].sig| == |nodes| && x < |nodes| && InstanceOf(u, trail[|trail| - 1].sig[x])
  {
    hide Sound, Posed, Own, Confined, Processed;
    TrailSignatures(nodes, groups, trail, j, x);
    TrailSignatures(nodes, groups, trail, |trail| - 1, x);
  }

  /** f and g are equal under every solution of the bindings. */
  ghost predicate SameMeaning(b: Subst, f: Frag, g: Frag) {
    forall theta: Subst :: Satisfies(theta, b) ==> Apply(theta, f) == Apply(theta, g)
  }

  lemma {:induction false} ExtendsSatisfies(b: Subst, c: Subst, theta: Subst)
    requires Extends(b, c) && Satisfies(theta, c)
    ensures Satisfies(theta, b)
  {
    forall v | v in b ensures Apply(theta, Var(v)) == Apply(theta, b[v]) { assert c[v] == b[v]; }
  }

  lemma {:induction false} ResolvingKeepsMeaning(a: Stage, b: Stage, f: Frag, g: Frag)
    requires Sound(b) && Extends(a.bound, b.bound) && SameMeaning(a.bound, f, g)
    ensures SameMeaning(b.bound, f, g) && SameMeaning(b.bound, Apply(b.sol, f), g)
  {
    hide Solved, Ranked, Satisfies, Principal, Extends;
    forall theta: Subst | Satisfies(theta, b.bound)
      ensures Apply(theta, f) == Apply(theta, g) && Apply(theta, Apply(b.sol, f)) == Apply(theta, g)
    {
      ExtendsSatisfies(a.bound, b.bound, theta);
      SolutionAbsorbs(b.bound, b.sol, b.rank, theta, f);
    }
  }

  /** The signatures of every stage mean what the initial ones mean. */
  lemma {:induction false} TrailMeaning(nodes: seq<Node>, groups: seq<seq<nat>>, trail: seq<Stage>, k: nat, x: nat)
    requires Trail(nodes, groups, trail) && k < |trail| && x < |nodes|
    ensures |trail[k].sig| == |trail[0].sig| == |nodes| && SameMeaning(trail[k].bound, trail[k].sig[x], trail[0].sig[x])
    decreases k
  {
    hide Sound, Posed, Own, Confined, Extends;
    if k > 0 {
      TrailMeaning(nodes, groups, trail, k - 1, x);
      TrailStep(nodes, groups, trail, k - 1);
      ResolvingKeepsMeaning(trail[k - 1], trail[k], trail[k - 1].sig[x], trail[0].sig[x]);
    }
  }

  // ----- failing means that nothing types the program -----

  /** The members of the groups begun fit their rules, each against the signatures of its stage. */
  ghost predicate AllFit(types: seq<Frag>, nodes: seq<Node>, groups: seq<seq<nat>>, trail: seq<Stage>) {
    NodesOk(nodes) && |types| == |nodes| &&
    forall j, e :: 0 <= j < |groups| && j < |trail| && e in groups[j] ==>
      e < |nodes| && |trail[j].sig| == |nodes| && Fits(types, nodes, trail[j].sig, groups[j], e)
  }

  /** Under a solution of the equations so far the signatures of a stage give the initial types. */
  lemma {:induction false} StageTypes(nodes: seq<Node>, groups: seq<seq<nat>>, trail: seq<Stage>, k: nat, R: Subst)
    requires Trail(nodes, groups, trail) && k < |trail| && Solves(R, trail[k].eqs)
    ensures Types(R, trail[k].sig) == Types(R, trail[0].sig)
  {
    hide Posed, Own, Confined, Solves, Processed, Solved, Ranked, Satisfies;
    assert Satisfies(R, trail[k].bound);
    assert |trail[k].sig| == |trail[0].sig| == |nodes|;
    forall x | 0 <= x < |nodes| ensures Apply(R, trail[k].sig[x]) == Apply(R, trail[0].sig[x]) {
      TrailMeaning(nodes, groups, trail, k, x);
    }
  }

  /** Whoever types the members of the first k groups can solve all equations posed for them. */
  lemma {:induction false} TrailSolvable(nodes: seq<Node>, groups: seq<seq<nat>>, trail: seq<Stage>, k: nat, R: Subst) returns (S: Subst)
    requires Trail(nodes, groups, trail) && k < |trail| && Solves(R, trail[0].eqs)
    requires AllFit(Types(R, trail[0].sig), nodes, groups, trail)
    ensures trail[0].next <= trail[k].next && AgreeOutside(R, S, trail[0].next, trail[k].next) && Solves(S, trail[k].eqs)
    ensures Types(S, trail[k].sig) == Types(R, trail[0].sig)
    decreases k
  {
    hide Sound, Own, Confined, AgreeOutside, Solves, Given, Fits;
    if k == 0 {
      AgreeSelf(R, trail[0].next, trail[0].next);
      S := R;
    } else {
      var Q := TrailSolvable(nodes, groups, trail, k - 1, R);
      TrailStep(nodes, groups, trail, k - 1);
      S := GroupSolvable(nodes, groups[k - 1], trail[k - 1], trail[k], Q);
      AgreeThen(R, Q, S, trail[0].next, trail[k - 1].next, trail[k].next);
      StageTypes(nodes, groups, trail, k, S);
      SoundBelow(trail[0]);
      SameTypes(R, S, trail[0].next, trail[k].next, trail[0].sig);
    }
  }

  lemma {:induction false} SoundBelow(s: Stage)
    requires Sound(s)
    ensures SigBelow(s.sig, s.next) && EqsBelow(s.eqs, s.next)
  {}

  lemma {:induction false} GroupSolvable(nodes: seq<Node>, group: seq<nat>, a: Stage, b: Stage, R: Subst) returns (S: Subst)
    requires Sound(a) && NodesOk(nodes) && |a.sig| == |nodes| && Processed(nodes, group, a, b) && Solves(R, a.eqs)
    requires forall e :: e in group ==> e < |nodes| && Fits(Types(R, a.sig), nodes, a.sig, group, e)
    ensures a.next <= b.next && AgreeOutside(R, S, a.next, b.next) && Solves(S, b.eqs)
  {
    hide Sound, Own, Confined, AgreeOutside, Solves, Given, Fits, SigBelow, EqsBelow;
    var more, marks :| Given(nodes, a.sig, group, more, marks) && |more| == |group| && |marks| == |more| + 1
      && marks[0] == a.next && marks[|more|] == b.next && b.eqs == a.eqs + Concat(more);
    SoundBelow(a);
    assert forall i :: 0 <= i < |more| ==> group[i] in group;
    S := GivenSolvable(R, nodes, a.sig, group, more, marks);
    StillSolves(R, S, a.next, b.next, a.eqs);
    SolvesBoth(S, a.eqs, Concat(more));
  }

  lemma {:induction false} BrokenSolvable(nodes: seq<Node>, group: seq<nat>, a: Stage, eqs: seq<Equation>, R: Subst) returns (S: Subst)
    requires Sound(a) && NodesOk(nodes) && |a.sig| == |nodes| && BrokeOff(nodes, group, a, eqs) && Solves(R, a.eqs)
    requires forall e :: e in group ==> e < |nodes| && Fits(Types(R, a.sig), nodes, a.sig, group, e)
    ensures Solves(S, eqs)
  {
    hide Sound, AgreeOutside, Solves, Given, Fits, SigBelow, EqsBelow;
    var more, marks, out, n: nat :| Given(nodes, a.sig, group, more + [out], marks) && |marks| == |more| + 2 && marks[0] == a.next
      && 0 < n <= |out| && eqs == a.eqs + Concat(more) + out[..n];
    SoundBelow(a);
    var all := more + [out];
    GivenBase(nodes, a.sig, group, all, marks);
    assert forall i :: 0 <= i < |all| ==> group[i] in group;
    S := GivenSolvable(R, nodes, a.sig, group, all, marks);
    StillSolves(R, S, a.next, marks[|all|], a.eqs);
    ConcatSnoc(more, out);
    assert out == out[..n] + out[n..];
    SolvesBoth(S, Concat(more), out);
    SolvesBoth(S, out[..n], out[n..]);
    SolvesBoth(S, a.eqs, Concat(more));
    SolvesBoth(S, a.eqs + Concat(more), out[..n]);
  }

  /** When a run breaks off on equations without solution, no assignment types the members of the
      groups begun. */
  lemma {:induction false} NothingTypes(nodes: seq<Node>, groups: seq<seq<nat>>, trail: seq<Stage>, eqs: seq<Equation>)
    requires Trail(nodes, groups, trail) && |trail| <= |groups| && trail[0].eqs == [] && Unsolvable(eqs)
    requires BrokeOff(nodes, groups[|trail| - 1], trail[|trail| - 1], eqs)
    ensures forall R: Subst :: !AllFit(Types(R, trail[0].sig), nodes, groups, trail)
  {
    hide AllFit, Sound, Processed, BrokeOff, Fits;
    forall R: Subst ensures AllFit(Types(R, trail[0].sig), nodes, groups, trail) ==> exists S :: Solves(S, eqs) {
      if AllFit(Types(R, trail[0].sig), nodes, groups, trail) {
        var k := |trail| - 1;
        var Q := TrailSolvable(nodes, groups, trail, k, R);
        GroupFits(Types(R, trail[0].sig), nodes, groups, trail, k);
        var S := BrokenSolvable(nodes, groups[k], trail[k], eqs, Q);
      }
    }
  }

  lemma {:induction false} GroupFits(types: seq<Frag>, nodes: seq<Node>, groups: seq<seq<nat>>, trail: seq<Stage>, k: nat)
    requires AllFit(types, nodes, groups, trail) && k < |groups| && k < |trail| && |trail[k].sig| == |nodes|
    ensures forall e :: e in groups[k] ==> e < |nodes| && Fits(types, nodes, trail[k].sig, groups[k], e)
  {}

  /** When a run ends, the resolved bindings type everything. */
  lemma {:induction false} EverythingFits(nodes: seq<Node>, groups: seq<seq<nat>>, trail: seq<Stage>)
    requires Trail(nodes, groups, trail) && |trail| == |groups| + 1
    ensures AllFit(Types(trail[|groups|].sol, trail[0].sig), nodes, groups, trail)
  {
    hide Sound, Processed, Fits, Solves;
    var last := trail[|groups|];
    SolSolves(last);
    forall j, e | 0 <= j < |groups| && e in groups[j]
      ensures e < |nodes| && |trail[j].sig| == |nodes| && Fits(Types(last.sol, trail[0].sig), nodes, trail[j].sig, groups[j], e)
    {
      FinallyTyped(nodes, groups, trail, j, e);
      TrailGrows(nodes, groups, trail, j, |groups|);
      var rest :| last.eqs == trail[j].eqs + rest;
      SolvesBoth(last.sol, trail[j].eqs, rest);
      StageTypes(nodes, groups, trail, j, last.sol);
    }
  }

  lemma {:induction false} SolSolves(s: Stage)
    requires Sound(s)
    ensures Solves(s.sol, s.eqs)
  {
    ResolvedSatisfies(s.bound, s.sol);
  }

  // ----- isolation of polymorphic copies -----

  /** Solving one equation against a copy of f binds no variable of f, unless the other side mentions it. */
  lemma {:induction false} CopyIsolates(b: Subst, s: Subst, r: map<nat, nat>, f: Frag, u: Frag, lo: nat, hi: nat, y: Frag, c: Subst, t: Subst)
    requires Solved(b, s) && Ranked(b, r) && Solved(c, t) && Extends(b, c) && BindsOnly(b, s, u, y, c, t)
    requires CopyOf(f, u, lo, hi) && (forall v :: v in b ==> v < lo) && Below(Apply(s, f), lo)
    ensures forall v: nat :: Occurs(v, Apply(s, f)) && v in c ==> Occurs(v, Apply(s, y))
    ensures (forall v: nat :: Occurs(v, Apply(s, f)) ==> !Occurs(v, Apply(s, y))) ==> Apply(t, f) == Apply(s, f)
  {
    CopyIsNew(f, u, lo, hi, s);
    ResolvedIsUnbound(b, s, f);
    BelowIsOccurs(Apply(s, f), lo);
    hide Solved, Ranked;
    if forall v: nat :: Occurs(v, Apply(s, f)) ==> !Occurs(v, Apply(s, y)) {
      SolvingIsolates(b, s, r, u, y, c, t, f);
    }
  }

  /** Solving a whole group leaves alone every fragment that shares no unbound variable with the
      signatures that the group's equations contain uncopied. */
  lemma {:induction false} GroupIsolates(nodes: seq<Node>, group: seq<nat>, a: Stage, b: Stage, f: Frag)
    requires Sound(a) && Sound(b) && Processed(nodes, group, a, b)
    requires forall v: nat :: Occurs(v, Apply(a.sol, f)) ==> v !in Own(nodes, group, a)
    ensures Apply(b.sol, f) == Apply(a.sol, f)
    ensures forall v: nat :: Occurs(v, Apply(a.sol, f)) ==> v !in b.bound
  {
    hide Own, Posed;
    LaterAbsorbsEarlier(a.bound, a.sol, a.rank, b.bound, b.sol, f);
    ResolvedIsUnbound(a.bound, a.sol, f);
    ApplyUntouched(b.sol, Apply(a.sol, f));
  }

  // ----- the checker -----

  lemma {:induction false} NoNames(n: nat)
    ensures Names(map[], [], [], n, n)
  {}

  lemma {:induction false} CopiedApart(m: Subst, olds: seq<nat>, news: seq<nat>, lo: nat, hi: nat, f: Frag, u: Frag)
    requires Names(m, olds, news, lo, hi) && Renames(map[], m, f, u)
    ensures CopyOf(f, u, lo, hi)
  {
    forall v, w | v in m && w in m && m[v] == m[w] ensures v == w { NamesInjective(m, olds, news, lo, hi, v, w); }
    forall v | v in m ensures m[v].Var? && lo <= m[v].id < hi { NamesInjective(m, olds, news, lo, hi, v, v); }
    assert FreshNames(m, lo, hi);
  }

  lemma {:induction false} SignatureBelow(sig: seq<Frag>, us: seq<Frag>, e: nat, n: nat)
    requires SigBelow(sig, n) && SigBelow(us, n) && e < |sig|
    ensures Below(sig[e], n) && Below(Lst([FUNCTION, Lst(us)] + [sig[e]]), n) && Below(Lst([CONTINUATION, Lst(us)] + []), n)
  {}

  lemma {:induction false} StageFacts(a: Stage, A: iset<nat>)
    requires Sound(a)
    ensures Principal(a.eqs, a.bound) && Extends(a.bound, a.bound) && Confined(a.bound, a.bound, a.sol, A)
  {}

  lemma {:induction false} GivenSnoc(nodes: seq<Node>, sig: seq<Frag>, group: seq<nat>, more: seq<seq<Equation>>, marks: seq<nat>, out: seq<Equation>, hi: nat)
    requires Given(nodes, sig, group, more, marks) && |more| < |group| && group[|more|] < |nodes|
    requires Prescribed(nodes, sig, group, group[|more|], out, marks[|more|], hi)
    ensures Given(nodes, sig, group, more + [out], marks + [hi])
  {
    hide Prescribed;
  }

  lemma {:induction false} GroupsBelow(groups: seq<seq<nat>>, n: nat)
    requires Grouping(groups, n)
    ensures forall i :: 0 <= i < |groups| ==> AllBelow(groups[i], n)
  {}

  lemma {:induction false} TrailStarts(nodes: seq<Node>, groups: seq<seq<nat>>, a: Stage)
    requires Sound(a) && NodesOk(nodes) && |a.sig| == |nodes|
    ensures Trail(nodes, groups, [a])
  {}

  lemma {:induction false} TrailSnoc(nodes: seq<Node>, groups: seq<seq<nat>>, trail: seq<Stage>, b: Stage)
    requires Trail(nodes, groups, trail) && |trail| <= |groups| && Sound(b)
    requires Processed(nodes, groups[|trail| - 1], trail[|trail| - 1], b)
    ensures Trail(nodes, groups, trail + [b])
  {
    assert |b.sig| == |trail[|trail| - 1].sig|;
    hide Sound, Processed;
  }

  lemma {:induction false} Breaks(nodes: seq<Node>, group: seq<nat>, a: Stage, more: seq<seq<Equation>>, marks: seq<nat>, out: seq<Equation>, n: nat, eqs: seq<Equation>)
    requires Given(nodes, a.sig, group, more + [out], marks) && |marks| == |more| + 2 && marks[0] == a.next
    requires 0 < n <= |out| && eqs == a.eqs + Concat(more) + out[..n]
    ensures BrokeOff(nodes, group, a, eqs)
  {
    hide Given, Concat;
  }

  /** The type checker's mutable state. */
  class Checker {
    const nodes: seq<Node>
    const store: Store
    var sig: seq<Frag>              // the signature field of each node
    ghost var eqs: seq<Equation>    // every equation handed to unify so far

    ghost predicate Valid()
      reads this, store
    {
      && store.Valid() && |sig| == |nodes| && NodesOk(nodes)
      && SigBelow(sig, store.next) && EqsBelow(eqs, store.next)
    }

    ghost function Now(): Stage
      reads this, store
    {
      Stage(eqs, store.bound, store.sol, store.rank, sig, store.next)
    }

    /** Each expression starts with a fresh variable as its signature. */
    constructor (nodes: seq<Node>, store: Store)
      requires NodesOk(nodes) && store.Valid() && store.next == 0 && store.bound == map[]
      modifies store
      ensures this.nodes == nodes && this.store == store && Valid() && eqs == []
      ensures Principal(eqs, store.bound)
      ensures sig == seq(|nodes|, i requires 0 <= i < |nodes| => Var(i))
    {
      this.nodes, this.store := nodes, store;
      sig, eqs := [], [];
      new;
      for i := 0 to |nodes|
        invariant store.Valid() && store.bound == map[] && store.next == i
        invariant sig == seq(i, j requires 0 <= j < i => Var(j)) && SigBelow(sig, i) && eqs == []
      {
        SigBelowLater(sig, i, i + 1);
        var v := store.NewVar();
        sig := sig + [v];
      }
      assert forall theta: Subst :: Satisfies(theta, store.bound);
    }

    method ScopedSignature(x: nat, group: seq<nat>) returns (u: Frag)
      requires Valid() && x < |nodes|
      modifies store`next
      ensures Valid() && Scoped(sig, group, x, u, old(store.next), store.next) && Below(u, store.next)
      ensures store.next >= old(store.next)
    {
      if x in group {
        u := sig[x];
      } else {
        ghost var n, m := store.next, map[];
        NoNames(n);
        var olds, news;
        u, olds, news, m := store.CopyFragment(sig[x], [], [], map[], n);
        RenamedBelow(m, olds, news, n, store.next, map[], sig[x], u);
        CopiedApart(m, olds, news, n, store.next, sig[x], u);
        SigBelowLater(sig, n, store.next);
        EqsBelowLater(eqs, n, store.next);
      }
    }

    method ScopedArguments(args: seq<nat>, group: seq<nat>) returns (us: seq<Frag>, ghost marks: seq<nat>)
      requires Valid() && AllBelow(args, |nodes|)
      modifies store`next
      ensures Valid() && |us| == |args| && AllScoped(sig, group, args, us, marks) && SigBelow(us, store.next)
      ensures |marks| == |us| + 1 && marks[0] == old(store.next) && marks[|us|] == store.next >= old(store.next)
    {
      hide Scoped;
      us, marks := [], [store.next];
      for i := 0 to |args|
        invariant Valid() && |us| == i && AllScoped(sig, group, args, us, marks) && SigBelow(us, store.next)
        invariant marks[0] == old(store.next) && marks[i] == store.next >= old(store.next)
      {
        ghost var n := store.next;
        var u := ScopedSignature(args[i], group);
        SigBelowLater(us, n, store.next);
        us, marks := us + [u], marks + [store.next];
      }
    }

    /** The equations of one expression, the one generated last first. */
    method GenerateEquations(e: nat, group: seq<nat>) returns (out: seq<Equation>)
      requires Valid() && e < |nodes|
      modifies store`next
      ensures Valid() && store.next >= old(store.next) && EqsBelow(out, store.next)
      ensures Prescribed(nodes, sig, group, e, out, old(store.next), store.next)
    {
      hide Scoped, AllScoped, SigBelow;
      match nodes[e]
      case Invoke(target, args) =>
        ghost var marks;
        var us;
        us, marks := ScopedArguments(args, group);
        ghost var n := store.next;
        var t := ScopedSignature(target, group);
        SigBelowLater(us, n, store.next);
        SignatureBelow(sig, us, e, store.next);
        out := [(t, Lst([FUNCTION, Lst(us)] + [sig[e]]))];
        assert PrescribedCall(sig, group, target, args, FUNCTION, [sig[e]], out, old(store.next), store.next);
      case Jump(target, args) =>
        ghost var marks;
        var us;
        us, marks := ScopedArguments(args, group);
        ghost var n := store.next;
        var t := ScopedSignature(target, group);
        SigBelowLater(us, n, store.next);
        SignatureBelow(sig, us, e, store.next);
        out := [(t, Lst([CONTINUATION, Lst(us)] + []))];
        assert PrescribedCall(sig, group, target, args, CONTINUATION, [], out, old(store.next), store.next);
      case If(_, consequent, alternate) =>
        var c := ScopedSignature(consequent, group);
        ghost var n := store.next;
        var a := ScopedSignature(alternate, group);
        BelowLater(c, n, store.next);
        SignatureBelow(sig, [], e, store.next);
        out := [(sig[e], c), (c, a)];
      case _ =>
        PlainBelow(nodes, sig, e, store.next);
        out := PlainEquations(nodes, sig, e);
    }

    /** Unifies the two sides of each equation in turn; on failure the equations so far, with the
        failing one, have no solution. Only variables of A are bound when the equations are over A. */
    method SolveEquations(out: seq<Equation>, ghost a: Stage, ghost A: iset<nat>) returns (ok: bool, ghost n: nat)
      requires Valid() && EqsBelow(out, store.next) && Principal(eqs, store.bound)
      requires Sound(a) && Extends(a.bound, store.bound) && Confined(a.bound, store.bound, store.sol, A) && AllInside(a.sol, out, A)
      modifies store, this`eqs
      ensures Valid() && store.next == old(store.next) && Extends(a.bound, store.bound) && n <= |out| && eqs == old(eqs) + out[..n]
      ensures Confined(a.bound, store.bound, store.sol, A)
      ensures if ok then n == |out| && Principal(eqs, store.bound) else 0 < n && Unsolvable(eqs)
    {
      hide Principal, Unsolvable, SolutionsAre, Solved, Ranked, BindsOnly, Confined, Inside;
      for i := 0 to |out|
        invariant Valid() && store.next == old(store.next) && Extends(a.bound, store.bound)
        invariant eqs == old(eqs) + out[..i] && Principal(eqs, store.bound)
        invariant Confined(a.bound, store.bound, store.sol, A)
      {
        ghost var b, s, r := store.bound, store.sol, store.rank;
        var same := store.Unify(out[i].0, out[i].1);
        SolveStep(eqs, b, out[i].0, out[i].1, same, store.bound);
        ConfinedStep(a.bound, a.sol, a.rank, b, s, r, out[i].0, out[i].1, store.bound, store.sol, A);
        eqs := eqs + [(out[i].0, out[i].1)];
        assert out[..i + 1] == out[..i] + [(out[i].0, out[i].1)];
        if !same {
          return false, i + 1;
        }
      }
      assert out[..|out|] == out;
      ok, n := true, |out|;
    }

    /** Types the groups in order. When it succeeds the bindings are the most general solution of the
        equations prescribed for all members of all groups and the types they give obey every typing
        rule; when it fails the prescribed equations up to the failing one have no solution, and no
        assignment gives types that obey the rules. */
    method InferTypes(groups: seq<seq<nat>>) returns (ok: bool, ghost trail: seq<Stage>)
      requires Valid() && Grouping(groups, |nodes|) && eqs == [] && store.bound == map[]
      modifies store, this
      ensures Valid() && Trail(nodes, groups, trail) && trail[0] == old(Now())
      ensures ok ==> |trail| == |groups| + 1 && trail[|groups|] == Now() && Principal(eqs, store.bound)
      ensures ok ==> AllFit(Types(store.sol, old(sig)), nodes, groups, trail)
      ensures !ok ==> forall R: Subst :: !AllFit(Types(R, old(sig)), nodes, groups, trail)
      ensures !ok ==> |trail| <= |groups| && BrokeOff(nodes, groups[|trail| - 1], trail[|trail| - 1], eqs) && Unsolvable(eqs)
    {
      hide Principal, Unsolvable, Processed, BrokeOff, Sound, Valid, Trail, AllFit, Grouping, Posed, Extends, Confined, Own;
      StartsSound();
      GroupsBelow(groups, |nodes|);
      trail := [Now()];
      TrailStarts(nodes, groups, Now());
      for k := 0 to |groups|
        invariant Valid() && Sound(Now()) && |sig| == |nodes|
        invariant |trail| == k + 1 && Trail(nodes, groups, trail) && trail[0] == old(Now()) && trail[k] == Now()
      {
        ok := InferGroup(groups[k]);
        if !ok {
          NothingTypes(nodes, groups, trail, eqs);
          return false, trail;
        }
        ghost var b := FinishGroup(groups[k], trail[k]);
        TrailSnoc(nodes, groups, trail, b);
        trail := trail + [b];
      }
      StageFacts(Now(), iset{});
      EverythingFits(nodes, groups, trail);
      ok := true;
    }

    lemma {:induction false} StartsSound()
      requires Valid() && eqs == [] && store.bound == map[]
      ensures Sound(Now()) && NodesOk(nodes) && |sig| == |nodes|
    {
      NoEquations();
    }

    /** Solves the equations of a group's members in order. */
    method InferGroup(group: seq<nat>) returns (ok: bool)
      requires Valid() && AllBelow(group, |nodes|) && Sound(Now())
      modifies store, this`eqs
      ensures Valid() && old(store.next) <= store.next
      ensures Extends(old(store.bound), store.bound) && Confined(old(store.bound), store.bound, store.sol, Own(nodes, group, old(Now())))
      ensures ok ==> Principal(eqs, store.bound) && Posed(nodes, group, old(Now()), eqs, store.next)
      ensures !ok ==> Unsolvable(eqs) && BrokeOff(nodes, group, old(Now()), eqs)
    {
      hide Principal, Unsolvable, Prescribed, SigBelow, EqsBelow, Extends, Own, Confined, AllInside, Sound;
      ghost var a := Now();
      ghost var A := Own(nodes, group, a);
      ghost var more: seq<seq<Equation>>, marks := [], [store.next];
      StageFacts(a, A);
      assert eqs == a.eqs + Concat(more);
      for i := 0 to |group|
        invariant Valid() && Principal(eqs, store.bound) && sig == a.sig && a.next <= store.next
        invariant Given(nodes, sig, group, more, marks) && |more| == i && marks[0] == a.next && marks[i] == store.next
        invariant eqs == a.eqs + Concat(more)
        invariant Extends(a.bound, store.bound) && Confined(a.bound, store.bound, store.sol, A)
      {
        var out := GenerateEquations(group[i], group);
        PrescribedInside(nodes, group, a, group[i], out, marks[i], store.next);
        ghost var next := marks + [store.next];
        GivenSnoc(nodes, sig, group, more, marks, out, store.next);
        ghost var n;
        ok, n := SolveEquations(out, a, A);
        ConcatSnoc(more, out);
        if !ok {
          Breaks(nodes, group, a, more, next, out, n, eqs);
          return false;
        }
        assert out[..n] == out;
        assert a.eqs + Concat(more) + out == a.eqs + (Concat(more) + out);
        more, marks := more + [out], next;
      }
      ok := true;
    }

    /** Replaces the signatures of a solved group by their resolved forms. */
    method FinishGroup(group: seq<nat>, ghost a: Stage) returns (ghost b: Stage)
      requires Valid() && AllBelow(group, |nodes|) && Sound(a) && sig == a.sig && a.next <= store.next
      requires Principal(eqs, store.bound) && Posed(nodes, group, a, eqs, store.next)
      requires Extends(a.bound, store.bound) && Confined(a.bound, store.bound, store.sol, Own(nodes, group, a))
      modifies this`sig
      ensures Valid() && |sig| == |nodes| && b == Now() && Sound(b) && Processed(nodes, group, a, b)
    {
      hide Posed, Own, Confined, Extends, Principal, EqsBelow, Sound;
      for i := 0 to |group|
        invariant Valid()
        invariant forall x :: 0 <= x < |sig| ==> sig[x] == if x in group[..i] then Apply(store.sol, a.sig[x]) else a.sig[x]
      {
        var r := store.RecursiveEvaluate(sig[group[i]]);
        ResolveTwice(store.bound, store.sol, a.sig[group[i]]);
        ResolvedBelow(store.bound, store.sol, store.rank, sig, group[i], store.next);
        sig := sig[group[i] := r];
        assert forall x :: x in group[..i + 1] <==> x in group[..i] || x == group[i];
      }
      assert group[..|group|] == group;
      NowSound();
      b := Now();
    }

    lemma {:induction false} NowSound()
      requires Valid() && Principal(eqs, store.bound)
      ensures Sound(Now())
    {}
  }

  // ----- the whole pass -----

  lemma {:induction false} ReversedGrouping(deps: Components.Graph, low: seq<nat>, sccs: seq<seq<nat>>, groups: seq<seq<nat>>, n: nat)
    requires Components.Groups(deps, low, sccs) && |low| == n && |groups| == |sccs|
    requires forall i :: 0 <= i < |sccs| ==> groups[i] == sccs[|sccs| - 1 - i]
    requires Components.Paired(deps, sccs)
    ensures Grouping(groups, n) && Components.Paired(deps, groups)
    ensures forall v :: Components.Grouped(sccs, v) ==> Components.Grouped(groups, v)
    ensures forall i :: 0 <= i < |groups| ==> Components.Mutual(deps, groups[i])
  {
    hide Components.Mutual, Distinct;
    forall i | 0 <= i < |groups| ensures AllBelow(groups[i], n) {
      forall j | 0 <= j < |groups[i]| ensures groups[i][j] < n {
        assert groups[i][j] in sccs[|sccs| - 1 - i];
      }
    }
    forall v | Components.Grouped(sccs, v) ensures Components.Grouped(groups, v) {
      var i :| 0 <= i < |sccs| && v in sccs[i];
      assert groups[|sccs| - 1 - i] == sccs[i];
    }
  }

  /** Only what some root depends on is grouped. */
  lemma {:induction false} GroupedFromRoots(deps: Components.Graph, roots: seq<nat>, low: seq<nat>, sccs: seq<seq<nat>>, groups: seq<seq<nat>>)
    requires Components.Groups(deps, low, sccs) && |groups| == |sccs| && |low| == |deps|
    requires forall i :: 0 <= i < |sccs| ==> groups[i] == sccs[|sccs| - 1 - i]
    requires Components.FromRoots(deps, roots, |roots|, seq(|deps|, _ => 0), low)
    ensures forall v :: Components.Grouped(groups, v) ==> exists r :: r in roots && Components.Reaches(deps, r, v)
  {
    hide Components.Reaches, Components.Mutual, Distinct;
    forall v | Components.Grouped(groups, v) ensures exists r :: r in roots && Components.Reaches(deps, r, v) {
      var i :| 0 <= i < |groups| && v in groups[i];
      assert v in sccs[|sccs| - 1 - i];
      assert Components.Grouped(sccs, v);
      var j :| 0 <= j < |roots| && Components.Reaches(deps, roots[j], v);
      assert roots[j] in roots;
    }
  }

  /** Components first, then signatures: exactly the expressions the roots depend on are in a group of
      mutually dependent expressions. On success the bindings give all of them types that obey
      the typing rules; on failure no assignment of types does. */
  method InferProgram(checker: Checker, deps: Components.Graph, roots: seq<nat>) returns (ok: bool, groups: seq<seq<nat>>, ghost trail: seq<Stage>)
    requires checker.Valid() && checker.eqs == [] && checker.store.bound == map[]
    requires Components.Closed(deps) && |deps| == |checker.nodes| < Components.DONE
    requires forall r :: r in roots ==> r < |deps|
    modifies checker, checker.store
    ensures checker.Valid() && Grouping(groups, |checker.nodes|)
    ensures forall i :: 0 <= i < |groups| ==> Components.Mutual(deps, groups[i])
    ensures Components.Paired(deps, groups)
    ensures forall r, v :: r in roots && Components.Reaches(deps, r, v) ==> Components.Grouped(groups, v)
    ensures forall v :: Components.Grouped(groups, v) ==> exists r :: r in roots && Components.Reaches(deps, r, v)
    ensures Trail(checker.nodes, groups, trail) && trail[0] == old(checker.Now())
    ensures ok ==> |trail| == |groups| + 1 && trail[|groups|] == checker.Now() && Principal(checker.eqs, checker.store.bound)
    ensures ok ==> AllFit(Types(checker.store.sol, old(checker.sig)), checker.nodes, groups, trail)
    ensures !ok ==> forall R: Subst :: !AllFit(Types(R, old(checker.sig)), checker.nodes, groups, trail)
    ensures !ok ==> |trail| <= |groups| && BrokeOff(checker.nodes, groups[|trail| - 1], trail[|trail| - 1], checker.eqs)
    ensures !ok ==> Unsolvable(checker.eqs)
  {
    hide Components.Reaches, Components.Mutual, Components.Grouped, Components.Groups, Components.Paired, Sound, Processed, AllFit, Principal, BrokeOff;
    var search := new Components.Search(deps);
    search.GroupAll(roots);
    var sccs := search.sccs;
    groups := seq(|sccs|, i requires 0 <= i < |sccs| => sccs[|sccs| - 1 - i]);
    ReversedGrouping(deps, search.lowlink, sccs, groups, |deps|);
    GroupedFromRoots(deps, roots, search.lowlink, sccs, groups);
    ok, trail := checker.InferTypes(groups);
  }
}
