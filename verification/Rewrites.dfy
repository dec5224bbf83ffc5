/** The tree rewrites of the L2 compiler (src/analysis.l2): removing constraints, swapping branches
    and letting jumps dominate the expressions around them. Behaviours are those of an abstract
    machine whose invoke and jump operands are evaluated in any order. */
module Rewrites {
  import opened Common
  import opened Syntax

  // ----- the abstract machine -----

  /** Memory and the calls made so far to code outside the program. */
  datatype Store = Store(mem: map<int, int>, trace: seq<(int, seq<int>)>)

  /** What the program does not decide: addresses, how bindings live in memory, outside code. */
  datatype World = World(
    symbol: (nat, nat, Store) -> int,
    storage: (nat, nat, seq<int>, Store) -> (int, Store),
    bind: (seq<nat>, nat, seq<int>, Store) -> Store,
    name: (nat, nat, int, Store) -> Store,
    functionAt: nat -> int, callee: int -> Option<nat>,
    continuationAt: nat -> int, continuation: int -> Option<nat>,
    outside: (int, seq<int>, Store) -> (int, Store))

  datatype Fn = Fn(params: seq<nat>, body: Expr)

  type Program = map<nat, Fn>

  datatype Operand = Todo(e: Expr) | Done(v: int)

  datatype Frame =
    | IfFrame(consequent: Expr, alternate: Expr)
    | OperandFrame(jump: bool, ops: seq<Operand>, hole: nat)
    | StoreFrame(bndg: nat, done: seq<int>, rest: seq<Expr>)
    | ReturnFrame(act: nat)

  type Stack = seq<Frame>

  datatype Control = Eval(e: Expr) | Ops(jump: bool, ops: seq<Operand>) | Ret(v: int)

  /** A live continuation or with: where control goes when it is jumped to. */
  datatype Cont = Cont(isWith: bool, params: seq<nat>, body: Expr, stack: Stack, act: nat)

  /** The top of the stack is its first frame; activations are numbered. */
  datatype State = State(control: Control, stack: Stack, act: nat, store: Store, conts: seq<Cont>, acts: nat)

  function Todos(es: seq<Expr>): seq<Operand> {
    seq(|es|, k requires 0 <= k < |es| => Todo(es[k]))
  }

  predicate AllDone(ops: seq<Operand>) { forall k :: 0 <= k < |ops| ==> ops[k].Done? }

  function Values(ops: seq<Operand>): seq<int> {
    seq(|ops|, k requires 0 <= k < |ops| => if ops[k].Done? then ops[k].v else 0)
  }

  function Call(P: Program, W: World, s: State, f: int, args: seq<int>): Option<State> {
    match W.callee(f)
    case Some(b) =>
      if b !in P || |args| != |P[b].params| then None
      else Some(s.(control := Eval(P[b].body), stack := [ReturnFrame(s.act)] + s.stack, act := s.acts, acts := s.acts + 1,
        store := W.bind(P[b].params, s.acts, args, s.store)))
    case None =>
      var r := W.outside(f, args, s.store);
      Some(s.(control := Ret(r.0), store := r.1.(trace := s.store.trace + [(f, args)])))
  }

  function Leave(W: World, s: State, k: int, args: seq<int>): Option<State> {
    match W.continuation(k)
    case None => None
    case Some(i) =>
      if i >= |s.conts| || |args| != |s.conts[i].params| then None else
      var c := s.conts[i];
      if c.isWith then (if |args| == 1 then Some(s.(control := Ret(args[0]), stack := c.stack, act := c.act)) else None)
      else Some(s.(control := Eval(c.body), stack := c.stack, act := c.act, store := W.bind(c.params, c.act, args, s.store)))
  }

  function Stored(W: World, s: State, b: nat, vs: seq<int>): State {
    var r := W.storage(b, s.act, vs, s.store);
    s.(control := Ret(r.0), store := r.1)
  }

  /** A new continuation or with, by which the binding is known from now on. */
  function Captured(W: World, s: State, isWith: bool, b: nat, params: seq<nat>, body: Expr): State {
    s.(conts := s.conts + [Cont(isWith, params, body, s.stack, s.act)],
       store := W.name(b, s.act, W.continuationAt(|s.conts|), s.store))
  }

  /** One step; `choice` picks the operand that is evaluated next. */
  function Next(P: Program, W: World, s: State, choice: nat): Option<State> {
    match s.control
    case Eval(e) => Some(Enter(W, s, e))
    case Ops(jump, ops) =>
      if |ops| > 0 && AllDone(ops) then
        if jump then Leave(W, s, Values(ops)[0], Values(ops)[1..]) else Call(P, W, s, Values(ops)[0], Values(ops)[1..])
      else if choice < |ops| && ops[choice].Todo? then
        Some(s.(control := Eval(ops[choice].e), stack := [OperandFrame(jump, ops, choice)] + s.stack))
      else None
    case Ret(v) => if s.stack == [] then None else Resume(W, s.(stack := s.stack[1..]), s.stack[0], v)
  }

  function Enter(W: World, s: State, e: Expr): State {
    match e
    case Literal(value) => s.(control := Ret(value))
    case Symbol(b) => s.(control := Ret(W.symbol(b, s.act, s.store)))
    case If(c, t, f) => s.(control := Eval(c), stack := [IfFrame(t, f)] + s.stack)
    case Function(b, _, _) => s.(control := Ret(W.functionAt(b)))
    case Continuation(b, params, body, _) =>
      Captured(W, s, false, b, params, body).(control := Ret(W.continuationAt(|s.conts|)))
    case With(b, param, body, _) => Captured(W, s, true, b, [param], Literal(0)).(control := Eval(body))
    case Storage(b, args) =>
      if args == [] then Stored(W, s, b, []) else s.(control := Eval(args[0]), stack := [StoreFrame(b, [], args[1..])] + s.stack)
    case Invoke(target, args, _) => s.(control := Ops(false, Todos([target] + args)))
    case Jump(target, args, _) => s.(control := Ops(true, Todos([target] + args)))
    case Constrain(body) => s.(control := Eval(body))
  }

  /** A value goes to the top frame, which is no longer on s's stack. */
  function Resume(W: World, s: State, f: Frame, v: int): Option<State> {
    match f
    case IfFrame(t, e) => Some(s.(control := Eval(if v != 0 then t else e)))
    case OperandFrame(jump, ops, hole) => if hole < |ops| then Some(s.(control := Ops(jump, ops[hole := Done(v)]))) else None
    case StoreFrame(b, done, rest) =>
      if rest == [] then Some(Stored(W, s, b, done + [v]))
      else Some(s.(control := Eval(rest[0]), stack := [StoreFrame(b, done + [v], rest[1..])] + s.stack))
    case ReturnFrame(act) => Some(s.(control := Ret(v), act := act))
  }

  ghost function Run(P: Program, W: World, s: State, choices: seq<nat>): Option<State>
    decreases choices
  {
    if choices == [] then Some(s) else
    var t := Next(P, W, s, choices[0]);
    if t.None? then None else Run(P, W, t.value, choices[1..])
  }

  // ----- rewriting -----

  /** The condition is an if over literals of which exactly one is zero. */
  predicate Decides(c: Expr) {
    c.If? && c.consequent.Literal? && c.alternate.Literal? &&
    (c.consequent.value != 0 || c.alternate.value != 0) && !(c.consequent.value != 0 && c.alternate.value != 0)
  }

  function EliminateConstrain(e: Expr): Expr { if e.Constrain? then e.body else e }

  function SwapBranches(e: Expr): Expr {
    if e.If? && Decides(e.condition) then
      if e.condition.alternate.value != 0 then If(e.condition.condition, e.alternate, e.consequent)
      else If(e.condition.condition, e.consequent, e.alternate)
    else e
  }

  function FirstJump(es: seq<Expr>, otherwise: Expr): Expr {
    if es == [] then otherwise else if es[0].Jump? then es[0] else FirstJump(es[1..], otherwise)
  }

  function DominateJumps(e: Expr): Expr {
    match e
    case Invoke(target, args, _) => FirstJump([target] + args, e)
    case Jump(target, args, _) => FirstJump([target] + args, e)
    case If(c, _, _) => if c.Jump? then c else e
    case _ => e
  }

  datatype Visitor = Eliminate | Swap | Dominate

  function Visited(v: Visitor, e: Expr): Expr {
    match v
    case Eliminate => EliminateConstrain(e)
    case Swap => SwapBranches(e)
    case Dominate => DominateJumps(e)
  }

  /** visit-expressions: the parts first, then the whole. */
  function Visit(v: Visitor, e: Expr): Expr
    decreases e, 1
  {
    match e
    case If(c, t, f) => Visited(v, If(Visit(v, c), Visit(v, t), Visit(v, f)))
    case Function(b, params, body) => Visited(v, Function(b, params, Visit(v, body)))
    case Continuation(b, params, body, entry) => Visited(v, Continuation(b, params, Visit(v, body), entry))
    case With(b, param, body, entry) => Visited(v, With(b, param, Visit(v, body), entry))
    case Constrain(body) => Visited(v, Constrain(Visit(v, body)))
    case Storage(b, args) => Visited(v, Storage(b, VisitAll(v, args)))
    case Jump(target, args, temp) => Visited(v, Jump(Visit(v, target), VisitAll(v, args), temp))
    case Invoke(target, args, temp) => Visited(v, Invoke(Visit(v, target), VisitAll(v, args), temp))
    case _ => Visited(v, e)
  }

  function VisitAll(v: Visitor, es: seq<Expr>): seq<Expr>
    decreases es, 0
  {
    if es == [] then [] else [Visit(v, es[0])] + VisitAll(v, es[1..])
  }

  // ----- one rewrite at a time -----

  /** e' is e with a rewrite at its root. */
  ghost predicate Local(e: Expr, e': Expr) {
    || (e.Constrain? && e' == e.body)
    || (e.If? && Decides(e.condition) && e' == SwapBranches(e))
    || (e.If? && e.condition.Jump? && e' == e.condition)
    || ((e.Invoke? || e.Jump?) && e'.Jump? && e' in [e.target] + e.args)
  }

  /** e' is e with rewrites at places that do not overlap. */
  ghost predicate Rewritten(e: Expr, e': Expr)
    decreases e, 2
  {
    e == e' || Local(e, e') || Congruent(e, e')
  }

  /** The same kind of expression, with rewrites in the parts. */
  ghost predicate Congruent(e: Expr, e': Expr)
    decreases e, 1
  {
    match e
    case If(c, t, f) => e'.If? && Rewritten(c, e'.condition) && Rewritten(t, e'.consequent) && Rewritten(f, e'.alternate)
    case Function(b, params, body) => e'.Function? && e'.bndg == b && e'.params == params && Rewritten(body, e'.body)
    case Continuation(b, params, body, entry) =>
      e'.Continuation? && e'.bndg == b && e'.params == params && e'.entry == entry && Rewritten(body, e'.body)
    case With(b, param, body, entry) => e'.With? && e'.bndg == b && e'.param == param && e'.entry == entry && Rewritten(body, e'.body)
    case Constrain(body) => e'.Constrain? && Rewritten(body, e'.body)
    case Storage(b, args) => e'.Storage? && e'.bndg == b && RewrittenAll(args, e'.args)
    case Jump(target, args, temp) => e'.Jump? && e'.temp == temp && Rewritten(target, e'.target) && RewrittenAll(args, e'.args)
    case Invoke(target, args, temp) => e'.Invoke? && e'.temp == temp && Rewritten(target, e'.target) && RewrittenAll(args, e'.args)
    case _ => e == e'
  }

  ghost predicate RewrittenAll(es: seq<Expr>, es': seq<Expr>)
    decreases es, 0
  {
    |es| == |es'| && (es == [] || (Rewritten(es[0], es'[0]) && RewrittenAll(es[1..], es'[1..])))
  }

  lemma {:induction false} AllAt(es: seq<Expr>, es': seq<Expr>, k: nat)
    requires RewrittenAll(es, es') && k < |es|
    ensures Rewritten(es[k], es'[k])
  {
    if k > 0 {
      AllAt(es[1..], es'[1..], k - 1);
    }
  }

  lemma {:induction false} AllSame(es: seq<Expr>)
    ensures RewrittenAll(es, es)
  {
    if es != [] {
      AllSame(es[1..]);
    }
  }

  // ----- simulation -----

  ghost predicate OpsAlike(ops: seq<Operand>, ops': seq<Operand>) {
    |ops| == |ops'| && forall k :: 0 <= k < |ops| ==>
      if ops[k].Done? then ops'[k] == ops[k] else ops'[k].Todo? && Rewritten(ops[k].e, ops'[k].e)
  }

  ghost predicate FramesAlike(f: Frame, f': Frame) {
    match f
    case IfFrame(t, e) => f'.IfFrame? && Rewritten(t, f'.consequent) && Rewritten(e, f'.alternate)
    case OperandFrame(jump, ops, hole) => f'.OperandFrame? && f'.jump == jump && f'.hole == hole && OpsAlike(ops, f'.ops)
    case StoreFrame(b, done, rest) => f'.StoreFrame? && f'.bndg == b && f'.done == done && RewrittenAll(rest, f'.rest)
    case ReturnFrame(act) => f' == f
  }

  /** Two frames that together do what one rewritten frame does. */
  ghost predicate FramesSwapped(inner: Frame, outer: Frame, f': Frame) {
    && inner.IfFrame? && outer.IfFrame? && f'.IfFrame? && inner.consequent.Literal? && inner.alternate.Literal?
    && if inner.alternate.value != 0
       then inner.consequent.value == 0 && Rewritten(outer.alternate, f'.consequent) && Rewritten(outer.consequent, f'.alternate)
       else inner.consequent.value != 0 && Rewritten(outer.consequent, f'.consequent) && Rewritten(outer.alternate, f'.alternate)
  }

  /** Control never comes back to what is below the operands of a jump. */
  ghost predicate StacksAlike(k: Stack, k': Stack)
    decreases |k|
  {
    || (k == [] && k' == [])
    || (k != [] && k' != [] && FramesAlike(k[0], k'[0]) && ((k[0].OperandFrame? && k[0].jump) || StacksAlike(k[1..], k'[1..])))
    || (|k| > 1 && k' != [] && FramesSwapped(k[0], k[1], k'[0]) && StacksAlike(k[2..], k'[1..]))
  }

  ghost predicate ContsAlike(c: Cont, c': Cont) {
    c'.isWith == c.isWith && c'.params == c.params && c'.act == c.act && Rewritten(c.body, c'.body) && StacksAlike(c.stack, c'.stack)
  }

  ghost predicate AllContsAlike(cs: seq<Cont>, cs': seq<Cont>) {
    |cs| == |cs'| && forall i :: 0 <= i < |cs| ==> ContsAlike(cs[i], cs'[i])
  }

  ghost predicate ControlsAlike(c: Control, c': Control) {
    match c
    case Eval(e) => c'.Eval? && Rewritten(e, c'.e)
    case Ops(jump, ops) => c'.Ops? && c'.jump == jump && OpsAlike(ops, c'.ops)
    case Ret(v) => c' == c
  }

  /** A jump, or the operands of one. */
  predicate Jumping(c: Control) {
    (c.Eval? && c.e.Jump?) || (c.Ops? && c.jump)
  }

  ghost predicate Alike(s: State, s': State) {
    && s'.act == s.act && s'.store == s.store && s'.acts == s.acts && AllContsAlike(s.conts, s'.conts)
    && ControlsAlike(s.control, s'.control)
    && (Jumping(s'.control) || StacksAlike(s.stack, s'.stack))
  }

  ghost predicate ProgramsAlike(P: Program, P': Program) {
    P.Keys == P'.Keys && forall b :: b in P ==> P'[b].params == P[b].params && Rewritten(P[b].body, P'[b].body)
  }

  // ----- every step of the rewritten program is matched -----

  lemma {:induction false} CongruentSelf(e: Expr)
    ensures Congruent(e, e)
  {
    match e
    case Storage(_, args) => AllSame(args);
    case Jump(_, args, _) => AllSame(args);
    case Invoke(_, args, _) => AllSame(args);
    case _ =>
  }

  lemma {:induction false} RunThen(P: Program, W: World, s: State, cs: seq<nat>, t: State, ds: seq<nat>)
    requires Run(P, W, s, cs) == Some(t)
    ensures Run(P, W, s, cs + ds) == Run(P, W, t, ds)
    decreases cs
  {
    if cs == [] {
      assert cs + ds == ds;
    } else {
      assert (cs + ds)[1..] == cs[1..] + ds;
      RunThen(P, W, Next(P, W, s, cs[0]).value, cs[1..], t, ds);
    }
  }

  lemma {:induction false} RunOne(P: Program, W: World, s: State, c: nat, t: State)
    requires Next(P, W, s, c) == Some(t)
    ensures Run(P, W, s, [c]) == Some(t)
  {
    assert [c][1..] == [];
    assert Run(P, W, t, []) == Some(t);
  }

  lemma {:induction false} RunTwo(P: Program, W: World, s: State, c: nat, t: State, d: nat, u: State)
    requires Next(P, W, s, c) == Some(t) && Next(P, W, t, d) == Some(u)
    ensures Run(P, W, s, [c, d]) == Some(u)
  {
    RunOne(P, W, s, c, t);
    RunOne(P, W, t, d, u);
    RunThen(P, W, s, [c], t, [d]);
    assert [c] + [d] == [c, d];
  }

  /** Entering an expression and the same expression with rewrites in its parts. */
  lemma {:induction false} EnterAlike(W: World, s: State, s': State, e: Expr, e': Expr)
    requires Alike(s, s') && s.control == Eval(e) && s'.control == Eval(e') && Congruent(e, e')
    ensures Alike(Enter(W, s, e), Enter(W, s', e'))
  {
    match e
    case Literal(_) =>
    case Symbol(_) =>
    case If(_, _, _) => PushAlike(s.stack, s'.stack, IfFrame(e.consequent, e.alternate), IfFrame(e'.consequent, e'.alternate));
    case Function(_, _, _) =>
    case Continuation(_, _, _, _) => CapturedAlike(W, s, s', false, e.bndg, e.params, e.body, e'.body);
    case With(_, _, _, _) => CapturedAlike(W, s, s', true, e.bndg, [e.param], Literal(0), Literal(0));
    case Storage(b, args) =>
      if args != [] {
        PushAlike(s.stack, s'.stack, StoreFrame(b, [], args[1..]), StoreFrame(b, [], e'.args[1..]));
      }
    case Invoke(target, args, _) => TodosAlike(target, args, e'.target, e'.args);
    case Jump(target, args, _) => TodosAlike(target, args, e'.target, e'.args);
    case Constrain(_) =>
  }

  lemma {:induction false} PushAlike(k: Stack, k': Stack, f: Frame, f': Frame)
    requires FramesAlike(f, f') && ((f.OperandFrame? && f.jump) || StacksAlike(k, k'))
    ensures StacksAlike([f] + k, [f'] + k')
  {
    assert ([f] + k)[1..] == k && ([f'] + k')[1..] == k';
  }

  lemma {:induction false} PushSwapped(k: Stack, k': Stack, inner: Frame, outer: Frame, f': Frame)
    requires FramesSwapped(inner, outer, f') && StacksAlike(k, k')
    ensures StacksAlike([inner] + ([outer] + k), [f'] + k')
  {
    assert ([inner] + ([outer] + k))[2..] == k && ([f'] + k')[1..] == k';
  }

  lemma {:induction false} CapturedAlike(W: World, s: State, s': State, isWith: bool, b: nat, params: seq<nat>, body: Expr, body': Expr)
    requires s'.act == s.act && s'.store == s.store && AllContsAlike(s.conts, s'.conts) && StacksAlike(s.stack, s'.stack) && Rewritten(body, body')
    ensures var t, t' := Captured(W, s, isWith, b, params, body), Captured(W, s', isWith, b, params, body');
      t'.store == t.store && AllContsAlike(t.conts, t'.conts)
  {}

  lemma {:induction false} TodosAlike(target: Expr, args: seq<Expr>, target': Expr, args': seq<Expr>)
    requires Rewritten(target, target') && RewrittenAll(args, args')
    ensures OpsAlike(Todos([target] + args), Todos([target'] + args'))
  {
    forall k | 0 <= k < |args| ensures Rewritten(args[k], args'[k]) {
      AllAt(args, args', k);
    }
  }

  /** An expression with a rewrite at its root reaches the expression it is rewritten to. */
  lemma {:induction false} CatchUp(P: Program, W: World, s: State, s': State, e: Expr, e': Expr) returns (cs: seq<nat>, u: State)
    requires Alike(s, s') && s.control == Eval(e) && s'.control == Eval(e') && Local(e, e') && !(e.If? && Decides(e.condition))
    ensures Run(P, W, s, cs) == Some(u) && Alike(u, s') && u.control == Eval(e')
  {
    var t := Enter(W, s, e);
    RunOne(P, W, s, 0, t);
    if e.Invoke? || e.Jump? {
      var es := [e.target] + e.args;
      var i: nat :| i < |es| && es[i] == e';
      u := t.(control := Eval(e'), stack := [OperandFrame(e.Jump?, Todos(es), i)] + t.stack);
      assert Todos(es)[i] == Todo(e') && !AllDone(Todos(es));
      RunTwo(P, W, s, 0, t, i, u);
      cs := [0, i];
    } else {
      cs, u := [0], t;
    }
  }

  lemma {:induction false} EvalMatched(P: Program, P': Program, W: World, s: State, s': State, choice: nat) returns (cs: seq<nat>, t: State)
    requires Alike(s, s') && s'.control.Eval?
    ensures Next(P', W, s', choice).Some? && |cs| >= 1 && Run(P, W, s, cs) == Some(t) && Alike(t, Next(P', W, s', choice).value)
  {
    hide Alike, Enter, Decides, SwapBranches;
    var e, e' := ControlExpr(s, s'), s'.control.e;
    CongruentSelf(e);
    CongruentSelf(e');
    if e == e' || Congruent(e, e') {
      t := Enter(W, s, e);
      EnterAlike(W, s, s', e, e');
      RunOne(P, W, s, 0, t);
      cs := [0];
    } else if e.If? && Decides(e.condition) {
      cs, t := SwapMatched(P, W, s, s', e, e');
    } else {
      var u;
      cs, u := CatchUp(P, W, s, s', e, e');
      t := Enter(W, u, e');
      EnterAlike(W, u, s', e', e');
      RunOne(P, W, u, 0, t);
      RunThen(P, W, s, cs, u, [0]);
      cs := cs + [0];
    }
  }

  ghost function ControlExpr(s: State, s': State): (e: Expr)
    requires Alike(s, s') && s'.control.Eval?
    ensures s.control == Eval(e) && Rewritten(e, s'.control.e)
  {
    s.control.e
  }

  lemma {:induction false} SwapMatched(P: Program, W: World, s: State, s': State, e: Expr, e': Expr) returns (cs: seq<nat>, t: State)
    requires Alike(s, s') && s.control == Eval(e) && s'.control == Eval(e') && e.If? && Decides(e.condition) && Local(e, e')
    ensures |cs| >= 1 && Run(P, W, s, cs) == Some(t) && Alike(t, Enter(W, s', e'))
  {
    var inner := e.condition;
    assert e' == SwapBranches(e);
    var t1 := Enter(W, s, e);
    t := Enter(W, t1, inner);
    RunTwo(P, W, s, 0, t1, 0, t);
    cs := [0, 0];
    PushSwapped(s.stack, s'.stack, IfFrame(inner.consequent, inner.alternate), IfFrame(e.consequent, e.alternate), IfFrame(e'.consequent, e'.alternate));
  }

  lemma {:induction false} DoneAlike(ops: seq<Operand>, ops': seq<Operand>)
    requires OpsAlike(ops, ops')
    ensures AllDone(ops) <==> AllDone(ops')
    ensures AllDone(ops) ==> Values(ops) == Values(ops')
  {
    hide Rewritten;
    forall k | 0 <= k < |ops| ensures ops[k].Done? <==> ops'[k].Done? {}
  }

  lemma {:induction false} OpsMatched(P: Program, P': Program, W: World, s: State, s': State, choice: nat, t': State) returns (t: State)
    requires ProgramsAlike(P, P') && Alike(s, s') && s'.control.Ops? && Next(P', W, s', choice) == Some(t')
    ensures Next(P, W, s, choice) == Some(t) && Alike(t, t')
  {
    var ops, ops' := s.control.ops, s'.control.ops;
    DoneAlike(ops, ops');
    hide Rewritten;
    if |ops| > 0 && AllDone(ops) {
      var vs := Values(ops);
      if s.control.jump {
        t := LeaveMatched(W, s, s', vs[0], vs[1..], t');
      } else {
        t := CallMatched(P, P', W, s, s', vs[0], vs[1..], t');
      }
    } else {
      t := s.(control := Eval(ops[choice].e), stack := [OperandFrame(s.control.jump, ops, choice)] + s.stack);
      PushAlike(s.stack, s'.stack, OperandFrame(s.control.jump, ops, choice), OperandFrame(s'.control.jump, ops', choice));
    }
  }

  lemma {:induction false} CallMatched(P: Program, P': Program, W: World, s: State, s': State, f: int, args: seq<int>, t': State) returns (t: State)
    requires ProgramsAlike(P, P') && Alike(s, s') && StacksAlike(s.stack, s'.stack) && Call(P', W, s', f, args) == Some(t')
    ensures Call(P, W, s, f, args) == Some(t) && Alike(t, t')
  {
    PushAlike(s.stack, s'.stack, ReturnFrame(s.act), ReturnFrame(s'.act));
    hide Rewritten, StacksAlike;
    t := Call(P, W, s, f, args).value;
  }

  lemma {:induction false} LeaveMatched(W: World, s: State, s': State, k: int, args: seq<int>, t': State) returns (t: State)
    requires Alike(s, s') && Leave(W, s', k, args) == Some(t')
    ensures Leave(W, s, k, args) == Some(t) && Alike(t, t')
  {
    hide Rewritten, StacksAlike;
    assert ContsAlike(s.conts[W.continuation(k).value], s'.conts[W.continuation(k).value]);
    t := Leave(W, s, k, args).value;
  }

  lemma {:induction false} RetMatched(P: Program, P': Program, W: World, s: State, s': State, choice: nat, t': State) returns (cs: seq<nat>, t: State)
    requires Alike(s, s') && s'.control.Ret? && Next(P', W, s', choice) == Some(t')
    ensures |cs| >= 1 && Run(P, W, s, cs) == Some(t) && Alike(t, t')
  {
    if FramesAlike(s.stack[0], s'.stack[0]) && ((s.stack[0].OperandFrame? && s.stack[0].jump) || StacksAlike(s.stack[1..], s'.stack[1..])) {
      t := ResumeMatched(W, s, s', t');
      RunOne(P, W, s, 0, t);
      cs := [0];
    } else {
      cs, t := SwappedMatched(P, W, s, s', t');
    }
  }

  lemma {:induction false} ResumeMatched(W: World, s: State, s': State, t': State) returns (t: State)
    requires Alike(s, s') && s'.control.Ret? && s.stack != [] && s'.stack != [] && FramesAlike(s.stack[0], s'.stack[0])
    requires (s.stack[0].OperandFrame? && s.stack[0].jump) || StacksAlike(s.stack[1..], s'.stack[1..])
    requires Resume(W, s'.(stack := s'.stack[1..]), s'.stack[0], s'.control.v) == Some(t')
    ensures Resume(W, s.(stack := s.stack[1..]), s.stack[0], s.control.v) == Some(t) && Alike(t, t')
  {
    var f, f', v, k, k' := s.stack[0], s'.stack[0], s.control.v, s.stack[1..], s'.stack[1..];
    t := Resume(W, s.(stack := k), f, v).value;
    match f
    case StoreFrame(b, done, rest) =>
      if rest != [] {
        PushAlike(k, k', StoreFrame(b, done + [v], rest[1..]), StoreFrame(b, done + [v], f'.rest[1..]));
      }
    case OperandFrame(jump, ops, hole) =>
      assert OpsAlike(ops[hole := Done(v)], f'.ops[hole := Done(v)]);
    case _ =>
  }

  lemma {:induction false} SwappedMatched(P: Program, W: World, s: State, s': State, t': State) returns (cs: seq<nat>, t: State)
    requires Alike(s, s') && s'.control.Ret? && |s.stack| > 1 && s'.stack != [] && FramesSwapped(s.stack[0], s.stack[1], s'.stack[0])
    requires StacksAlike(s.stack[2..], s'.stack[1..])
    requires Resume(W, s'.(stack := s'.stack[1..]), s'.stack[0], s'.control.v) == Some(t')
    ensures |cs| >= 1 && Run(P, W, s, cs) == Some(t) && Alike(t, t')
  {
    var inner, outer, v := s.stack[0], s.stack[1], s.control.v;
    var literal := if v != 0 then inner.consequent else inner.alternate;
    var t1 := s.(stack := s.stack[1..], control := Eval(literal));
    var t2 := t1.(control := Ret(literal.value));
    t := t2.(stack := s.stack[2..], control := Eval(if literal.value != 0 then outer.consequent else outer.alternate));
    assert t2.stack[1..] == s.stack[2..];
    RunTwo(P, W, s, 0, t1, 0, t2);
    RunOne(P, W, t2, 0, t);
    RunThen(P, W, s, [0, 0], t2, [0]);
    cs := [0, 0] + [0];
  }

  /** Each step of the rewritten program is one or more steps of the original. */
  lemma {:induction false} StepMatched(P: Program, P': Program, W: World, s: State, s': State, choice: nat, t': State) returns (cs: seq<nat>, t: State)
    requires ProgramsAlike(P, P') && Alike(s, s') && Next(P', W, s', choice) == Some(t')
    ensures |cs| >= 1 && Run(P, W, s, cs) == Some(t) && Alike(t, t')
  {
    hide Alike, ProgramsAlike;
    match s'.control
    case Eval(_) => cs, t := EvalMatched(P, P', W, s, s', choice);
    case Ops(_, _) =>
      t := OpsMatched(P, P', W, s, s', choice, t');
      RunOne(P, W, s, choice, t);
      cs := [choice];
    case Ret(_) => cs, t := RetMatched(P, P', W, s, s', choice, t');
  }

  lemma {:induction false} RunMatched(P: Program, P': Program, W: World, s: State, s': State, choices: seq<nat>, t': State) returns (cs: seq<nat>, t: State)
    requires ProgramsAlike(P, P') && Alike(s, s') && Run(P', W, s', choices) == Some(t')
    ensures |cs| >= |choices| && Run(P, W, s, cs) == Some(t) && Alike(t, t')
    decreases choices
  {
    hide Alike, ProgramsAlike, Next;
    if choices == [] {
      cs, t := [], s;
    } else {
      var u' := Next(P', W, s', choices[0]).value;
      var ds, u := StepMatched(P, P', W, s, s', choices[0], u');
      var es;
      es, t := RunMatched(P, P', W, u, u', choices[1..], t');
      RunThen(P, W, s, ds, u, es);
      cs := ds + es;
    }
  }

  /** Every run of the rewritten program is matched by a run of the original that is at least as
      long and ends in a corresponding state. */
  lemma {:induction false} RunsAreMatched(P: Program, P': Program, W: World, s: State, s': State, choices: seq<nat>)
    requires ProgramsAlike(P, P') && Alike(s, s') && Run(P', W, s', choices).Some?
    ensures exists cs, t :: |cs| >= |choices| && Run(P, W, s, cs) == Some(t) && Alike(t, Run(P', W, s', choices).value)
  {
    var cs, t := RunMatched(P, P', W, s, s', choices, Run(P', W, s', choices).value);
  }

  // ----- behaviours -----

  /** Before a program's main expression is evaluated. */
  function Start(main: Expr, store: Store): State {
    State(Eval(main), [], 0, store, [], 1)
  }

  /** A run of at least n steps reaches a state with this store, and with this value if it is over. */
  ghost predicate Behaves(P: Program, W: World, main: Expr, store: Store, n: nat, after: Store, value: Option<int>) {
    exists cs: seq<nat>, t: State :: |cs| >= n && Run(P, W, Start(main, store), cs) == Some(t) && t.store == after &&
      (value.Some? ==> t.control == Ret(value.value) && t.stack == [])
  }

  /** The behaviours of one are among those of the other: final values, the memory and outside
      calls along the way, and how long runs get. */
  ghost predicate Refines(P': Program, main': Expr, P: Program, main: Expr) {
    forall W: World, store, n: nat, after, value ::
      Behaves(P', W, main', store, n, after, value) ==> Behaves(P, W, main, store, n, after, value)
  }

  lemma {:induction false} RewriteRefines(P: Program, P': Program, main: Expr, main': Expr)
    requires ProgramsAlike(P, P') && Rewritten(main, main')
    ensures Refines(P', main', P, main)
  {
    forall W: World, store, n: nat, after, value | Behaves(P', W, main', store, n, after, value)
      ensures Behaves(P, W, main, store, n, after, value)
    {
      var choices: seq<nat>, t' :| |choices| >= n && Run(P', W, Start(main', store), choices) == Some(t') && t'.store == after &&
        (value.Some? ==> t'.control == Ret(value.value) && t'.stack == []);
      assert Alike(Start(main, store), Start(main', store));
      var cs, t := RunMatched(P, P', W, Start(main, store), Start(main', store), choices, t');
      if value.Some? {
        EndsAlike(t, t');
      }
    }
  }

  lemma {:induction false} EndsAlike(s: State, s': State)
    requires Alike(s, s') && s'.control.Ret? && s'.stack == []
    ensures s.control == s'.control && s.stack == []
  {}

  lemma {:induction false} RefinesThen(P: Program, a: Expr, Q: Program, b: Expr, R: Program, c: Expr)
    requires Refines(P, a, Q, b) && Refines(Q, b, R, c)
    ensures Refines(P, a, R, c)
  {}

  // ----- whole passes -----

  /** e becomes e' in n rounds of rewriting. */
  ghost predicate Rounds(n: nat, e: Expr, e': Expr) {
    if n == 0 then e == e' else exists mid :: Rewritten(e, mid) && Rounds(n - 1, mid, e')
  }

  ghost predicate RoundsAll(n: nat, es: seq<Expr>, es': seq<Expr>) {
    |es| == |es'| && forall k :: 0 <= k < |es| ==> Rounds(n, es[k], es'[k])
  }

  lemma {:induction false} MoreRounds(n: nat, m: nat, e: Expr, e': Expr)
    requires Rounds(n, e, e') && n <= m
    ensures Rounds(m, e, e')
    decreases m
  {
    if n < m {
      MoreRounds(n, m - 1, e, e');
      assert Rewritten(e, e);
    }
  }

  lemma {:induction false} LastRound(n: nat, e: Expr, mid: Expr, e': Expr)
    requires Rounds(n, e, mid) && Rewritten(mid, e')
    ensures Rounds(n + 1, e, e')
  {
    if n == 0 {
      assert Rounds(0, e', e');
    } else {
      var first :| Rewritten(e, first) && Rounds(n - 1, first, mid);
      LastRound(n - 1, first, mid, e');
    }
  }

  /** After the first of n rounds. */
  ghost function Mid(n: nat, e: Expr, e': Expr): (mid: Expr)
    requires n > 0 && Rounds(n, e, e')
    ensures Rewritten(e, mid) && Rounds(n - 1, mid, e')
  {
    var mid :| Rewritten(e, mid) && Rounds(n - 1, mid, e');
    mid
  }

  ghost function Mids(n: nat, es: seq<Expr>, es': seq<Expr>): (mids: seq<Expr>)
    requires n > 0 && RoundsAll(n, es, es')
    ensures RewrittenAll(es, mids) && RoundsAll(n - 1, mids, es')
    decreases |es|
  {
    if es == [] then [] else [Mid(n, es[0], es'[0])] + Mids(n, es[1..], es'[1..])
  }

  lemma {:induction false} FirstRound(n: nat, e: Expr, mid: Expr, e': Expr)
    requires n > 0 && Rewritten(e, mid) && Rounds(n - 1, mid, e')
    ensures Rounds(n, e, e')
  {}

  /** Rounds on the parts are rounds on the whole. */
  lemma {:induction false} RoundsOfIf(n: nat, e: Expr, e': Expr)
    requires e.If? && e'.If? && Rounds(n, e.condition, e'.condition) && Rounds(n, e.consequent, e'.consequent) && Rounds(n, e.alternate, e'.alternate)
    ensures Rounds(n, e, e')
  {
    if n > 0 {
      var mid := If(Mid(n, e.condition, e'.condition), Mid(n, e.consequent, e'.consequent), Mid(n, e.alternate, e'.alternate));
      assert Congruent(e, mid);
      RoundsOfIf(n - 1, mid, e');
      FirstRound(n, e, mid, e');
    }
  }

  lemma {:induction false} RoundsOfBody(n: nat, e: Expr, body': Expr)
    requires e.Function? || e.Continuation? || e.With? || e.Constrain?
    requires Rounds(n, e.body, body')
    ensures Rounds(n, e, e.(body := body'))
  {
    if n > 0 {
      var mid := e.(body := Mid(n, e.body, body'));
      assert Congruent(e, mid);
      RoundsOfBody(n - 1, mid, body');
      FirstRound(n, e, mid, e.(body := body'));
    }
  }

  lemma {:induction false} RoundsOfArgs(n: nat, e: Expr, e': Expr)
    requires e.Storage? && e'.Storage? && e.bndg == e'.bndg && RoundsAll(n, e.args, e'.args)
    ensures Rounds(n, e, e')
  {
    if n > 0 {
      var mid := Storage(e.bndg, Mids(n, e.args, e'.args));
      assert Congruent(e, mid);
      RoundsOfArgs(n - 1, mid, e');
      FirstRound(n, e, mid, e');
    } else {
      assert e.args == e'.args;
    }
  }

  lemma {:induction false} RoundsOfOperands(n: nat, e: Expr, e': Expr)
    requires (e.Jump? && e'.Jump?) || (e.Invoke? && e'.Invoke?)
    requires e.temp == e'.temp && Rounds(n, e.target, e'.target) && RoundsAll(n, e.args, e'.args)
    ensures Rounds(n, e, e')
  {
    if n > 0 {
      var target, args := Mid(n, e.target, e'.target), Mids(n, e.args, e'.args);
      var mid := if e.Jump? then Jump(target, args, e.temp) else Invoke(target, args, e.temp);
      assert Congruent(e, mid);
      RoundsOfOperands(n - 1, mid, e');
      FirstRound(n, e, mid, e');
    } else {
      assert e.args == e'.args;
    }
  }

  /** A bound on the rounds that a pass takes. */
  function Height(e: Expr): nat
    decreases e, 1
  {
    1 + match e
        case If(c, t, f) => Height(c) + Height(t) + Height(f)
        case Function(_, _, body) => Height(body)
        case Continuation(_, _, body, _) => Height(body)
        case With(_, _, body, _) => Height(body)
        case Constrain(body) => Height(body)
        case Storage(_, args) => HeightAll(args)
        case Jump(target, args, _) => Height(target) + HeightAll(args)
        case Invoke(target, args, _) => Height(target) + HeightAll(args)
        case _ => 0
  }

  function HeightAll(es: seq<Expr>): nat
    decreases es, 0
  {
    if es == [] then 0 else Height(es[0]) + HeightAll(es[1..])
  }

  lemma {:induction false} FirstJumpIsOne(es: seq<Expr>, otherwise: Expr)
    ensures FirstJump(es, otherwise) == otherwise || (FirstJump(es, otherwise) in es && FirstJump(es, otherwise).Jump?)
  {
    if es != [] {
      FirstJumpIsOne(es[1..], otherwise);
    }
  }

  /** A visitor rewrites at the root or not at all. */
  lemma {:induction false} VisitedIsRewritten(v: Visitor, e: Expr)
    ensures Rewritten(e, Visited(v, e))
  {
    if v.Dominate? && (e.Invoke? || e.Jump?) {
      FirstJumpIsOne([e.target] + e.args, e);
    }
    hide Congruent;
  }

  /** A bottom-up pass is a number of rounds. */
  lemma {:induction false} VisitIsRounds(v: Visitor, e: Expr)
    ensures Rounds(Height(e), e, Visit(v, e))
    decreases e, 1
  {
    hide Rewritten, Visited;
    match e
    case If(c, t, f) =>
      var n := Height(c) + Height(t) + Height(f);
      VisitIsRounds(v, c);
      VisitIsRounds(v, t);
      VisitIsRounds(v, f);
      MoreRounds(Height(c), n, c, Visit(v, c));
      MoreRounds(Height(t), n, t, Visit(v, t));
      MoreRounds(Height(f), n, f, Visit(v, f));
      hide Rounds, Height, Visit;
      var mid := If(Visit(v, c), Visit(v, t), Visit(v, f));
      RoundsOfIf(n, e, mid);
      VisitEnds(v, n, e, mid);
    case Function(_, _, _) => BodyIsRounds(v, e);
    case Continuation(_, _, _, _) => BodyIsRounds(v, e);
    case With(_, _, _, _) => BodyIsRounds(v, e);
    case Constrain(_) => BodyIsRounds(v, e);
    case Storage(b, args) =>
      VisitAllIsRounds(v, args, HeightAll(args));
      RoundsOfArgs(HeightAll(args), e, Storage(b, VisitAll(v, args)));
      VisitEnds(v, HeightAll(args), e, Storage(b, VisitAll(v, args)));
    case Jump(target, args, temp) => OperandsAreRounds(v, e, Jump(Visit(v, target), VisitAll(v, args), temp));
    case Invoke(target, args, temp) => OperandsAreRounds(v, e, Invoke(Visit(v, target), VisitAll(v, args), temp));
    case _ =>
      assert Rounds(0, e, e);
      VisitEnds(v, 0, e, e);
  }

  lemma {:induction false} BodyIsRounds(v: Visitor, e: Expr)
    requires e.Function? || e.Continuation? || e.With? || e.Constrain?
    ensures Rounds(Height(e), e, Visit(v, e))
    decreases e, 0
  {
    var n, mid := Height(e.body), e.(body := Visit(v, e.body));
    VisitIsRounds(v, e.body);
    hide Rewritten, Rounds, Visited;
    RoundsOfBody(n, e, Visit(v, e.body));
    VisitEnds(v, n, e, mid);
  }

  lemma {:induction false} OperandsAreRounds(v: Visitor, e: Expr, mid: Expr)
    requires (e.Jump? && mid == Jump(Visit(v, e.target), VisitAll(v, e.args), e.temp)) || (e.Invoke? && mid == Invoke(Visit(v, e.target), VisitAll(v, e.args), e.temp))
    ensures Rounds(Height(e), e, Visited(v, mid))
    decreases e, 0
  {
    var n := Height(e.target) + HeightAll(e.args);
    VisitIsRounds(v, e.target);
    MoreRounds(Height(e.target), n, e.target, Visit(v, e.target));
    VisitAllIsRounds(v, e.args, n);
    hide Rewritten, Rounds, RoundsAll, Visit, VisitAll, Visited;
    RoundsOfOperands(n, e, mid);
    VisitEnds(v, n, e, mid);
  }

  lemma {:induction false} VisitEnds(v: Visitor, n: nat, e: Expr, mid: Expr)
    requires Rounds(n, e, mid)
    ensures Rounds(n + 1, e, Visited(v, mid))
  {
    VisitedIsRewritten(v, mid);
    LastRound(n, e, mid, Visited(v, mid));
  }

  lemma {:induction false} VisitAllIsRounds(v: Visitor, es: seq<Expr>, n: nat)
    requires HeightAll(es) <= n
    ensures RoundsAll(n, es, VisitAll(v, es))
    decreases es, 0
  {
    if es != [] {
      VisitIsRounds(v, es[0]);
      MoreRounds(Height(es[0]), n, es[0], Visit(v, es[0]));
      VisitAllIsRounds(v, es[1..], n);
      hide Rounds, Visit, Height;
    }
  }

  function Pass(v: Visitor, P: Program): Program {
    map b | b in P :: Fn(P[b].params, Visit(v, P[b].body))
  }

  ghost predicate ProgramRounds(n: nat, P: Program, P': Program) {
    P.Keys == P'.Keys && forall b :: b in P ==> P'[b].params == P[b].params && Rounds(n, P[b].body, P'[b].body)
  }

  lemma {:induction false} RoundsRefine(n: nat, P: Program, P': Program, main: Expr, main': Expr)
    requires ProgramRounds(n, P, P') && Rounds(n, main, main')
    ensures Refines(P', main', P, main)
  {
    hide Rewritten, Behaves, Refines, Rounds, ProgramsAlike;
    if n == 0 {
      NoRounds(P, P', main, main');
    } else {
      var Q := MidProgram(n, P, P');
      var mid := Mid(n, main, main');
      RewriteRefines(P, Q, main, mid);
      RoundsRefine(n - 1, Q, P', mid, main');
      RefinesThen(P', main', Q, mid, P, main);
    }
  }

  lemma {:induction false} NoRounds(P: Program, P': Program, main: Expr, main': Expr)
    requires ProgramRounds(0, P, P') && Rounds(0, main, main')
    ensures Refines(P', main', P, main)
  {
    hide Behaves;
    assert P == P' by {
      assert forall b :: b in P ==> P[b] == P'[b];
    }
  }

  lemma {:induction false} MidProgram(n: nat, P: Program, P': Program) returns (Q: Program)
    requires n > 0 && ProgramRounds(n, P, P')
    ensures ProgramsAlike(P, Q) && ProgramRounds(n - 1, Q, P')
  {
    hide Rewritten, Rounds;
    Q := map b | b in P :: Fn(P[b].params, Mid(n, P[b].body, P'[b].body));
  }

  lemma {:induction false} CommonHeight(P: Program, bs: set<nat>, h: nat) returns (n: nat)
    requires bs <= P.Keys
    ensures h <= n && forall b :: b in bs ==> Height(P[b].body) <= n
    decreases |bs|
  {
    n := h;
    if bs != {} {
      var b :| b in bs;
      var m := CommonHeight(P, bs - {b}, h);
      n := m + Height(P[b].body);
    }
  }

  /** A pass over a whole program gives a program whose behaviours are among the original's. */
  lemma {:induction false} PassRefines(v: Visitor, P: Program, main: Expr)
    ensures Refines(Pass(v, P), Visit(v, main), P, main)
  {
    var n := CommonHeight(P, P.Keys, Height(main));
    hide Rounds, Height, Visit, Refines;
    VisitIsRounds(v, main);
    MoreRounds(Height(main), n, main, Visit(v, main));
    forall b | b in P ensures Rounds(n, P[b].body, Visit(v, P[b].body)) {
      VisitIsRounds(v, P[b].body);
      MoreRounds(Height(P[b].body), n, P[b].body, Visit(v, P[b].body));
    }
    RoundsRefine(n, P, Pass(v, P), main, Visit(v, main));
  }

  /** The three passes in the order in which the compiler runs them. */
  lemma {:induction false} PassesRefine(P: Program, main: Expr)
    ensures Refines(
      Pass(Dominate, Pass(Swap, Pass(Eliminate, P))), Visit(Dominate, Visit(Swap, Visit(Eliminate, main))), P, main)
  {
    hide *;
    var P1, m1 := Pass(Eliminate, P), Visit(Eliminate, main);
    var P2, m2 := Pass(Swap, P1), Visit(Swap, m1);
    PassRefines(Eliminate, P, main);
    PassRefines(Swap, P1, m1);
    PassRefines(Dominate, P2, m2);
    RefinesThen(P2, m2, P1, m1, P, main);
    RefinesThen(Pass(Dominate, P2), Visit(Dominate, m2), P2, m2, P, main);
  }

  // ----- passes leave nothing to do -----

  predicate Fires(v: Visitor, e: Expr) {
    match v
    case Eliminate => e.Constrain?
    case Swap => e.If? && Decides(e.condition)
    case Dominate => (e.If? && e.condition.Jump?) || ((e.Invoke? || e.Jump?) && exists j :: j in [e.target] + e.args && j.Jump?)
  }

  /** The visitor would change nothing in e. */
  predicate Settled(v: Visitor, e: Expr)
    decreases e, 1
  {
    !Fires(v, e) &&
    match e
    case If(c, t, f) => Settled(v, c) && Settled(v, t) && Settled(v, f)
    case Function(_, _, body) => Settled(v, body)
    case Continuation(_, _, body, _) => Settled(v, body)
    case With(_, _, body, _) => Settled(v, body)
    case Constrain(body) => Settled(v, body)
    case Storage(_, args) => SettledAll(v, args)
    case Jump(target, args, _) => Settled(v, target) && SettledAll(v, args)
    case Invoke(target, args, _) => Settled(v, target) && SettledAll(v, args)
    case _ => true
  }

  predicate SettledAll(v: Visitor, es: seq<Expr>)
    decreases es, 0
  {
    es == [] || (Settled(v, es[0]) && SettledAll(v, es[1..]))
  }

  lemma {:induction false} FirstJumpSettled(v: Visitor, es: seq<Expr>, otherwise: Expr)
    requires SettledAll(v, es)
    ensures (exists j :: j in es && j.Jump?) ==> Settled(v, FirstJump(es, otherwise))
    ensures !(exists j :: j in es && j.Jump?) ==> FirstJump(es, otherwise) == otherwise
  {
    if es != [] {
      FirstJumpSettled(v, es[1..], otherwise);
      if es[0].Jump? {
        assert es[0] in es;
      }
    }
  }

  lemma {:induction false} OperandsSettle(v: Visitor, e: Expr)
    requires (e.Jump? || e.Invoke?) && Settled(v, e.target) && SettledAll(v, e.args)
    ensures Settled(v, Visited(v, e))
  {
    assert ([e.target] + e.args)[1..] == e.args;
    FirstJumpSettled(v, [e.target] + e.args, e);
  }

  lemma {:induction false} IfSettles(v: Visitor, e: Expr)
    requires e.If? && Settled(v, e.condition) && Settled(v, e.consequent) && Settled(v, e.alternate)
    ensures Settled(v, Visited(v, e))
  {}

  lemma {:induction false} VisitSettles(v: Visitor, e: Expr)
    ensures Settled(v, Visit(v, e))
    decreases e, 1
  {
    match e
    case If(c, t, f) =>
      VisitSettles(v, c);
      VisitSettles(v, t);
      VisitSettles(v, f);
      IfSettles(v, If(Visit(v, c), Visit(v, t), Visit(v, f)));
    case Function(_, _, body) => VisitSettles(v, body);
    case Continuation(_, _, body, _) => VisitSettles(v, body);
    case With(_, _, body, _) => VisitSettles(v, body);
    case Constrain(body) => VisitSettles(v, body);
    case Storage(_, args) => VisitAllSettles(v, args);
    case Jump(target, args, temp) =>
      VisitSettles(v, target);
      VisitAllSettles(v, args);
      OperandsSettle(v, Jump(Visit(v, target), VisitAll(v, args), temp));
    case Invoke(target, args, temp) =>
      VisitSettles(v, target);
      VisitAllSettles(v, args);
      OperandsSettle(v, Invoke(Visit(v, target), VisitAll(v, args), temp));
    case _ =>
  }

  lemma {:induction false} VisitAllSettles(v: Visitor, es: seq<Expr>)
    ensures SettledAll(v, VisitAll(v, es))
    decreases es, 0
  {
    if es != [] {
      VisitSettles(v, es[0]);
      VisitAllSettles(v, es[1..]);
      assert VisitAll(v, es)[1..] == VisitAll(v, es[1..]);
    }
  }

  lemma {:induction false} SettledStays(v: Visitor, e: Expr)
    requires Settled(v, e)
    ensures Visit(v, e) == e
    decreases e, 1
  {
    match e
    case If(c, t, f) =>
      SettledStays(v, c);
      SettledStays(v, t);
      SettledStays(v, f);
    case Function(_, _, body) => SettledStays(v, body);
    case Continuation(_, _, body, _) => SettledStays(v, body);
    case With(_, _, body, _) => SettledStays(v, body);
    case Constrain(body) => SettledStays(v, body);
    case Storage(_, args) => SettledAllStays(v, args);
    case Jump(target, args, _) =>
      SettledStays(v, target);
      SettledAllStays(v, args);
      OperandsStay(v, e);
    case Invoke(target, args, _) =>
      SettledStays(v, target);
      SettledAllStays(v, args);
      OperandsStay(v, e);
    case _ =>
  }

  lemma {:induction false} OperandsStay(v: Visitor, e: Expr)
    requires (e.Jump? || e.Invoke?) && Settled(v, e)
    ensures Visited(v, e) == e
  {
    assert ([e.target] + e.args)[1..] == e.args;
    FirstJumpSettled(v, [e.target] + e.args, e);
  }

  lemma {:induction false} SettledAllStays(v: Visitor, es: seq<Expr>)
    requires SettledAll(v, es)
    ensures VisitAll(v, es) == es
    decreases es, 0
  {
    if es != [] {
      SettledStays(v, es[0]);
      SettledAllStays(v, es[1..]);
    }
  }

  /** One pass finds every opportunity: a second one changes nothing. */
  lemma {:induction false} VisitTwice(v: Visitor, e: Expr)
    ensures Visit(v, Visit(v, e)) == Visit(v, e)
  {
    VisitSettles(v, e);
    SettledStays(v, Visit(v, e));
  }
}
