/** The emitted code of a jump-free expression computes its value. */
module Codegen {
  import opened Common
  import opened Syntax
  import opened Machine
  import opened Generator
  import opened Semantics
  import opened Execution

  // ----- what is known about the program -----

  /** Jump-free, with the places that analysis and layout give such expressions. */
  ghost predicate Compilable(e: Expr, env: Env)
    decreases e
  {
    match e
    case Literal(_) => true
    case Symbol(b) => b in env.parameters || env.PlaceOf(b).FrameRelative? || env.PlaceOf(b).Absolute?
    case Storage(b, args) =>
      (env.PlaceOf(b).FrameRelative? || env.PlaceOf(b).Absolute?) &&
      forall i :: 0 <= i < |args| ==> Compilable(args[i], env)
    case If(c, t, f) => Compilable(c, env) && Compilable(t, env) && Compilable(f, env)
    case Function(b, _, _) => env.PlaceOf(b).Absolute?
    case Invoke(target, args, temp) =>
      && env.PlaceOf(temp) == TopRelative(0)
      && BufferFlag(target, args) != CONTAINS_WITH
      && Compilable(target, env) && forall i :: 0 <= i < |args| ==> Compilable(args[i], env)
    case Constrain(body) => Compilable(body, env)
    case _ => false
  }

  /** Every label's binding is linked to the address of the label. */
  ghost predicate Linked(M: Mach) {
    && 0 <= M.base && M.base + |M.code| < MODULUS
    && forall i :: 0 <= i < |M.code| && M.code[i].Label? ==>
         M.code[i].name in M.link && M.link[M.code[i].name] == M.base + i
  }

  function FunctionBody(g: Expr, env: Env, lab: nat): seq<Instr>
    requires g.Function?
  {
    [Label(g.bndg)] + ENTER_FUNCTION + [SubqImmToReg(env.FrameSize(g.bndg), RSP)] + Code(g.body, env, lab + 1) + LEAVE_FUNCTION
  }

  ghost predicate ParameterPlaces(env: Env, params: seq<nat>) {
    forall k :: 0 <= k < |params| ==> env.PlaceOf(params[k]) == FrameRelative(2 * WORD_SIZE + k * WORD_SIZE)
  }

  ghost predicate FunctionAt(M: Mach, env: Env, a: int, g: Expr) {
    && g.Function? && M.Inside(a) && Compilable(g.body, env) && ParameterPlaces(env, g.params)
    && env.FrameSize(g.bndg) >= 0 && Aligned(env.FrameSize(g.bndg))
    && exists lab: nat :: Placed(M.code, a - M.base, FunctionBody(g, env, lab))
  }

  // ----- calling convention: section 3.2.3 of the System V AMD64 ABI -----

  function StackArgs(n: nat): nat { if n > 6 then WORD_SIZE * (n - 6) else 0 }

  ghost predicate ArgsReady(s: State, vs: seq<int>) {
    && (forall k :: 0 <= k < 6 && k < |vs| ==> s.regs[ARGUMENT_REGISTERS[k]] == vs[k])
    && (forall k :: 6 <= k < |vs| ==> Read(s.mem, s.regs[RSP] + WORD_SIZE * (k - 6)) == vs[k])
  }

  ghost predicate Agree(mem: Mem, m: Mem) {
    forall a :: a in m ==> Read(mem, a) == m[a]
  }

  /** Memory from `low` up is unchanged, except where programs can name it. */
  ghost predicate Kept(mem: Mem, mem': Mem, low: int, m: Mem) {
    forall a :: a >= low && a !in m ==> Read(mem', a) == Read(mem, a)
  }

  ghost predicate Free(m: Mem, low: int, high: int) {
    forall a :: a in m ==> !(low <= a < high)
  }

  ghost predicate SameSaved(r: Regs, r': Regs) {
    r'[RBX] == r[RBX] && r'[RBP] == r[RBP] && r'[R12] == r[R12] && r'[R13] == r[R13] && r'[R14] == r[R14] && r'[R15] == r[R15]
  }

  /** A call from s, with n arguments, came back in t with value v and memory m. */
  ghost predicate Returned(s: State, t: State, n: nat, v: int, m: Mem) {
    && t.regs[RAX] == v && t.regs[RSP] == s.regs[RSP] && SameSaved(s.regs, t.regs)
    && Agree(t.mem, m) && Kept(s.mem, t.mem, s.regs[RSP] + StackArgs(n), m)
  }

  /** Code outside the program follows the calling convention. */
  ghost predicate OutsideFollows(M: Mach, W: World) {
    forall f, vs, m, s: State ::
      !M.Inside(f) && W.outside(f, vs, m).Some? && W.outside(f, vs, m).value.1.Keys == m.Keys &&
      ArgsReady(s, vs) && Agree(s.mem, m) ==>
      Returned(s, M.ext(f, s), |vs|, W.outside(f, vs, m).value.0, W.outside(f, vs, m).value.1)
  }

  ghost predicate Matches(M: Mach, W: World) {
    && M.link == W.link && Linked(M) && 0 <= W.limit
    && (forall a :: W.inside(a) == M.Inside(a))
    && (forall a :: a in W.funs ==> FunctionAt(M, W.env, a, W.funs[a]))
    && OutsideFollows(M, W)
  }

  // ----- the machine state of an activation -----

  ghost predicate ParametersOk(env: Env, c: Ctx, m: Mem, mem: Mem) {
    && |c.params| == |c.args| && ParameterPlaces(env, c.params)
    && forall k :: 0 <= k < |c.args| ==>
         c.frame + 2 * WORD_SIZE + k * WORD_SIZE !in m && Read(mem, c.frame + 2 * WORD_SIZE + k * WORD_SIZE) == c.args[k]
  }

  ghost predicate InFrame(W: World, c: Ctx, sp: int, m: Mem, s: State) {
    && s.regs[RSP] == sp && s.regs[RBP] == c.frame
    && 0 <= W.limit <= sp <= c.frame - c.size && c.size >= 0 && Word(sp) && Word(c.frame)
    && c.frame + 2 * WORD_SIZE + |c.args| * WORD_SIZE < MODULUS
    && Free(m, W.limit, sp) && Agree(s.mem, m) && ParametersOk(W.env, c, m, s.mem)
  }

  /** New memory that programs can name lies in the activation's frame. */
  ghost predicate Grows(c: Ctx, m: Mem, m': Mem) {
    && (forall a :: a in m ==> a in m')
    && (forall a :: a in m' && a !in m ==> c.Owns(a))
  }

  /** From s to t the expression's code ran to its end, leaving v in RAX. */
  ghost predicate Finished(c: Ctx, sp: int, s: State, t: State, pc: int, v: int, m: Mem, m': Mem) {
    && t.pc == pc && t.regs[RAX] == v && t.regs[RSP] == sp && SameSaved(s.regs, t.regs)
    && Agree(t.mem, m') && Kept(s.mem, t.mem, sp, m') && Grows(c, m, m')
  }

  lemma {:induction false} StillInFrame(W: World, c: Ctx, sp: int, m: Mem, s: State, t: State, m': Mem)
    requires InFrame(W, c, sp, m, s) && Agree(t.mem, m') && Kept(s.mem, t.mem, sp, m') && Grows(c, m, m')
    requires t.regs[RSP] == sp && SameSaved(s.regs, t.regs)
    ensures InFrame(W, c, sp, m', t)
  {
    assert ParametersOk(W.env, c, m', t.mem) by {
      forall k | 0 <= k < |c.args|
        ensures c.frame + 2 * WORD_SIZE + k * WORD_SIZE !in m' && Read(t.mem, c.frame + 2 * WORD_SIZE + k * WORD_SIZE) == c.args[k]
      {
        assert !c.Owns(c.frame + 2 * WORD_SIZE + k * WORD_SIZE);
      }
    }
  }

  /** A deeper stack pointer is as good, as long as the room below it is. */
  lemma {:induction false} Deeper(W: World, c: Ctx, sp: int, m: Mem, s: State, t: State, n: nat)
    requires InFrame(W, c, sp, m, s) && W.limit <= sp - WORD_SIZE * n
    requires t.mem == s.mem && t.regs[RSP] == sp - WORD_SIZE * n && t.regs[RBP] == s.regs[RBP]
    ensures InFrame(W, c, sp - WORD_SIZE * n, m, t)
  {}

  lemma {:induction false} FinishedThen(c: Ctx, sp: int, s: State, t: State, t': State, u: State, pc: int, pc': int, v: int, w: int, m: Mem, m1: Mem, m2: Mem)
    requires Finished(c, sp, s, t, pc, v, m, m1)
    requires t'.mem == t.mem && t'.regs == t.regs
    requires Finished(c, sp, t', u, pc', w, m1, m2)
    ensures Finished(c, sp, s, u, pc', w, m, m2)
  {}

  lemma {:induction false} LabelTarget(M: Mach, p: int, b: nat)
    requires Linked(M) && 0 <= p < |M.code| && M.code[p] == Label(b)
    ensures b in M.link && M.link[b] == M.base + p && M.Inside(M.link[b])
  {}

  // ----- addresses, loads and stores -----

  lemma {:induction false} WrapAdd(x: int, y: int)
    requires 0 <= Wrap(x) + y < MODULUS
    ensures Wrap(x + y) == Wrap(x) + y
  {
    var q := x / MODULUS;
    assert x + y == MODULUS * q + (Wrap(x) + y);
  }

  lemma {:induction false} AddressOk(M: Mach, W: World, c: Ctx, s0: State, s: State, b: nat) returns (t: State)
    requires Goes(M, s0, s) && Placed(M.code, s.pc, AddressCode(W.env.PlaceOf(b), b, RAX))
    requires M.link == W.link && s.regs[RBP] == c.frame && AddressOf(W, c, b).Some?
    ensures Goes(M, s0, t)
    ensures t == s.(pc := s.pc + |AddressCode(W.env.PlaceOf(b), b, RAX)|, regs := s.regs[RAX := AddressOf(W, c, b).value])
  {
    hide Goes, Step;
    PlacedAt(M.code, s.pc, AddressCode(W.env.PlaceOf(b), b, RAX), 0);
    match W.env.PlaceOf(b)
    case FrameRelative(o) => t := StepLea(M, s0, s, o, RBP, RAX);
    case Absolute => t := StepRef(M, s0, s, b, 0, RAX);
  }

  ghost predicate OnlyScratch(r: Regs, r': Regs, scratch: nat) {
    forall i :: 0 <= i < 16 && i != scratch ==> r'[i] == r[i]
  }

  /** Storing RAX into the i-th word of a frame or static binding. */
  lemma {:induction false} StoreOk(M: Mach, W: World, c: Ctx, s0: State, s: State, b: nat, i: nat, a: int) returns (t: State)
    requires Goes(M, s0, s) && Placed(M.code, s.pc, StoreCode(RAX, W.env.PlaceOf(b), b, i * WORD_SIZE, R11))
    requires M.link == W.link && s.regs[RBP] == c.frame && AddressOf(W, c, b) == Some(a)
    requires Aligned(a + i * WORD_SIZE) && 0 <= a + i * WORD_SIZE < MODULUS
    ensures Goes(M, s0, t) && t.pc == s.pc + |StoreCode(RAX, W.env.PlaceOf(b), b, i * WORD_SIZE, R11)|
    ensures t.mem == s.mem[a + i * WORD_SIZE := s.regs[RAX]] && OnlyScratch(s.regs, t.regs, R11)
  {
    hide Goes, Step, Wrap, Aligned;
    var code := StoreCode(RAX, W.env.PlaceOf(b), b, i * WORD_SIZE, R11);
    PlacedAt(M.code, s.pc, code, 0);
    match W.env.PlaceOf(b)
    case FrameRelative(o) =>
      WrapAdd(c.frame + o, i * WORD_SIZE);
      assert c.frame + (o + i * WORD_SIZE) == c.frame + o + i * WORD_SIZE;
      t := StepStore(M, s0, s, RAX, o + i * WORD_SIZE, RBP);
    case Absolute =>
      WrapAdd(W.link[b], i * WORD_SIZE);
      WrapSmall(a + i * WORD_SIZE);
      PlacedAt(M.code, s.pc, code, 1);
      var u := StepRef(M, s0, s, b, i * WORD_SIZE, R11);
      assert u.regs[R11] + 0 == a + i * WORD_SIZE;
      t := StepStore(M, s0, u, RAX, 0, R11);
  }

  lemma {:induction false} WrapSmall(x: int)
    requires 0 <= x < MODULUS
    ensures Wrap(x) == x
  {}

  /** Storing RAX into the i-th word of an argument buffer at the top of the stack. */
  lemma {:induction false} BufferOk(M: Mach, s0: State, s: State, b: nat, i: nat) returns (t: State)
    requires Goes(M, s0, s) && Placed(M.code, s.pc, StoreCode(RAX, TopRelative(0), b, i * WORD_SIZE, R10))
    requires Word(s.regs[RSP]) && s.regs[RSP] + i * WORD_SIZE < MODULUS
    ensures Goes(M, s0, t)
    ensures t == s.(pc := s.pc + 1, mem := s.mem[s.regs[RSP] + i * WORD_SIZE := s.regs[RAX]])
    ensures |StoreCode(RAX, TopRelative(0), b, i * WORD_SIZE, R10)| == 1
  {
    PlacedAt(M.code, s.pc, StoreCode(RAX, TopRelative(0), b, i * WORD_SIZE, R10), 0);
    WrapSmall(s.regs[RSP] + i * WORD_SIZE);
    t := StepStore(M, s0, s, RAX, i * WORD_SIZE, RSP);
  }

  // ----- expressions without parts -----

  lemma {:induction false} FinishedAtOnce(c: Ctx, sp: int, m: Mem, W: World, s: State, t: State, v: int)
    requires InFrame(W, c, sp, m, s)
    requires t.mem == s.mem && t.regs == s.regs[RAX := v]
    ensures Finished(c, sp, s, t, t.pc, v, m, m)
  {}

  lemma {:induction false} SymbolOk(M: Mach, W: World, fuel: nat, e: Expr, c: Ctx, sp: int, m: Mem, lab: nat, s: State, r: (int, Mem)) returns (t: State)
    requires Matches(M, W) && InFrame(W, c, sp, m, s) && Compilable(e, W.env) && e.Symbol?
    requires Placed(M.code, s.pc, Code(e, W.env, lab)) && Eval(W, fuel, e, c, sp, m) == Some(r)
    ensures Goes(M, s, t)
    ensures Finished(c, sp, s, t, s.pc + |Code(e, W.env, lab)|, r.0, m, r.1)
  {
    hide Goes, Step, Finished, FunctionAt, OutsideFollows, Free, Agree;
    var b := e.bndg;
    GoesNowhere(M, s);
    if b in W.env.parameters {
      var k := Position(c.params, b);
      assert W.env.PlaceOf(c.params[k]) == FrameRelative(2 * WORD_SIZE + k * WORD_SIZE);
      var a := c.frame + 2 * WORD_SIZE + k * WORD_SIZE;
      assert Read(s.mem, a) == c.args[k];
      WrapSmall(a);
      PlacedAt(M.code, s.pc, Code(e, W.env, lab), 0);
      assert c.frame + (2 * WORD_SIZE + k * WORD_SIZE + 0) == a;
      t := StepLoad(M, s, s, 2 * WORD_SIZE + k * WORD_SIZE + 0, RBP, RAX);
    } else {
      t := AddressOk(M, W, c, s, s, b);
    }
    FinishedAtOnce(c, sp, m, W, s, t, r.0);
  }

  lemma {:induction false} LiteralOk(M: Mach, W: World, fuel: nat, e: Expr, c: Ctx, sp: int, m: Mem, lab: nat, s: State) returns (t: State)
    requires InFrame(W, c, sp, m, s) && e.Literal? && Placed(M.code, s.pc, Code(e, W.env, lab))
    ensures Goes(M, s, t) && Finished(c, sp, s, t, s.pc + |Code(e, W.env, lab)|, Wrap(e.value), m, m)
  {
    hide Goes, Step, Finished;
    GoesNowhere(M, s);
    PlacedAt(M.code, s.pc, Code(e, W.env, lab), 0);
    t := StepLiteral(M, s, s, e.value, RAX);
    FinishedAtOnce(c, sp, m, W, s, t, Wrap(e.value));
  }

  /** A function expression gives its address and skips over its body. */
  lemma {:induction false} FunctionOk(M: Mach, W: World, fuel: nat, e: Expr, c: Ctx, sp: int, m: Mem, lab: nat, s: State, r: (int, Mem)) returns (t: State)
    requires Matches(M, W) && InFrame(W, c, sp, m, s) && Compilable(e, W.env) && e.Function?
    requires Placed(M.code, s.pc, Code(e, W.env, lab)) && Eval(W, fuel, e, c, sp, m) == Some(r)
    ensures Goes(M, s, t)
    ensures Finished(c, sp, s, t, s.pc + |Code(e, W.env, lab)|, r.0, m, r.1)
  {
    hide Goes, Step, Finished, FunctionAt, OutsideFollows, Free, Agree, ParametersOk;
    var b := e.bndg;
    var head := AddressCode(W.env.PlaceOf(b), b, RAX);
    var skip := [JmpRel(lab), Label(b)] + ENTER_FUNCTION + [SubqImmToReg(W.env.FrameSize(b), RSP)] + Code(e.body, W.env, lab + 1) + LEAVE_FUNCTION;
    var all := Code(e, W.env, lab);
    assert all == head + (skip + [Label(lab)]);
    PlacedSplit(M.code, s.pc, head, skip + [Label(lab)]);
    PlacedAt(M.code, s.pc, all, |all| - 1);
    PlacedAt(M.code, s.pc + |head|, skip + [Label(lab)], 0);
    LabelTarget(M, s.pc + |all| - 1, lab);
    GoesNowhere(M, s);
    t := AddressOk(M, W, c, s, s, b);
    t := StepJump(M, s, t, lab);
    t := StepLabel(M, s, t, lab);
    FinishedAtOnce(c, sp, m, W, s, t, r.0);
  }

  // ----- entering and leaving a function -----

  /** The ten instructions of ENTER_FUNCTION, from the return address on top of the stack to the
      frame pointer; sp is the stack pointer before the call pushed the return address. */
  ghost function EnteredMem(mem: Mem, regs: Regs, sp: int, ret: int): Mem {
    mem[sp - 8 := regs[R9]][sp - 16 := regs[R8]][sp - 24 := regs[RCX]][sp - 32 := regs[RDX]]
       [sp - 40 := regs[RSI]][sp - 48 := regs[RDI]][sp - 56 := ret][sp - 64 := regs[RBP]]
  }

  lemma {:induction false} EnterStart(M: Mach, s0: State, s: State, sp: int) returns (t: State)
    requires Goes(M, s0, s) && Placed(M.code, s.pc, ENTER_FUNCTION)
    requires s.regs[RSP] == sp - 8 && Word(sp) && FRAME_OVERHEAD <= sp < MODULUS
    ensures Goes(M, s0, t) && t.pc == s.pc + 3
    ensures t.regs == s.regs[RSP := sp - 16][R11 := Read(s.mem, sp - 8)]
    ensures t.mem == s.mem[sp - 8 := s.regs[R9]][sp - 16 := s.regs[R8]]
  {
    hide Goes, Step;
    PlacedAt(M.code, s.pc, ENTER_FUNCTION, 0);
    PlacedAt(M.code, s.pc, ENTER_FUNCTION, 1);
    PlacedAt(M.code, s.pc, ENTER_FUNCTION, 2);
    hide Placed;
    t := StepPop(M, s0, s, R11);
    t := StepPush(M, s0, t, R9);
    t := StepPush(M, s0, t, R8);
  }

  lemma {:induction false} EnterHalf(M: Mach, s0: State, s: State, sp: int) returns (t: State)
    requires Goes(M, s0, s) && Placed(M.code, s.pc, ENTER_FUNCTION)
    requires s.regs[RSP] == sp - 8 && Word(sp) && FRAME_OVERHEAD <= sp < MODULUS
    ensures Goes(M, s0, t) && t.pc == s.pc + 5
    ensures t.regs == s.regs[RSP := sp - 32][R11 := Read(s.mem, sp - 8)]
    ensures t.mem == s.mem[sp - 8 := s.regs[R9]][sp - 16 := s.regs[R8]][sp - 24 := s.regs[RCX]][sp - 32 := s.regs[RDX]]
  {
    hide Goes, Step;
    t := EnterStart(M, s0, s, sp);
    PlacedAt(M.code, s.pc, ENTER_FUNCTION, 3);
    PlacedAt(M.code, s.pc, ENTER_FUNCTION, 4);
    hide Placed;
    t := StepPush(M, s0, t, RCX);
    t := StepPush(M, s0, t, RDX);
  }

  lemma {:induction false} EnterRest(M: Mach, s0: State, s: State, p: int, sp: int) returns (t: State)
    requires Goes(M, s0, s) && Placed(M.code, p, ENTER_FUNCTION) && s.pc == p + 5
    requires s.regs[RSP] == sp - 32 && Word(sp) && FRAME_OVERHEAD <= sp < MODULUS
    ensures Goes(M, s0, t) && t.pc == p + |ENTER_FUNCTION|
    ensures t.regs == s.regs[RSP := sp - 64][RBP := sp - 64]
    ensures t.mem == s.mem[sp - 40 := s.regs[RSI]][sp - 48 := s.regs[RDI]][sp - 56 := s.regs[R11]][sp - 64 := s.regs[RBP]]
  {
    hide Goes, Step;
    PlacedAt(M.code, p, ENTER_FUNCTION, 5);
    PlacedAt(M.code, p, ENTER_FUNCTION, 6);
    PlacedAt(M.code, p, ENTER_FUNCTION, 7);
    PlacedAt(M.code, p, ENTER_FUNCTION, 8);
    PlacedAt(M.code, p, ENTER_FUNCTION, 9);
    hide Placed;
    t := StepPush(M, s0, s, RSI);
    t := StepPush(M, s0, t, RDI);
    t := StepPush(M, s0, t, R11);
    t := StepPush(M, s0, t, RBP);
    t := StepMove(M, s0, t, RSP, RBP);
  }

  lemma {:induction false} EnterFunction(M: Mach, s0: State, s: State, sp: int) returns (t: State)
    requires Goes(M, s0, s) && Placed(M.code, s.pc, ENTER_FUNCTION)
    requires s.regs[RSP] == sp - 8 && Word(sp) && FRAME_OVERHEAD <= sp < MODULUS
    ensures Goes(M, s0, t) && t.pc == s.pc + |ENTER_FUNCTION|
    ensures t.regs == s.regs[RSP := sp - 64][R11 := Read(s.mem, sp - 8)][RBP := sp - 64]
    ensures t.mem == EnteredMem(s.mem, s.regs, sp, Read(s.mem, sp - 8))
  {
    hide Goes, Placed;
    var u := EnterHalf(M, s0, s, sp);
    t := EnterRest(M, s0, u, s.pc, sp);
  }

  lemma {:induction false} EnteredReads(mem: Mem, regs: Regs, sp: int, ret: int, vs: seq<int>)
    ensures var mem' := EnteredMem(mem, regs, sp, ret);
      && Read(mem', sp - 64) == regs[RBP] && Read(mem', sp - 56) == ret
      && (forall k :: 0 <= k < 6 ==> Read(mem', sp - 64 + 2 * WORD_SIZE + k * WORD_SIZE) == regs[ARGUMENT_REGISTERS[k]])
      && (forall a :: a >= sp || a < sp - 64 ==> Read(mem', a) == Read(mem, a))
  {
    var mem' := EnteredMem(mem, regs, sp, ret);
    assert Read(mem', sp - 48) == regs[RDI] && Read(mem', sp - 40) == regs[RSI] && Read(mem', sp - 32) == regs[RDX];
    assert Read(mem', sp - 24) == regs[RCX] && Read(mem', sp - 16) == regs[R8] && Read(mem', sp - 8) == regs[R9];
    forall k | 0 <= k < 6 ensures Read(mem', sp - 64 + 2 * WORD_SIZE + k * WORD_SIZE) == regs[ARGUMENT_REGISTERS[k]] {
      if k == 0 {} else if k == 1 {} else if k == 2 {} else if k == 3 {} else if k == 4 {} else {}
    }
  }

  lemma {:induction false} LeaveFunction(M: Mach, s0: State, s: State, sp: int, rbp: int, ret: int) returns (t: State)
    requires Goes(M, s0, s) && Placed(M.code, s.pc, LEAVE_FUNCTION)
    requires s.regs[RBP] == sp - 64 && Word(sp) && FRAME_OVERHEAD <= sp && sp + WORD_SIZE < MODULUS
    requires Read(s.mem, sp - 64) == rbp && Read(s.mem, sp - 56) == ret && M.Inside(ret)
    ensures Goes(M, s0, t) && t.pc == ret - M.base
    ensures t.regs == s.regs[RSP := sp][RBP := rbp][R11 := ret] && t.mem == s.mem[sp - 8 := ret]
  {
    hide Goes, Step;
    PlacedAt(M.code, s.pc, LEAVE_FUNCTION, 0);
    PlacedAt(M.code, s.pc, LEAVE_FUNCTION, 1);
    PlacedAt(M.code, s.pc, LEAVE_FUNCTION, 2);
    PlacedAt(M.code, s.pc, LEAVE_FUNCTION, 3);
    PlacedAt(M.code, s.pc, LEAVE_FUNCTION, 4);
    hide Placed;
    t := StepLeave(M, s0, s);
    t := StepPop(M, s0, t, R11);
    t := StepAdd(M, s0, t, 6 * WORD_SIZE, RSP);
    t := StepPush(M, s0, t, R11);
    assert Read(t.mem, sp - 8) == ret;
    t := StepRet(M, s0, t);
    assert t.regs == s.regs[RSP := sp][RBP := rbp][R11 := ret];
  }

  // ----- a call of one of the program's functions -----

  /** The stack pointer and memory at a call with n arguments. */
  ghost predicate CallState(W: World, m: Mem, s: State, n: nat) {
    && Word(s.regs[RSP]) && s.regs[RSP] + StackArgs(n) + WORD_SIZE < MODULUS
    && Free(m, W.limit, s.regs[RSP] + StackArgs(n)) && Agree(s.mem, m)
  }

  /** What holds in u when the body of a function called from s begins. */
  ghost predicate Entered(s: State, u: State, sp: int, ret: int, size: int) {
    && u.regs == s.regs[RSP := sp - 64 - size][R11 := ret][RBP := sp - 64]
    && u.mem == EnteredMem(s.mem[sp - 8 := ret], s.regs, sp, ret)
  }

  lemma {:induction false} EnteredAgree(W: World, m: Mem, s: State, u: State, n: nat, ret: int, size: int)
    requires CallState(W, m, s, n) && Entered(s, u, s.regs[RSP], ret, size)
    requires 0 <= W.limit <= s.regs[RSP] - FRAME_OVERHEAD
    ensures Agree(u.mem, m)
  {
    EnteredReads(s.mem[s.regs[RSP] - 8 := ret], s.regs, s.regs[RSP], ret, []);
    hide EnteredMem;
    forall a | a in m ensures Read(u.mem, a) == m[a] {
      assert a >= s.regs[RSP] || a < s.regs[RSP] - 64;
    }
  }

  lemma {:induction false} EnteredParameter(W: World, m: Mem, s: State, u: State, vs: seq<int>, ret: int, size: int, k: nat)
    requires CallState(W, m, s, |vs|) && ArgsReady(s, vs) && Entered(s, u, s.regs[RSP], ret, size)
    requires 0 <= W.limit <= s.regs[RSP] - FRAME_OVERHEAD && k < |vs|
    ensures var a := s.regs[RSP] - FRAME_OVERHEAD + 2 * WORD_SIZE + k * WORD_SIZE; a !in m && Read(u.mem, a) == vs[k]
  {
    EnteredReads(s.mem[s.regs[RSP] - 8 := ret], s.regs, s.regs[RSP], ret, []);
    hide EnteredMem, Agree;
    if k >= 6 {
      assert s.regs[RSP] - FRAME_OVERHEAD + 2 * WORD_SIZE + k * WORD_SIZE == s.regs[RSP] + WORD_SIZE * (k - 6);
    }
  }

  lemma {:induction false} EnteredInFrame(W: World, m: Mem, s: State, u: State, params: seq<nat>, vs: seq<int>, ret: int, size: int)
    requires CallState(W, m, s, |vs|) && ArgsReady(s, vs) && Entered(s, u, s.regs[RSP], ret, size)
    requires 0 <= W.limit <= s.regs[RSP] - FRAME_OVERHEAD - size && size >= 0 && Aligned(size)
    requires |params| == |vs| && ParameterPlaces(W.env, params)
    ensures InFrame(W, Ctx(params, vs, s.regs[RSP] - FRAME_OVERHEAD, size), s.regs[RSP] - FRAME_OVERHEAD - size, m, u)
  {
    hide EnteredMem, ArgsReady, Agree, ParametersOk, ParameterPlaces;
    EnteredAgree(W, m, s, u, |vs|, ret, size);
    EnteredParameters(W, m, s, u, params, vs, ret, size);
  }

  lemma {:induction false} EnteredParameters(W: World, m: Mem, s: State, u: State, params: seq<nat>, vs: seq<int>, ret: int, size: int)
    requires CallState(W, m, s, |vs|) && ArgsReady(s, vs) && Entered(s, u, s.regs[RSP], ret, size)
    requires 0 <= W.limit <= s.regs[RSP] - FRAME_OVERHEAD && |params| == |vs| && ParameterPlaces(W.env, params)
    ensures ParametersOk(W.env, Ctx(params, vs, s.regs[RSP] - FRAME_OVERHEAD, size), m, u.mem)
  {
    hide EnteredMem, ArgsReady, Agree, ParameterPlaces, CallState, Entered;
    var frame := s.regs[RSP] - FRAME_OVERHEAD;
    forall k | 0 <= k < |vs|
      ensures frame + 2 * WORD_SIZE + k * WORD_SIZE !in m && Read(u.mem, frame + 2 * WORD_SIZE + k * WORD_SIZE) == vs[k]
    {
      EnteredParameter(W, m, s, u, vs, ret, size, k);
    }
  }

  lemma {:induction false} LeftReturned(W: World, m: Mem, s: State, u: State, t1: State, t: State, c: Ctx, n: nat, ret: int, v: int, m1: Mem)
    requires CallState(W, m, s, n) && Entered(s, u, s.regs[RSP], ret, c.size) && c.size >= 0
    requires 0 <= W.limit <= s.regs[RSP] - FRAME_OVERHEAD - c.size && c.frame == s.regs[RSP] - FRAME_OVERHEAD
    requires Finished(c, c.frame - c.size, u, t1, t1.pc, v, m, m1)
    requires t.regs == t1.regs[RSP := s.regs[RSP]][RBP := s.regs[RBP]][R11 := ret] && t.mem == t1.mem[s.regs[RSP] - 8 := ret]
    ensures Returned(s, t, n, v, Restrict(m1, m.Keys)) && Restrict(m1, m.Keys).Keys == m.Keys
  {
    var sp := s.regs[RSP];
    EnteredReads(s.mem[sp - 8 := ret], s.regs, sp, ret, []);
    hide EnteredMem;
    var m' := Restrict(m1, m.Keys);
    assert m'.Keys == m.Keys by {
      assert forall a :: a in m ==> a in m1;
    }
    forall a | a >= sp + StackArgs(n) && a !in m' ensures Read(t.mem, a) == Read(s.mem, a) {
      assert a !in m && !c.Owns(a);
      assert Read(t1.mem, a) == Read(u.mem, a);
    }
    forall a | a in m' ensures Read(t.mem, a) == m'[a] {
      assert a in m && a != sp - 8;
    }
  }

  /** The two saved words are still there when the body is done. */
  lemma {:induction false} SavedWords(W: World, m: Mem, s: State, u: State, t1: State, c: Ctx, n: nat, ret: int, v: int, m1: Mem)
    requires CallState(W, m, s, n) && Entered(s, u, s.regs[RSP], ret, c.size) && c.size >= 0
    requires 0 <= W.limit <= s.regs[RSP] - FRAME_OVERHEAD - c.size && c.frame == s.regs[RSP] - FRAME_OVERHEAD
    requires Finished(c, c.frame - c.size, u, t1, t1.pc, v, m, m1)
    ensures Read(t1.mem, s.regs[RSP] - 64) == s.regs[RBP] && Read(t1.mem, s.regs[RSP] - 56) == ret
    ensures t1.regs[RBP] == s.regs[RSP] - 64
  {
    var sp := s.regs[RSP];
    EnteredReads(s.mem[sp - 8 := ret], s.regs, sp, ret, []);
    assert sp - 64 !in m1 && sp - 56 !in m1;
    assert Read(t1.mem, sp - 64) == Read(u.mem, sp - 64);
    assert Read(t1.mem, sp - 56) == Read(u.mem, sp - 56);
  }

  lemma {:induction false} FunctionParts(M: Mach, W: World, f: int) returns (lab: nat)
    requires Matches(M, W) && f in W.funs
    ensures FunctionAt(M, W.env, f, W.funs[f]) && Placed(M.code, f - M.base, FunctionBody(W.funs[f], W.env, lab))
  {
    assert FunctionAt(M, W.env, f, W.funs[f]);
    lab :| Placed(M.code, f - M.base, FunctionBody(W.funs[f], W.env, lab));
  }

  lemma {:induction false} BodyParts(M: Mach, p: int, g: Expr, env: Env, lab: nat)
    requires g.Function? && Placed(M.code, p, FunctionBody(g, env, lab))
    ensures 0 <= p < |M.code| && M.code[p] == Label(g.bndg) && Placed(M.code, p + 1, ENTER_FUNCTION)
    ensures p + 11 < |M.code| && M.code[p + 11] == SubqImmToReg(env.FrameSize(g.bndg), RSP)
    ensures Placed(M.code, p + 12, Code(g.body, env, lab + 1))
    ensures Placed(M.code, p + 12 + |Code(g.body, env, lab + 1)|, LEAVE_FUNCTION)
  {
    var a := [Label(g.bndg)];
    var d := [SubqImmToReg(env.FrameSize(g.bndg), RSP)];
    var body := Code(g.body, env, lab + 1);
    assert FunctionBody(g, env, lab) == a + (ENTER_FUNCTION + (d + (body + LEAVE_FUNCTION)));
    hide Code;
    PlacedAt(M.code, p, FunctionBody(g, env, lab), 0);
    PlacedSplit(M.code, p, a, ENTER_FUNCTION + (d + (body + LEAVE_FUNCTION)));
    PlacedSplit(M.code, p + 1, ENTER_FUNCTION, d + (body + LEAVE_FUNCTION));
    PlacedAt(M.code, p + 11, d + (body + LEAVE_FUNCTION), 0);
    PlacedSplit(M.code, p + 11, d, body + LEAVE_FUNCTION);
    PlacedSplit(M.code, p + 12, body, LEAVE_FUNCTION);
  }

  /** From the call instruction to the first instruction of the body. */
  lemma {:induction false} EnterCall(M: Mach, W: World, g: Expr, f: int, lab: nat, s: State) returns (u: State)
    requires Linked(M) && g.Function? && M.Inside(f) && Placed(M.code, f - M.base, FunctionBody(g, W.env, lab))
    requires Next(M, s, CallReg(R11)) && s.regs[R11] == f
    requires Word(s.regs[RSP]) && s.regs[RSP] - FRAME_OVERHEAD - W.env.FrameSize(g.bndg) >= 0 && W.env.FrameSize(g.bndg) >= 0
    ensures Goes(M, s, u) && u.pc == f - M.base + 12
    ensures Entered(s, u, s.regs[RSP], M.base + s.pc + 1, W.env.FrameSize(g.bndg))
  {
    hide Goes, Step;
    BodyParts(M, f - M.base, g, W.env, lab);
    hide Placed, FunctionBody;
    GoesNowhere(M, s);
    var sp, ret := s.regs[RSP], M.base + s.pc + 1;
    var u1 := StepCall(M, s, s, R11);
    var u2 := StepLabel(M, s, u1, g.bndg);
    assert Read(u2.mem, sp - 8) == ret;
    var u3 := EnterFunction(M, s, u2, sp);
    u := StepSub(M, s, u3, W.env.FrameSize(g.bndg), RSP);
    assert u.regs == s.regs[RSP := sp - 64 - W.env.FrameSize(g.bndg)][R11 := ret][RBP := sp - 64];
  }

  lemma {:induction false} CallInsideOk(M: Mach, W: World, fuel: nat, f: int, vs: seq<int>, m: Mem, s: State, r: (int, Mem)) returns (t: State)
    requires Matches(M, W) && f in W.funs && Call(W, fuel, f, vs, s.regs[RSP], m) == Some(r)
    requires Next(M, s, CallReg(R11)) && s.regs[R11] == f && CallState(W, m, s, |vs|) && ArgsReady(s, vs)
    ensures Goes(M, s, t) && t.pc == s.pc + 1
    ensures Returned(s, t, |vs|, r.0, r.1)
    ensures r.1.Keys == m.Keys
    decreases fuel, 0, 0
  {
    hide Goes, Step, Matches, InFrame, Finished, Returned, CallState, ArgsReady, Entered, Code, Placed, FunctionBody, Linked, Compilable, ParameterPlaces;
    var lab := FunctionParts(M, W, f);
    MatchesLinked(M, W);
    var g := W.funs[f];
    var sp, size := s.regs[RSP], W.env.FrameSize(g.bndg);
    var c := Ctx(g.params, vs, sp - FRAME_OVERHEAD, size);
    CallStateWord(W, m, s, |vs|);
    var u := EnterCall(M, W, g, f, lab, s);
    EnteredInFrame(W, m, s, u, g.params, vs, M.base + s.pc + 1, size);
    BodyParts(M, f - M.base, g, W.env, lab);
    var q := Eval(W, fuel - 1, g.body, c, sp - FRAME_OVERHEAD - size, m).value;
    var t1 := EvalOk(M, W, fuel - 1, g.body, c, sp - FRAME_OVERHEAD - size, m, lab + 1, u, q);
    FinishedPc(c, sp - FRAME_OVERHEAD - size, u, t1, u.pc + |Code(g.body, W.env, lab + 1)|, q.0, m, q.1);
    SavedWords(W, m, s, u, t1, c, |vs|, M.base + s.pc + 1, q.0, q.1);
    GoesThen(M, s, u, t1);
    t := LeaveFunction(M, s, t1, sp, s.regs[RBP], M.base + s.pc + 1);
    LeftReturned(W, m, s, u, t1, t, c, |vs|, M.base + s.pc + 1, q.0, q.1);
  }

  lemma {:induction false} MatchesLinked(M: Mach, W: World)
    requires Matches(M, W)
    ensures Linked(M) && 0 <= W.limit && M.base >= 0
  {}

  lemma {:induction false} CallStateWord(W: World, m: Mem, s: State, n: nat)
    requires CallState(W, m, s, n)
    ensures Word(s.regs[RSP]) && s.regs[RSP] + WORD_SIZE < MODULUS
  {}

  lemma {:induction false} FinishedPc(c: Ctx, sp: int, s: State, t: State, pc: int, v: int, m: Mem, m': Mem)
    requires Finished(c, sp, s, t, pc, v, m, m')
    ensures t.pc == pc && Finished(c, sp, s, t, t.pc, v, m, m') && t.regs[RAX] == v && t.regs[RSP] == sp
  {}

  // ----- any call -----

  lemma {:induction false} CallOutsideOk(M: Mach, W: World, fuel: nat, f: int, vs: seq<int>, m: Mem, s: State, r: (int, Mem)) returns (t: State)
    requires Matches(M, W) && f !in W.funs && Call(W, fuel, f, vs, s.regs[RSP], m) == Some(r)
    requires Next(M, s, CallReg(R11)) && s.regs[R11] == f && CallState(W, m, s, |vs|) && ArgsReady(s, vs)
    ensures Goes(M, s, t) && t.pc == s.pc + 1
    ensures Returned(s, t, |vs|, r.0, r.1)
    ensures r.1.Keys == m.Keys
  {
    hide Goes, Step, Linked, FunctionAt, ArgsReady, Agree, Free;
    GoesNowhere(M, s);
    assert W.inside(f) == M.Inside(f);
    t := StepCallOutside(M, s, s, R11);
    assert Returned(s, M.ext(f, s), |vs|, W.outside(f, vs, m).value.0, W.outside(f, vs, m).value.1);
  }

  lemma {:induction false} CallOk(M: Mach, W: World, fuel: nat, f: int, vs: seq<int>, m: Mem, s: State, r: (int, Mem)) returns (t: State)
    requires Matches(M, W) && Call(W, fuel, f, vs, s.regs[RSP], m) == Some(r)
    requires Next(M, s, CallReg(R11)) && s.regs[R11] == f && CallState(W, m, s, |vs|) && ArgsReady(s, vs)
    ensures Goes(M, s, t) && t.pc == s.pc + 1
    ensures Returned(s, t, |vs|, r.0, r.1)
    ensures r.1.Keys == m.Keys
    decreases fuel, 0, 1
  {
    hide Goes, Step, Matches, CallState, ArgsReady, Returned, Call;
    if f in W.funs {
      t := CallInsideOk(M, W, fuel, f, vs, m, s, r);
    } else {
      t := CallOutsideOk(M, W, fuel, f, vs, m, s, r);
    }
  }

  /** The values vs lie in consecutive words from `base`. */
  ghost predicate Buffered(mem: Mem, base: int, vs: seq<int>) {
    forall j :: 0 <= j < |vs| ==> Read(mem, base + j * WORD_SIZE) == vs[j]
  }

  /** After i pops the first i values are in their registers. */
  ghost predicate Popped(s: State, t: State, base: int, i: nat, vs: seq<int>) {
    && t.mem == s.mem && t.regs[RSP] == base + i * WORD_SIZE && t.regs[R11] == s.regs[R11]
    && SameSaved(s.regs, t.regs) && i <= 6 && i <= |vs|
    && forall k :: 0 <= k < i ==> t.regs[ARGUMENT_REGISTERS[k]] == vs[k]
  }

  lemma {:induction false} PopOne(s: State, t: State, u: State, base: int, i: nat, vs: seq<int>)
    requires Popped(s, t, base, i, vs) && i < 6 && i < |vs| && Buffered(s.mem, base, vs)
    requires u == t.(pc := t.pc + 1, regs := t.regs[RSP := t.regs[RSP] + WORD_SIZE][ARGUMENT_REGISTERS[i] := Read(t.mem, t.regs[RSP])])
    ensures Popped(s, u, base, i + 1, vs)
  {
    forall k | 0 <= k < i ensures ARGUMENT_REGISTERS[k] != ARGUMENT_REGISTERS[i] && ARGUMENT_REGISTERS[k] != RSP {}
  }

  lemma {:induction false} PopsOk(M: Mach, s0: State, s: State, t: State, base: int, i: nat, vs: seq<int>) returns (u: State)
    requires Goes(M, s0, t) && Placed(M.code, t.pc, PopArguments(i, |vs|))
    requires Popped(s, t, base, i, vs) && Buffered(s.mem, base, vs)
    requires Word(base) && base + |vs| * WORD_SIZE + WORD_SIZE < MODULUS
    ensures Goes(M, s0, u) && u.pc == t.pc + |PopArguments(i, |vs|)| && Popped(s, u, base, if |vs| < 6 then |vs| else 6, vs)
    decreases 6 - i
  {
    hide Goes, Step, Buffered;
    if i >= 6 || i >= |vs| {
      u := t;
    } else {
      PlacedAt(M.code, t.pc, PopArguments(i, |vs|), 0);
      PlacedSplit(M.code, t.pc, [PopqReg(ARGUMENT_REGISTERS[i])], PopArguments(i + 1, |vs|));
      var r := ARGUMENT_REGISTERS[i];
      assert r < 16 && r != RSP;
      var v := StepPop(M, s0, t, r);
      PopOne(s, t, v, base, i, vs);
      u := PopsOk(M, s0, s, v, base, i + 1, vs);
    }
  }

  /** What CallCode does: v is the callee's value and m' the memory it leaves. */
  ghost predicate CallDone(s: State, t: State, top: int, v: int, m': Mem) {
    && t.regs[RAX] == v && t.regs[RSP] == top && SameSaved(s.regs, t.regs)
    && Agree(t.mem, m') && Kept(s.mem, t.mem, top, m')
  }

  lemma {:induction false} ReadyToCall(W: World, s: State, t: State, base: int, vs: seq<int>, m: Mem)
    requires Popped(s, t, base, if |vs| < 6 then |vs| else 6, vs) && Buffered(s.mem, base, vs)
    requires Word(base) && base + |vs| * WORD_SIZE + WORD_SIZE < MODULUS
    requires Free(m, W.limit, base + |vs| * WORD_SIZE) && Agree(s.mem, m)
    ensures var u := t.(pc := t.pc + 1, regs := t.regs[RAX := 0]); CallState(W, m, u, |vs|) && ArgsReady(u, vs)
    ensures t.regs[RSP] + StackArgs(|vs|) == base + |vs| * WORD_SIZE
  {
    var u := t.(pc := t.pc + 1, regs := t.regs[RAX := 0]);
    forall k | 6 <= k < |vs| ensures Read(u.mem, u.regs[RSP] + WORD_SIZE * (k - 6)) == vs[k] {
      assert u.regs[RSP] + WORD_SIZE * (k - 6) == base + k * WORD_SIZE;
    }
  }

  lemma {:induction false} CallParts(M: Mach, p: int, n: nat)
    requires Placed(M.code, p, CallCode(n))
    ensures var pops := PopArguments(0, n); var k := |pops|;
      && 0 <= p && p + k + 2 < |M.code| && M.code[p] == MovqRegToReg(RAX, R11) && Placed(M.code, p + 1, pops)
      && M.code[p + 1 + k] == MovqImmToReg(Lit(0), RAX) && M.code[p + 2 + k] == CallReg(R11)
      && |CallCode(n)| == k + 3 + (if n > 6 then 1 else 0)
      && (n > 6 ==> p + k + 3 < |M.code| && M.code[p + 3 + k] == AddqImmToReg(WORD_SIZE * (n - 6), RSP))
  {
    hide *;
    var pops := PopArguments(0, n);
    var tail := CallTail(n);
    SplitCall(n);
    PlacedAt(M.code, p, [MovqRegToReg(RAX, R11)] + (pops + tail), 0);
    PlacedSplit(M.code, p, [MovqRegToReg(RAX, R11)], pops + tail);
    PlacedSplit(M.code, p + 1, pops, tail);
    TailParts(M, p + 1 + |pops|, n);
  }

  function CallTail(n: nat): seq<Instr> {
    [MovqImmToReg(Lit(0), RAX), CallReg(R11)] + (if n > 6 then [AddqImmToReg(WORD_SIZE * (n - 6), RSP)] else [])
  }

  lemma {:induction false} SplitCall(n: nat)
    ensures CallCode(n) == [MovqRegToReg(RAX, R11)] + (PopArguments(0, n) + CallTail(n))
    ensures |CallTail(n)| == 2 + (if n > 6 then 1 else 0)
  {
    hide PopArguments;
  }

  lemma {:induction false} TailParts(M: Mach, p: int, n: nat)
    requires Placed(M.code, p, CallTail(n))
    ensures 0 <= p && p + 1 < |M.code| && M.code[p] == MovqImmToReg(Lit(0), RAX) && M.code[p + 1] == CallReg(R11)
    ensures n > 6 ==> p + 2 < |M.code| && M.code[p + 2] == AddqImmToReg(WORD_SIZE * (n - 6), RSP)
  {
    PlacedAt(M.code, p, CallTail(n), 0);
    PlacedAt(M.code, p, CallTail(n), 1);
    if n > 6 { PlacedAt(M.code, p, CallTail(n), 2); }
    hide Placed;
  }

  lemma {:induction false} CallSequence(M: Mach, W: World, fuel: nat, s0: State, s: State, vs: seq<int>, m: Mem, r: (int, Mem)) returns (t: State)
    requires Matches(M, W) && Goes(M, s0, s) && Placed(M.code, s.pc, CallCode(|vs|))
    requires Buffered(s.mem, s.regs[RSP], vs) && Word(s.regs[RSP]) && s.regs[RSP] + |vs| * WORD_SIZE + WORD_SIZE < MODULUS
    requires Free(m, W.limit, s.regs[RSP] + |vs| * WORD_SIZE) && Agree(s.mem, m)
    requires Call(W, fuel, s.regs[RAX], vs, s.regs[RSP] + WORD_SIZE * (if |vs| < 6 then |vs| else 6), m) == Some(r)
    ensures Goes(M, s0, t) && t.pc == s.pc + |CallCode(|vs|)|
    ensures CallDone(s, t, s.regs[RSP] + |vs| * WORD_SIZE, r.0, r.1) && r.1.Keys == m.Keys
    decreases fuel, 0, 2
  {
    hide Goes, Step, Matches, Call, PopArguments, Buffered, Free, Agree, CallState, ArgsReady, Kept;
    var base, n := s.regs[RSP], |vs|;
    CallParts(M, s.pc, n);
    var s1 := StepMove(M, s0, s, RAX, R11);
    assert s1.regs[R11] == s.regs[RAX];
    var s2 := PopsOk(M, s0, s1, s1, base, 0, vs);
    ReadyToCall(W, s1, s2, base, vs, m);
    var s3 := StepLiteral(M, s0, s2, 0, RAX);
    WrapSmall(0);
    var s4 := CallOk(M, W, fuel, s.regs[RAX], vs, m, s3, r);
    GoesThen(M, s0, s3, s4);
    if n > 6 {
      t := StepAdd(M, s0, s4, WORD_SIZE * (n - 6), RSP);
    } else {
      t := s4;
    }
  }

  // ----- arguments evaluated into a buffer at the top of the stack -----

  /** Memory from `low` up is unchanged, except the buffer words and where programs can name it. */
  ghost predicate KeptAround(mem: Mem, mem': Mem, low: int, from: int, to: int, m: Mem) {
    forall a :: a >= low && a !in m && !(from <= a < to) ==> Read(mem', a) == Read(mem, a)
  }

  ghost predicate ArgsDone(c: Ctx, s: State, t: State, from: int, vs: seq<int>, m: Mem, m': Mem) {
    && t.regs[RSP] == s.regs[RSP] && SameSaved(s.regs, t.regs)
    && Agree(t.mem, m') && Grows(c, m, m') && Buffered(t.mem, from, vs)
    && KeptAround(s.mem, t.mem, s.regs[RSP], from, from + |vs| * WORD_SIZE, m')
  }

  /** Storing an argument's value in its word of the buffer keeps the activation intact. */
  lemma {:induction false} StoredInFrame(W: World, c: Ctx, sp: int, m: Mem, s: State, t: State, m1: Mem, v: int, u: State, a: int, top: int)
    requires InFrame(W, c, sp, m, s) && Finished(c, sp, s, t, t.pc, v, m, m1)
    requires sp <= a < top <= c.frame - c.size && Free(m, W.limit, top)
    requires u == t.(pc := t.pc + 1, mem := t.mem[a := v])
    ensures InFrame(W, c, sp, m1, u) && Free(m1, W.limit, top)
  {
    StillInFrame(W, c, sp, m, s, t, m1);
    assert a !in m1;
  }

  lemma {:induction false} ArgsStep(W: World, c: Ctx, sp: int, m: Mem, s: State, t: State, m1: Mem, v: int, u: State, w: State, from: int, vs: seq<int>, m2: Mem, top: int)
    requires InFrame(W, c, sp, m, s) && Finished(c, sp, s, t, t.pc, v, m, m1)
    requires sp <= from && from + WORD_SIZE + |vs| * WORD_SIZE <= top <= c.frame - c.size && Free(m, W.limit, top)
    requires u == t.(pc := t.pc + 1, mem := t.mem[from := v])
    requires ArgsDone(c, u, w, from + WORD_SIZE, vs, m1, m2)
    ensures ArgsDone(c, s, w, from, [v] + vs, m, m2)
  {
    var all := [v] + vs;
    assert from !in m2;
    assert Read(w.mem, from) == v;
    forall j | 0 <= j < |all| ensures Read(w.mem, from + j * WORD_SIZE) == all[j] {
      if j > 0 {
        assert from + j * WORD_SIZE == from + WORD_SIZE + (j - 1) * WORD_SIZE;
      }
    }
    forall a | a >= sp && a !in m2 && !(from <= a < from + |all| * WORD_SIZE) ensures Read(w.mem, a) == Read(s.mem, a) {
      assert a !in m1;
      assert Read(w.mem, a) == Read(u.mem, a) && Read(u.mem, a) == Read(t.mem, a);
    }
  }

  lemma {:induction false} ArgsOk(M: Mach, W: World, fuel: nat, args: seq<Expr>, c: Ctx, sp: int, m: Mem, temp: nat, i: nat, lab: nat, s: State, top: int, q: (seq<int>, Mem)) returns (t: State)
    requires Matches(M, W) && InFrame(W, c, sp, m, s) && W.env.PlaceOf(temp) == TopRelative(0)
    requires forall j :: 0 <= j < |args| ==> Compilable(args[j], W.env)
    requires sp + (i + |args|) * WORD_SIZE <= top <= c.frame - c.size && Free(m, W.limit, top)
    requires Placed(M.code, s.pc, ArgsCode(args, temp, i, R10, W.env, lab)) && EvalArgs(W, fuel, args, c, sp, m) == Some(q)
    ensures Goes(M, s, t) && t.pc == s.pc + |ArgsCode(args, temp, i, R10, W.env, lab)|
    ensures ArgsDone(c, s, t, sp + i * WORD_SIZE, q.0, m, q.1)
    decreases fuel, 1, args, 1
  {
    hide Goes, Step, Matches, Finished, Compilable, KeptAround, Kept, Agree, ParametersOk, Code, Eval, ArgsDone, Grows, Labels;
    if args == [] {
      GoesNowhere(M, s);
      NoArgs(W, c, sp, m, s, sp + i * WORD_SIZE);
      t := s;
    } else {
      var head, rest := Code(args[0], W.env, lab), ArgsCode(args[1..], temp, i + 1, R10, W.env, lab + Labels(args[0], W.env));
      var store := StoreCode(RAX, TopRelative(0), temp, i * WORD_SIZE, R10);
      ArgsParts(M, s.pc, head, store, rest, ArgsCode(args, temp, i, R10, W.env, lab));
      var r := Eval(W, fuel, args[0], c, sp, m).value;
      var s1 := EvalOk(M, W, fuel, args[0], c, sp, m, lab, s, r);
      FinishedPc(c, sp, s, s1, s.pc + |head|, r.0, m, r.1);
      var s2 := BufferOk(M, s, s1, temp, i);
      StoredInFrame(W, c, sp, m, s, s1, r.1, r.0, s2, sp + i * WORD_SIZE, top);
      var q' := EvalArgs(W, fuel, args[1..], c, sp, r.1).value;
      t := ArgsOk(M, W, fuel, args[1..], c, sp, r.1, temp, i + 1, lab + Labels(args[0], W.env), s2, top, q');
      ArgsStep(W, c, sp, m, s, s1, r.1, r.0, s2, t, sp + i * WORD_SIZE, q'.0, q'.1, top);
      GoesThen(M, s, s2, t);
    }
  }

  lemma {:induction false} NoArgs(W: World, c: Ctx, sp: int, m: Mem, s: State, from: int)
    requires InFrame(W, c, sp, m, s)
    ensures ArgsDone(c, s, s, from, [], m, m)
  {}

  lemma {:induction false} ArgsParts(M: Mach, p: int, a: seq<Instr>, b: seq<Instr>, d: seq<Instr>, all: seq<Instr>)
    requires Placed(M.code, p, all) && all == a + b + d
    ensures Placed(M.code, p, a) && Placed(M.code, p + |a|, b) && Placed(M.code, p + |a| + |b|, d)
  {
    assert a + b + d == a + (b + d);
    PlacedSplit(M.code, p, a, b + d);
    PlacedSplit(M.code, p + |a|, b, d);
  }

  // ----- invoke -----

  lemma {:induction false} InvokeFinished(W: World, c: Ctx, sp: int, m: Mem, s: State, s1: State, s2: State, s3: State, t: State, n: nat, vs: seq<int>, f: int, m1: Mem, m2: Mem, v: int, m3: Mem)
    requires InFrame(W, c, sp, m, s) && |vs| == n
    requires s1.mem == s.mem && s1.regs == s.regs[RSP := sp - n * WORD_SIZE]
    requires ArgsDone(c, s1, s2, sp - n * WORD_SIZE, vs, m, m1)
    requires Finished(c, sp - n * WORD_SIZE, s2, s3, s3.pc, f, m1, m2)
    requires CallDone(s3, t, sp, v, m3) && m3.Keys == m2.Keys
    ensures Finished(c, sp, s, t, t.pc, v, m, m3)
  {
    forall a | a >= sp && a !in m3 ensures Read(t.mem, a) == Read(s.mem, a) {
      assert a !in m2 && a !in m1;
      assert Read(t.mem, a) == Read(s3.mem, a) && Read(s3.mem, a) == Read(s2.mem, a) && Read(s2.mem, a) == Read(s1.mem, a);
    }
    assert Grows(c, m, m3) by {
      assert forall a :: a in m3 <==> a in m2;
    }
  }

  /** The buffered arguments survive the evaluation of the function reference. */
  lemma {:induction false} StillBuffered(W: World, c: Ctx, base: int, top: int, s: State, t: State, vs: seq<int>, f: int, m1: Mem, m2: Mem)
    requires Finished(c, base, s, t, t.pc, f, m1, m2) && Buffered(s.mem, base, vs)
    requires base + |vs| * WORD_SIZE == top <= c.frame - c.size && Free(m1, W.limit, top) && W.limit <= base
    ensures Buffered(t.mem, base, vs) && Free(m2, W.limit, top)
  {
    forall j | 0 <= j < |vs| ensures Read(t.mem, base + j * WORD_SIZE) == vs[j] {
      assert base + j * WORD_SIZE !in m2;
    }
  }

  lemma {:induction false} ArgsInFrame(W: World, c: Ctx, sp: int, m: Mem, s: State, t: State, vs: seq<int>, m1: Mem, top: int)
    requires InFrame(W, c, sp, m, s) && ArgsDone(c, s, t, sp, vs, m, m1)
    requires sp + |vs| * WORD_SIZE == top <= c.frame - c.size && Free(m, W.limit, top)
    ensures InFrame(W, c, sp, m1, t) && Free(m1, W.limit, top) && Buffered(t.mem, sp, vs)
  {
    forall k | 0 <= k < |c.args|
      ensures c.frame + 2 * WORD_SIZE + k * WORD_SIZE !in m1 && Read(t.mem, c.frame + 2 * WORD_SIZE + k * WORD_SIZE) == c.args[k]
    {
      assert !c.Owns(c.frame + 2 * WORD_SIZE + k * WORD_SIZE);
      assert c.frame + 2 * WORD_SIZE + k * WORD_SIZE !in m1;
      assert Read(t.mem, c.frame + 2 * WORD_SIZE + k * WORD_SIZE) == Read(s.mem, c.frame + 2 * WORD_SIZE + k * WORD_SIZE);
    }
  }

  lemma {:induction false} InFrameFacts(W: World, c: Ctx, sp: int, m: Mem, s: State)
    requires InFrame(W, c, sp, m, s)
    ensures s.regs[RSP] == sp && s.regs[RBP] == c.frame && Word(sp) && sp <= c.frame - c.size && sp + 2 * WORD_SIZE < MODULUS
    ensures Free(m, W.limit, sp) && 0 <= W.limit && Agree(s.mem, m)
  {}

  lemma {:induction false} TopInvokeCode(e: Expr, env: Env, lab: nat)
    requires e.Invoke? && Compilable(e, env)
    ensures Code(e, env, lab) ==
      [SubqImmToReg(|e.args| * WORD_SIZE, RSP)] + ArgsCode(e.args, e.temp, 0, R10, env, lab) +
      Code(e.target, env, lab + LabelsAll(e.args, env)) + CallCode(|e.args|)
  {
    hide CallCode, ArgsCode, Labels, LabelsAll;
    var a := [SubqImmToReg(|e.args| * WORD_SIZE, RSP)] + ArgsCode(e.args, e.temp, 0, R10, env, lab);
    assert a + [] == a;
  }

  lemma {:induction false} InvokeParts(M: Mach, p: int, e: Expr, env: Env, lab: nat)
    requires e.Invoke? && Compilable(e, env) && Placed(M.code, p, Code(e, env, lab))
    ensures var n := |e.args|; var a := ArgsCode(e.args, e.temp, 0, R10, env, lab); var d := Code(e.target, env, lab + LabelsAll(e.args, env));
      && 0 <= p < |M.code| && M.code[p] == SubqImmToReg(n * WORD_SIZE, RSP)
      && Placed(M.code, p + 1, a) && Placed(M.code, p + 1 + |a|, d) && Placed(M.code, p + 1 + |a| + |d|, CallCode(n))
      && |Code(e, env, lab)| == 1 + |a| + |d| + |CallCode(n)|
  {
    hide *;
    TopInvokeCode(e, env, lab);
    var n := |e.args|;
    var sub := [SubqImmToReg(n * WORD_SIZE, RSP)];
    var a, d := ArgsCode(e.args, e.temp, 0, R10, env, lab), Code(e.target, env, lab + LabelsAll(e.args, env));
    PlacedSplit(M.code, p, sub + a + d, CallCode(n));
    PlacedSplit(M.code, p, sub + a, d);
    PlacedSplit(M.code, p, sub, a);
    PlacedAt(M.code, p, sub, 0);
  }

  lemma {:induction false} InvokeMeaning(W: World, fuel: nat, e: Expr, c: Ctx, sp: int, m: Mem, r: (int, Mem)) returns (q: (seq<int>, Mem), f: (int, Mem))
    requires e.Invoke? && Eval(W, fuel, e, c, sp, m) == Some(r)
    ensures W.limit <= sp - |e.args| * WORD_SIZE && EvalArgs(W, fuel, e.args, c, sp - |e.args| * WORD_SIZE, m) == Some(q)
    ensures |q.0| == |e.args| && Eval(W, fuel, e.target, c, sp - |e.args| * WORD_SIZE, q.1) == Some(f)
    ensures Call(W, fuel, f.0, q.0, sp - |e.args| * WORD_SIZE + WORD_SIZE * (if |e.args| < 6 then |e.args| else 6), f.1) == Some(r)
  {
    hide Call, EvalArgs;
    q := EvalArgs(W, fuel, e.args, c, sp - |e.args| * WORD_SIZE, m).value;
    f := Eval(W, fuel, e.target, c, sp - |e.args| * WORD_SIZE, q.1).value;
  }

  lemma {:induction false} ReserveOk(M: Mach, W: World, c: Ctx, sp: int, m: Mem, s: State, n: nat) returns (t: State)
    requires InFrame(W, c, sp, m, s) && Next(M, s, SubqImmToReg(n * WORD_SIZE, RSP)) && W.limit <= sp - n * WORD_SIZE
    ensures Goes(M, s, t) && t.pc == s.pc + 1 && t.mem == s.mem && t.regs == s.regs[RSP := sp - n * WORD_SIZE]
    ensures InFrame(W, c, sp - n * WORD_SIZE, m, t)
  {
    hide Goes, Step;
    GoesNowhere(M, s);
    t := StepSub(M, s, s, n * WORD_SIZE, RSP);
    Deeper(W, c, sp, m, s, t, n);
  }

  /** Reserving the buffer and filling it. */
  lemma {:induction false} FillBuffer(M: Mach, W: World, fuel: nat, e: Expr, c: Ctx, sp: int, m: Mem, lab: nat, s: State, q: (seq<int>, Mem)) returns (s1: State, s2: State)
    requires Matches(M, W) && InFrame(W, c, sp, m, s) && e.Invoke? && W.env.PlaceOf(e.temp) == TopRelative(0)
    requires forall i :: 0 <= i < |e.args| ==> Compilable(e.args[i], W.env)
    requires Next(M, s, SubqImmToReg(|e.args| * WORD_SIZE, RSP)) && Placed(M.code, s.pc + 1, ArgsCode(e.args, e.temp, 0, R10, W.env, lab))
    requires W.limit <= sp - |e.args| * WORD_SIZE && EvalArgs(W, fuel, e.args, c, sp - |e.args| * WORD_SIZE, m) == Some(q)
    requires |q.0| == |e.args|
    ensures s1.mem == s.mem && s1.regs == s.regs[RSP := sp - |e.args| * WORD_SIZE]
    ensures Goes(M, s, s2) && s2.pc == s.pc + 1 + |ArgsCode(e.args, e.temp, 0, R10, W.env, lab)|
    ensures ArgsDone(c, s1, s2, sp - |e.args| * WORD_SIZE, q.0, m, q.1)
    ensures InFrame(W, c, sp - |e.args| * WORD_SIZE, q.1, s2) && Free(q.1, W.limit, sp) && Buffered(s2.mem, sp - |e.args| * WORD_SIZE, q.0)
    decreases fuel, 1, e, -1
  {
    hide *;
    var base := sp - |e.args| * WORD_SIZE;
    InFrameFacts(W, c, sp, m, s);
    s1 := ReserveOk(M, W, c, sp, m, s, |e.args|);
    s2 := ArgsOk(M, W, fuel, e.args, c, base, m, e.temp, 0, lab, s1, sp, q);
    ArgsInFrame(W, c, base, m, s1, s2, q.0, q.1, sp);
    GoesThen(M, s, s1, s2);
  }

  lemma {:induction false} CompilableInvoke(e: Expr, env: Env)
    requires e.Invoke? && Compilable(e, env)
    ensures env.PlaceOf(e.temp) == TopRelative(0) && Compilable(e.target, env)
    ensures forall i :: 0 <= i < |e.args| ==> Compilable(e.args[i], env)
  {}

  /** Evaluating the function reference and calling it, with the buffer filled. */
  lemma {:induction false} TargetAndCall(M: Mach, W: World, fuel: nat, e: Expr, c: Ctx, sp: int, base: int, vs: seq<int>, m1: Mem, lab: nat, s0: State, s2: State, f: (int, Mem), r: (int, Mem)) returns (s3: State, t: State)
    requires Matches(M, W) && InFrame(W, c, base, m1, s2) && Compilable(e, W.env) && Free(m1, W.limit, sp) && Buffered(s2.mem, base, vs)
    requires base + |vs| * WORD_SIZE == sp <= c.frame - c.size && sp + WORD_SIZE < MODULUS && Word(base) && W.limit <= base && Goes(M, s0, s2)
    requires Eval(W, fuel, e, c, base, m1) == Some(f)
    requires Call(W, fuel, f.0, vs, base + WORD_SIZE * (if |vs| < 6 then |vs| else 6), f.1) == Some(r)
    requires Placed(M.code, s2.pc, Code(e, W.env, lab)) && Placed(M.code, s2.pc + |Code(e, W.env, lab)|, CallCode(|vs|))
    ensures Goes(M, s0, t) && t.pc == s2.pc + |Code(e, W.env, lab)| + |CallCode(|vs|)|
    ensures Finished(c, base, s2, s3, s3.pc, f.0, m1, f.1) && CallDone(s3, t, sp, r.0, r.1) && r.1.Keys == f.1.Keys
    decreases fuel, 1, e, 2
  {
    hide *;
    s3 := EvalOk(M, W, fuel, e, c, base, m1, lab, s2, f);
    FinishedPc(c, base, s2, s3, s2.pc + |Code(e, W.env, lab)|, f.0, m1, f.1);
    StillBuffered(W, c, base, sp, s2, s3, vs, f.0, m1, f.1);
    FinishedAgree(c, base, s2, s3, f.0, m1, f.1);
    GoesThen(M, s0, s2, s3);
    t := CallSequence(M, W, fuel, s0, s3, vs, f.1, r);
  }

  lemma {:induction false} NextIs(M: Mach, s: State, i: Instr)
    requires 0 <= s.pc < |M.code| && M.code[s.pc] == i
    ensures Next(M, s, i)
  {}

  lemma {:induction false} InvokeOk(M: Mach, W: World, fuel: nat, e: Expr, c: Ctx, sp: int, m: Mem, lab: nat, s: State, r: (int, Mem)) returns (t: State)
    requires Matches(M, W) && InFrame(W, c, sp, m, s) && Compilable(e, W.env) && e.Invoke?
    requires Placed(M.code, s.pc, Code(e, W.env, lab)) && Eval(W, fuel, e, c, sp, m) == Some(r)
    ensures Goes(M, s, t) && Finished(c, sp, s, t, s.pc + |Code(e, W.env, lab)|, r.0, m, r.1)
    decreases fuel, 1, e, 0
  {
    hide *;
    var base := sp - |e.args| * WORD_SIZE;
    InvokeParts(M, s.pc, e, W.env, lab);
    CompilableInvoke(e, W.env);
    var q, f := InvokeMeaning(W, fuel, e, c, sp, m, r);
    NextIs(M, s, SubqImmToReg(|e.args| * WORD_SIZE, RSP));
    var s1, s2 := FillBuffer(M, W, fuel, e, c, sp, m, lab, s, q);
    InFrameFacts(W, c, sp, m, s);
    InFrameFacts(W, c, base, q.1, s2);
    var s3;
    s3, t := TargetAndCall(M, W, fuel, e.target, c, sp, base, q.0, q.1, lab + LabelsAll(e.args, W.env), s, s2, f, r);
    InvokeFinished(W, c, sp, m, s, s1, s2, s3, t, |e.args|, q.0, f.0, q.1, f.1, r.0, r.1);
  }

  lemma {:induction false} FinishedAgree(c: Ctx, sp: int, s: State, t: State, v: int, m: Mem, m': Mem)
    requires Finished(c, sp, s, t, t.pc, v, m, m')
    ensures Agree(t.mem, m')
  {}

  // ----- if -----

  lemma {:induction false} IfParts(M: Mach, p: int, a: seq<Instr>, b: seq<Instr>, d: seq<Instr>, alternate: nat, end: nat)
    requires Placed(M.code, p, a + [OrqRegToReg(RAX, RAX), JeRel(alternate)] + b + [JmpRel(end), Label(alternate)] + d + [Label(end)])
    ensures Placed(M.code, p, a) && Placed(M.code, p + |a| + 2, b) && Placed(M.code, p + |a| + 2 + |b| + 2, d)
    ensures 0 <= p && p + |a| + |b| + |d| + 4 < |M.code|
    ensures M.code[p + |a|] == OrqRegToReg(RAX, RAX) && M.code[p + |a| + 1] == JeRel(alternate)
    ensures M.code[p + |a| + 2 + |b|] == JmpRel(end) && M.code[p + |a| + 2 + |b| + 1] == Label(alternate)
    ensures M.code[p + |a| + 2 + |b| + 2 + |d|] == Label(end)
  {
    var x, y, z := [OrqRegToReg(RAX, RAX), JeRel(alternate)], [JmpRel(end), Label(alternate)], [Label(end)];
    hide *;
    PlacedSplit(M.code, p, a + x + b + y + d, z);
    PlacedSplit(M.code, p, a + x + b + y, d);
    PlacedAt(M.code, p + |a + x + b + y + d|, z, 0);
    FrontParts(M, p, a, b, x, y);
  }

  lemma {:induction false} FrontParts(M: Mach, p: int, a: seq<Instr>, b: seq<Instr>, x: seq<Instr>, y: seq<Instr>)
    requires Placed(M.code, p, a + x + b + y) && |x| == 2 && |y| == 2
    ensures 0 <= p && p + |a| + 2 + |b| + 2 <= |M.code|
    ensures Placed(M.code, p, a) && Placed(M.code, p + |a| + 2, b)
    ensures M.code[p + |a|] == x[0] && M.code[p + |a| + 1] == x[1]
    ensures M.code[p + |a| + 2 + |b|] == y[0] && M.code[p + |a| + 2 + |b| + 1] == y[1]
  {
    hide *;
    PlacedSplit(M.code, p, a + x + b, y);
    PlacedSplit(M.code, p, a + x, b);
    PlacedSplit(M.code, p, a, x);
    PlacedAt(M.code, p + |a|, x, 0);
    PlacedAt(M.code, p + |a|, x, 1);
    PlacedAt(M.code, p + |a + x + b|, y, 0);
    PlacedAt(M.code, p + |a + x + b|, y, 1);
  }

  /** One branch of an if, from just after the test to the end label. */
  lemma {:induction false} BranchDone(M: Mach, W: World, c: Ctx, sp: int, m: Mem, s: State, s1: State, s3: State, s4: State, t: State, p1: int, p4: int, v: int, m1: Mem, w: int, m2: Mem)
    requires InFrame(W, c, sp, m, s) && Finished(c, sp, s, s1, p1, v, m, m1)
    requires s3.mem == s1.mem && s3.regs == s1.regs && Finished(c, sp, s3, s4, p4, w, m1, m2)
    requires t.mem == s4.mem && t.regs == s4.regs
    ensures Finished(c, sp, s, t, t.pc, w, m, m2)
  {
    Moved(c, sp, s3, s4, t, p4, w, m1, m2);
    FinishedThen(c, sp, s, s1, s3, t, p1, t.pc, v, w, m, m1, m2);
  }

  /** The flag test does not disturb the activation. */
  lemma {:induction false} Tested(W: World, c: Ctx, sp: int, m: Mem, s: State, t: State, pc: int, v: int, m1: Mem, u: State)
    requires InFrame(W, c, sp, m, s) && Finished(c, sp, s, t, pc, v, m, m1) && u.mem == t.mem && u.regs == t.regs
    ensures InFrame(W, c, sp, m1, u)
  {
    StillInFrame(W, c, sp, m, s, t, m1);
  }

  lemma {:induction false} Moved(c: Ctx, sp: int, s: State, t: State, u: State, pc: int, v: int, m: Mem, m': Mem)
    requires Finished(c, sp, s, t, pc, v, m, m') && u.mem == t.mem && u.regs == t.regs
    ensures Finished(c, sp, s, u, u.pc, v, m, m')
  {}

  lemma {:induction false} TrueBranchOk(M: Mach, W: World, fuel: nat, e: Expr, c: Ctx, sp: int, m: Mem, s: State, s1: State, s3: State, p1: int, p4: int, v: int, m1: Mem, lab: nat, end: nat, q: (int, Mem)) returns (t: State)
    requires Matches(M, W) && InFrame(W, c, sp, m, s) && Finished(c, sp, s, s1, p1, v, m, m1)
    requires Goes(M, s, s3) && s3.mem == s1.mem && s3.regs == s1.regs && end in M.link && M.link[end] == M.base + p4 && M.Inside(M.link[end])
    requires Compilable(e, W.env) && Eval(W, fuel, e, c, sp, m1) == Some(q) && Placed(M.code, s3.pc, Code(e, W.env, lab))
    requires 0 <= s3.pc + |Code(e, W.env, lab)| < p4 < |M.code|
    requires M.code[s3.pc + |Code(e, W.env, lab)|] == JmpRel(end) && M.code[p4] == Label(end)
    ensures Goes(M, s, t) && Finished(c, sp, s, t, p4 + 1, q.0, m, q.1)
    decreases fuel, 1, e, 2
  {
    hide *;
    Tested(W, c, sp, m, s, s1, p1, v, m1, s3);
    var s4 := EvalOk(M, W, fuel, e, c, sp, m1, lab, s3, q);
    FinishedPc(c, sp, s3, s4, s3.pc + |Code(e, W.env, lab)|, q.0, m1, q.1);
    GoesThen(M, s, s3, s4);
    NextIs(M, s4, JmpRel(end));
    var s5 := StepJump(M, s, s4, end);
    NextIs(M, s5, Label(end));
    t := StepLabel(M, s, s5, end);
    BranchDone(M, W, c, sp, m, s, s1, s3, s4, t, p1, s4.pc, v, m1, q.0, q.1);
  }

  lemma {:induction false} FalseBranchOk(M: Mach, W: World, fuel: nat, e: Expr, c: Ctx, sp: int, m: Mem, s: State, s1: State, s3: State, p1: int, v: int, m1: Mem, lab: nat, alternate: nat, end: nat, q: (int, Mem)) returns (t: State)
    requires Matches(M, W) && InFrame(W, c, sp, m, s) && Finished(c, sp, s, s1, p1, v, m, m1)
    requires Goes(M, s, s3) && s3.mem == s1.mem && s3.regs == s1.regs && Next(M, s3, Label(alternate))
    requires Compilable(e, W.env) && Eval(W, fuel, e, c, sp, m1) == Some(q) && Placed(M.code, s3.pc + 1, Code(e, W.env, lab))
    requires 0 <= s3.pc + 1 + |Code(e, W.env, lab)| < |M.code| && M.code[s3.pc + 1 + |Code(e, W.env, lab)|] == Label(end)
    ensures Goes(M, s, t) && Finished(c, sp, s, t, s3.pc + 1 + |Code(e, W.env, lab)| + 1, q.0, m, q.1)
    decreases fuel, 1, e, 2
  {
    hide *;
    var s4 := StepLabel(M, s, s3, alternate);
    Tested(W, c, sp, m, s, s1, p1, v, m1, s4);
    var s5 := EvalOk(M, W, fuel, e, c, sp, m1, lab, s4, q);
    FinishedPc(c, sp, s4, s5, s4.pc + |Code(e, W.env, lab)|, q.0, m1, q.1);
    GoesThen(M, s, s4, s5);
    NextIs(M, s5, Label(end));
    t := StepLabel(M, s, s5, end);
    BranchDone(M, W, c, sp, m, s, s1, s4, s5, t, p1, s5.pc, v, m1, q.0, q.1);
  }

  /** The condition, the test of its value and the conditional jump. */
  lemma {:induction false} ConditionOk(M: Mach, W: World, fuel: nat, e: Expr, c: Ctx, sp: int, m: Mem, lab: nat, s: State, q: (int, Mem), alternate: nat) returns (s1: State, s3: State)
    requires Matches(M, W) && InFrame(W, c, sp, m, s) && Compilable(e, W.env) && Eval(W, fuel, e, c, sp, m) == Some(q)
    requires Placed(M.code, s.pc, Code(e, W.env, lab)) && 0 <= s.pc && s.pc + |Code(e, W.env, lab)| + 1 < |M.code|
    requires M.code[s.pc + |Code(e, W.env, lab)|] == OrqRegToReg(RAX, RAX) && M.code[s.pc + |Code(e, W.env, lab)| + 1] == JeRel(alternate)
    requires alternate in M.link && M.Inside(M.link[alternate])
    ensures Finished(c, sp, s, s1, s.pc + |Code(e, W.env, lab)|, q.0, m, q.1)
    ensures Goes(M, s, s3) && s3.mem == s1.mem && s3.regs == s1.regs
    ensures s3.pc == if q.0 == 0 then M.link[alternate] - M.base else s.pc + |Code(e, W.env, lab)| + 2
    decreases fuel, 1, e, 2
  {
    hide *;
    s1 := EvalOk(M, W, fuel, e, c, sp, m, lab, s, q);
    FinishedPc(c, sp, s, s1, s.pc + |Code(e, W.env, lab)|, q.0, m, q.1);
    NextIs(M, s1, OrqRegToReg(RAX, RAX));
    var s2 := StepTest(M, s, s1);
    NextIs(M, s2, JeRel(alternate));
    s3 := StepJumpIfZero(M, s, s2, alternate);
  }

  lemma {:induction false} IfMeaning(W: World, fuel: nat, e: Expr, c: Ctx, sp: int, m: Mem, r: (int, Mem)) returns (q: (int, Mem))
    requires e.If? && Compilable(e, W.env) && Eval(W, fuel, e, c, sp, m) == Some(r)
    ensures Compilable(e.condition, W.env) && Compilable(e.consequent, W.env) && Compilable(e.alternate, W.env)
    ensures Eval(W, fuel, e.condition, c, sp, m) == Some(q)
    ensures if q.0 != 0 then Eval(W, fuel, e.consequent, c, sp, q.1) == Some(r) else Eval(W, fuel, e.alternate, c, sp, q.1) == Some(r)
  {
    q := Eval(W, fuel, e.condition, c, sp, m).value;
  }

  lemma {:induction false} IfOk(M: Mach, W: World, fuel: nat, e: Expr, c: Ctx, sp: int, m: Mem, lab: nat, s: State, r: (int, Mem)) returns (t: State)
    requires Matches(M, W) && InFrame(W, c, sp, m, s) && Compilable(e, W.env) && e.If?
    requires Placed(M.code, s.pc, Code(e, W.env, lab)) && Eval(W, fuel, e, c, sp, m) == Some(r)
    ensures Goes(M, s, t) && Finished(c, sp, s, t, s.pc + |Code(e, W.env, lab)|, r.0, m, r.1)
    decreases fuel, 1, e, 0
  {
    hide *;
    var alternate := lab + Labels(e.condition, W.env);
    var end := alternate + 1 + Labels(e.consequent, W.env);
    var a, b, d := Code(e.condition, W.env, lab), Code(e.consequent, W.env, alternate + 1), Code(e.alternate, W.env, end + 1);
    IfCode(e, W.env, lab);
    IfParts(M, s.pc, a, b, d, alternate, end);
    MatchesLinked(M, W);
    LabelTarget(M, s.pc + |a| + 2 + |b| + 1, alternate);
    LabelTarget(M, s.pc + |a| + 2 + |b| + 2 + |d|, end);
    var q := IfMeaning(W, fuel, e, c, sp, m, r);
    var s1, s3 := ConditionOk(M, W, fuel, e.condition, c, sp, m, lab, s, q, alternate);
    if q.0 != 0 {
      t := TrueBranchOk(M, W, fuel, e.consequent, c, sp, m, s, s1, s3, s.pc + |a|, s.pc + |a| + 2 + |b| + 2 + |d|, q.0, q.1, alternate + 1, end, r);
    } else {
      NextIs(M, s3, Label(alternate));
      t := FalseBranchOk(M, W, fuel, e.alternate, c, sp, m, s, s1, s3, s.pc + |a|, q.0, q.1, end + 1, alternate, end, r);
    }
  }

  // ----- storage -----

  /** From s to t some arguments were stored into memory that programs can name. */
  ghost predicate IntoDone(c: Ctx, sp: int, s: State, t: State, m: Mem, m': Mem) {
    && t.regs[RSP] == sp && SameSaved(s.regs, t.regs)
    && Agree(t.mem, m') && Kept(s.mem, t.mem, sp, m') && Grows(c, m, m')
  }

  lemma {:induction false} StoredSlot(W: World, c: Ctx, sp: int, m: Mem, s: State, t: State, v: int, m1: Mem, u: State, a: int)
    requires InFrame(W, c, sp, m, s) && Finished(c, sp, s, t, t.pc, v, m, m1) && Writable(c, m1, a)
    requires u.mem == t.mem[a := v] && OnlyScratch(t.regs, u.regs, R11)
    ensures IntoDone(c, sp, s, u, m, m1[a := v]) && InFrame(W, c, sp, m1[a := v], u)
  {
    var m2 := m1[a := v];
    assert Agree(u.mem, m2);
    assert Grows(c, m, m2);
    assert Kept(s.mem, u.mem, sp, m2) by {
      forall b | b >= sp && b !in m2 ensures Read(u.mem, b) == Read(s.mem, b) {
        assert b !in m1 && Read(t.mem, b) == Read(s.mem, b);
      }
    }
    hide Agree, Kept, Grows;
    StillInFrame(W, c, sp, m, s, u, m2);
  }

  lemma {:induction false} IntoThen(c: Ctx, sp: int, s: State, t: State, u: State, m: Mem, m1: Mem, m2: Mem)
    requires IntoDone(c, sp, s, t, m, m1) && IntoDone(c, sp, t, u, m1, m2)
    ensures IntoDone(c, sp, s, u, m, m2)
  {}

  lemma {:induction false} IntoOk(M: Mach, W: World, fuel: nat, args: seq<Expr>, c: Ctx, sp: int, m: Mem, b: nat, a: int, i: nat, lab: nat, s: State, m': Mem) returns (t: State)
    requires Matches(M, W) && InFrame(W, c, sp, m, s) && AddressOf(W, c, b) == Some(a)
    requires W.env.PlaceOf(b).FrameRelative? || W.env.PlaceOf(b).Absolute?
    requires forall j :: 0 <= j < |args| ==> Compilable(args[j], W.env)
    requires Placed(M.code, s.pc, ArgsCode(args, b, i, R11, W.env, lab))
    requires EvalInto(W, fuel, args, c, a + i * WORD_SIZE, sp, m) == Some(m')
    ensures Goes(M, s, t) && t.pc == s.pc + |ArgsCode(args, b, i, R11, W.env, lab)|
    ensures IntoDone(c, sp, s, t, m, m')
    decreases fuel, 1, args, 1
  {
    hide Goes, Step, Matches, Finished, Compilable, IntoDone, InFrame, StoreCode, AddressOf, Kept;
    if args == [] {
      GoesNowhere(M, s);
      NothingStored(W, c, sp, m, s);
      t := s;
    } else {
      var head, rest := Code(args[0], W.env, lab), ArgsCode(args[1..], b, i + 1, R11, W.env, lab + Labels(args[0], W.env));
      var store := StoreCode(RAX, W.env.PlaceOf(b), b, i * WORD_SIZE, R11);
      ArgsParts(M, s.pc, head, store, rest, ArgsCode(args, b, i, R11, W.env, lab));
      var r := Eval(W, fuel, args[0], c, sp, m).value;
      var s2 := IntoStep(M, W, fuel, args[0], c, sp, m, b, a, i, lab, s, r);
      var m2 := r.1[a + i * WORD_SIZE := r.0];
      assert a + (i + 1) * WORD_SIZE == a + i * WORD_SIZE + WORD_SIZE;
      t := IntoOk(M, W, fuel, args[1..], c, sp, m2, b, a, i + 1, lab + Labels(args[0], W.env), s2, m');
      IntoThen(c, sp, s, s2, t, m, m2, m');
      GoesThen(M, s, s2, t);
    }
  }

  /** One argument evaluated and stored. */
  lemma {:induction false} IntoStep(M: Mach, W: World, fuel: nat, e: Expr, c: Ctx, sp: int, m: Mem, b: nat, a: int, i: nat, lab: nat, s: State, r: (int, Mem)) returns (s2: State)
    requires Matches(M, W) && InFrame(W, c, sp, m, s) && AddressOf(W, c, b) == Some(a) && Compilable(e, W.env)
    requires W.env.PlaceOf(b).FrameRelative? || W.env.PlaceOf(b).Absolute?
    requires Placed(M.code, s.pc, Code(e, W.env, lab))
    requires Placed(M.code, s.pc + |Code(e, W.env, lab)|, StoreCode(RAX, W.env.PlaceOf(b), b, i * WORD_SIZE, R11))
    requires Eval(W, fuel, e, c, sp, m) == Some(r) && Writable(c, r.1, a + i * WORD_SIZE)
    ensures Goes(M, s, s2) && InFrame(W, c, sp, r.1[a + i * WORD_SIZE := r.0], s2)
    ensures s2.pc == s.pc + |Code(e, W.env, lab)| + |StoreCode(RAX, W.env.PlaceOf(b), b, i * WORD_SIZE, R11)|
    ensures IntoDone(c, sp, s, s2, m, r.1[a + i * WORD_SIZE := r.0])
    decreases fuel, 1, e, 2
  {
    hide Goes, Step, Matches, Finished, Compilable, IntoDone, InFrame, StoreCode, AddressOf, Kept, Code;
    var s1 := EvalOk(M, W, fuel, e, c, sp, m, lab, s, r);
    FinishedPc(c, sp, s, s1, s.pc + |Code(e, W.env, lab)|, r.0, m, r.1);
    FinishedFrame(M, W, c, sp, m, s, s1, r.0, r.1);
    s2 := StoreOk(M, W, c, s, s1, b, i, a);
    StoredSlot(W, c, sp, m, s, s1, r.0, r.1, s2, a + i * WORD_SIZE);
  }

  lemma {:induction false} NothingStored(W: World, c: Ctx, sp: int, m: Mem, s: State)
    requires InFrame(W, c, sp, m, s)
    ensures IntoDone(c, sp, s, s, m, m)
  {}

  lemma {:induction false} FinishedFrame(M: Mach, W: World, c: Ctx, sp: int, m: Mem, s: State, t: State, v: int, m': Mem)
    requires Matches(M, W) && InFrame(W, c, sp, m, s) && Finished(c, sp, s, t, t.pc, v, m, m')
    ensures t.regs[RBP] == c.frame && M.link == W.link
  {}

  lemma {:induction false} IntoFinished(M: Mach, W: World, c: Ctx, sp: int, m: Mem, s: State, t: State, m': Mem, u: State, v: int)
    requires Matches(M, W) && InFrame(W, c, sp, m, s) && IntoDone(c, sp, s, t, m, m')
    ensures t.regs[RBP] == c.frame && M.link == W.link
    ensures u.mem == t.mem && u.regs == t.regs[RAX := v] ==> Finished(c, sp, s, u, u.pc, v, m, m')
  {}

  lemma {:induction false} StorageOk(M: Mach, W: World, fuel: nat, e: Expr, c: Ctx, sp: int, m: Mem, lab: nat, s: State, r: (int, Mem)) returns (t: State)
    requires Matches(M, W) && InFrame(W, c, sp, m, s) && Compilable(e, W.env) && e.Storage?
    requires Placed(M.code, s.pc, Code(e, W.env, lab)) && Eval(W, fuel, e, c, sp, m) == Some(r)
    ensures Goes(M, s, t) && Finished(c, sp, s, t, s.pc + |Code(e, W.env, lab)|, r.0, m, r.1)
    decreases fuel, 1, e, 0
  {
    hide *;
    StorageMeaning(W, fuel, e, c, sp, m, r, lab);
    PlacedSplit(M.code, s.pc, ArgsCode(e.args, e.bndg, 0, R11, W.env, lab), AddressCode(W.env.PlaceOf(e.bndg), e.bndg, RAX));
    var s1 := IntoOk(M, W, fuel, e.args, c, sp, m, e.bndg, r.0, 0, lab, s, r.1);
    IntoFinished(M, W, c, sp, m, s, s1, r.1, s1, r.0);
    t := AddressOk(M, W, c, s, s1, e.bndg);
    IntoFinished(M, W, c, sp, m, s, s1, r.1, t, r.0);
  }

  lemma {:induction false} StorageMeaning(W: World, fuel: nat, e: Expr, c: Ctx, sp: int, m: Mem, r: (int, Mem), lab: nat)
    requires e.Storage? && Compilable(e, W.env) && Eval(W, fuel, e, c, sp, m) == Some(r)
    ensures AddressOf(W, c, e.bndg) == Some(r.0) && EvalInto(W, fuel, e.args, c, r.0 + 0 * WORD_SIZE, sp, m) == Some(r.1)
    ensures W.env.PlaceOf(e.bndg).FrameRelative? || W.env.PlaceOf(e.bndg).Absolute?
    ensures forall j :: 0 <= j < |e.args| ==> Compilable(e.args[j], W.env)
    ensures Code(e, W.env, lab) == ArgsCode(e.args, e.bndg, 0, R11, W.env, lab) + AddressCode(W.env.PlaceOf(e.bndg), e.bndg, RAX)
  {
    hide AddressOf;
  }

  // ----- the main theorem -----

  /** Running the code of a jump-free expression ends just after it, with the expression's value
      in RAX, the stack and frame pointers and callee-saved registers unchanged, and memory as
      the expression leaves it. */
  lemma {:induction false} EvalOk(M: Mach, W: World, fuel: nat, e: Expr, c: Ctx, sp: int, m: Mem, lab: nat, s: State, r: (int, Mem)) returns (t: State)
    requires Matches(M, W) && InFrame(W, c, sp, m, s) && Compilable(e, W.env)
    requires Placed(M.code, s.pc, Code(e, W.env, lab)) && Eval(W, fuel, e, c, sp, m) == Some(r)
    ensures Goes(M, s, t)
    ensures Finished(c, sp, s, t, s.pc + |Code(e, W.env, lab)|, r.0, m, r.1)
    decreases fuel, 1, e, 1
  {
    hide Goes, Step, Matches, InFrame, Finished;
    match e
    case Literal(_) => t := LiteralOk(M, W, fuel, e, c, sp, m, lab, s);
    case Symbol(_) => t := SymbolOk(M, W, fuel, e, c, sp, m, lab, s, r);
    case Storage(_, _) => t := StorageOk(M, W, fuel, e, c, sp, m, lab, s, r);
    case If(_, _, _) => t := IfOk(M, W, fuel, e, c, sp, m, lab, s, r);
    case Function(_, _, _) => t := FunctionOk(M, W, fuel, e, c, sp, m, lab, s, r);
    case Invoke(_, _, _) => t := InvokeOk(M, W, fuel, e, c, sp, m, lab, s, r);
    case Constrain(body) => t := EvalOk(M, W, fuel, body, c, sp, m, lab, s, r);
  }

  /** Code generation preserves meaning: from any state of an activation in which e has a value, the
      machine runs e's code to its end and leaves that value in RAX, the stack and the callee-saved
      registers as they were, and memory as e leaves it. */
  lemma {:induction false} CodePreservesMeaning(M: Mach, W: World, fuel: nat, e: Expr, c: Ctx, sp: int, m: Mem, lab: nat, s: State)
    requires Matches(M, W) && InFrame(W, c, sp, m, s) && Compilable(e, W.env)
    requires Placed(M.code, s.pc, Code(e, W.env, lab)) && Eval(W, fuel, e, c, sp, m).Some?
    ensures var r := Eval(W, fuel, e, c, sp, m).value;
      exists t :: Goes(M, s, t) && Finished(c, sp, s, t, s.pc + |Code(e, W.env, lab)|, r.0, m, r.1)
  {
    var t := EvalOk(M, W, fuel, e, c, sp, m, lab, s, Eval(W, fuel, e, c, sp, m).value);
  }
}
