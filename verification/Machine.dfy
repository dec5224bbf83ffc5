/** The instructions that the generator emits and what they do
    (opcode list at the head of bootstrap/x86_64_generator.c). */
module Machine {
  import opened Common
  import opened Syntax

  const RAX: nat := 0
  const RCX: nat := 1
  const RDX: nat := 2
  const RBX: nat := 3
  const RSP: nat := 4
  const RBP: nat := 5
  const RSI: nat := 6
  const RDI: nat := 7
  const R8: nat := 8
  const R9: nat := 9
  const R10: nat := 10
  const R11: nat := 11
  const R12: nat := 12
  const R13: nat := 13
  const R14: nat := 14
  const R15: nat := 15

  datatype Imm = Lit(value: int) | Ref(bndg: nat, offset: int)

  datatype Instr =
    | LeaqMdbToReg(disp: int, base: nat, dest: nat)
    | MovqRegToMdb(src: nat, disp: int, base: nat)
    | JmpRel(target: nat)
    | MovqMdbToReg(disp: int, base: nat, dest: nat)
    | PushqReg(reg: nat)
    | MovqRegToReg(src: nat, dest: nat)
    | SubqImmToReg(imm: int, reg: nat)
    | AddqImmToReg(imm: int, reg: nat)
    | PopqReg(reg: nat)
    | Leave
    | Ret
    | JmpToReg(reg: nat)
    | JeRel(target: nat)
    | OrqRegToReg(src: nat, dest: nat)
    | MovqImmToReg(value: Imm, dest: nat)
    | CallReg(reg: nat)
    | Label(name: nat)

  /** Word-granular memory; cells never written hold 0 until the first store. */
  type Mem = map<int, int>

  function Read(m: Mem, a: int): int {
    if a in m then m[a] else 0
  }

  type Regs = r: seq<int> | |r| == 16 witness [0,0,0,0,0,0,0,0,0,0,0,0,0,0,0,0]

  datatype State = State(pc: int, regs: Regs, zf: bool, mem: Mem)

  /** A loaded program: instruction i sits at address base + i, link gives the address of every
      binding, and ext is what code outside the program does when it is called. */
  datatype Mach = Mach(code: seq<Instr>, base: int, link: map<nat, int>, ext: (int, State) -> State)
  {
    predicate Inside(a: int) {
      base <= a <= base + |code|
    }
  }

  const MODULUS := 0x1_0000_0000_0000_0000

  function Wrap(x: int): int { x % MODULUS }

  predicate Aligned(a: int) { a % WORD_SIZE == 0 }

  function OrWord(a: int, b: int): int {
    if a == b then a else ((Wrap(a) as bv64) | (Wrap(b) as bv64)) as int
  }

  /** One instruction; None when the machine is stuck or leaves the program. */
  function Step(M: Mach, s: State): Option<State> {
    if !(0 <= s.pc < |M.code|) then None else
    var next := s.pc + 1;
    match M.code[s.pc]
    case Label(_) => Some(s.(pc := next))
    case LeaqMdbToReg(disp, base, dest) =>
      if base < 16 && dest < 16 then Some(s.(pc := next, regs := s.regs[dest := Wrap(s.regs[base] + disp)])) else None
    case MovqRegToMdb(src, disp, base) =>
      if src < 16 && base < 16 && Aligned(Wrap(s.regs[base] + disp))
      then Some(s.(pc := next, mem := s.mem[Wrap(s.regs[base] + disp) := s.regs[src]])) else None
    case MovqMdbToReg(disp, base, dest) =>
      if base < 16 && dest < 16 && Aligned(Wrap(s.regs[base] + disp))
      then Some(s.(pc := next, regs := s.regs[dest := Read(s.mem, Wrap(s.regs[base] + disp))])) else None
    case JmpRel(target) => Goto(M, s, target)
    case JeRel(target) => if s.zf then Goto(M, s, target) else Some(s.(pc := next))
    case PushqReg(reg) => if reg < 16 then Push(s, s.regs[reg], next) else None
    case PopqReg(reg) =>
      if reg < 16 && Aligned(s.regs[RSP])
      then Some(s.(pc := next, regs := s.regs[RSP := Wrap(s.regs[RSP] + WORD_SIZE)][reg := Read(s.mem, s.regs[RSP])])) else None
    case MovqRegToReg(src, dest) =>
      if src < 16 && dest < 16 then Some(s.(pc := next, regs := s.regs[dest := s.regs[src]])) else None
    case SubqImmToReg(imm, reg) =>
      if reg < 16 then Some(s.(pc := next, regs := s.regs[reg := Wrap(s.regs[reg] - imm)])) else None
    case AddqImmToReg(imm, reg) =>
      if reg < 16 then Some(s.(pc := next, regs := s.regs[reg := Wrap(s.regs[reg] + imm)])) else None
    case OrqRegToReg(src, dest) =>
      if src < 16 && dest < 16
      then var v := OrWord(s.regs[dest], s.regs[src]); Some(s.(pc := next, regs := s.regs[dest := v], zf := v == 0)) else None
    case MovqImmToReg(value, dest) =>
      if dest >= 16 then None else
      if value.Lit? then Some(s.(pc := next, regs := s.regs[dest := Wrap(value.value)]))
      else if value.bndg in M.link then Some(s.(pc := next, regs := s.regs[dest := Wrap(M.link[value.bndg] + value.offset)]))
      else None
    case Leave =>
      if Aligned(s.regs[RBP])
      then Some(s.(pc := next, regs := s.regs[RSP := Wrap(s.regs[RBP] + WORD_SIZE)][RBP := Read(s.mem, s.regs[RBP])])) else None
    case Ret =>
      if Aligned(s.regs[RSP]) && M.Inside(Read(s.mem, s.regs[RSP]))
      then Some(s.(pc := Read(s.mem, s.regs[RSP]) - M.base, regs := s.regs[RSP := Wrap(s.regs[RSP] + WORD_SIZE)])) else None
    case JmpToReg(reg) =>
      if reg < 16 && M.Inside(s.regs[reg]) then Some(s.(pc := s.regs[reg] - M.base)) else None
    case CallReg(reg) =>
      if reg >= 16 then None
      else if M.Inside(s.regs[reg])
      then
        var p := Push(s, M.base + next, next);
        if p.Some? then Some(p.value.(pc := s.regs[reg] - M.base)) else None
      else Some(M.ext(s.regs[reg], s).(pc := next))
  }

  function Goto(M: Mach, s: State, target: nat): Option<State> {
    if target in M.link && M.Inside(M.link[target]) then Some(s.(pc := M.link[target] - M.base)) else None
  }

  function Push(s: State, v: int, next: int): Option<State> {
    var sp := Wrap(s.regs[RSP] - WORD_SIZE);
    if Aligned(sp) then Some(s.(pc := next, regs := s.regs[RSP := sp], mem := s.mem[sp := v])) else None
  }

  /** k instructions. */
  ghost function Run(M: Mach, k: nat, s: State): Option<State> {
    if k == 0 then Some(s) else
    var t := Step(M, s);
    if t.Some? then Run(M, k - 1, t.value) else None
  }

  ghost predicate Goes(M: Mach, s: State, t: State) {
    exists k: nat :: Run(M, k, s) == Some(t)
  }

  lemma {:induction false} RunThen(M: Mach, j: nat, k: nat, s: State, t: State)
    requires Run(M, j, s) == Some(t)
    ensures Run(M, j + k, s) == Run(M, k, t)
    decreases j
  {
    if j > 0 {
      RunThen(M, j - 1, k, Step(M, s).value, t);
    }
  }

  lemma {:induction false} GoesThen(M: Mach, s: State, t: State, u: State)
    requires Goes(M, s, t) && Goes(M, t, u)
    ensures Goes(M, s, u)
  {
    var j: nat :| Run(M, j, s) == Some(t);
    var k: nat :| Run(M, k, t) == Some(u);
    RunThen(M, j, k, s, t);
  }

  lemma {:induction false} GoesStep(M: Mach, s: State, t: State, u: State)
    requires Goes(M, s, t) && Step(M, t) == Some(u)
    ensures Goes(M, s, u)
  {
    assert Run(M, 1, t) == Some(u) by {
      assert Run(M, 0, u) == Some(u);
    }
    GoesThen(M, s, t, u);
  }

  lemma {:induction false} GoesNowhere(M: Mach, s: State)
    ensures Goes(M, s, s)
  {
    assert Run(M, 0, s) == Some(s);
  }
}
