/** Running code that sits at a known place: one lemma per instruction. */
module Execution {
  import opened Syntax
  import opened Machine

  ghost predicate Placed(code: seq<Instr>, p: int, part: seq<Instr>) {
    0 <= p && p + |part| <= |code| && code[p..p + |part|] == part
  }

  lemma {:induction false} PlacedSplit(code: seq<Instr>, p: int, a: seq<Instr>, b: seq<Instr>)
    requires Placed(code, p, a + b)
    ensures Placed(code, p, a) && Placed(code, p + |a|, b)
  {
    assert code[p..p + |a|] == (a + b)[..|a|];
    assert code[p + |a|..p + |a| + |b|] == (a + b)[|a|..];
  }

  lemma {:induction false} PlacedAt(code: seq<Instr>, p: int, part: seq<Instr>, i: nat)
    requires Placed(code, p, part) && i < |part|
    ensures 0 <= p + i < |code| && code[p + i] == part[i]
  {
    assert code[p..p + |part|][i] == part[i];
  }

  /** The instruction about to be executed. */
  ghost predicate Next(M: Mach, s: State, i: Instr) {
    0 <= s.pc < |M.code| && M.code[s.pc] == i
  }

  predicate Word(a: int) { 0 <= a < MODULUS && Aligned(a) }

  lemma {:induction false} StepPush(M: Mach, s0: State, s: State, r: nat) returns (t: State)
    requires Goes(M, s0, s) && Next(M, s, PushqReg(r)) && r < 16
    requires Word(s.regs[RSP]) && s.regs[RSP] >= WORD_SIZE
    ensures Goes(M, s0, t)
    ensures t == s.(pc := s.pc + 1, regs := s.regs[RSP := s.regs[RSP] - WORD_SIZE], mem := s.mem[s.regs[RSP] - WORD_SIZE := s.regs[r]])
    ensures Word(t.regs[RSP])
  {
    t := Step(M, s).value;
    GoesStep(M, s0, s, t);
  }

  lemma {:induction false} StepPop(M: Mach, s0: State, s: State, r: nat) returns (t: State)
    requires Goes(M, s0, s) && Next(M, s, PopqReg(r)) && r < 16 && r != RSP
    requires Word(s.regs[RSP]) && s.regs[RSP] + WORD_SIZE < MODULUS
    ensures Goes(M, s0, t)
    ensures t == s.(pc := s.pc + 1, regs := s.regs[RSP := s.regs[RSP] + WORD_SIZE][r := Read(s.mem, s.regs[RSP])])
    ensures Word(t.regs[RSP])
  {
    t := Step(M, s).value;
    GoesStep(M, s0, s, t);
  }

  lemma {:induction false} StepLabel(M: Mach, s0: State, s: State, b: nat) returns (t: State)
    requires Goes(M, s0, s) && Next(M, s, Label(b))
    ensures Goes(M, s0, t) && t == s.(pc := s.pc + 1)
  {
    t := s.(pc := s.pc + 1);
    GoesStep(M, s0, s, t);
  }

  lemma {:induction false} StepMove(M: Mach, s0: State, s: State, r: nat, d: nat) returns (t: State)
    requires Goes(M, s0, s) && Next(M, s, MovqRegToReg(r, d)) && r < 16 && d < 16
    ensures Goes(M, s0, t) && t == s.(pc := s.pc + 1, regs := s.regs[d := s.regs[r]])
  {
    t := Step(M, s).value;
    GoesStep(M, s0, s, t);
  }

  lemma {:induction false} StepLiteral(M: Mach, s0: State, s: State, v: int, d: nat) returns (t: State)
    requires Goes(M, s0, s) && Next(M, s, MovqImmToReg(Lit(v), d)) && d < 16
    ensures Goes(M, s0, t) && t == s.(pc := s.pc + 1, regs := s.regs[d := Wrap(v)])
  {
    t := Step(M, s).value;
    GoesStep(M, s0, s, t);
  }

  lemma {:induction false} StepRef(M: Mach, s0: State, s: State, b: nat, offset: int, d: nat) returns (t: State)
    requires Goes(M, s0, s) && Next(M, s, MovqImmToReg(Ref(b, offset), d)) && d < 16 && b in M.link
    ensures Goes(M, s0, t) && t == s.(pc := s.pc + 1, regs := s.regs[d := Wrap(M.link[b] + offset)])
  {
    t := Step(M, s).value;
    GoesStep(M, s0, s, t);
  }

  lemma {:induction false} StepLea(M: Mach, s0: State, s: State, disp: int, base: nat, d: nat) returns (t: State)
    requires Goes(M, s0, s) && Next(M, s, LeaqMdbToReg(disp, base, d)) && base < 16 && d < 16
    ensures Goes(M, s0, t) && t == s.(pc := s.pc + 1, regs := s.regs[d := Wrap(s.regs[base] + disp)])
  {
    t := Step(M, s).value;
    GoesStep(M, s0, s, t);
  }

  lemma {:induction false} StepStore(M: Mach, s0: State, s: State, r: nat, disp: int, base: nat) returns (t: State)
    requires Goes(M, s0, s) && Next(M, s, MovqRegToMdb(r, disp, base)) && r < 16 && base < 16
    requires Aligned(Wrap(s.regs[base] + disp))
    ensures Goes(M, s0, t) && t == s.(pc := s.pc + 1, mem := s.mem[Wrap(s.regs[base] + disp) := s.regs[r]])
  {
    t := Step(M, s).value;
    GoesStep(M, s0, s, t);
  }

  lemma {:induction false} StepLoad(M: Mach, s0: State, s: State, disp: int, base: nat, d: nat) returns (t: State)
    requires Goes(M, s0, s) && Next(M, s, MovqMdbToReg(disp, base, d)) && base < 16 && d < 16
    requires Aligned(Wrap(s.regs[base] + disp))
    ensures Goes(M, s0, t) && t == s.(pc := s.pc + 1, regs := s.regs[d := Read(s.mem, Wrap(s.regs[base] + disp))])
  {
    t := Step(M, s).value;
    GoesStep(M, s0, s, t);
  }

  lemma {:induction false} StepSub(M: Mach, s0: State, s: State, n: int, r: nat) returns (t: State)
    requires Goes(M, s0, s) && Next(M, s, SubqImmToReg(n, r)) && r < 16 && 0 <= s.regs[r] - n < MODULUS
    ensures Goes(M, s0, t) && t == s.(pc := s.pc + 1, regs := s.regs[r := s.regs[r] - n])
  {
    t := Step(M, s).value;
    GoesStep(M, s0, s, t);
  }

  lemma {:induction false} StepAdd(M: Mach, s0: State, s: State, n: int, r: nat) returns (t: State)
    requires Goes(M, s0, s) && Next(M, s, AddqImmToReg(n, r)) && r < 16 && 0 <= s.regs[r] + n < MODULUS
    ensures Goes(M, s0, t) && t == s.(pc := s.pc + 1, regs := s.regs[r := s.regs[r] + n])
  {
    t := Step(M, s).value;
    GoesStep(M, s0, s, t);
  }

  lemma {:induction false} StepTest(M: Mach, s0: State, s: State) returns (t: State)
    requires Goes(M, s0, s) && Next(M, s, OrqRegToReg(RAX, RAX))
    ensures Goes(M, s0, t) && t == s.(pc := s.pc + 1, zf := s.regs[RAX] == 0)
  {
    t := Step(M, s).value;
    assert s.regs[RAX := s.regs[RAX]] == s.regs;
    GoesStep(M, s0, s, t);
  }

  lemma {:induction false} StepJump(M: Mach, s0: State, s: State, b: nat) returns (t: State)
    requires Goes(M, s0, s) && Next(M, s, JmpRel(b)) && b in M.link && M.Inside(M.link[b])
    ensures Goes(M, s0, t) && t == s.(pc := M.link[b] - M.base)
  {
    t := Step(M, s).value;
    GoesStep(M, s0, s, t);
  }

  lemma {:induction false} StepJumpIfZero(M: Mach, s0: State, s: State, b: nat) returns (t: State)
    requires Goes(M, s0, s) && Next(M, s, JeRel(b)) && b in M.link && M.Inside(M.link[b])
    ensures Goes(M, s0, t) && t == s.(pc := if s.zf then M.link[b] - M.base else s.pc + 1)
  {
    t := Step(M, s).value;
    GoesStep(M, s0, s, t);
  }

  lemma {:induction false} StepLeave(M: Mach, s0: State, s: State) returns (t: State)
    requires Goes(M, s0, s) && Next(M, s, Leave) && Word(s.regs[RBP]) && s.regs[RBP] + WORD_SIZE < MODULUS
    ensures Goes(M, s0, t)
    ensures t == s.(pc := s.pc + 1, regs := s.regs[RSP := s.regs[RBP] + WORD_SIZE][RBP := Read(s.mem, s.regs[RBP])])
    ensures Word(t.regs[RSP])
  {
    t := Step(M, s).value;
    GoesStep(M, s0, s, t);
  }

  lemma {:induction false} StepRet(M: Mach, s0: State, s: State) returns (t: State)
    requires Goes(M, s0, s) && Next(M, s, Ret) && Word(s.regs[RSP]) && s.regs[RSP] + WORD_SIZE < MODULUS
    requires M.Inside(Read(s.mem, s.regs[RSP]))
    ensures Goes(M, s0, t)
    ensures t == s.(pc := Read(s.mem, s.regs[RSP]) - M.base, regs := s.regs[RSP := s.regs[RSP] + WORD_SIZE])
  {
    t := Step(M, s).value;
    GoesStep(M, s0, s, t);
  }

  lemma {:induction false} StepCall(M: Mach, s0: State, s: State, r: nat) returns (t: State)
    requires Goes(M, s0, s) && Next(M, s, CallReg(r)) && r < 16 && M.Inside(s.regs[r])
    requires Word(s.regs[RSP]) && s.regs[RSP] >= WORD_SIZE
    ensures Goes(M, s0, t)
    ensures t == s.(pc := s.regs[r] - M.base, regs := s.regs[RSP := s.regs[RSP] - WORD_SIZE],
                    mem := s.mem[s.regs[RSP] - WORD_SIZE := M.base + s.pc + 1])
    ensures Word(t.regs[RSP])
  {
    t := Step(M, s).value;
    GoesStep(M, s0, s, t);
  }

  lemma {:induction false} StepCallOutside(M: Mach, s0: State, s: State, r: nat) returns (t: State)
    requires Goes(M, s0, s) && Next(M, s, CallReg(r)) && r < 16 && !M.Inside(s.regs[r])
    ensures Goes(M, s0, t) && t == M.ext(s.regs[r], s).(pc := s.pc + 1)
  {
    t := Step(M, s).value;
    GoesStep(M, s0, s, t);
  }
}
