/** Passing arguments to continuations (generate_buffer_to_dest, make_store_continuation and
    sgenerate_jumps, bootstrap/x86_64_generator.c): direct and indirect jumps put them where the body
    of the continuation reads its parameters. */
module Jumps {
  import opened Common
  import opened Syntax
  import opened Machine
  import opened Execution
  import opened Generator
  import opened Frames
  import opened Semantics
  import opened Codegen
  import opened Escapes

  // ----- words in memory -----

  /** The address of the first word of binding b. */
  function BaseOf(M: Mach, p: Place, b: nat, r: Regs): Option<int> {
    match p
    case FrameRelative(o) => Some(r[RBP] + o)
    case TopRelative(o) => Some(r[RSP] + o)
    case Absolute => if b in M.link then Some(M.link[b]) else None
    case NoPlace => None
  }

  /** n aligned words from a on. */
  predicate Words(a: int, n: nat) {
    0 <= a && a + n * WORD_SIZE <= MODULUS && Aligned(a)
  }

  ghost predicate SameBut(r: Regs, r': Regs, changed: set<nat>) {
    forall i :: 0 <= i < 16 && i !in changed ==> r'[i] == r[i]
  }

  ghost predicate Untouched(m: Mem, m': Mem, from: int, to: int) {
    forall a :: !(from <= a < to) ==> Read(m', a) == Read(m, a)
  }

  lemma {:induction false} WordOf(a: int, n: nat, k: nat)
    requires Words(a, n) && k < n
    ensures Word(a + k * WORD_SIZE) && Wrap(a + k * WORD_SIZE) == a + k * WORD_SIZE
  {}

  // ----- loading and storing words of a binding -----

  lemma {:induction false} LoadOk(M: Mach, s0: State, s: State, p: Place, b: nat, offset: int, dest: nat, scratch: nat, a: int) returns (t: State)
    requires Goes(M, s0, s) && Placed(M.code, s.pc, LoadCode(p, b, offset, dest, scratch)) && dest < 16 && scratch < 16
    requires BaseOf(M, p, b, s.regs) == Some(a) && Word(a + offset)
    ensures Goes(M, s0, t) && t.pc == s.pc + |LoadCode(p, b, offset, dest, scratch)|
    ensures t.mem == s.mem && t.regs[dest] == Read(s.mem, a + offset) && SameBut(s.regs, t.regs, {dest, scratch})
  {
    hide Goes, Step;
    var code := LoadCode(p, b, offset, dest, scratch);
    WrapSmall(a + offset);
    PlacedAt(M.code, s.pc, code, 0);
    match p
    case FrameRelative(o) => t := StepLoad(M, s0, s, o + offset, RBP, dest);
    case TopRelative(o) => t := StepLoad(M, s0, s, o + offset, RSP, dest);
    case Absolute =>
      PlacedAt(M.code, s.pc, code, 1);
      var u := StepRef(M, s0, s, b, offset, scratch);
      t := StepLoad(M, s0, u, 0, scratch, dest);
  }

  /** Storing a register in a frame slot. */
  lemma {:induction false} StoreSlot(M: Mach, s0: State, s: State, src: nat, o: int, offset: int) returns (t: State)
    requires Goes(M, s0, s) && Next(M, s, MovqRegToMdb(src, o + offset, RBP)) && src < 16
    requires Word(s.regs[RBP] + o + offset)
    ensures Goes(M, s0, t) && t == s.(pc := s.pc + 1, mem := s.mem[s.regs[RBP] + o + offset := s.regs[src]])
  {
    hide Goes, Step;
    WrapSmall(s.regs[RBP] + (o + offset));
    t := StepStore(M, s0, s, src, o + offset, RBP);
  }

  // ----- copying the argument buffer -----

  lemma {:induction false} OneCopied(s: State, t: State, u: State, src: int, dest: int, vs: seq<int>, i: nat)
    requires i < |vs| && Words(src, |vs|) && Words(dest, |vs|)
    requires src + |vs| * WORD_SIZE <= dest || dest + |vs| * WORD_SIZE <= src
    requires Buffered(s.mem, src, vs) && Buffered(s.mem, dest, vs[..i])
    requires t.mem == s.mem && t.regs[RAX] == Read(s.mem, src + i * WORD_SIZE) && u.mem == t.mem[dest + i * WORD_SIZE := t.regs[RAX]]
    ensures Buffered(u.mem, src, vs) && Buffered(u.mem, dest, vs[..i + 1])
    ensures Untouched(s.mem, u.mem, dest, dest + |vs| * WORD_SIZE)
  {
    forall j | 0 <= j < |vs| ensures Read(u.mem, src + j * WORD_SIZE) == vs[j] {
      assert Read(s.mem, src + j * WORD_SIZE) == vs[j];
    }
    forall j | 0 <= j < i + 1 ensures Read(u.mem, dest + j * WORD_SIZE) == vs[j] {
      if j < i { assert Read(s.mem, dest + j * WORD_SIZE) == vs[..i][j]; }
    }
  }

  /** Copying words i, i+1, ... of a buffer at `src` to `dest`, the address in R11 plus the offset. */
  lemma {:induction false} CopyOk(M: Mach, s0: State, s: State, p: Place, b: nat, i: nat, offset: int, src: int, dest: int, vs: seq<int>) returns (t: State)
    requires i <= |vs| && Goes(M, s0, s) && Placed(M.code, s.pc, BufferToDest(p, b, i, |vs|, R11, offset))
    requires BaseOf(M, p, b, s.regs) == Some(src) && s.regs[R11] + offset == dest
    requires Words(src, |vs|) && Words(dest, |vs|) && (src + |vs| * WORD_SIZE <= dest || dest + |vs| * WORD_SIZE <= src)
    requires Buffered(s.mem, src, vs) && Buffered(s.mem, dest, vs[..i])
    ensures Goes(M, s0, t) && t.pc == s.pc + |BufferToDest(p, b, i, |vs|, R11, offset)|
    ensures Buffered(t.mem, dest, vs) && Untouched(s.mem, t.mem, dest, dest + |vs| * WORD_SIZE)
    ensures SameBut(s.regs, t.regs, {RAX, R10})
    decreases |vs| - i
  {
    hide Goes, Step, Buffered, LoadCode, Words, Placed;
    if i == |vs| {
      assert vs[..i] == vs;
      t := s;
    } else {
      var load := LoadCode(p, b, i * WORD_SIZE, RAX, R10);
      var store := [MovqRegToMdb(RAX, offset + i * WORD_SIZE, R11)];
      ArgsParts(M, s.pc, load, store, BufferToDest(p, b, i + 1, |vs|, R11, offset), BufferToDest(p, b, i, |vs|, R11, offset));
      WordOf(src, |vs|, i);
      WordOf(dest, |vs|, i);
      var s1 := LoadOk(M, s0, s, p, b, i * WORD_SIZE, RAX, R10, src);
      PlacedAt(M.code, s1.pc, store, 0);
      var s2 := StepStore(M, s0, s1, RAX, offset + i * WORD_SIZE, R11);
      OneCopied(s, s1, s2, src, dest, vs, i);
      t := CopyOk(M, s0, s2, p, b, i + 1, offset, src, dest, vs);
    }
  }

  // ----- direct jumps -----

  lemma {:induction false} ReleaseOk(M: Mach, s0: State, s: State, p: Place, n: nat) returns (t: State)
    requires Goes(M, s0, s) && Placed(M.code, s.pc, ReleaseCode(p, n))
    requires p.TopRelative? ==> 0 <= s.regs[RSP] && s.regs[RSP] + n * WORD_SIZE < MODULUS
    ensures Goes(M, s0, t) && t.pc == s.pc + |ReleaseCode(p, n)| && t.mem == s.mem
    ensures t.regs == s.regs[RSP := s.regs[RSP] + if p.TopRelative? then n * WORD_SIZE else 0]
  {
    hide Goes, Step;
    t := s;
    if p.TopRelative? {
      PlacedAt(M.code, s.pc, ReleaseCode(p, n), 0);
      t := StepAdd(M, s0, s, n * WORD_SIZE, RSP);
    } else {
      assert s.regs[RSP := s.regs[RSP] + 0] == s.regs;
    }
  }

  /** What a direct jump does once its arguments are buffered. */
  function DirectTail(p: Place, temp: nat, n: nat, first: Place, firstBndg: nat, entry: nat): seq<Instr> {
    AddressCode(first, firstBndg, R11) + BufferToDest(p, temp, 0, n, R11, 0) + ReleaseCode(p, n) + [JmpRel(entry)]
  }

  lemma {:induction false} TailParts(M: Mach, pc: int, a: seq<Instr>, b: seq<Instr>, c: seq<Instr>, d: seq<Instr>, all: seq<Instr>)
    requires all == a + b + c + d && Placed(M.code, pc, all)
    ensures Placed(M.code, pc, a) && Placed(M.code, pc + |a|, b)
    ensures Placed(M.code, pc + |a| + |b|, c) && Placed(M.code, pc + |a| + |b| + |c|, d)
  {
    PlacedSplit(M.code, pc, a + b + c, d);
    PlacedSplit(M.code, pc, a + b, c);
    PlacedSplit(M.code, pc, a, b);
  }

  /** The values arrived in n words from dest on, and nothing else changed in memory. */
  ghost predicate Passed(s: State, t: State, dest: int, vs: seq<int>) {
    Buffered(t.mem, dest, vs) && Untouched(s.mem, t.mem, dest, dest + |vs| * WORD_SIZE)
  }

  lemma {:induction false} DirectTailOk(M: Mach, s0: State, s: State, p: Place, temp: nat, o: int, firstBndg: nat, entry: nat, src: int, vs: seq<int>) returns (t: State)
    requires Goes(M, s0, s) && Placed(M.code, s.pc, DirectTail(p, temp, |vs|, FrameRelative(o), firstBndg, entry))
    requires entry in M.link && M.Inside(M.link[entry])
    requires BaseOf(M, p, temp, s.regs) == Some(src) && Words(src, |vs|) && Words(s.regs[RBP] + o, |vs|)
    requires src + |vs| * WORD_SIZE <= s.regs[RBP] + o || s.regs[RBP] + o + |vs| * WORD_SIZE <= src
    requires p.TopRelative? ==> 0 <= s.regs[RSP] && s.regs[RSP] + |vs| * WORD_SIZE < MODULUS
    requires Buffered(s.mem, src, vs) && 0 < |vs|
    ensures Goes(M, s0, t) && t.pc == M.link[entry] - M.base && Passed(s, t, s.regs[RBP] + o, vs)
    ensures SameBut(s.regs, t.regs, {RAX, R10, R11, RSP})
    ensures t.regs[RSP] == s.regs[RSP] + if p.TopRelative? then |vs| * WORD_SIZE else 0
  {
    hide Goes, Step, Buffered, BufferToDest, ReleaseCode, Untouched, Placed;
    var n := |vs|;
    TailParts(M, s.pc, AddressCode(FrameRelative(o), firstBndg, R11), BufferToDest(p, temp, 0, n, R11, 0), ReleaseCode(p, n), [JmpRel(entry)],
      DirectTail(p, temp, n, FrameRelative(o), firstBndg, entry));
    PlacedAt(M.code, s.pc, AddressCode(FrameRelative(o), firstBndg, R11), 0);
    WordOf(s.regs[RBP] + o, n, 0);
    var s1 := StepLea(M, s0, s, o, RBP, R11);
    NothingBuffered(s1.mem, s.regs[RBP] + o, vs);
    var s2 := CopyOk(M, s0, s1, p, temp, 0, 0, src, s.regs[RBP] + o, vs);
    var s3 := ReleaseOk(M, s0, s2, p, n);
    PlacedAt(M.code, s3.pc, [JmpRel(entry)], 0);
    t := StepJump(M, s0, s3, entry);
  }

  lemma {:induction false} NothingBuffered(m: Mem, a: int, vs: seq<int>)
    ensures Buffered(m, a, vs[..0])
  {}

  // ----- an activation and the blocks of its continuations -----

  /** s runs in an activation of g: the frame below RBP fits in memory. */
  ghost predicate Activation(env: Env, g: Expr, s: State)
    requires g.Function?
  {
    Word(s.regs[RBP]) && 0 <= env.FrameSize(g.bndg) <= s.regs[RBP]
  }

  /** The argument buffer at the top of the stack lies below the frame. */
  ghost predicate BelowFrame(env: Env, g: Expr, s: State, n: nat)
    requires g.Function?
  {
    Word(s.regs[RSP]) && s.regs[RSP] + n * WORD_SIZE <= s.regs[RBP] - env.FrameSize(g.bndg)
  }

  /** In t the parameters of n hold the values, at the addresses where the body of n reads them. */
  ghost predicate Delivered(env: Env, n: Expr, t: State, vs: seq<int>)
    requires n.Continuation? || n.With?
  {
    |vs| == |Formals(n)| && forall k :: 0 <= k < |vs| ==>
      && env.PlaceOf(Formals(n)[k]).FrameRelative?
      && Word(t.regs[RBP] + env.PlaceOf(Formals(n)[k]).offset)
      && Read(t.mem, t.regs[RBP] + env.PlaceOf(Formals(n)[k]).offset) == vs[k]
  }

  /** Loading parameter k, as a symbol in the body does and as the entry of a with does. */
  lemma {:induction false} BodyReads(M: Mach, env: Env, n: Expr, s0: State, t: State, vs: seq<int>, k: nat, scratch: nat) returns (u: State)
    requires (n.Continuation? || n.With?) && Delivered(env, n, t, vs) && k < |vs| && Goes(M, s0, t) && scratch < 16
    requires Placed(M.code, t.pc, LoadCode(env.PlaceOf(Formals(n)[k]), Formals(n)[k], 0, RAX, scratch))
    ensures Goes(M, s0, u) && u.regs[RAX] == vs[k] && u.mem == t.mem
  {
    var p := env.PlaceOf(Formals(n)[k]);
    u := LoadOk(M, s0, t, p, Formals(n)[k], 0, RAX, scratch, t.regs[RBP] + p.offset);
  }

  lemma {:induction false} BlockPlaces(env: Env, n: Expr, o: int)
    requires (n.Continuation? || n.With?) && BlockAt(n, env.escapes, env.places, o)
    ensures forall k :: 0 <= k < |Formals(n)| ==> env.PlaceOf(Formals(n)[k]) == FrameRelative(o + k * WORD_SIZE)
    ensures n.bndg in env.escapes ==> env.PlaceOf(n.bndg) == FrameRelative(o - CONT_SIZE)
  {}

  lemma {:induction false} BlockDelivered(env: Env, n: Expr, o: int, t: State, vs: seq<int>)
    requires (n.Continuation? || n.With?) && BlockAt(n, env.escapes, env.places, o) && |vs| == |Formals(n)|
    requires Buffered(t.mem, t.regs[RBP] + o, vs) && Words(t.regs[RBP] + o, |vs|)
    ensures Delivered(env, n, t, vs)
  {
    BlockPlaces(env, n, o);
    hide BlockAt;
    forall k | 0 <= k < |vs|
      ensures env.PlaceOf(Formals(n)[k]) == FrameRelative(o + k * WORD_SIZE)
      ensures Word(t.regs[RBP] + (o + k * WORD_SIZE)) && Read(t.mem, t.regs[RBP] + (o + k * WORD_SIZE)) == vs[k]
    {
      WordOf(t.regs[RBP] + o, |vs|, k);
      assert t.regs[RBP] + o + k * WORD_SIZE == t.regs[RBP] + (o + k * WORD_SIZE);
    }
  }

  /** Where the buffer of j and the block of n lie in an activation of g. */
  lemma {:induction false} BufferAndBlock(env: Env, g: Expr, n: Expr, j: Expr, M: Mach, s: State, src: int) returns (o: int)
    requires g.Function? && LaidOut(g, env.escapes, env.places, env.frames) && Activation(env, g, s)
    requires SameFrame(g.body, n) && (n.Continuation? || n.With?) && SameFrame(g.body, j) && j.Jump?
    requires BufferFlag(j.target, j.args) != CONTAINS_JUMP && BaseOf(M, env.PlaceOf(j.temp), j.temp, s.regs) == Some(src)
    requires env.PlaceOf(j.temp).TopRelative? ==> BelowFrame(env, g, s, |j.args|)
    ensures BlockAt(n, env.escapes, env.places, o) && s.regs[RBP] + o + |Formals(n)| * WORD_SIZE <= s.regs[RBP]
    ensures 0 <= s.regs[RBP] + BlockStart(n, env.escapes, o) && Words(s.regs[RBP] + o, |Formals(n)|) && Words(src, |j.args|)
    ensures src + |j.args| * WORD_SIZE <= s.regs[RBP] + BlockStart(n, env.escapes, o) || s.regs[RBP] + o + |Formals(n)| * WORD_SIZE <= src
    ensures env.PlaceOf(j.temp).FrameRelative? || env.PlaceOf(j.temp) == TopRelative(0)
  {
    hide LaidOut, SameFrame, BlockAt, BufferFlag;
    JumpFlag(j);
    if BufferFlag(j.target, j.args) == CONTAINS_WITH {
      var d;
      o, d := BufferGeometry(g, n, j, env.escapes, env.places, env.frames);
      SlotWords(env, g, n, s, o, d, |j.args|);
    } else {
      o := ContinuationGeometry(g, n, env.escapes, env.places, env.frames);
      TopPlaced(env, g, j);
      TopWords(env, g, n, s, o, |j.args|);
    }
  }

  lemma {:induction false} SlotWords(env: Env, g: Expr, n: Expr, s: State, o: int, d: int, k: nat)
    requires g.Function? && Activation(env, g, s) && (n.Continuation? || n.With?) && g.bndg in env.frames
    requires BlockAt(n, env.escapes, env.places, o) && env.frames[g.bndg] <= BlockStart(n, env.escapes, o) && o + |Formals(n)| * WORD_SIZE <= 0
    requires d % WORD_SIZE == 0 && env.frames[g.bndg] <= d && d + k * WORD_SIZE <= 0
    ensures 0 <= s.regs[RBP] + BlockStart(n, env.escapes, o) && Words(s.regs[RBP] + o, |Formals(n)|) && Words(s.regs[RBP] + d, k)
  {}

  lemma {:induction false} TopWords(env: Env, g: Expr, n: Expr, s: State, o: int, k: nat)
    requires g.Function? && Activation(env, g, s) && (n.Continuation? || n.With?) && g.bndg in env.frames
    requires BlockAt(n, env.escapes, env.places, o) && env.frames[g.bndg] <= BlockStart(n, env.escapes, o) && o + |Formals(n)| * WORD_SIZE <= 0
    requires BelowFrame(env, g, s, k)
    ensures 0 <= s.regs[RBP] + BlockStart(n, env.escapes, o) && Words(s.regs[RBP] + o, |Formals(n)|) && Words(s.regs[RSP], k)
    ensures s.regs[RSP] + k * WORD_SIZE <= s.regs[RBP] + BlockStart(n, env.escapes, o)
  {}

  lemma {:induction false} TopPlaced(env: Env, g: Expr, j: Expr)
    requires g.Function? && LaidOut(g, env.escapes, env.places, env.frames) && SameFrame(g.body, j) && j.Jump?
    requires BufferFlag(j.target, j.args) == CONTAINS_NONE
    ensures env.PlaceOf(j.temp) == TopRelative(0)
  {
    PartIsLaidOut(g.body, j, env.escapes, env.places, env.frames);
  }

  /** A direct jump from anywhere in g to a continuation or with of g delivers its arguments. */
  lemma {:induction false} DirectJumpDelivers(M: Mach, env: Env, g: Expr, n: Expr, j: Expr, s0: State, s: State, src: int, vs: seq<int>) returns (t: State)
    requires g.Function? && LaidOut(g, env.escapes, env.places, env.frames) && Activation(env, g, s)
    requires SameFrame(g.body, n) && (n.Continuation? || n.With?) && SameFrame(g.body, j) && j.Jump?
    requires |vs| == |j.args| == |Formals(n)| && 0 < |vs| && BufferFlag(j.target, j.args) != CONTAINS_JUMP
    requires env.PlaceOf(j.temp).TopRelative? ==> BelowFrame(env, g, s, |vs|)
    requires Goes(M, s0, s) && n.entry in M.link && M.Inside(M.link[n.entry])
    requires Placed(M.code, s.pc, DirectTail(env.PlaceOf(j.temp), j.temp, |vs|, env.PlaceOf(Formals(n)[0]), Formals(n)[0], n.entry))
    requires BaseOf(M, env.PlaceOf(j.temp), j.temp, s.regs) == Some(src) && Buffered(s.mem, src, vs)
    ensures Goes(M, s0, t) && t.pc == M.link[n.entry] - M.base && Delivered(env, n, t, vs)
    ensures SameBut(s.regs, t.regs, {RAX, R10, R11, RSP})
    ensures t.regs[RSP] == s.regs[RSP] + if env.PlaceOf(j.temp).TopRelative? then |vs| * WORD_SIZE else 0
    ensures exists o: int :: BlockAt(n, env.escapes, env.places, o) && Untouched(s.mem, t.mem, s.regs[RBP] + o, s.regs[RBP] + o + |vs| * WORD_SIZE)
  {
    hide Goes, Step, Buffered, LaidOut, SameFrame, BlockAt, DirectTail, BufferFlag, Delivered;
    var o := BufferAndBlock(env, g, n, j, M, s, src);
    BlockPlaces(env, n, o);
    t := DirectTailOk(M, s0, s, env.PlaceOf(j.temp), j.temp, o, Formals(n)[0], n.entry, src, vs);
    BlockDelivered(env, n, o, t, vs);
  }

  // ----- saving a continuation and jumping to it by its address -----

  /** The buffer at a holds the registers r and the address of the continuation's first instruction. */
  ghost predicate SavedAt(m: Mem, a: int, r: Regs, entry: int) {
    && Read(m, a + CONT_RBX) == r[RBX] && Read(m, a + CONT_R12) == r[R12] && Read(m, a + CONT_R13) == r[R13]
    && Read(m, a + CONT_R14) == r[R14] && Read(m, a + CONT_R15) == r[R15] && Read(m, a + CONT_RBP) == r[RBP]
    && Read(m, a + CONT_CIR) == entry
  }

  /** The five stores of callee-saved registers that come first. */
  function SaveRegisters(p: Place, b: nat): seq<Instr> {
    StoreCode(RBX, p, b, CONT_RBX, R11) + StoreCode(R12, p, b, CONT_R12, R11) + StoreCode(R13, p, b, CONT_R13, R11) +
    StoreCode(R14, p, b, CONT_R14, R11) + StoreCode(R15, p, b, CONT_R15, R11)
  }

  /** The memory after those stores. */
  ghost function RegistersSaved(m: Mem, a: int, r: Regs): Mem {
    m[a + CONT_RBX := r[RBX]][a + CONT_R12 := r[R12]][a + CONT_R13 := r[R13]][a + CONT_R14 := r[R14]][a + CONT_R15 := r[R15]]
  }

  lemma {:induction false} SaveRegistersOk(M: Mach, s0: State, s: State, o: int, b: nat) returns (t: State)
    requires Goes(M, s0, s) && Placed(M.code, s.pc, SaveRegisters(FrameRelative(o), b)) && Words(s.regs[RBP] + o, 7)
    ensures Goes(M, s0, t) && t == s.(pc := s.pc + 5, mem := RegistersSaved(s.mem, s.regs[RBP] + o, s.regs))
    ensures |SaveRegisters(FrameRelative(o), b)| == 5
  {
    hide Goes, Step;
    var code := SaveRegisters(FrameRelative(o), b);
    assert |code| == 5;
    PlacedAt(M.code, s.pc, code, 0);
    PlacedAt(M.code, s.pc, code, 1);
    PlacedAt(M.code, s.pc, code, 2);
    PlacedAt(M.code, s.pc, code, 3);
    PlacedAt(M.code, s.pc, code, 4);
    hide Wrap;
    t := StoreSlot(M, s0, s, RBX, o, CONT_RBX);
    t := StoreSlot(M, s0, t, R12, o, CONT_R12);
    t := StoreSlot(M, s0, t, R13, o, CONT_R13);
    t := StoreSlot(M, s0, t, R14, o, CONT_R14);
    t := StoreSlot(M, s0, t, R15, o, CONT_R15);
  }

  lemma {:induction false} SaveParts(M: Mach, pc: int, o: int, b: nat, entry: nat)
    requires Placed(M.code, pc, SaveContinuationCode(FrameRelative(o), b, Absolute, entry))
    ensures Placed(M.code, pc, SaveRegisters(FrameRelative(o), b)) && Placed(M.code, pc + 5, AddressCode(Absolute, entry, R10))
    ensures Placed(M.code, pc + 6, StoreCode(R10, FrameRelative(o), b, CONT_CIR, R11))
    ensures Placed(M.code, pc + 7, StoreCode(RBP, FrameRelative(o), b, CONT_RBP, R11))
    ensures |SaveContinuationCode(FrameRelative(o), b, Absolute, entry)| == 8
  {
    var all := SaveContinuationCode(FrameRelative(o), b, Absolute, entry);
    TailParts(M, pc, SaveRegisters(FrameRelative(o), b), AddressCode(Absolute, entry, R10),
      StoreCode(R10, FrameRelative(o), b, CONT_CIR, R11), StoreCode(RBP, FrameRelative(o), b, CONT_RBP, R11), all);
  }

  lemma {:induction false} AllSaved(m: Mem, a: int, r: Regs, entry: int)
    ensures var m' := RegistersSaved(m, a, r)[a + CONT_CIR := entry][a + CONT_RBP := r[RBP]];
      SavedAt(m', a, r, entry) && Untouched(m, m', a, a + CONT_SIZE)
  {}

  /** make_store_continuation fills the buffer of a continuation or with of a function. */
  lemma {:induction false} SaveContinuationOk(M: Mach, s0: State, s: State, o: int, b: nat, entry: nat) returns (t: State)
    requires Goes(M, s0, s) && Placed(M.code, s.pc, SaveContinuationCode(FrameRelative(o), b, Absolute, entry))
    requires Words(s.regs[RBP] + o, 7) && entry in M.link && Wrap(M.link[entry]) == M.link[entry]
    ensures Goes(M, s0, t) && t.pc == s.pc + 8 && SavedAt(t.mem, s.regs[RBP] + o, s.regs, M.link[entry])
    ensures Untouched(s.mem, t.mem, s.regs[RBP] + o, s.regs[RBP] + o + CONT_SIZE) && SameBut(s.regs, t.regs, {R10})
  {
    hide Goes, Step, SavedAt, Untouched, RegistersSaved, SaveRegisters;
    SaveParts(M, s.pc, o, b, entry);
    var s1 := SaveRegistersOk(M, s0, s, o, b);
    PlacedAt(M.code, s1.pc, AddressCode(Absolute, entry, R10), 0);
    var s2 := StepRef(M, s0, s1, entry, 0, R10);
    PlacedAt(M.code, s2.pc, StoreCode(R10, FrameRelative(o), b, CONT_CIR, R11), 0);
    PlacedAt(M.code, s2.pc + 1, StoreCode(RBP, FrameRelative(o), b, CONT_RBP, R11), 0);
    var s3 := StoreSlot(M, s0, s2, R10, o, CONT_CIR);
    t := StoreSlot(M, s0, s3, RBP, o, CONT_RBP);
    AllSaved(s.mem, s.regs[RBP] + o, s.regs, M.link[entry]);
  }

  /** A continuation expression that escapes evaluates to the address of its buffer. */
  lemma {:induction false} EscapingContinuationOk(M: Mach, s0: State, s: State, o: int, b: nat, entry: nat) returns (t: State)
    requires Goes(M, s0, s)
    requires Placed(M.code, s.pc, AddressCode(FrameRelative(o), b, RAX) + SaveContinuationCode(FrameRelative(o), b, Absolute, entry))
    requires Words(s.regs[RBP] + o, 7) && entry in M.link && Wrap(M.link[entry]) == M.link[entry]
    ensures Goes(M, s0, t) && t.pc == s.pc + 9 && SavedAt(t.mem, s.regs[RBP] + o, s.regs, M.link[entry])
    ensures Untouched(s.mem, t.mem, s.regs[RBP] + o, s.regs[RBP] + o + CONT_SIZE)
    ensures t.regs[RAX] == s.regs[RBP] + o && SameBut(s.regs, t.regs, {RAX, R10})
  {
    hide Goes, Step, SaveContinuationCode;
    PlacedSplit(M.code, s.pc, AddressCode(FrameRelative(o), b, RAX), SaveContinuationCode(FrameRelative(o), b, Absolute, entry));
    PlacedAt(M.code, s.pc, AddressCode(FrameRelative(o), b, RAX), 0);
    WordOf(s.regs[RBP] + o, 7, 0);
    var s1 := StepLea(M, s0, s, o, RBP, RAX);
    t := SaveContinuationOk(M, s0, s1, o, b, entry);
    assert SavedAt(t.mem, s.regs[RBP] + o, s.regs, M.link[entry]);
  }

  /** What an indirect jump does once its arguments are buffered and its target's address is in R11. */
  function IndirectTail(p: Place, temp: nat, n: nat): seq<Instr> {
    BufferToDest(p, temp, 0, n, R11, CONT_SIZE) + ReleaseCode(p, n) + RESTORE_AND_JUMP
  }

  lemma {:induction false} RestoreOk(M: Mach, s0: State, s: State, a: int, r: Regs, entry: int) returns (t: State)
    requires Goes(M, s0, s) && Placed(M.code, s.pc, RESTORE_AND_JUMP)
    requires s.regs[R11] == a && Words(a, 7) && SavedAt(s.mem, a, r, entry) && M.Inside(entry)
    ensures Goes(M, s0, t) && t.pc == entry - M.base && t.mem == s.mem && SameSaved(r, t.regs)
    ensures t.regs[RSP] == s.regs[RSP]
  {
    hide Goes, Step;
    hide Wrap;
    PlacedAt(M.code, s.pc, RESTORE_AND_JUMP, 5);
    PlacedAt(M.code, s.pc, RESTORE_AND_JUMP, 6);
    PlacedAt(M.code, s.pc, RESTORE_AND_JUMP, 7);
    t := RestoreSaved(M, s0, s, a);
    t := RestoreWord(M, s0, t, a, CONT_CIR, R10);
    t := RestoreWord(M, s0, t, a, CONT_RBP, RBP);
    t := StepJumpTo(M, s0, t, R10);
  }

  lemma {:induction false} RestoreSaved(M: Mach, s0: State, s: State, a: int) returns (t: State)
    requires Goes(M, s0, s) && s.regs[R11] == a && Words(a, 7)
    requires Placed(M.code, s.pc, RESTORE_AND_JUMP)
    ensures Goes(M, s0, t) && t.pc == s.pc + 5 && t.mem == s.mem
    ensures t.regs == s.regs[RBX := Read(s.mem, a + CONT_RBX)][R12 := Read(s.mem, a + CONT_R12)]
      [R13 := Read(s.mem, a + CONT_R13)][R14 := Read(s.mem, a + CONT_R14)][R15 := Read(s.mem, a + CONT_R15)]
  {
    hide Goes, Step, Wrap;
    PlacedAt(M.code, s.pc, RESTORE_AND_JUMP, 0);
    PlacedAt(M.code, s.pc, RESTORE_AND_JUMP, 1);
    PlacedAt(M.code, s.pc, RESTORE_AND_JUMP, 2);
    PlacedAt(M.code, s.pc, RESTORE_AND_JUMP, 3);
    PlacedAt(M.code, s.pc, RESTORE_AND_JUMP, 4);
    t := RestoreWord(M, s0, s, a, CONT_RBX, RBX);
    t := RestoreWord(M, s0, t, a, CONT_R12, R12);
    t := RestoreWord(M, s0, t, a, CONT_R13, R13);
    t := RestoreWord(M, s0, t, a, CONT_R14, R14);
    t := RestoreWord(M, s0, t, a, CONT_R15, R15);
  }

  lemma {:induction false} RestoreWord(M: Mach, s0: State, s: State, a: int, offset: int, dest: nat) returns (t: State)
    requires Goes(M, s0, s) && Next(M, s, MovqMdbToReg(offset, R11, dest)) && dest < 16 && s.regs[R11] == a && Word(a + offset)
    ensures Goes(M, s0, t) && t == s.(pc := s.pc + 1, regs := s.regs[dest := Read(s.mem, a + offset)])
  {
    hide Goes, Step;
    WrapSmall(a + offset);
    t := StepLoad(M, s0, s, offset, R11, dest);
  }

  lemma {:induction false} StepJumpTo(M: Mach, s0: State, s: State, r: nat) returns (t: State)
    requires Goes(M, s0, s) && Next(M, s, JmpToReg(r)) && r < 16 && M.Inside(s.regs[r])
    ensures Goes(M, s0, t) && t == s.(pc := s.regs[r] - M.base)
  {
    t := Step(M, s).value;
    GoesStep(M, s0, s, t);
  }

  lemma {:induction false} StillSaved(m: Mem, m': Mem, a: int, r: Regs, entry: int, from: int, to: int)
    requires SavedAt(m, a, r, entry) && Untouched(m, m', from, to) && a + CONT_SIZE <= from
    ensures SavedAt(m', a, r, entry)
  {}

  /** An indirect jump restores the registers saved in the buffer at a, starts the continuation and
      leaves the arguments directly above the buffer. */
  lemma {:induction false} IndirectTailOk(M: Mach, s0: State, s: State, p: Place, temp: nat, src: int, a: int, r: Regs, entry: int, vs: seq<int>) returns (t: State)
    requires Goes(M, s0, s) && Placed(M.code, s.pc, IndirectTail(p, temp, |vs|))
    requires s.regs[R11] == a && Words(a, 7 + |vs|) && SavedAt(s.mem, a, r, entry) && M.Inside(entry)
    requires BaseOf(M, p, temp, s.regs) == Some(src) && Words(src, |vs|) && Buffered(s.mem, src, vs)
    requires src + |vs| * WORD_SIZE <= a || a + CONT_SIZE + |vs| * WORD_SIZE <= src
    requires p.TopRelative? ==> 0 <= s.regs[RSP] && s.regs[RSP] + |vs| * WORD_SIZE < MODULUS
    ensures Goes(M, s0, t) && t.pc == entry - M.base && SameSaved(r, t.regs)
    ensures Passed(s, t, a + CONT_SIZE, vs)
    ensures t.regs[RSP] == s.regs[RSP] + if p.TopRelative? then |vs| * WORD_SIZE else 0
  {
    hide Goes, Step, Buffered, BufferToDest, ReleaseCode, SavedAt;
    var n := |vs|;
    ArgsParts(M, s.pc, BufferToDest(p, temp, 0, n, R11, CONT_SIZE), ReleaseCode(p, n), RESTORE_AND_JUMP, IndirectTail(p, temp, n));
    NothingBuffered(s.mem, a + CONT_SIZE, vs);
    var s1 := CopyOk(M, s0, s, p, temp, 0, CONT_SIZE, src, a + CONT_SIZE, vs);
    StillSaved(s.mem, s1.mem, a, r, entry, a + CONT_SIZE, a + CONT_SIZE + n * WORD_SIZE);
    var s2 := ReleaseOk(M, s0, s1, p, n);
    t := RestoreOk(M, s0, s2, a, r, entry);
  }

  lemma {:induction false} BlockInMemory(env: Env, g: Expr, n: Expr, o: int, s: State)
    requires g.Function? && Activation(env, g, s) && (n.Continuation? || n.With?) && n.bndg in env.escapes
    requires BlockAt(n, env.escapes, env.places, o) && g.bndg in env.frames
    requires env.frames[g.bndg] <= BlockStart(n, env.escapes, o) && o + |Formals(n)| * WORD_SIZE <= 0
    ensures Words(s.regs[RBP] + o - CONT_SIZE, 7 + |Formals(n)|) && Words(s.regs[RBP] + o, |Formals(n)|)
  {}

  /** The buffer that an activation of g, running in s1, made for its continuation n is used later,
      from any state s that still holds it: the jump resumes that activation, and the body of n
      reads the arguments as its parameters. */
  lemma {:induction false} IndirectJumpDelivers(M: Mach, env: Env, g: Expr, n: Expr, s0: State, s1: State, s: State, p: Place, temp: nat, src: int, vs: seq<int>) returns (t: State)
    requires g.Function? && LaidOut(g, env.escapes, env.places, env.frames) && Activation(env, g, s1)
    requires SameFrame(g.body, n) && (n.Continuation? || n.With?) && n.bndg in env.escapes
    requires n.entry in M.link && M.Inside(M.link[n.entry]) && env.PlaceOf(n.bndg).FrameRelative?
    requires var a := s1.regs[RBP] + env.PlaceOf(n.bndg).offset;
      && s.regs[R11] == a && SavedAt(s.mem, a, s1.regs, M.link[n.entry])
      && (src + |vs| * WORD_SIZE <= a || a + CONT_SIZE + |vs| * WORD_SIZE <= src)
    requires Goes(M, s0, s) && Placed(M.code, s.pc, IndirectTail(p, temp, |vs|)) && |vs| == |Formals(n)|
    requires BaseOf(M, p, temp, s.regs) == Some(src) && Words(src, |vs|) && Buffered(s.mem, src, vs)
    requires p.TopRelative? ==> 0 <= s.regs[RSP] && s.regs[RSP] + |vs| * WORD_SIZE < MODULUS
    ensures Goes(M, s0, t) && t.pc == M.link[n.entry] - M.base && SameSaved(s1.regs, t.regs)
    ensures Delivered(env, n, t, vs)
    ensures Untouched(s.mem, t.mem, s.regs[R11] + CONT_SIZE, s.regs[R11] + CONT_SIZE + |vs| * WORD_SIZE)
  {
    hide Goes, Step, Buffered, LaidOut, SameFrame, BlockAt, IndirectTail, SavedAt, Delivered;
    var o := ContinuationGeometry(g, n, env.escapes, env.places, env.frames);
    BlockPlaces(env, n, o);
    BlockInMemory(env, g, n, o, s1);
    var a := s1.regs[RBP] + env.PlaceOf(n.bndg).offset;
    t := IndirectTailOk(M, s0, s, p, temp, src, a, s1.regs, M.link[n.entry], vs);
    BlockDelivered(env, n, o, t, vs);
  }

  // ----- whole direct jumps -----

  /** What a direct jump with parameters does after the code of its target, if that is written in place. */
  function DirectCode(j: Expr, circuit: Circuit, env: Env, lab: nat): seq<Instr>
    requires j.Jump? && |circuit.params| > 0
  {
    ReserveCode(env.PlaceOf(j.temp), |j.args|) + ArgsCode(j.args, j.temp, 0, R10, env, lab) +
    DirectTail(env.PlaceOf(j.temp), j.temp, |j.args|, env.PlaceOf(circuit.params[0]), circuit.params[0], circuit.entry)
  }

  lemma {:induction false} DirectCodeOf(j: Expr, env: Env, lab: nat)
    requires j.Jump? && j.temp in env.circuits && |env.circuits[j.temp].params| > 0
    ensures Code(j, env, lab) ==
      (if j.target.Continuation? then Code(j.target, env, lab) else []) +
      DirectCode(j, env.circuits[j.temp], env, lab + if j.target.Continuation? then Labels(j.target, env) else 0)
  {
    hide Code, ArgsCode, BufferToDest, ReserveCode, ReleaseCode, AddressCode, Labels;
    DirectJumpCode(j, env, lab);
    var circuit := env.circuits[j.temp];
    var lab' := lab + if j.target.Continuation? then Labels(j.target, env) else 0;
    var p := env.PlaceOf(j.temp);
    var front := ReserveCode(p, |j.args|) + ArgsCode(j.args, j.temp, 0, R10, env, lab');
    var a, b, d := AddressCode(env.PlaceOf(circuit.params[0]), circuit.params[0], R11), BufferToDest(p, j.temp, 0, |j.args|, R11, 0), ReleaseCode(p, |j.args|);
    var prefix := if j.target.Continuation? then Code(j.target, env, lab) else [];
    var e := [JmpRel(circuit.entry)];
    calc {
      Code(j, env, lab);
      prefix + (front + a + b + d) + e;
      { Regroup(prefix, front, a, b, d, e); }
      prefix + (front + (a + b + d + e));
    }
  }

  lemma {:induction false} Regroup(prefix: seq<Instr>, f: seq<Instr>, a: seq<Instr>, b: seq<Instr>, d: seq<Instr>, e: seq<Instr>)
    ensures prefix + (f + a + b + d) + e == prefix + (f + (a + b + d + e))
  {}

  /** A direct jump with jump-free arguments, run in an activation c of g: the values of its
      arguments are the parameters of the continuation when its body starts. */
  lemma {:induction false} DirectJumpOk(M: Mach, W: World, fuel: nat, g: Expr, n: Expr, j: Expr, c: Ctx, sp: int, m: Mem, lab: nat, s: State, q: (seq<int>, Mem)) returns (t: State)
    requires Matches(M, W) && InFrame(W, c, sp, m, s) && g.Function? && LaidOut(g, W.env.escapes, W.env.places, W.env.frames)
    requires c.size == W.env.FrameSize(g.bndg) <= c.frame && SameFrame(g.body, n) && (n.Continuation? || n.With?) && SameFrame(g.body, j) && j.Jump?
    requires |j.args| == |Formals(n)| > 0 && W.env.PlaceOf(j.temp) == TopRelative(0) && BufferFlag(j.target, j.args) != CONTAINS_JUMP
    requires forall i :: 0 <= i < |j.args| ==> Compilable(j.args[i], W.env)
    requires n.entry in M.link && M.Inside(M.link[n.entry])
    requires Placed(M.code, s.pc, DirectCode(j, Circuit(Formals(n), n.entry), W.env, lab))
    requires W.limit <= sp - |j.args| * WORD_SIZE && EvalArgs(W, fuel, j.args, c, sp - |j.args| * WORD_SIZE, m) == Some(q)
    ensures Goes(M, s, t) && t.pc == M.link[n.entry] - M.base && Delivered(W.env, n, t, q.0)
    ensures t.regs[RSP] == sp && SameSaved(s.regs, t.regs)
  {
    hide *;
    var k := |j.args|;
    var base := sp - k * WORD_SIZE;
    var e := Invoke(j.target, j.args, j.temp);
    DirectParts(M, s, j, n, W.env, lab);
    EvalArgsCount(W, fuel, j.args, c, base, m);
    InFrameFacts(W, c, sp, m, s);
    var s1, s2 := FillBuffer(M, W, fuel, e, c, sp, m, lab, s, q);
    InFrameFacts(W, c, base, q.1, s2);
    ArgsSaved(c, s, s1, s2, base, q.0, m, q.1);
    BufferInFrame(M, W, g, j, c, sp, q.1, s2, k);
    t := DirectJumpDelivers(M, W.env, g, n, j, s, s2, base, q.0);
    Restored(s, s2, t, sp, k);
  }

  lemma {:induction false} EvalArgsCount(W: World, fuel: nat, args: seq<Expr>, c: Ctx, sp: int, m: Mem)
    ensures EvalArgs(W, fuel, args, c, sp, m).Some? ==> |EvalArgs(W, fuel, args, c, sp, m).value.0| == |args|
  {}

  lemma {:induction false} DirectParts(M: Mach, s: State, j: Expr, n: Expr, env: Env, lab: nat)
    requires j.Jump? && (n.Continuation? || n.With?) && |Formals(n)| > 0 && env.PlaceOf(j.temp) == TopRelative(0)
    requires Placed(M.code, s.pc, DirectCode(j, Circuit(Formals(n), n.entry), env, lab))
    ensures Next(M, s, SubqImmToReg(|j.args| * WORD_SIZE, RSP)) && Placed(M.code, s.pc + 1, ArgsCode(j.args, j.temp, 0, R10, env, lab))
    ensures Placed(M.code, s.pc + 1 + |ArgsCode(j.args, j.temp, 0, R10, env, lab)|,
      DirectTail(env.PlaceOf(j.temp), j.temp, |j.args|, env.PlaceOf(Formals(n)[0]), Formals(n)[0], n.entry))
  {
    hide ArgsCode, DirectTail;
    var sub := ReserveCode(env.PlaceOf(j.temp), |j.args|);
    var tail := DirectTail(env.PlaceOf(j.temp), j.temp, |j.args|, env.PlaceOf(Formals(n)[0]), Formals(n)[0], n.entry);
    ArgsParts(M, s.pc, sub, ArgsCode(j.args, j.temp, 0, R10, env, lab), tail, DirectCode(j, Circuit(Formals(n), n.entry), env, lab));
    PlacedAt(M.code, s.pc, sub, 0);
  }

  lemma {:induction false} ArgsSaved(c: Ctx, s: State, s1: State, s2: State, base: int, vs: seq<int>, m: Mem, m1: Mem)
    requires s1.regs == s.regs[RSP := base] && ArgsDone(c, s1, s2, base, vs, m, m1)
    ensures SameSaved(s.regs, s2.regs)
  {}

  lemma {:induction false} BufferInFrame(M: Mach, W: World, g: Expr, j: Expr, c: Ctx, sp: int, m1: Mem, s2: State, k: nat)
    requires g.Function? && j.Jump? && |j.args| == k && W.env.PlaceOf(j.temp) == TopRelative(0)
    requires InFrame(W, c, sp - k * WORD_SIZE, m1, s2) && sp <= c.frame - c.size && c.size == W.env.FrameSize(g.bndg) <= c.frame
    ensures Activation(W.env, g, s2) && BelowFrame(W.env, g, s2, k)
    ensures BaseOf(M, W.env.PlaceOf(j.temp), j.temp, s2.regs) == Some(sp - k * WORD_SIZE)
  {}

  lemma {:induction false} Restored(s: State, s2: State, t: State, sp: int, k: nat)
    requires SameSaved(s.regs, s2.regs) && SameBut(s2.regs, t.regs, {RAX, R10, R11, RSP})
    requires s2.regs[RSP] == sp - k * WORD_SIZE && t.regs[RSP] == s2.regs[RSP] + k * WORD_SIZE
    ensures t.regs[RSP] == sp && SameSaved(s.regs, t.regs)
  {}

  // ----- where direct jumps go -----

  /** The circuit is that of a continuation or with in the same frame as root. */
  ghost predicate Here(root: Expr, circuit: Circuit) {
    exists n :: SameFrame(root, n) && (n.Continuation? || n.With?) && circuit == Circuit(Formals(n), n.entry)
  }

  ghost predicate Known(bs: set<nat>, conts: Conts, root: Expr, outside: set<Circuit>) {
    forall b :: b in bs && b in conts ==> Here(root, conts[b]) || conts[b] in outside
  }

  lemma {:induction false} PartShares(root: Expr, e: Expr, p: Expr)
    requires SameFrame(root, e) && p in PartsOf(e)
    ensures SameFrame(root, p)
    decreases Size(root), 1
  {
    SizeOfParts(root);
    if root == e {
      PartItself(PartsOf(e), p);
    } else {
      PartSharesAny(PartsOf(root), e, p);
    }
  }

  lemma {:induction false} PartSharesAny(es: seq<Expr>, e: Expr, p: Expr)
    requires SameFrameAny(es, e) && p in PartsOf(e)
    ensures SameFrameAny(es, p)
    decreases SizeAll(es), 0
  {
    if SameFrame(es[0], e) { PartShares(es[0], e, p); } else { PartSharesAny(es[1..], e, p); }
  }

  lemma {:induction false} PartItself(es: seq<Expr>, p: Expr)
    requires p in es
    ensures SameFrameAny(es, p)
    decreases |es|
  {
    if es[0] != p {
      assert p in es[1..];
      PartItself(es[1..], p);
    }
  }

  lemma {:induction false} AllAnalysed(es: seq<Expr>, env: Env, conts: Conts, dyn: set<nat>, stat: set<nat>)
    requires AnalysedAll(es, env, conts) && ScopedAll(es, dyn, stat)
    ensures forall p :: p in es ==> Analysed(p, env, conts) && Scoped(p, dyn, stat)
    decreases |es|
  {
    hide Analysed, Scoped;
    if es != [] {
      AllAnalysed(es[1..], env, conts, dyn, stat);
      assert forall p :: p in es ==> p == es[0] || p in es[1..];
    }
  }

  /** What is visible to the parts of e. */
  lemma {:induction false} ScopeOfParts(root: Expr, e: Expr, env: Env, conts: Conts, dyn: set<nat>, stat: set<nat>, outside: set<Circuit>) returns (inner: set<nat>)
    requires Analysed(e, env, conts) && Scoped(e, dyn, stat) && SameFrame(root, e) && Known(dyn, conts, root, outside)
    ensures Known(inner, conts, root, outside)
    ensures forall p :: p in PartsOf(e) ==> Analysed(p, env, conts) && Scoped(p, inner, stat)
  {
    hide SameFrame;
    inner := dyn;
    match e
    case Continuation(b, params, _, entry) =>
      inner := dyn + {b} + SetOf(params);
      assert Here(root, Circuit(Formals(e), e.entry));
    case With(b, param, _, entry) =>
      inner := dyn + {b};
      assert Here(root, Circuit(Formals(e), e.entry));
    case Storage(b, args) =>
      inner := dyn + {b};
      AllAnalysed(args, env, conts, inner, stat);
    case Jump(_, args, _) => AllAnalysed(args, env, conts, dyn, stat);
    case Invoke(_, args, _) => AllAnalysed(args, env, conts, dyn, stat);
    case _ =>
  }

  /** A direct jump in a function's frame goes to a continuation or with of that frame, or to one
      that is outside every function. */
  lemma {:induction false} CircuitIsHere(root: Expr, e: Expr, j: Expr, env: Env, conts: Conts, dyn: set<nat>, stat: set<nat>, outside: set<Circuit>)
    requires Analysed(e, env, conts) && Scoped(e, dyn, stat) && SameFrame(root, e) && SameFrame(e, j)
    requires j.Jump? && j.temp in env.circuits && Known(dyn, conts, root, outside) && Known(stat, conts, root, outside)
    ensures Here(root, env.circuits[j.temp]) || env.circuits[j.temp] in outside
    decreases Size(e)
  {
    if e == j {
      if j.target.Continuation? {
        assert j.target in PartsOf(j);
        PartShares(root, j, j.target);
        assert env.circuits[j.temp] == Circuit(Formals(j.target), j.target.entry);
      }
    } else {
      SizeOfParts(e);
      var inner := ScopeOfParts(root, e, env, conts, dyn, stat, outside);
      var p := PartWith(PartsOf(e), j);
      PartShares(root, e, p);
      hide Analysed, Scoped, Known, Here;
      CircuitIsHere(root, p, j, env, conts, inner, stat, outside);
    }
  }

  lemma {:induction false} PartWith(es: seq<Expr>, j: Expr) returns (p: Expr)
    requires SameFrameAny(es, j)
    ensures p in es && SameFrame(p, j) && Size(p) < SizeAll(es)
    decreases |es|
  {
    if SameFrame(es[0], j) { p := es[0]; } else { p := PartWith(es[1..], j); }
  }

  /** After linking, analysis and layout of a function, every direct jump in it goes to a block of the
      same frame, so DirectJumpDelivers applies to it, or out of all functions. */
  lemma {:induction false} DirectJumpHasBlock(g: Expr, j: Expr, env: Env, conts: Conts, stat: set<nat>, outside: set<Circuit>)
    requires g.Function? && Unique(g) && AgreesOn(g, env, conts) && CodePlaced(g, env.places)
    requires LaidOut(g, env.escapes, env.places, env.frames) && Scoped(g.body, SetOf(g.params), stat)
    requires forall b :: b in stat && b in conts ==> conts[b] in outside
    requires SameFrame(g.body, j) && j.Jump? && j.temp in env.circuits && env.circuits[j.temp] !in outside
    ensures exists n, o: int ::
      && SameFrame(g.body, n) && (n.Continuation? || n.With?) && env.circuits[j.temp] == Circuit(Formals(n), n.entry)
      && BlockAt(n, env.escapes, env.places, o)
  {
    hide Analysed, Scoped, LaidOut, SameFrame, BlockAt, AgreesOn, CodePlaced, Unique;
    WholeBody(g, env, conts);
    CircuitIsHere(g.body, g.body, j, env, conts, SetOf(g.params), stat, outside);
    var n :| SameFrame(g.body, n) && (n.Continuation? || n.With?) && env.circuits[j.temp] == Circuit(Formals(n), n.entry);
    var o := ContinuationGeometry(g, n, env.escapes, env.places, env.frames);
  }

  lemma {:induction false} WholeBody(g: Expr, env: Env, conts: Conts)
    requires g.Function? && Unique(g) && AgreesOn(g, env, conts) && CodePlaced(g, env.places)
    requires LaidOut(g, env.escapes, env.places, env.frames)
    ensures Analysed(g.body, env, conts) && SameFrame(g.body, g.body)
    ensures forall b :: b in SetOf(g.params) ==> b !in conts
  {
    BodyAgrees(g, env, conts);
    ParametersAgree(g, env, conts);
    AnalysesAgree(g.body, env, conts);
  }

  // ----- layouts of parts -----

  lemma {:induction false} JumpFlag(j: Expr)
    requires j.Jump?
    ensures BufferFlag(j.target, j.args) in {CONTAINS_NONE, CONTAINS_JUMP, CONTAINS_WITH}
  {
    FlagValues(j.target);
    FlagValuesAny(j.args);
  }

  lemma {:induction false} PartIsLaidOut(e: Expr, j: Expr, escapes: set<nat>, P: Places, F: FrameSizes)
    requires LaidOut(e, escapes, P, F) && SameFrame(e, j)
    ensures LaidOut(j, escapes, P, F)
    decreases Size(e), 1
  {
    SizeOfParts(e);
    if e != j {
      PartsAreLaidOut(e, escapes, P, F);
      hide LaidOut;
      PartIsLaidOutAny(PartsOf(e), j, escapes, P, F);
    }
  }

  lemma {:induction false} PartsAreLaidOut(e: Expr, escapes: set<nat>, P: Places, F: FrameSizes)
    requires LaidOut(e, escapes, P, F)
    ensures LaidOutAll(PartsOf(e), escapes, P, F)
  {
    match e
    case Jump(target, args, _) => assert PartsOf(e)[1..] == args;
    case Invoke(target, args, _) => assert PartsOf(e)[1..] == args;
    case If(c, t, f) =>
      assert PartsOf(e)[1..] == [t, f] && [t, f][1..] == [f] && [f][1..] == [];
      assert LaidOutAll([f], escapes, P, F) && LaidOutAll([t, f], escapes, P, F);
    case Continuation(_, _, body, _) => assert [body][1..] == [];
    case With(_, _, body, _) => assert [body][1..] == [];
    case Constrain(body) => assert [body][1..] == [];
    case _ =>
  }

  lemma {:induction false} PartIsLaidOutAny(es: seq<Expr>, j: Expr, escapes: set<nat>, P: Places, F: FrameSizes)
    requires LaidOutAll(es, escapes, P, F) && SameFrameAny(es, j)
    ensures LaidOut(j, escapes, P, F)
    decreases SizeAll(es), 0
  {
    hide LaidOut;
    if SameFrame(es[0], j) { PartIsLaidOut(es[0], j, escapes, P, F); } else { PartIsLaidOutAny(es[1..], j, escapes, P, F); }
  }
}
