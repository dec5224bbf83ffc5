/** Code generation (bootstrap/x86_64_generator.c): the emitted instructions as functions of the
    expression, and the generator that prepends them to a shared list. */
module Generator {
  import opened Syntax
  import opened Machine

  const CONT_SIZE := 7 * WORD_SIZE
  const CONT_R15 := 6 * WORD_SIZE
  const CONT_R12 := 5 * WORD_SIZE
  const CONT_RBX := 4 * WORD_SIZE
  const CONT_R13 := 3 * WORD_SIZE
  const CONT_R14 := 2 * WORD_SIZE
  const CONT_CIR := 1 * WORD_SIZE
  const CONT_RBP := 0 * WORD_SIZE

  function LoadCode(p: Place, b: nat, offset: int, dest: nat, scratch: nat): seq<Instr> {
    match p
    case FrameRelative(o) => [MovqMdbToReg(o + offset, RBP, dest)]
    case Absolute => [MovqImmToReg(Ref(b, offset), scratch), MovqMdbToReg(0, scratch, dest)]
    case TopRelative(o) => [MovqMdbToReg(o + offset, RSP, dest)]
    case NoPlace => []
  }

  function StoreCode(src: nat, p: Place, b: nat, offset: int, scratch: nat): seq<Instr> {
    match p
    case FrameRelative(o) => [MovqRegToMdb(src, o + offset, RBP)]
    case Absolute => [MovqImmToReg(Ref(b, offset), scratch), MovqRegToMdb(src, 0, scratch)]
    case TopRelative(o) => [MovqRegToMdb(src, o + offset, RSP)]
    case NoPlace => []
  }

  function AddressCode(p: Place, b: nat, dest: nat): seq<Instr> {
    match p
    case FrameRelative(o) => [LeaqMdbToReg(o, RBP, dest)]
    case Absolute => [MovqImmToReg(Ref(b, 0), dest)]
    case TopRelative(o) => [LeaqMdbToReg(o, RSP, dest)]
    case NoPlace => []
  }

  /** cond_push_relative_storage and cond_pop_relative_storage. */
  function ReserveCode(p: Place, n: nat): seq<Instr> {
    if p.TopRelative? then [SubqImmToReg(n * WORD_SIZE, RSP)] else []
  }

  function ReleaseCode(p: Place, n: nat): seq<Instr> {
    if p.TopRelative? then [AddqImmToReg(n * WORD_SIZE, RSP)] else []
  }

  function SaveContinuationCode(p: Place, b: nat, entry: Place, entryBndg: nat): seq<Instr> {
    StoreCode(RBX, p, b, CONT_RBX, R11) + StoreCode(R12, p, b, CONT_R12, R11) +
    StoreCode(R13, p, b, CONT_R13, R11) + StoreCode(R14, p, b, CONT_R14, R11) +
    StoreCode(R15, p, b, CONT_R15, R11) + AddressCode(entry, entryBndg, R10) +
    StoreCode(R10, p, b, CONT_CIR, R11) + StoreCode(RBP, p, b, CONT_RBP, R11)
  }

  /** generate_buffer_to_dest for arguments i, i+1, ..., n-1. */
  function BufferToDest(p: Place, b: nat, i: nat, n: nat, dest: nat, offset: int): seq<Instr>
    decreases n - i
  {
    if i >= n then [] else
      LoadCode(p, b, i * WORD_SIZE, RAX, R10) + [MovqRegToMdb(RAX, offset + i * WORD_SIZE, dest)] +
      BufferToDest(p, b, i + 1, n, dest, offset)
  }

  const ENTER_FUNCTION: seq<Instr> :=
    [PopqReg(R11), PushqReg(R9), PushqReg(R8), PushqReg(RCX), PushqReg(RDX), PushqReg(RSI), PushqReg(RDI),
     PushqReg(R11), PushqReg(RBP), MovqRegToReg(RSP, RBP)]

  const LEAVE_FUNCTION: seq<Instr> :=
    [Leave, PopqReg(R11), AddqImmToReg(6 * WORD_SIZE, RSP), PushqReg(R11), Ret]

  const RESTORE_AND_JUMP: seq<Instr> :=
    [MovqMdbToReg(CONT_RBX, R11, RBX), MovqMdbToReg(CONT_R12, R11, R12), MovqMdbToReg(CONT_R13, R11, R13),
     MovqMdbToReg(CONT_R14, R11, R14), MovqMdbToReg(CONT_R15, R11, R15), MovqMdbToReg(CONT_CIR, R11, R10),
     MovqMdbToReg(CONT_RBP, R11, RBP), JmpToReg(R10)]

  const ARGUMENT_REGISTERS: seq<nat> := [RDI, RSI, RDX, RCX, R8, R9]

  function Min(a: nat, b: nat): nat { if a < b then a else b }

  /** The pops that move the first six arguments into registers, from the i-th on. */
  function PopArguments(i: nat, n: nat): seq<Instr>
    decreases 6 - i
  {
    if i >= 6 || i >= n then [] else [PopqReg(ARGUMENT_REGISTERS[i])] + PopArguments(i + 1, n)
  }

  /** The pushes of buffered arguments n-1, ..., 0 for an invoke that contains a with. */
  function PushArguments(p: Place, b: nat, n: nat): seq<Instr> {
    if n == 0 then [] else
      LoadCode(p, b, (n - 1) * WORD_SIZE, R11, R10) + [PushqReg(R11)] + PushArguments(p, b, n - 1)
  }

  function CallCode(n: nat): seq<Instr> {
    [MovqRegToReg(RAX, R11)] + PopArguments(0, n) + [MovqImmToReg(Lit(0), RAX), CallReg(R11)] +
    (if n > 6 then [AddqImmToReg(WORD_SIZE * (n - 6), RSP)] else [])
  }

  /** How many fresh label bindings the code of e uses. */
  function Labels(e: Expr, env: Env): nat
    decreases e, 1
  {
    match e
    case If(c, t, f) => Labels(c, env) + 1 + Labels(t, env) + 1 + Labels(f, env)
    case Storage(_, args) => LabelsAll(args, env)
    case Function(_, _, body) => 1 + Labels(body, env)
    case Continuation(_, _, body, _) => 1 + Labels(body, env)
    case With(_, _, body, _) => Labels(body, env) + 1
    case Invoke(target, args, _) => LabelsAll(args, env) + Labels(target, env)
    case Jump(target, args, temp) =>
      if temp in env.circuits then
        (if target.Continuation? then Labels(target, env) else 0) +
        (if |env.circuits[temp].params| > 0 then LabelsAll(args, env) else 0)
      else LabelsAll(args, env) + Labels(target, env)
    case Constrain(body) => Labels(body, env)
    case _ => 0
  }

  function LabelsAll(es: seq<Expr>, env: Env): nat
    decreases es, 0
  {
    if es == [] then 0 else Labels(es[0], env) + LabelsAll(es[1..], env)
  }

  /** The instructions of e when its fresh labels are numbered from `lab`. */
  function Code(e: Expr, env: Env, lab: nat): seq<Instr>
    decreases e, 1
  {
    match e
    case Literal(value) => [MovqImmToReg(Lit(value), RAX)]
    case Symbol(b) =>
      if b in env.parameters then LoadCode(env.PlaceOf(b), b, 0, RAX, R11)
      else AddressCode(env.PlaceOf(b), b, RAX)
    case Storage(b, args) =>
      ArgsCode(args, b, 0, R11, env, lab) + AddressCode(env.PlaceOf(b), b, RAX)
    case If(c, t, f) =>
      var alternate := lab + Labels(c, env);
      var end := alternate + 1 + Labels(t, env);
      Code(c, env, lab) + [OrqRegToReg(RAX, RAX), JeRel(alternate)] +
      Code(t, env, alternate + 1) + [JmpRel(end), Label(alternate)] +
      Code(f, env, end + 1) + [Label(end)]
    case Function(b, params, body) =>
      AddressCode(env.PlaceOf(b), b, RAX) + [JmpRel(lab), Label(b)] + ENTER_FUNCTION +
      [SubqImmToReg(env.FrameSize(b), RSP)] + Code(body, env, lab + 1) + LEAVE_FUNCTION + [Label(lab)]
    case Continuation(b, params, body, entry) =>
      (if b in env.escapes then AddressCode(env.PlaceOf(b), b, RAX) + SaveContinuationCode(env.PlaceOf(b), b, env.PlaceOf(entry), entry) else []) +
      [JmpRel(lab), Label(entry)] + Code(body, env, lab + 1) + [Label(lab)]
    case With(b, param, body, entry) =>
      (if b in env.escapes then SaveContinuationCode(env.PlaceOf(b), b, env.PlaceOf(entry), entry) else []) +
      Code(body, env, lab) + [JmpRel(lab + Labels(body, env)), Label(entry)] +
      LoadCode(env.PlaceOf(param), param, 0, RAX, R10) + [Label(lab + Labels(body, env))]
    case Jump(target, args, temp) =>
      if temp in env.circuits then
        var circuit := env.circuits[temp];
        (if target.Continuation? then Code(target, env, lab) else []) +
        (if |circuit.params| > 0 then
          ReserveCode(env.PlaceOf(temp), |args|) +
          ArgsCode(args, temp, 0, R10, env, lab + if target.Continuation? then Labels(target, env) else 0) +
          AddressCode(env.PlaceOf(circuit.params[0]), circuit.params[0], R11) +
          BufferToDest(env.PlaceOf(temp), temp, 0, |args|, R11, 0) +
          ReleaseCode(env.PlaceOf(temp), |args|)
        else []) + [JmpRel(circuit.entry)]
      else
        ReserveCode(env.PlaceOf(temp), |args|) + ArgsCode(args, temp, 0, R10, env, lab) +
        Code(target, env, lab + LabelsAll(args, env)) + [MovqRegToReg(RAX, R11)] +
        BufferToDest(env.PlaceOf(temp), temp, 0, |args|, R11, CONT_SIZE) +
        ReleaseCode(env.PlaceOf(temp), |args|) + RESTORE_AND_JUMP
    case Invoke(target, args, temp) =>
      ReserveCode(env.PlaceOf(temp), |args|) + ArgsCode(args, temp, 0, R10, env, lab) +
      (if BufferFlag(target, args) == CONTAINS_WITH then PushArguments(env.PlaceOf(temp), temp, |args|) else []) +
      Code(target, env, lab + LabelsAll(args, env)) + CallCode(|args|)
    case Constrain(body) => Code(body, env, lab)
  }

  /** Evaluates each argument and stores it in the i-th word of b. */
  function ArgsCode(args: seq<Expr>, b: nat, i: nat, scratch: nat, env: Env, lab: nat): seq<Instr>
    decreases args, 0
  {
    if args == [] then [] else
      Code(args[0], env, lab) + StoreCode(RAX, env.PlaceOf(b), b, i * WORD_SIZE, scratch) +
      ArgsCode(args[1..], b, i + 1, scratch, env, lab + Labels(args[0], env))
  }

  /** generate_program: the code of the expressions one after another. */
  function ProgramCode(es: seq<Expr>, env: Env, lab: nat): seq<Instr> {
    if es == [] then [] else Code(es[0], env, lab) + ProgramCode(es[1..], env, lab + Labels(es[0], env))
  }

  // ----- the code of each kind of expression, spelled out -----

  lemma {:induction false} IfCode(e: Expr, env: Env, lab: nat)
    requires e.If?
    ensures var alternate := lab + Labels(e.condition, env); var end := alternate + 1 + Labels(e.consequent, env);
      && Code(e, env, lab) ==
          Code(e.condition, env, lab) + [OrqRegToReg(RAX, RAX), JeRel(alternate)] + Code(e.consequent, env, alternate + 1) +
          [JmpRel(end), Label(alternate)] + Code(e.alternate, env, end + 1) + [Label(end)]
      && lab + Labels(e, env) == end + 1 + Labels(e.alternate, env)
  {}

  lemma {:induction false} ContinuationCode(e: Expr, env: Env, lab: nat)
    requires e.Continuation?
    ensures Code(e, env, lab) ==
      (if e.bndg in env.escapes
       then AddressCode(env.PlaceOf(e.bndg), e.bndg, RAX) + SaveContinuationCode(env.PlaceOf(e.bndg), e.bndg, env.PlaceOf(e.entry), e.entry)
       else []) + [JmpRel(lab), Label(e.entry)] + Code(e.body, env, lab + 1) + [Label(lab)]
    ensures Labels(e, env) == 1 + Labels(e.body, env)
  {}

  lemma {:induction false} WithCode(e: Expr, env: Env, lab: nat)
    requires e.With?
    ensures Code(e, env, lab) ==
      (if e.bndg in env.escapes then SaveContinuationCode(env.PlaceOf(e.bndg), e.bndg, env.PlaceOf(e.entry), e.entry) else []) +
      Code(e.body, env, lab) + [JmpRel(lab + Labels(e.body, env)), Label(e.entry)] +
      LoadCode(env.PlaceOf(e.param), e.param, 0, RAX, R10) + [Label(lab + Labels(e.body, env))]
    ensures Labels(e, env) == Labels(e.body, env) + 1
  {}

  lemma {:induction false} FunctionCode(e: Expr, env: Env, lab: nat)
    requires e.Function?
    ensures Code(e, env, lab) ==
      AddressCode(env.PlaceOf(e.bndg), e.bndg, RAX) + [JmpRel(lab), Label(e.bndg)] + ENTER_FUNCTION +
      [SubqImmToReg(env.FrameSize(e.bndg), RSP)] + Code(e.body, env, lab + 1) + LEAVE_FUNCTION + [Label(lab)]
    ensures Labels(e, env) == 1 + Labels(e.body, env)
  {}

  lemma {:induction false} InvokeCode(e: Expr, env: Env, lab: nat)
    requires e.Invoke?
    ensures Code(e, env, lab) ==
      ReserveCode(env.PlaceOf(e.temp), |e.args|) + ArgsCode(e.args, e.temp, 0, R10, env, lab) +
      (if BufferFlag(e.target, e.args) == CONTAINS_WITH then PushArguments(env.PlaceOf(e.temp), e.temp, |e.args|) else []) +
      Code(e.target, env, lab + LabelsAll(e.args, env)) + CallCode(|e.args|)
    ensures Labels(e, env) == LabelsAll(e.args, env) + Labels(e.target, env)
  {}

  // ----- the generator -----

  function Reverse(c: seq<Instr>): seq<Instr> {
    if c == [] then [] else Reverse(c[1..]) + [c[0]]
  }

  lemma {:induction false} ReverseAt(c: seq<Instr>, k: nat)
    requires k < |c|
    ensures |Reverse(c)| == |c| && Reverse(c)[k] == c[|c| - 1 - k]
  {
    if |c| > 1 {
      ReverseAt(c[1..], if k < |c| - 1 then k else 0);
    }
  }

  lemma {:induction false} ArgsCodeSplit(args: seq<Expr>, k: nat, b: nat, i: nat, scratch: nat, env: Env, lab: nat)
    requires k < |args|
    ensures ArgsCode(args[..k + 1], b, i, scratch, env, lab) ==
      ArgsCode(args[..k], b, i, scratch, env, lab) + Code(args[k], env, lab + LabelsAll(args[..k], env)) +
      StoreCode(RAX, env.PlaceOf(b), b, (i + k) * WORD_SIZE, scratch)
    ensures LabelsAll(args[..k + 1], env) == LabelsAll(args[..k], env) + Labels(args[k], env)
    decreases k
  {
    hide Code, StoreCode, Labels;
    var tail := args[1..];
    if k == 0 {
      assert args[..1] == [args[0]] && args[..0] == [];
      assert args[..1][1..] == [];
      assert ArgsCode([], b, i + 1, scratch, env, lab + Labels(args[0], env)) == [];
    } else {
      assert args[..k + 1][1..] == tail[..k] && args[..k][1..] == tail[..k - 1] && args[k] == tail[k - 1];
      ArgsCodeSplit(tail, k - 1, b, i + 1, scratch, env, lab + Labels(args[0], env));
    }
  }

  lemma {:induction false} BufferSplit(p: Place, b: nat, i: nat, n: nat, m: nat, dest: nat, offset: int)
    requires i <= n <= m
    ensures BufferToDest(p, b, i, m, dest, offset) == BufferToDest(p, b, i, n, dest, offset) + BufferToDest(p, b, n, m, dest, offset)
    decreases n - i
  {
    hide LoadCode;
    if i < n {
      BufferSplit(p, b, i + 1, n, m, dest, offset);
    }
  }

  lemma {:induction false} PushSplit(p: Place, b: nat, n: nat, k: nat)
    requires k < n
    ensures PushFrom(p, b, n, k + 1) == PushFrom(p, b, n, k) + LoadCode(p, b, (n - 1 - k) * WORD_SIZE, R11, R10) + [PushqReg(R11)]
    ensures PushFrom(p, b, n, n) == PushArguments(p, b, n)
    decreases k
  {
    PushAll(p, b, n);
    hide LoadCode, PushArguments;
    if k > 0 {
      PushSplit(p, b, n - 1, k - 1);
    }
  }

  lemma {:induction false} PushAll(p: Place, b: nat, n: nat)
    ensures PushFrom(p, b, n, n) == PushArguments(p, b, n)
  {
    if n > 0 { PushAll(p, b, n - 1); }
  }

  /** The first k of the pushes of PushArguments. */
  function PushFrom(p: Place, b: nat, n: nat, k: nat): seq<Instr>
    requires k <= n
  {
    if k == 0 then [] else
      LoadCode(p, b, (n - 1) * WORD_SIZE, R11, R10) + [PushqReg(R11)] + PushFrom(p, b, n - 1, k - 1)
  }

  /** Appending x to what was emitted appends it to the part p emitted since o. */
  lemma {:induction false} Later(o: seq<Instr>, p: seq<Instr>, x: seq<Instr>) returns (q: seq<Instr>)
    ensures q == p + x && o + p + x == o + q
  {
    q := p + x;
  }

  lemma {:induction false} TwoMore(o: seq<Instr>, i: Instr, j: Instr)
    ensures o + [i] + [j] == o + [i, j]
  {}

  /** The generator's state: the instruction list, newest first, and the next fresh label. */
  class Emitter {
    const env: Env
    var c: seq<Instr>
    var next: nat

    constructor (env: Env, next: nat)
      ensures this.env == env && this.next == next && Emitted() == []
    {
      this.env, this.next, c := env, next, [];
    }

    ghost function Emitted(): seq<Instr>
      reads this`c
    {
      Reverse(c)
    }

    method Prepend(i: Instr)
      modifies this`c
      ensures Emitted() == old(Emitted()) + [i]
    {
      c := [i] + c;
    }

    method NewLabel() returns (l: nat)
      modifies this`next
      ensures l == old(next) && next == l + 1
    {
      l := next;
      next := next + 1;
    }

    method MakeLoad(b: nat, offset: int, dest: nat, scratch: nat)
      modifies this`c
      ensures Emitted() == old(Emitted()) + LoadCode(env.PlaceOf(b), b, offset, dest, scratch)
    {
      match env.PlaceOf(b)
      case FrameRelative(o) => Prepend(MovqMdbToReg(o + offset, RBP, dest));
      case Absolute =>
        Prepend(MovqImmToReg(Ref(b, offset), scratch));
        Prepend(MovqMdbToReg(0, scratch, dest));
      case TopRelative(o) => Prepend(MovqMdbToReg(o + offset, RSP, dest));
      case NoPlace =>
    }

    method MakeStore(src: nat, b: nat, offset: int, scratch: nat)
      modifies this`c
      ensures Emitted() == old(Emitted()) + StoreCode(src, env.PlaceOf(b), b, offset, scratch)
    {
      match env.PlaceOf(b)
      case FrameRelative(o) => Prepend(MovqRegToMdb(src, o + offset, RBP));
      case Absolute =>
        Prepend(MovqImmToReg(Ref(b, offset), scratch));
        Prepend(MovqRegToMdb(src, 0, scratch));
      case TopRelative(o) => Prepend(MovqRegToMdb(src, o + offset, RSP));
      case NoPlace =>
    }

    method MakeLoadAddress(b: nat, dest: nat)
      modifies this`c
      ensures Emitted() == old(Emitted()) + AddressCode(env.PlaceOf(b), b, dest)
    {
      match env.PlaceOf(b)
      case FrameRelative(o) => Prepend(LeaqMdbToReg(o, RBP, dest));
      case Absolute => Prepend(MovqImmToReg(Ref(b, 0), dest));
      case TopRelative(o) => Prepend(LeaqMdbToReg(o, RSP, dest));
      case NoPlace =>
    }

    method StoreContinuation(b: nat, entry: nat)
      modifies this`c
      ensures Emitted() == old(Emitted()) + SaveContinuationCode(env.PlaceOf(b), b, env.PlaceOf(entry), entry)
    {
      hide StoreCode, AddressCode, Reverse;
      MakeStore(RBX, b, CONT_RBX, R11);
      MakeStore(R12, b, CONT_R12, R11);
      MakeStore(R13, b, CONT_R13, R11);
      MakeStore(R14, b, CONT_R14, R11);
      MakeStore(R15, b, CONT_R15, R11);
      MakeLoadAddress(entry, R10);
      MakeStore(R10, b, CONT_CIR, R11);
      MakeStore(RBP, b, CONT_RBP, R11);
    }

    method CondPushRelativeStorage(temp: nat, n: nat)
      modifies this`c
      ensures Emitted() == old(Emitted()) + ReserveCode(env.PlaceOf(temp), n)
    {
      if env.PlaceOf(temp).TopRelative? {
        Prepend(SubqImmToReg(n * WORD_SIZE, RSP));
      }
    }

    method CondPopRelativeStorage(temp: nat, n: nat)
      modifies this`c
      ensures Emitted() == old(Emitted()) + ReleaseCode(env.PlaceOf(temp), n)
    {
      if env.PlaceOf(temp).TopRelative? {
        Prepend(AddqImmToReg(n * WORD_SIZE, RSP));
      }
    }

    /** Evaluates the arguments and stores them in consecutive words of b. */
    method ArgsInto(args: seq<Expr>, b: nat, scratch: nat)
      modifies this`c, this`next
      ensures Emitted() == old(Emitted()) + ArgsCode(args, b, 0, scratch, env, old(next))
      ensures next == old(next) + LabelsAll(args, env)
      decreases args, 0
    {
      hide Code, StoreCode, Labels, Reverse;
      var offset := 0;
      for i := 0 to |args|
        invariant offset == i * WORD_SIZE
        invariant Emitted() == old(Emitted()) + ArgsCode(args[..i], b, 0, scratch, env, old(next))
        invariant next == old(next) + LabelsAll(args[..i], env)
      {
        ArgsCodeSplit(args, i, b, 0, scratch, env, old(next));
        GenerateExpressions(args[i]);
        MakeStore(RAX, b, offset, scratch);
        offset := offset + WORD_SIZE;
      }
      assert args[..|args|] == args;
    }

    method GenerateBufferToDest(temp: nat, n: nat, dest: nat, offset: int)
      modifies this`c
      ensures Emitted() == old(Emitted()) + BufferToDest(env.PlaceOf(temp), temp, 0, n, dest, offset)
    {
      hide LoadCode, Reverse;
      for i := 0 to n
        invariant Emitted() == old(Emitted()) + BufferToDest(env.PlaceOf(temp), temp, 0, i, dest, offset)
      {
        BufferSplit(env.PlaceOf(temp), temp, 0, i, i + 1, dest, offset);
        MakeLoad(temp, i * WORD_SIZE, RAX, R10);
        Prepend(MovqRegToMdb(RAX, offset + i * WORD_SIZE, dest));
      }
    }

    method EmitAll(code: seq<Instr>)
      modifies this`c
      ensures Emitted() == old(Emitted()) + code
    {
      hide Reverse;
      for i := 0 to |code|
        invariant Emitted() == old(Emitted()) + code[..i]
      {
        Prepend(code[i]);
        assert code[..i + 1] == code[..i] + [code[i]];
      }
      assert code[..|code|] == code;
    }

    method GenerateExpressions(n: Expr)
      modifies this`c, this`next
      ensures Emitted() == old(Emitted()) + Code(n, env, old(next))
      ensures next == old(next) + Labels(n, env)
      decreases n, 1
    {
      hide Reverse, LoadCode, AddressCode, ArgsCode;
      match n
      case Literal(value) => Prepend(MovqImmToReg(Lit(value), RAX));
      case Symbol(b) =>
        if b in env.parameters {
          MakeLoad(b, 0, RAX, R11);
        } else {
          MakeLoadAddress(b, RAX);
        }
      case Storage(b, args) =>
        ArgsInto(args, b, R11);
        MakeLoadAddress(b, RAX);
      case If(_, _, _) => SgenerateIfs(n);
      case Function(_, _, _) => SgenerateFunctions(n);
      case Continuation(_, _, _, _) => SgenerateContinuations(n);
      case With(_, _, _, _) => SgenerateWiths(n);
      case Jump(_, _, _) => SgenerateJumps(n);
      case Invoke(_, _, _) => SgenerateInvokes(n);
      case Constrain(body) => GenerateExpressions(body);
    }

    method SgenerateIfs(n: Expr)
      requires n.If?
      modifies this`c, this`next
      ensures Emitted() == old(Emitted()) + Code(n, env, old(next))
      ensures next == old(next) + Labels(n, env)
      decreases n, 0
    {
      hide Reverse, Emitted, Code, Labels;
      IfCode(n, env, next);
      ghost var o, l := Emitted(), next;
      GenerateExpressions(n.condition);
      ghost var p := Code(n.condition, env, l);
      Prepend(OrqRegToReg(RAX, RAX));
      var alternate := NewLabel();
      Prepend(JeRel(alternate));
      TwoMore(o + p, OrqRegToReg(RAX, RAX), JeRel(alternate));
      p := Later(o, p, [OrqRegToReg(RAX, RAX), JeRel(alternate)]);
      GenerateExpressions(n.consequent);
      p := Later(o, p, Code(n.consequent, env, alternate + 1));
      var end := NewLabel();
      Prepend(JmpRel(end));
      Prepend(Label(alternate));
      TwoMore(o + p, JmpRel(end), Label(alternate));
      p := Later(o, p, [JmpRel(end), Label(alternate)]);
      GenerateExpressions(n.alternate);
      p := Later(o, p, Code(n.alternate, env, end + 1));
      Prepend(Label(end));
      p := Later(o, p, [Label(end)]);
    }

    method SgenerateContinuations(n: Expr)
      requires n.Continuation?
      modifies this`c, this`next
      ensures Emitted() == old(Emitted()) + Code(n, env, old(next))
      ensures next == old(next) + Labels(n, env)
      decreases n, 0
    {
      hide Reverse, Emitted, AddressCode, SaveContinuationCode, Code, Labels;
      ContinuationCode(n, env, next);
      ghost var o, p := Emitted(), [];
      if n.bndg in env.escapes {
        MakeLoadAddress(n.bndg, RAX);
        StoreContinuation(n.bndg, n.entry);
        p := Later(o, AddressCode(env.PlaceOf(n.bndg), n.bndg, RAX), SaveContinuationCode(env.PlaceOf(n.bndg), n.bndg, env.PlaceOf(n.entry), n.entry));
      }
      assert Emitted() == o + p;
      var after := NewLabel();
      Prepend(JmpRel(after));
      Prepend(Label(n.entry));
      TwoMore(o + p, JmpRel(after), Label(n.entry));
      p := Later(o, p, [JmpRel(after), Label(n.entry)]);
      GenerateExpressions(n.body);
      p := Later(o, p, Code(n.body, env, after + 1));
      Prepend(Label(after));
      p := Later(o, p, [Label(after)]);
    }

    method SgenerateWiths(n: Expr)
      requires n.With?
      modifies this`c, this`next
      ensures Emitted() == old(Emitted()) + Code(n, env, old(next))
      ensures next == old(next) + Labels(n, env)
      decreases n, 0
    {
      hide Reverse, Emitted, LoadCode, SaveContinuationCode, Code, Labels;
      WithCode(n, env, next);
      ghost var o, p, l := Emitted(), [], next;
      if n.bndg in env.escapes {
        StoreContinuation(n.bndg, n.entry);
        p := SaveContinuationCode(env.PlaceOf(n.bndg), n.bndg, env.PlaceOf(n.entry), n.entry);
      }
      assert Emitted() == o + p;
      GenerateExpressions(n.body);
      p := Later(o, p, Code(n.body, env, l));
      var end := NewLabel();
      Prepend(JmpRel(end));
      Prepend(Label(n.entry));
      TwoMore(o + p, JmpRel(end), Label(n.entry));
      p := Later(o, p, [JmpRel(end), Label(n.entry)]);
      MakeLoad(n.param, 0, RAX, R10);
      p := Later(o, p, LoadCode(env.PlaceOf(n.param), n.param, 0, RAX, R10));
      Prepend(Label(end));
      p := Later(o, p, [Label(end)]);
    }

    method SgenerateJumps(n: Expr)
      requires n.Jump?
      modifies this`c, this`next
      ensures Emitted() == old(Emitted()) + Code(n, env, old(next))
      ensures next == old(next) + Labels(n, env)
      decreases n, 0
    {
      hide Reverse, Emitted, ArgsCode, BufferToDest, AddressCode, ReserveCode, ReleaseCode;
      ghost var o, p, l := Emitted(), [], next;
      if n.temp in env.circuits {
        var circuit := env.circuits[n.temp];
        if n.target.Continuation? {
          GenerateExpressions(n.target);
          p := Code(n.target, env, l);
        }
        assert Emitted() == o + p;
        if |circuit.params| > 0 {
          ghost var q := PassArguments(n, circuit.params[0]);
          p := Later(o, p, q);
        } else {
          p := Later(o, p, []);
        }
        assert Emitted() == o + p;
        Prepend(JmpRel(circuit.entry));
        p := Later(o, p, [JmpRel(circuit.entry)]);
      } else {
        ghost var q := LeaveThroughBuffer(n);
      }
    }

    /** The arguments of a short-circuited jump, buffered and then moved to the parameters. */
    method PassArguments(n: Expr, first: nat) returns (ghost p: seq<Instr>)
      requires n.Jump?
      modifies this`c, this`next
      ensures Emitted() == old(Emitted()) + p && next == old(next) + LabelsAll(n.args, env)
      ensures p ==
        ReserveCode(env.PlaceOf(n.temp), |n.args|) + ArgsCode(n.args, n.temp, 0, R10, env, old(next)) +
        AddressCode(env.PlaceOf(first), first, R11) + BufferToDest(env.PlaceOf(n.temp), n.temp, 0, |n.args|, R11, 0) +
        ReleaseCode(env.PlaceOf(n.temp), |n.args|)
      decreases n, -1
    {
      hide Reverse, Emitted, ArgsCode, BufferToDest, AddressCode, ReserveCode, ReleaseCode;
      ghost var o, l := Emitted(), next;
      CondPushRelativeStorage(n.temp, |n.args|);
      p := ReserveCode(env.PlaceOf(n.temp), |n.args|);
      ArgsInto(n.args, n.temp, R10);
      p := Later(o, p, ArgsCode(n.args, n.temp, 0, R10, env, l));
      MakeLoadAddress(first, R11);
      p := Later(o, p, AddressCode(env.PlaceOf(first), first, R11));
      GenerateBufferToDest(n.temp, |n.args|, R11, 0);
      p := Later(o, p, BufferToDest(env.PlaceOf(n.temp), n.temp, 0, |n.args|, R11, 0));
      CondPopRelativeStorage(n.temp, |n.args|);
      p := Later(o, p, ReleaseCode(env.PlaceOf(n.temp), |n.args|));
    }

    /** A jump through a continuation's buffer. */
    method LeaveThroughBuffer(n: Expr) returns (ghost p: seq<Instr>)
      requires n.Jump?
      modifies this`c, this`next
      ensures Emitted() == old(Emitted()) + p && next == old(next) + LabelsAll(n.args, env) + Labels(n.target, env)
      ensures p ==
        ReserveCode(env.PlaceOf(n.temp), |n.args|) + ArgsCode(n.args, n.temp, 0, R10, env, old(next)) +
        Code(n.target, env, old(next) + LabelsAll(n.args, env)) + [MovqRegToReg(RAX, R11)] +
        BufferToDest(env.PlaceOf(n.temp), n.temp, 0, |n.args|, R11, CONT_SIZE) +
        ReleaseCode(env.PlaceOf(n.temp), |n.args|) + RESTORE_AND_JUMP
      decreases n, -1
    {
      hide Reverse, Emitted, ArgsCode, BufferToDest, ReserveCode, ReleaseCode, Code;
      ghost var o, l := Emitted(), next;
      CondPushRelativeStorage(n.temp, |n.args|);
      p := ReserveCode(env.PlaceOf(n.temp), |n.args|);
      ArgsInto(n.args, n.temp, R10);
      p := Later(o, p, ArgsCode(n.args, n.temp, 0, R10, env, l));
      GenerateExpressions(n.target);
      p := Later(o, p, Code(n.target, env, l + LabelsAll(n.args, env)));
      Prepend(MovqRegToReg(RAX, R11));
      p := Later(o, p, [MovqRegToReg(RAX, R11)]);
      GenerateBufferToDest(n.temp, |n.args|, R11, CONT_SIZE);
      p := Later(o, p, BufferToDest(env.PlaceOf(n.temp), n.temp, 0, |n.args|, R11, CONT_SIZE));
      CondPopRelativeStorage(n.temp, |n.args|);
      p := Later(o, p, ReleaseCode(env.PlaceOf(n.temp), |n.args|));
      EmitAll(RESTORE_AND_JUMP);
      p := Later(o, p, RESTORE_AND_JUMP);
    }

    method SgenerateFunctions(n: Expr)
      requires n.Function?
      modifies this`c, this`next
      ensures Emitted() == old(Emitted()) + Code(n, env, old(next))
      ensures next == old(next) + Labels(n, env)
      decreases n, 0
    {
      hide Reverse, Emitted, AddressCode, ENTER_FUNCTION, LEAVE_FUNCTION, Code, Labels;
      FunctionCode(n, env, next);
      ghost var o := Emitted();
      MakeLoadAddress(n.bndg, RAX);
      ghost var p := AddressCode(env.PlaceOf(n.bndg), n.bndg, RAX);
      var after := NewLabel();
      Prepend(JmpRel(after));
      Prepend(Label(n.bndg));
      TwoMore(o + p, JmpRel(after), Label(n.bndg));
      p := Later(o, p, [JmpRel(after), Label(n.bndg)]);
      EmitAll(ENTER_FUNCTION);
      p := Later(o, p, ENTER_FUNCTION);
      Prepend(SubqImmToReg(env.FrameSize(n.bndg), RSP));
      p := Later(o, p, [SubqImmToReg(env.FrameSize(n.bndg), RSP)]);
      GenerateExpressions(n.body);
      p := Later(o, p, Code(n.body, env, after + 1));
      EmitAll(LEAVE_FUNCTION);
      p := Later(o, p, LEAVE_FUNCTION);
      Prepend(Label(after));
      p := Later(o, p, [Label(after)]);
    }

    method SgenerateInvokes(n: Expr)
      requires n.Invoke?
      modifies this`c, this`next
      ensures Emitted() == old(Emitted()) + Code(n, env, old(next))
      ensures next == old(next) + Labels(n, env)
      decreases n, 0
    {
      hide Reverse, ArgsCode, ReserveCode, LoadCode, PushArguments, PopArguments, Code, Labels, CallCode;
      InvokeCode(n, env, next);
      CondPushRelativeStorage(n.temp, |n.args|);
      ArgsInto(n.args, n.temp, R10);
      if BufferFlag(n.target, n.args) == CONTAINS_WITH {
        PushBuffer(n.temp, |n.args|);
      }
      GenerateExpressions(n.target);
      CallFunction(|n.args|);
    }

    /** Pushes the buffered arguments, the last one first. */
    method PushBuffer(temp: nat, n: nat)
      modifies this`c
      ensures Emitted() == old(Emitted()) + PushArguments(env.PlaceOf(temp), temp, n)
    {
      hide Reverse, LoadCode, PushArguments, PushFrom;
      var offset := n * WORD_SIZE;
      ghost var k := 0;
      PushAll(env.PlaceOf(temp), temp, n);
      NoPushes(env.PlaceOf(temp), temp, n);
      while offset != 0
        invariant k <= n && offset == (n - k) * WORD_SIZE
        invariant Emitted() == old(Emitted()) + PushFrom(env.PlaceOf(temp), temp, n, k)
        decreases offset
      {
        PushSplit(env.PlaceOf(temp), temp, n, k);
        offset := offset - WORD_SIZE;
        MakeLoad(temp, offset, R11, R10);
        Prepend(PushqReg(R11));
        k := k + 1;
      }
    }

    method CallFunction(n: nat)
      modifies this`c
      ensures Emitted() == old(Emitted()) + CallCode(n)
    {
      hide Reverse, Emitted, PopArguments;
      ghost var o := Emitted();
      Prepend(MovqRegToReg(RAX, R11));
      ghost var p := [MovqRegToReg(RAX, R11)];
      PopRegisters(n);
      p := Later(o, p, PopArguments(0, n));
      Prepend(MovqImmToReg(Lit(0), RAX));
      Prepend(CallReg(R11));
      TwoMore(o + p, MovqImmToReg(Lit(0), RAX), CallReg(R11));
      p := Later(o, p, [MovqImmToReg(Lit(0), RAX), CallReg(R11)]);
      if n > 6 {
        Prepend(AddqImmToReg(WORD_SIZE * (n - 6), RSP));
        p := Later(o, p, [AddqImmToReg(WORD_SIZE * (n - 6), RSP)]);
      } else {
        p := Later(o, p, []);
      }
    }

    method PopRegisters(n: nat)
      modifies this`c
      ensures Emitted() == old(Emitted()) + PopArguments(0, n)
    {
      hide Reverse, Emitted;
      ghost var o, p := Emitted(), [];
      assert Emitted() == o + p;
      if n > 0 { Prepend(PopqReg(RDI)); p := Later(o, p, [PopqReg(RDI)]); }
      if n > 1 { Prepend(PopqReg(RSI)); p := Later(o, p, [PopqReg(RSI)]); }
      if n > 2 { Prepend(PopqReg(RDX)); p := Later(o, p, [PopqReg(RDX)]); }
      if n > 3 { Prepend(PopqReg(RCX)); p := Later(o, p, [PopqReg(RCX)]); }
      if n > 4 { Prepend(PopqReg(R8)); p := Later(o, p, [PopqReg(R8)]); }
      if n > 5 { Prepend(PopqReg(R9)); p := Later(o, p, [PopqReg(R9)]); }
      PopsSpelledOut(n);
    }

    /** The finished program, in order. */
    method GenerateProgram(exprs: seq<Expr>) returns (program: seq<Instr>)
      requires Emitted() == []
      modifies this`c, this`next
      ensures program == ProgramCode(exprs, env, old(next))
    {
      hide Reverse, Code, Labels;
      for i := 0 to |exprs|
        invariant Emitted() == ProgramCode(exprs[..i], env, old(next))
        invariant next == old(next) + LabelsAll(exprs[..i], env)
      {
        ProgramSplit(exprs, i, env, old(next));
        GenerateExpressions(exprs[i]);
      }
      assert exprs[..|exprs|] == exprs;
      program := Reverse(c);
    }
  }

  lemma {:induction false} NoPushes(p: Place, b: nat, n: nat)
    ensures PushFrom(p, b, n, 0) == []
  {}

  lemma {:induction false} PopsSpelledOut(n: nat)
    ensures PopArguments(0, n) == [PopqReg(RDI), PopqReg(RSI), PopqReg(RDX), PopqReg(RCX), PopqReg(R8), PopqReg(R9)][..Min(n, 6)]
  {
    PopsFrom(0, n);
  }

  lemma {:induction false} PopsFrom(i: nat, n: nat)
    requires i <= 6
    ensures PopArguments(i, n) == [PopqReg(RDI), PopqReg(RSI), PopqReg(RDX), PopqReg(RCX), PopqReg(R8), PopqReg(R9)][Min(i, n)..][..Min(n, 6) - Min(Min(i, n), Min(n, 6))]
    decreases 6 - i
  {
    if i < 6 && i < n {
      PopsFrom(i + 1, n);
    }
  }

  lemma {:induction false} ProgramSplit(es: seq<Expr>, k: nat, env: Env, lab: nat)
    requires k < |es|
    ensures ProgramCode(es[..k + 1], env, lab) == ProgramCode(es[..k], env, lab) + Code(es[k], env, lab + LabelsAll(es[..k], env))
    ensures LabelsAll(es[..k + 1], env) == LabelsAll(es[..k], env) + Labels(es[k], env)
    decreases k
  {
    hide Code, Labels;
    var tail := es[1..];
    if k == 0 {
      assert es[..1] == [es[0]] && es[..0] == [] && es[..1][1..] == [];
      assert ProgramCode([], env, lab + Labels(es[0], env)) == [];
    } else {
      assert es[..k + 1][1..] == tail[..k] && es[..k][1..] == tail[..k - 1] && es[k] == tail[k - 1];
      ProgramSplit(tail, k - 1, env, lab + Labels(es[0], env));
    }
  }
}
