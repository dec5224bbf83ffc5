/** Whole programs: every label is emitted once, every function has its code where linking says,
    and so the jump-free functions of any program that passed the analyses run as they mean. */
module Program {
  import opened Common
  import opened Syntax
  import opened Machine
  import opened Generator
  import opened Semantics
  import opened Execution
  import opened Codegen
  import opened Frames
  import opened Escapes

  // ----- labels are distinct -----

  /** The bindings that e's own labels carry: functions and the entries of continuations. */
  function Marks(e: Expr): set<nat>
    decreases e, 1
  {
    match e
    case If(c, t, f) => Marks(c) + Marks(t) + Marks(f)
    case Function(b, _, body) => {b} + Marks(body)
    case Continuation(_, _, body, entry) => {entry} + Marks(body)
    case With(_, _, body, entry) => {entry} + Marks(body)
    case Storage(_, args) => MarksAll(args)
    case Jump(target, args, _) => Marks(target) + MarksAll(args)
    case Invoke(target, args, _) => Marks(target) + MarksAll(args)
    case Constrain(body) => Marks(body)
    case _ => {}
  }

  function MarksAll(es: seq<Expr>): set<nat>
    decreases es, 0
  {
    if es == [] then {} else Marks(es[0]) + MarksAll(es[1..])
  }

  ghost predicate MarkedOnce(e: Expr)
    decreases e, 1
  {
    match e
    case If(c, t, f) =>
      && MarkedOnce(c) && MarkedOnce(t) && MarkedOnce(f)
      && Marks(c) !! Marks(t) && Marks(c) !! Marks(f) && Marks(t) !! Marks(f)
    case Function(b, _, body) => b !in Marks(body) && MarkedOnce(body)
    case Continuation(_, _, body, entry) => entry !in Marks(body) && MarkedOnce(body)
    case With(_, _, body, entry) => entry !in Marks(body) && MarkedOnce(body)
    case Storage(_, args) => MarkedOnceAll(args)
    case Jump(target, args, _) => MarkedOnce(target) && MarkedOnceAll(args) && Marks(target) !! MarksAll(args)
    case Invoke(target, args, _) => MarkedOnce(target) && MarkedOnceAll(args) && Marks(target) !! MarksAll(args)
    case Constrain(body) => MarkedOnce(body)
    case _ => true
  }

  ghost predicate MarkedOnceAll(es: seq<Expr>)
    decreases es, 0
  {
    es == [] || (MarkedOnce(es[0]) && MarkedOnceAll(es[1..]) && Marks(es[0]) !! MarksAll(es[1..]))
  }

  ghost predicate DistinctLabels(code: seq<Instr>) {
    forall i, j :: 0 <= i < j < |code| && code[i].Label? && code[j].Label? ==> code[i].name != code[j].name
  }

  /** The labels of the code are distinct and among bs. */
  ghost predicate LabelsIn(code: seq<Instr>, bs: set<nat>) {
    && DistinctLabels(code)
    && forall i :: 0 <= i < |code| && code[i].Label? ==> code[i].name in bs
  }

  lemma {:induction false} LabelsThen(a: seq<Instr>, A: set<nat>, b: seq<Instr>, B: set<nat>) returns (c: seq<Instr>, C: set<nat>)
    requires LabelsIn(a, A) && LabelsIn(b, B) && A !! B
    ensures c == a + b && C == A + B && LabelsIn(c, C)
  {
    c, C := a + b, A + B;
  }

  predicate Numbered(b: nat, lo: nat, hi: nat) { lo <= b < hi }

  function Range(lo: nat, hi: nat): set<nat> { set b: nat | lo <= b < hi && Numbered(b, lo, hi) }

  /** Where the labels of e's code come from. */
  function Allowed(e: Expr, env: Env, lab: nat): set<nat> { Marks(e) + Range(lab, lab + Labels(e, env)) }

  function AllowedAll(es: seq<Expr>, env: Env, lab: nat): set<nat> { MarksAll(es) + Range(lab, lab + LabelsAll(es, env)) }

  ghost predicate Older(bs: set<nat>, lab: nat) {
    forall b :: b in bs ==> b < lab
  }

  lemma {:induction false} Widen(code: seq<Instr>, A: set<nat>, B: set<nat>)
    requires LabelsIn(code, A) && A <= B
    ensures LabelsIn(code, B)
  {}

  lemma {:induction false} PieceLabels(p: Place, b: nat, offset: int, r: nat, scratch: nat, n: nat)
    ensures LabelsIn(LoadCode(p, b, offset, r, scratch), {}) && LabelsIn(StoreCode(r, p, b, offset, scratch), {})
    ensures LabelsIn(AddressCode(p, b, r), {}) && LabelsIn(ReserveCode(p, n), {}) && LabelsIn(ReleaseCode(p, n), {})
  {}

  lemma {:induction false} FixedLabels(n: nat)
    ensures LabelsIn(ENTER_FUNCTION, {}) && LabelsIn(LEAVE_FUNCTION, {}) && LabelsIn(RESTORE_AND_JUMP, {})
    ensures LabelsIn(CallCode(n), {})
  {
    PopLabels(0, n);
    hide PopArguments;
    var c, C := LabelsThen([MovqRegToReg(RAX, R11)], {}, PopArguments(0, n), {});
  }

  lemma {:induction false} PopLabels(i: nat, n: nat)
    ensures LabelsIn(PopArguments(i, n), {})
    decreases 6 - i
  {
    if i < 6 && i < n {
      PopLabels(i + 1, n);
    }
  }

  lemma {:induction false} PushLabels(p: Place, b: nat, n: nat)
    ensures LabelsIn(PushArguments(p, b, n), {})
  {
    hide LoadCode;
    if n > 0 {
      PieceLabels(p, b, (n - 1) * WORD_SIZE, R11, R10, 0);
      PushLabels(p, b, n - 1);
      var c, C := LabelsThen(LoadCode(p, b, (n - 1) * WORD_SIZE, R11, R10), {}, [PushqReg(R11)], {});
      c, C := LabelsThen(c, C, PushArguments(p, b, n - 1), {});
    }
  }

  lemma {:induction false} DestLabels(p: Place, b: nat, i: nat, n: nat, dest: nat, offset: int)
    ensures LabelsIn(BufferToDest(p, b, i, n, dest, offset), {})
    decreases n - i
  {
    hide LoadCode;
    if i < n {
      PieceLabels(p, b, i * WORD_SIZE, RAX, R10, 0);
      DestLabels(p, b, i + 1, n, dest, offset);
      var c, C := LabelsThen(LoadCode(p, b, i * WORD_SIZE, RAX, R10), {}, [MovqRegToMdb(RAX, offset + i * WORD_SIZE, dest)], {});
      c, C := LabelsThen(c, C, BufferToDest(p, b, i + 1, n, dest, offset), {});
    }
  }

  lemma {:induction false} SaveLabels(p: Place, b: nat, entry: Place, entryBndg: nat)
    ensures LabelsIn(SaveContinuationCode(p, b, entry, entryBndg), {})
  {
    PieceLabels(p, b, CONT_RBX, RBX, R11, 0);
    PieceLabels(p, b, CONT_R12, R12, R11, 0);
    PieceLabels(p, b, CONT_R13, R13, R11, 0);
    PieceLabels(p, b, CONT_R14, R14, R11, 0);
    PieceLabels(p, b, CONT_R15, R15, R11, 0);
    PieceLabels(entry, entryBndg, 0, R10, R11, 0);
    PieceLabels(p, b, CONT_CIR, R10, R11, 0);
    PieceLabels(p, b, CONT_RBP, RBP, R11, 0);
    hide StoreCode, AddressCode, LabelsIn;
    var c, C := LabelsThen(StoreCode(RBX, p, b, CONT_RBX, R11), {}, StoreCode(R12, p, b, CONT_R12, R11), {});
    c, C := LabelsThen(c, C, StoreCode(R13, p, b, CONT_R13, R11), {});
    c, C := LabelsThen(c, C, StoreCode(R14, p, b, CONT_R14, R11), {});
    c, C := LabelsThen(c, C, StoreCode(R15, p, b, CONT_R15, R11), {});
    c, C := LabelsThen(c, C, AddressCode(entry, entryBndg, R10), {});
    c, C := LabelsThen(c, C, StoreCode(R10, p, b, CONT_CIR, R11), {});
    c, C := LabelsThen(c, C, StoreCode(RBP, p, b, CONT_RBP, R11), {});
  }

  /** A jump to a label or a test, and the label itself. */
  lemma {:induction false} JumpLabels(a: nat, b: nat)
    ensures LabelsIn([], {}) && LabelsIn([JmpRel(a)], {}) && LabelsIn([OrqRegToReg(RAX, RAX), JeRel(a)], {})
    ensures LabelsIn([Label(a)], {a}) && LabelsIn([JmpRel(b), Label(a)], {a}) && LabelsIn([MovqRegToReg(RAX, R11)], {})
  {}

  /** Every label in the code of an expression is emitted once. */
  lemma {:induction false} CodeLabels(e: Expr, env: Env, lab: nat)
    requires MarkedOnce(e) && Older(Marks(e), lab)
    ensures LabelsIn(Code(e, env, lab), Allowed(e, env, lab))
    decreases e, 2
  {
    match e
    case Literal(_) =>
    case Symbol(b) => PieceLabels(env.PlaceOf(b), b, 0, RAX, R11, 0);
    case If(_, _, _) => IfLabels(e, env, lab);
    case Function(_, _, _) => FunctionLabels(e, env, lab);
    case Continuation(_, _, _, _) => ContinuationLabels(e, env, lab);
    case With(_, _, _, _) => WithLabels(e, env, lab);
    case Storage(b, args) =>
      ArgsLabels(args, b, 0, R11, env, lab);
      PieceLabels(env.PlaceOf(b), b, 0, RAX, R11, 0);
      hide ArgsCode, AddressCode;
      var c, C := LabelsThen(ArgsCode(args, b, 0, R11, env, lab), AllowedAll(args, env, lab), AddressCode(env.PlaceOf(b), b, RAX), {});
    case Jump(_, _, temp) =>
      if temp in env.circuits {
        DirectJumpLabels(e, env, lab);
      } else {
        IndirectJumpLabels(e, env, lab);
      }
    case Invoke(_, _, _) => InvokeLabels(e, env, lab);
    case Constrain(body) => CodeLabels(body, env, lab);
  }

  lemma {:induction false} IfApart(e: Expr, env: Env, lab: nat)
    requires e.If? && MarkedOnce(e) && Older(Marks(e), lab)
    ensures var alternate := lab + Labels(e.condition, env); var end := alternate + 1 + Labels(e.consequent, env);
      var A, B, D := Allowed(e.condition, env, lab), Allowed(e.consequent, env, alternate + 1), Allowed(e.alternate, env, end + 1);
      && A !! B && A + B !! {alternate} && A + B + {alternate} !! D && A + B + {alternate} + D !! {end}
      && A + B + {alternate} + D + {end} <= Allowed(e, env, lab)
      && MarkedOnce(e.condition) && MarkedOnce(e.consequent) && MarkedOnce(e.alternate)
      && Older(Marks(e.condition), lab) && Older(Marks(e.consequent), alternate + 1) && Older(Marks(e.alternate), end + 1)
  {}

  lemma {:induction false} IfLabels(e: Expr, env: Env, lab: nat)
    requires e.If? && MarkedOnce(e) && Older(Marks(e), lab)
    ensures LabelsIn(Code(e, env, lab), Allowed(e, env, lab))
    decreases e, 1
  {
    hide *;
    IfCode(e, env, lab);
    var alternate := lab + Labels(e.condition, env);
    var end := alternate + 1 + Labels(e.consequent, env);
    var A, B, D := Allowed(e.condition, env, lab), Allowed(e.consequent, env, alternate + 1), Allowed(e.alternate, env, end + 1);
    IfApart(e, env, lab);
    CodeLabels(e.condition, env, lab);
    CodeLabels(e.consequent, env, alternate + 1);
    CodeLabels(e.alternate, env, end + 1);
    JumpLabels(alternate, end);
    JumpLabels(end, end);
    var c, C := LabelsThen(Code(e.condition, env, lab), A, [OrqRegToReg(RAX, RAX), JeRel(alternate)], {});
    assert C == A;
    c, C := LabelsThen(c, C, Code(e.consequent, env, alternate + 1), B);
    c, C := LabelsThen(c, C, [JmpRel(end), Label(alternate)], {alternate});
    c, C := LabelsThen(c, C, Code(e.alternate, env, end + 1), D);
    c, C := LabelsThen(c, C, [Label(end)], {end});
    Widen(c, C, Allowed(e, env, lab));
  }

  /** A function or continuation: its own mark, its body's labels and the label after it. */
  lemma {:induction false} BodyApart(e: Expr, mark: nat, env: Env, lab: nat)
    requires (e.Function? && mark == e.bndg) || (e.Continuation? && mark == e.entry)
    requires MarkedOnce(e) && Older(Marks(e), lab)
    ensures MarkedOnce(e.body) && Older(Marks(e.body), lab + 1)
    ensures var B := Allowed(e.body, env, lab + 1);
      {mark} !! B && {mark} + B !! {lab} && {mark} + B + {lab} <= Allowed(e, env, lab)
  {
    assert mark in Marks(e);
  }

  lemma {:induction false} WithApart(e: Expr, env: Env, lab: nat)
    requires e.With? && MarkedOnce(e) && Older(Marks(e), lab)
    ensures MarkedOnce(e.body) && Older(Marks(e.body), lab)
    ensures var B := Allowed(e.body, env, lab); var end := lab + Labels(e.body, env);
      {e.entry} !! B && B + {e.entry} !! {end} && B + {e.entry} + {end} <= Allowed(e, env, lab)
  {
    assert e.entry in Marks(e);
  }

  lemma {:induction false} SubLabels(n: int)
    ensures LabelsIn([SubqImmToReg(n, RSP)], {})
  {}

  lemma {:induction false} FunctionLabels(e: Expr, env: Env, lab: nat)
    requires e.Function? && MarkedOnce(e) && Older(Marks(e), lab)
    ensures LabelsIn(Code(e, env, lab), Allowed(e, env, lab))
    decreases e, 1
  {
    hide *;
    FunctionCode(e, env, lab);
    var B := Allowed(e.body, env, lab + 1);
    BodyApart(e, e.bndg, env, lab);
    CodeLabels(e.body, env, lab + 1);
    JumpLabels(e.bndg, lab);
    JumpLabels(lab, lab);
    FixedLabels(0);
    PieceLabels(env.PlaceOf(e.bndg), e.bndg, 0, RAX, R11, 0);
    SubLabels(env.FrameSize(e.bndg));
    var c, C := LabelsThen(AddressCode(env.PlaceOf(e.bndg), e.bndg, RAX), {}, [JmpRel(lab), Label(e.bndg)], {e.bndg});
    c, C := LabelsThen(c, C, ENTER_FUNCTION, {});
    c, C := LabelsThen(c, C, [SubqImmToReg(env.FrameSize(e.bndg), RSP)], {});
    assert C == {e.bndg};
    c, C := LabelsThen(c, C, Code(e.body, env, lab + 1), B);
    c, C := LabelsThen(c, C, LEAVE_FUNCTION, {});
    assert C == {e.bndg} + B;
    c, C := LabelsThen(c, C, [Label(lab)], {lab});
    Widen(c, C, Allowed(e, env, lab));
  }

  lemma {:induction false} ContinuationLabels(e: Expr, env: Env, lab: nat)
    requires e.Continuation? && MarkedOnce(e) && Older(Marks(e), lab)
    ensures LabelsIn(Code(e, env, lab), Allowed(e, env, lab))
    decreases e, 1
  {
    hide *;
    ContinuationCode(e, env, lab);
    var B := Allowed(e.body, env, lab + 1);
    BodyApart(e, e.entry, env, lab);
    CodeLabels(e.body, env, lab + 1);
    JumpLabels(e.entry, lab);
    JumpLabels(lab, lab);
    var p := env.PlaceOf(e.bndg);
    PieceLabels(p, e.bndg, 0, RAX, R11, 0);
    SaveLabels(p, e.bndg, env.PlaceOf(e.entry), e.entry);
    var c: seq<Instr>, C: set<nat> := [], {};
    if e.bndg in env.escapes {
      c, C := LabelsThen(AddressCode(p, e.bndg, RAX), {}, SaveContinuationCode(p, e.bndg, env.PlaceOf(e.entry), e.entry), {});
    }
    c, C := LabelsThen(c, C, [JmpRel(lab), Label(e.entry)], {e.entry});
    assert C == {e.entry};
    c, C := LabelsThen(c, C, Code(e.body, env, lab + 1), B);
    c, C := LabelsThen(c, C, [Label(lab)], {lab});
    Widen(c, C, Allowed(e, env, lab));
  }

  lemma {:induction false} WithLabels(e: Expr, env: Env, lab: nat)
    requires e.With? && MarkedOnce(e) && Older(Marks(e), lab)
    ensures LabelsIn(Code(e, env, lab), Allowed(e, env, lab))
    decreases e, 1
  {
    hide *;
    WithCode(e, env, lab);
    var B := Allowed(e.body, env, lab);
    var end := lab + Labels(e.body, env);
    WithApart(e, env, lab);
    CodeLabels(e.body, env, lab);
    JumpLabels(e.entry, end);
    JumpLabels(end, end);
    PieceLabels(env.PlaceOf(e.param), e.param, 0, RAX, R10, 0);
    SaveLabels(env.PlaceOf(e.bndg), e.bndg, env.PlaceOf(e.entry), e.entry);
    var c: seq<Instr>, C: set<nat> := [], {};
    if e.bndg in env.escapes {
      c := SaveContinuationCode(env.PlaceOf(e.bndg), e.bndg, env.PlaceOf(e.entry), e.entry);
    }
    c, C := LabelsThen(c, C, Code(e.body, env, lab), B);
    c, C := LabelsThen(c, C, [JmpRel(end), Label(e.entry)], {e.entry});
    c, C := LabelsThen(c, C, LoadCode(env.PlaceOf(e.param), e.param, 0, RAX, R10), {});
    assert C == B + {e.entry};
    c, C := LabelsThen(c, C, [Label(end)], {end});
    Widen(c, C, Allowed(e, env, lab));
  }

  lemma {:induction false} HeadApart(es: seq<Expr>, env: Env, lab: nat)
    requires es != [] && MarkedOnceAll(es) && Older(MarksAll(es), lab)
    ensures var mid := lab + Labels(es[0], env); var A, B := Allowed(es[0], env, lab), AllowedAll(es[1..], env, mid);
      && A !! B && A + B <= AllowedAll(es, env, lab)
      && MarkedOnce(es[0]) && MarkedOnceAll(es[1..]) && Older(Marks(es[0]), lab) && Older(MarksAll(es[1..]), mid)
  {}

  lemma {:induction false} NoLabels(env: Env, lab: nat)
    ensures AllowedAll([], env, lab) == {}
  {}

  lemma {:induction false} ArgsLabels(es: seq<Expr>, b: nat, i: nat, scratch: nat, env: Env, lab: nat)
    requires MarkedOnceAll(es) && Older(MarksAll(es), lab)
    ensures LabelsIn(ArgsCode(es, b, i, scratch, env, lab), AllowedAll(es, env, lab))
    decreases es, 0
  {
    hide Code, LabelsIn, Labels, Allowed, AllowedAll, StoreCode, Marks, MarksAll, MarkedOnce, MarkedOnceAll, Older, LoadCode;
    JumpLabels(0, 0);
    NoLabels(env, lab);
    if es != [] {
      var mid := lab + Labels(es[0], env);
      var A, B := Allowed(es[0], env, lab), AllowedAll(es[1..], env, mid);
      HeadApart(es, env, lab);
      CodeLabels(es[0], env, lab);
      ArgsLabels(es[1..], b, i + 1, scratch, env, mid);
      PieceLabels(env.PlaceOf(b), b, i * WORD_SIZE, RAX, scratch, 0);
      var c, C := LabelsThen(Code(es[0], env, lab), A, StoreCode(RAX, env.PlaceOf(b), b, i * WORD_SIZE, scratch), {});
      assert C == A;
      c, C := LabelsThen(c, C, ArgsCode(es[1..], b, i + 1, scratch, env, mid), B);
      Widen(c, C, AllowedAll(es, env, lab));
    }
  }

  /** The labels of a target and arguments that are numbered one after the other. */
  lemma {:induction false} TwoParts(e: Expr, env: Env, lab: nat)
    requires (e.Jump? || e.Invoke?) && MarkedOnce(e) && Older(Marks(e), lab)
    ensures MarkedOnce(e.target) && MarkedOnceAll(e.args)
    ensures forall l: nat :: lab <= l ==> Older(Marks(e.target), l) && Older(MarksAll(e.args), l)
    ensures AllowedAll(e.args, env, lab) !! Allowed(e.target, env, lab + LabelsAll(e.args, env))
    ensures e.Invoke? || e.temp !in env.circuits ==>
      AllowedAll(e.args, env, lab) + Allowed(e.target, env, lab + LabelsAll(e.args, env)) <= Allowed(e, env, lab)
    ensures Allowed(e.target, env, lab) !! AllowedAll(e.args, env, lab + Labels(e.target, env))
  {}

  lemma {:induction false} InvokeLabels(e: Expr, env: Env, lab: nat)
    requires e.Invoke? && MarkedOnce(e) && Older(Marks(e), lab)
    ensures LabelsIn(Code(e, env, lab), Allowed(e, env, lab))
    decreases e, 1
  {
    hide *;
    var p, n := env.PlaceOf(e.temp), |e.args|;
    var A, T := AllowedAll(e.args, env, lab), Allowed(e.target, env, lab + LabelsAll(e.args, env));
    TwoParts(e, env, lab);
    ArgsLabels(e.args, e.temp, 0, R10, env, lab);
    CodeLabels(e.target, env, lab + LabelsAll(e.args, env));
    PieceLabels(p, e.temp, 0, RAX, R10, n);
    PushLabels(p, e.temp, n);
    FixedLabels(n);
    JumpLabels(0, 0);
    InvokeCode(e, env, lab);
    var push := if BufferFlag(e.target, e.args) == CONTAINS_WITH then PushArguments(p, e.temp, n) else [];
    var c, C := LabelsThen(ReserveCode(p, n), {}, ArgsCode(e.args, e.temp, 0, R10, env, lab), A);
    c, C := LabelsThen(c, C, push, {});
    assert C == A;
    c, C := LabelsThen(c, C, Code(e.target, env, lab + LabelsAll(e.args, env)), T);
    c, C := LabelsThen(c, C, CallCode(n), {});
    Widen(c, C, Allowed(e, env, lab));
  }

  lemma {:induction false} IndirectJumpLabels(e: Expr, env: Env, lab: nat)
    requires e.Jump? && e.temp !in env.circuits && MarkedOnce(e) && Older(Marks(e), lab)
    ensures LabelsIn(Code(e, env, lab), Allowed(e, env, lab))
    decreases e, 1
  {
    hide *;
    var p, n := env.PlaceOf(e.temp), |e.args|;
    var A, T := AllowedAll(e.args, env, lab), Allowed(e.target, env, lab + LabelsAll(e.args, env));
    TwoParts(e, env, lab);
    ArgsLabels(e.args, e.temp, 0, R10, env, lab);
    CodeLabels(e.target, env, lab + LabelsAll(e.args, env));
    PieceLabels(p, e.temp, 0, RAX, R10, n);
    DestLabels(p, e.temp, 0, n, R11, CONT_SIZE);
    FixedLabels(n);
    JumpLabels(0, 0);
    IndirectJumpCode(e, env, lab);
    var c, C := LabelsThen(ReserveCode(p, n), {}, ArgsCode(e.args, e.temp, 0, R10, env, lab), A);
    assert C == A;
    c, C := LabelsThen(c, C, Code(e.target, env, lab + LabelsAll(e.args, env)), T);
    c, C := LabelsThen(c, C, [MovqRegToReg(RAX, R11)], {});
    c, C := LabelsThen(c, C, BufferToDest(p, e.temp, 0, n, R11, CONT_SIZE), {});
    c, C := LabelsThen(c, C, ReleaseCode(p, n), {});
    c, C := LabelsThen(c, C, RESTORE_AND_JUMP, {});
    Widen(c, C, Allowed(e, env, lab));
  }

  lemma {:induction false} DirectApart(e: Expr, env: Env, lab: nat, T: set<nat>, A: set<nat>)
    requires e.Jump? && e.temp in env.circuits && MarkedOnce(e) && Older(Marks(e), lab)
    requires T == if e.target.Continuation? then Allowed(e.target, env, lab) else {}
    requires A == if |env.circuits[e.temp].params| > 0
      then AllowedAll(e.args, env, lab + if e.target.Continuation? then Labels(e.target, env) else 0) else {}
    ensures T !! A && T + A <= Allowed(e, env, lab)
  {}

  lemma {:induction false} DirectJumpLabels(e: Expr, env: Env, lab: nat)
    requires e.Jump? && e.temp in env.circuits && MarkedOnce(e) && Older(Marks(e), lab)
    ensures LabelsIn(Code(e, env, lab), Allowed(e, env, lab))
    decreases e, 1
  {
    hide *;
    var circuit := env.circuits[e.temp];
    var lab' := lab + if e.target.Continuation? then Labels(e.target, env) else 0;
    var T := if e.target.Continuation? then Allowed(e.target, env, lab) else {};
    var A := if |circuit.params| > 0 then AllowedAll(e.args, env, lab') else {};
    TwoParts(e, env, lab);
    DirectApart(e, env, lab, T, A);
    JumpLabels(circuit.entry, 0);
    DirectJumpCode(e, env, lab);
    var c: seq<Instr> := [];
    if e.target.Continuation? {
      CodeLabels(e.target, env, lab);
      c := Code(e.target, env, lab);
    }
    var d: seq<Instr> := [];
    if |circuit.params| > 0 {
      d := PassLabels(e, circuit.params[0], env, lab');
    }
    var C: set<nat>;
    c, C := LabelsThen(c, T, d, A);
    c, C := LabelsThen(c, C, [JmpRel(circuit.entry)], {});
    Widen(c, C, Allowed(e, env, lab));
  }

  lemma {:induction false} PassLabels(e: Expr, first: nat, env: Env, lab: nat) returns (c: seq<Instr>)
    requires e.Jump? && MarkedOnceAll(e.args) && Older(MarksAll(e.args), lab)
    ensures c ==
      ReserveCode(env.PlaceOf(e.temp), |e.args|) + ArgsCode(e.args, e.temp, 0, R10, env, lab) +
      AddressCode(env.PlaceOf(first), first, R11) + BufferToDest(env.PlaceOf(e.temp), e.temp, 0, |e.args|, R11, 0) +
      ReleaseCode(env.PlaceOf(e.temp), |e.args|)
    ensures LabelsIn(c, AllowedAll(e.args, env, lab))
    decreases e, 0
  {
    var p, n := env.PlaceOf(e.temp), |e.args|;
    var A := AllowedAll(e.args, env, lab);
    ArgsLabels(e.args, e.temp, 0, R10, env, lab);
    PieceLabels(p, e.temp, 0, RAX, R10, n);
    PieceLabels(env.PlaceOf(first), first, 0, R11, R10, n);
    DestLabels(p, e.temp, 0, n, R11, 0);
    hide Code, LabelsIn, AllowedAll, ArgsCode, ReserveCode, ReleaseCode, BufferToDest, AddressCode;
    var C: set<nat>;
    c, C := LabelsThen(ReserveCode(p, n), {}, ArgsCode(e.args, e.temp, 0, R10, env, lab), A);
    c, C := LabelsThen(c, C, AddressCode(env.PlaceOf(first), first, R11), {});
    c, C := LabelsThen(c, C, BufferToDest(p, e.temp, 0, n, R11, 0), {});
    c, C := LabelsThen(c, C, ReleaseCode(p, n), {});
    assert C == A;
  }

  /** No two labels of a program's code carry the same binding. */
  lemma {:induction false} ProgramLabels(es: seq<Expr>, env: Env, lab: nat)
    requires MarkedOnceAll(es) && Older(MarksAll(es), lab)
    ensures LabelsIn(ProgramCode(es, env, lab), AllowedAll(es, env, lab))
  {
    if es != [] {
      var mid := lab + Labels(es[0], env);
      var A, B := Allowed(es[0], env, lab), AllowedAll(es[1..], env, mid);
      HeadApart(es, env, lab);
      CodeLabels(es[0], env, lab);
      ProgramLabels(es[1..], env, mid);
      hide Code, LabelsIn, Labels, Allowed, AllowedAll, Marks;
      var c, C := LabelsThen(Code(es[0], env, lab), A, ProgramCode(es[1..], env, mid), B);
      Widen(c, C, AllowedAll(es, env, lab));
    }
  }

  /** The addresses of the labels of code loaded at base. */
  function LinkOf(code: seq<Instr>, base: int): map<nat, int> {
    if code == [] then map[]
    else if code[0].Label? then LinkOf(code[1..], base + 1)[code[0].name := base]
    else LinkOf(code[1..], base + 1)
  }

  lemma {:induction false} LinkOfLabels(code: seq<Instr>, base: int, i: nat)
    requires DistinctLabels(code) && i < |code| && code[i].Label?
    ensures code[i].name in LinkOf(code, base) && LinkOf(code, base)[code[i].name] == base + i
    decreases code
  {
    if i > 0 {
      var rest := code[1..];
      assert rest[i - 1] == code[i];
      assert DistinctLabels(rest) by {
        assert forall j :: 0 <= j < |rest| ==> rest[j] == code[j + 1];
      }
      LinkOfLabels(rest, base + 1, i - 1);
    }
  }

  /** A machine whose link extends the addresses of the program's labels is linked. */
  lemma {:induction false} ProgramIsLinked(M: Mach, es: seq<Expr>, env: Env, lab: nat)
    requires MarkedOnceAll(es) && Older(MarksAll(es), lab) && M.code == ProgramCode(es, env, lab)
    requires 0 <= M.base && M.base + |M.code| < MODULUS
    requires forall b :: b in LinkOf(M.code, M.base) ==> b in M.link && M.link[b] == LinkOf(M.code, M.base)[b]
    ensures Linked(M)
  {
    ProgramLabels(es, env, lab);
    forall i | 0 <= i < |M.code| && M.code[i].Label?
      ensures M.code[i].name in M.link && M.link[M.code[i].name] == M.base + i
    {
      LinkOfLabels(M.code, M.base, i);
    }
  }

  // ----- every function's code is there -----

  /** The functions whose code is part of e's code; the arguments of a direct jump to a continuation
      without parameters are not evaluated. */
  function FunctionsOf(e: Expr, env: Env): set<Expr>
    decreases e, 1
  {
    match e
    case If(c, t, f) => FunctionsOf(c, env) + FunctionsOf(t, env) + FunctionsOf(f, env)
    case Function(_, _, body) => {e} + FunctionsOf(body, env)
    case Continuation(_, _, body, _) => FunctionsOf(body, env)
    case With(_, _, body, _) => FunctionsOf(body, env)
    case Storage(_, args) => FunctionsOfAll(args, env)
    case Jump(target, args, temp) =>
      if temp in env.circuits then
        (if target.Continuation? then FunctionsOf(target, env) else {}) +
        (if |env.circuits[temp].params| > 0 then FunctionsOfAll(args, env) else {})
      else FunctionsOf(target, env) + FunctionsOfAll(args, env)
    case Invoke(target, args, _) => FunctionsOf(target, env) + FunctionsOfAll(args, env)
    case Constrain(body) => FunctionsOf(body, env)
    case _ => {}
  }

  function FunctionsOfAll(es: seq<Expr>, env: Env): set<Expr>
    decreases es, 0
  {
    if es == [] then {} else FunctionsOf(es[0], env) + FunctionsOfAll(es[1..], env)
  }

  ghost predicate HasBody(code: seq<Instr>, g: Expr, env: Env)
    requires g.Function?
  {
    exists p: nat, l: nat :: Placed(code, p, FunctionBody(g, env, l))
  }

  ghost predicate Hosts(code: seq<Instr>, gs: set<Expr>, env: Env) {
    forall g :: g in gs ==> g.Function? && HasBody(code, g, env)
  }

  lemma {:induction false} PlacedWithin(a: seq<Instr>, b: seq<Instr>, d: seq<Instr>, p: nat, part: seq<Instr>)
    requires Placed(b, p, part)
    ensures Placed(a + b + d, |a| + p, part)
  {
    assert (a + b + d)[|a| + p..|a| + p + |part|] == b[p..p + |part|];
  }

  lemma {:induction false} HasBodyWithin(a: seq<Instr>, b: seq<Instr>, d: seq<Instr>, g: Expr, env: Env)
    requires g.Function? && HasBody(b, g, env)
    ensures HasBody(a + b + d, g, env)
  {
    var p: nat, l: nat :| Placed(b, p, FunctionBody(g, env, l));
    PlacedWithin(a, b, d, p, FunctionBody(g, env, l));
  }

  lemma {:induction false} HostsThen(a: seq<Instr>, A: set<Expr>, b: seq<Instr>, B: set<Expr>, env: Env) returns (c: seq<Instr>, C: set<Expr>)
    requires Hosts(a, A, env) && Hosts(b, B, env)
    ensures c == a + b && C == A + B && Hosts(c, C, env)
  {
    c, C := a + b, A + B;
    forall g | g in C ensures g.Function? && HasBody(c, g, env) {
      if g in A {
        HasBodyWithin([], a, b, g, env);
        assert [] + a + b == c;
      } else {
        HasBodyWithin(a, b, [], g, env);
        assert a + b + [] == c;
      }
    }
  }

  lemma {:induction false} HostsNone(code: seq<Instr>, env: Env)
    ensures Hosts(code, {}, env)
  {}

  lemma {:induction false} CodeHosts(e: Expr, env: Env, lab: nat)
    ensures Hosts(Code(e, env, lab), FunctionsOf(e, env), env)
    decreases e, 2
  {
    hide Hosts;
    match e
    case Literal(_) => HostsNone(Code(e, env, lab), env);
    case Symbol(_) => HostsNone(Code(e, env, lab), env);
    case If(_, _, _) => IfHosts(e, env, lab);
    case Function(_, _, _) => FunctionHosts(e, env, lab);
    case Continuation(_, _, _, _) => ContinuationHosts(e, env, lab);
    case With(_, _, _, _) => WithHosts(e, env, lab);
    case Storage(b, args) => StorageHosts(e, env, lab);
    case Jump(_, _, temp) =>
      if temp in env.circuits {
        DirectJumpHosts(e, env, lab);
      } else {
        IndirectJumpHosts(e, env, lab);
      }
    case Invoke(_, _, _) => InvokeHosts(e, env, lab);
    case Constrain(body) => CodeHosts(body, env, lab);
  }

  lemma {:induction false} Around(a: seq<Instr>, b: seq<Instr>, B: set<Expr>, d: seq<Instr>, env: Env)
    requires Hosts(b, B, env)
    ensures Hosts(a + b + d, B, env)
  {
    forall g | g in B ensures HasBody(a + b + d, g, env) {
      HasBodyWithin(a, b, d, g, env);
    }
  }

  lemma {:induction false} FunctionsOfIf(e: Expr, env: Env)
    requires e.If?
    ensures FunctionsOf(e, env) == FunctionsOf(e.condition, env) + FunctionsOf(e.consequent, env) + FunctionsOf(e.alternate, env)
  {}

  lemma {:induction false} IfHosts(e: Expr, env: Env, lab: nat)
    requires e.If?
    ensures Hosts(Code(e, env, lab), FunctionsOf(e, env), env)
    decreases e, 1
  {
    hide *;
    IfCode(e, env, lab);
    FunctionsOfIf(e, env);
    var alternate := lab + Labels(e.condition, env);
    var end := alternate + 1 + Labels(e.consequent, env);
    CodeHosts(e.condition, env, lab);
    CodeHosts(e.consequent, env, alternate + 1);
    CodeHosts(e.alternate, env, end + 1);
    HostsNone([OrqRegToReg(RAX, RAX), JeRel(alternate)], env);
    HostsNone([JmpRel(end), Label(alternate)], env);
    HostsNone([Label(end)], env);
    var c, C := HostsThen(Code(e.condition, env, lab), FunctionsOf(e.condition, env), [OrqRegToReg(RAX, RAX), JeRel(alternate)], {}, env);
    c, C := HostsThen(c, C, Code(e.consequent, env, alternate + 1), FunctionsOf(e.consequent, env), env);
    c, C := HostsThen(c, C, [JmpRel(end), Label(alternate)], {}, env);
    c, C := HostsThen(c, C, Code(e.alternate, env, end + 1), FunctionsOf(e.alternate, env), env);
    c, C := HostsThen(c, C, [Label(end)], {}, env);
    assert C == FunctionsOf(e, env);
  }

  lemma {:induction false} FunctionHosts(e: Expr, env: Env, lab: nat)
    requires e.Function?
    ensures Hosts(Code(e, env, lab), FunctionsOf(e, env), env)
    decreases e, 1
  {
    var own := FunctionBody(e, env, lab);
    var before := AddressCode(env.PlaceOf(e.bndg), e.bndg, RAX) + [JmpRel(lab)];
    SplitFunctionCode(e, env, lab);
    CodeHosts(e.body, env, lab + 1);
    SplitFunctionBody(e, env, lab);
    Around([Label(e.bndg)] + ENTER_FUNCTION + [SubqImmToReg(env.FrameSize(e.bndg), RSP)], Code(e.body, env, lab + 1), FunctionsOf(e.body, env), LEAVE_FUNCTION, env);
    Around(before, own, FunctionsOf(e.body, env), [Label(lab)], env);
    Self(own, e, env, lab);
    Around(before, own, {e}, [Label(lab)], env);
    hide FunctionBody, AddressCode, HasBody, Code;
  }

  lemma {:induction false} Self(own: seq<Instr>, e: Expr, env: Env, lab: nat)
    requires e.Function? && own == FunctionBody(e, env, lab)
    ensures Hosts(own, {e}, env)
  {
    assert Placed(own, 0, FunctionBody(e, env, lab));
  }

  lemma {:induction false} SplitFunctionCode(e: Expr, env: Env, lab: nat)
    requires e.Function?
    ensures Code(e, env, lab) == AddressCode(env.PlaceOf(e.bndg), e.bndg, RAX) + [JmpRel(lab)] + FunctionBody(e, env, lab) + [Label(lab)]
  {
    FunctionCode(e, env, lab);
    var a, b, d, f, g := AddressCode(env.PlaceOf(e.bndg), e.bndg, RAX), ENTER_FUNCTION, [SubqImmToReg(env.FrameSize(e.bndg), RSP)], Code(e.body, env, lab + 1), LEAVE_FUNCTION;
    hide AddressCode, ENTER_FUNCTION, LEAVE_FUNCTION, Code;
    assert a + [JmpRel(lab), Label(e.bndg)] == a + [JmpRel(lab)] + [Label(e.bndg)];
  }

  lemma {:induction false} SplitFunctionBody(e: Expr, env: Env, lab: nat)
    requires e.Function?
    ensures FunctionBody(e, env, lab) == [Label(e.bndg)] + ENTER_FUNCTION + [SubqImmToReg(env.FrameSize(e.bndg), RSP)] + Code(e.body, env, lab + 1) + LEAVE_FUNCTION
  {}

  lemma {:induction false} ContinuationHosts(e: Expr, env: Env, lab: nat)
    requires e.Continuation?
    ensures Hosts(Code(e, env, lab), FunctionsOf(e, env), env)
    decreases e, 1
  {
    ContinuationCode(e, env, lab);
    assert FunctionsOf(e, env) == FunctionsOf(e.body, env);
    hide *;
    CodeHosts(e.body, env, lab + 1);
    var before := (if e.bndg in env.escapes
       then AddressCode(env.PlaceOf(e.bndg), e.bndg, RAX) + SaveContinuationCode(env.PlaceOf(e.bndg), e.bndg, env.PlaceOf(e.entry), e.entry)
       else []) + [JmpRel(lab), Label(e.entry)];
    Around(before, Code(e.body, env, lab + 1), FunctionsOf(e.body, env), [Label(lab)], env);
  }

  lemma {:induction false} WithHosts(e: Expr, env: Env, lab: nat)
    requires e.With?
    ensures Hosts(Code(e, env, lab), FunctionsOf(e, env), env)
    decreases e, 1
  {
    WithCode(e, env, lab);
    assert FunctionsOf(e, env) == FunctionsOf(e.body, env);
    hide *;
    CodeHosts(e.body, env, lab);
    var save := if e.bndg in env.escapes then SaveContinuationCode(env.PlaceOf(e.bndg), e.bndg, env.PlaceOf(e.entry), e.entry) else [];
    var end := lab + Labels(e.body, env);
    HostsNone(save, env);
    HostsNone([JmpRel(end), Label(e.entry)], env);
    HostsNone(LoadCode(env.PlaceOf(e.param), e.param, 0, RAX, R10), env);
    HostsNone([Label(end)], env);
    var c, C := HostsThen(save, {}, Code(e.body, env, lab), FunctionsOf(e.body, env), env);
    c, C := HostsThen(c, C, [JmpRel(end), Label(e.entry)], {}, env);
    c, C := HostsThen(c, C, LoadCode(env.PlaceOf(e.param), e.param, 0, RAX, R10), {}, env);
    c, C := HostsThen(c, C, [Label(end)], {}, env);
    assert C == FunctionsOf(e, env);
  }

  lemma {:induction false} ArgsHost(es: seq<Expr>, b: nat, i: nat, scratch: nat, env: Env, lab: nat)
    ensures Hosts(ArgsCode(es, b, i, scratch, env, lab), FunctionsOfAll(es, env), env)
    decreases es, 0
  {
    hide Hosts, Code, FunctionsOf, Labels;
    if es == [] {
      HostsNone([], env);
    } else {
      var mid := lab + Labels(es[0], env);
      var store := StoreCode(RAX, env.PlaceOf(b), b, i * WORD_SIZE, scratch);
      CodeHosts(es[0], env, lab);
      ArgsHost(es[1..], b, i + 1, scratch, env, mid);
      HostsNone(store, env);
      var c, C := HostsThen(Code(es[0], env, lab), FunctionsOf(es[0], env), store, {}, env);
      c, C := HostsThen(c, C, ArgsCode(es[1..], b, i + 1, scratch, env, mid), FunctionsOfAll(es[1..], env), env);
      assert C == FunctionsOfAll(es, env);
    }
  }

  lemma {:induction false} StorageHosts(e: Expr, env: Env, lab: nat)
    requires e.Storage?
    ensures Hosts(Code(e, env, lab), FunctionsOf(e, env), env)
    decreases e, 1
  {
    ArgsHost(e.args, e.bndg, 0, R11, env, lab);
    var d := AddressCode(env.PlaceOf(e.bndg), e.bndg, RAX);
    HostsNone(d, env);
    hide Hosts;
    var c, C := HostsThen(ArgsCode(e.args, e.bndg, 0, R11, env, lab), FunctionsOfAll(e.args, env), d, {}, env);
    assert C == FunctionsOf(e, env);
  }

  lemma {:induction false} FunctionsOfInvoke(e: Expr, env: Env)
    requires e.Invoke?
    ensures FunctionsOf(e, env) == FunctionsOf(e.target, env) + FunctionsOfAll(e.args, env)
  {}

  lemma {:induction false} InvokeHosts(e: Expr, env: Env, lab: nat)
    requires e.Invoke?
    ensures Hosts(Code(e, env, lab), FunctionsOf(e, env), env)
    decreases e, 1
  {
    hide *;
    InvokeCode(e, env, lab);
    assert FunctionsOf(e, env) == FunctionsOf(e.target, env) + FunctionsOfAll(e.args, env) by { FunctionsOfInvoke(e, env); }
    var p, n := env.PlaceOf(e.temp), |e.args|;
    var push := if BufferFlag(e.target, e.args) == CONTAINS_WITH then PushArguments(p, e.temp, n) else [];
    ArgsHost(e.args, e.temp, 0, R10, env, lab);
    CodeHosts(e.target, env, lab + LabelsAll(e.args, env));
    HostsNone(ReserveCode(p, n), env);
    HostsNone(push, env);
    HostsNone(CallCode(n), env);
    var c, C := HostsThen(ReserveCode(p, n), {}, ArgsCode(e.args, e.temp, 0, R10, env, lab), FunctionsOfAll(e.args, env), env);
    c, C := HostsThen(c, C, push, {}, env);
    c, C := HostsThen(c, C, Code(e.target, env, lab + LabelsAll(e.args, env)), FunctionsOf(e.target, env), env);
    c, C := HostsThen(c, C, CallCode(n), {}, env);
    assert C == FunctionsOf(e, env);
  }

  lemma {:induction false} FunctionsOfJump(e: Expr, env: Env)
    requires e.Jump?
    ensures e.temp !in env.circuits ==> FunctionsOf(e, env) == FunctionsOf(e.target, env) + FunctionsOfAll(e.args, env)
    ensures e.temp in env.circuits ==>
      FunctionsOf(e, env) == (if e.target.Continuation? then FunctionsOf(e.target, env) else {}) +
        (if |env.circuits[e.temp].params| > 0 then FunctionsOfAll(e.args, env) else {})
  {}

  lemma {:induction false} IndirectJumpHosts(e: Expr, env: Env, lab: nat)
    requires e.Jump? && e.temp !in env.circuits
    ensures Hosts(Code(e, env, lab), FunctionsOf(e, env), env)
    decreases e, 1
  {
    hide *;
    IndirectJumpCode(e, env, lab);
    FunctionsOfJump(e, env);
    var p, n := env.PlaceOf(e.temp), |e.args|;
    ArgsHost(e.args, e.temp, 0, R10, env, lab);
    CodeHosts(e.target, env, lab + LabelsAll(e.args, env));
    HostsNone(ReserveCode(p, n), env);
    HostsNone([MovqRegToReg(RAX, R11)], env);
    HostsNone(BufferToDest(p, e.temp, 0, n, R11, CONT_SIZE), env);
    HostsNone(ReleaseCode(p, n), env);
    HostsNone(RESTORE_AND_JUMP, env);
    var c, C := HostsThen(ReserveCode(p, n), {}, ArgsCode(e.args, e.temp, 0, R10, env, lab), FunctionsOfAll(e.args, env), env);
    c, C := HostsThen(c, C, Code(e.target, env, lab + LabelsAll(e.args, env)), FunctionsOf(e.target, env), env);
    c, C := HostsThen(c, C, [MovqRegToReg(RAX, R11)], {}, env);
    c, C := HostsThen(c, C, BufferToDest(p, e.temp, 0, n, R11, CONT_SIZE), {}, env);
    c, C := HostsThen(c, C, ReleaseCode(p, n), {}, env);
    c, C := HostsThen(c, C, RESTORE_AND_JUMP, {}, env);
    assert C == FunctionsOf(e, env);
  }

  lemma {:induction false} DirectJumpHosts(e: Expr, env: Env, lab: nat)
    requires e.Jump? && e.temp in env.circuits
    ensures Hosts(Code(e, env, lab), FunctionsOf(e, env), env)
    decreases e, 1
  {
    hide *;
    var circuit := env.circuits[e.temp];
    var T := if e.target.Continuation? then FunctionsOf(e.target, env) else {};
    var A := if |circuit.params| > 0 then FunctionsOfAll(e.args, env) else {};
    FunctionsOfJump(e, env);
    DirectJumpCode(e, env, lab);
    HostsNone([], env);
    var lab' := lab + if e.target.Continuation? then Labels(e.target, env) else 0;
    var c: seq<Instr> := [];
    if e.target.Continuation? {
      CodeHosts(e.target, env, lab);
      c := Code(e.target, env, lab);
    }
    var d: seq<Instr> := [];
    if |circuit.params| > 0 {
      d := PassHosts(e, circuit.params[0], env, lab');
    }
    HostsNone([JmpRel(circuit.entry)], env);
    var C: set<Expr>;
    c, C := HostsThen(c, T, d, A, env);
    c, C := HostsThen(c, C, [JmpRel(circuit.entry)], {}, env);
    assert C == FunctionsOf(e, env);
  }

  lemma {:induction false} PassHosts(e: Expr, first: nat, env: Env, lab: nat) returns (c: seq<Instr>)
    requires e.Jump?
    ensures c ==
      ReserveCode(env.PlaceOf(e.temp), |e.args|) + ArgsCode(e.args, e.temp, 0, R10, env, lab) +
      AddressCode(env.PlaceOf(first), first, R11) + BufferToDest(env.PlaceOf(e.temp), e.temp, 0, |e.args|, R11, 0) +
      ReleaseCode(env.PlaceOf(e.temp), |e.args|)
    ensures Hosts(c, FunctionsOfAll(e.args, env), env)
    decreases e, 0
  {
    hide *;
    var p, n := env.PlaceOf(e.temp), |e.args|;
    ArgsHost(e.args, e.temp, 0, R10, env, lab);
    HostsNone(ReserveCode(p, n), env);
    HostsNone(AddressCode(env.PlaceOf(first), first, R11), env);
    HostsNone(BufferToDest(p, e.temp, 0, n, R11, 0), env);
    HostsNone(ReleaseCode(p, n), env);
    var C: set<Expr>;
    c, C := HostsThen(ReserveCode(p, n), {}, ArgsCode(e.args, e.temp, 0, R10, env, lab), FunctionsOfAll(e.args, env), env);
    c, C := HostsThen(c, C, AddressCode(env.PlaceOf(first), first, R11), {}, env);
    c, C := HostsThen(c, C, BufferToDest(p, e.temp, 0, n, R11, 0), {}, env);
    c, C := HostsThen(c, C, ReleaseCode(p, n), {}, env);
    assert C == FunctionsOfAll(e.args, env);
  }

  /** The code of a program contains the code of each of its functions. */
  lemma {:induction false} ProgramHosts(es: seq<Expr>, env: Env, lab: nat)
    ensures Hosts(ProgramCode(es, env, lab), FunctionsOfAll(es, env), env)
  {
    hide Hosts, Code, FunctionsOf, Labels;
    if es == [] {
      HostsNone([], env);
    } else {
      CodeHosts(es[0], env, lab);
      ProgramHosts(es[1..], env, lab + Labels(es[0], env));
      var c, C := HostsThen(Code(es[0], env, lab), FunctionsOf(es[0], env), ProgramCode(es[1..], env, lab + Labels(es[0], env)), FunctionsOfAll(es[1..], env), env);
    }
  }

  // ----- every function is ready to be called -----

  predicate JumpFree(e: Expr)
    decreases e, 1
  {
    match e
    case If(c, t, f) => JumpFree(c) && JumpFree(t) && JumpFree(f)
    case Storage(_, args) => JumpFreeAll(args)
    case Invoke(target, args, _) => JumpFree(target) && JumpFreeAll(args)
    case Constrain(body) => JumpFree(body)
    case Jump(_, _, _) => false
    case Continuation(_, _, _, _) => false
    case With(_, _, _, _) => false
    case _ => true
  }

  predicate JumpFreeAll(es: seq<Expr>)
    decreases es, 0
  {
    es == [] || (JumpFree(es[0]) && JumpFreeAll(es[1..]))
  }

  lemma {:induction false} JumpFreeFlag(e: Expr)
    requires JumpFree(e)
    ensures Contains(e) == CONTAINS_NONE
    decreases e, 1
  {
    match e
    case If(c, t, f) => JumpFreeFlag(c); JumpFreeFlag(t); JumpFreeFlag(f);
    case Storage(_, args) => JumpFreeFlagAll(args);
    case Invoke(target, args, _) => JumpFreeFlag(target); JumpFreeFlagAll(args);
    case Constrain(body) => JumpFreeFlag(body);
    case _ =>
  }

  lemma {:induction false} JumpFreeFlagAll(es: seq<Expr>)
    requires JumpFreeAll(es)
    ensures ContainsAny(es) == CONTAINS_NONE
    decreases es, 0
  {
    if es != [] {
      JumpFreeFlag(es[0]);
      JumpFreeFlagAll(es[1..]);
    }
  }

  ghost predicate CompilableAll(es: seq<Expr>, env: Env) {
    forall i :: 0 <= i < |es| ==> Compilable(es[i], env)
  }

  /** Layout gives jump-free expressions the places that their code needs. */
  lemma {:induction false} LaidOutIsCompilable(e: Expr, env: Env, conts: Conts, dyn: set<nat>, stat: set<nat>, slots: seq<Slot>, params: seq<nat>)
    requires JumpFree(e) && Analysed(e, env, conts) && Scoped(e, dyn, stat)
    requires Context(env, conts, dyn, stat, slots, params) && dyn !! conts.Keys && Within(FrameSlots(e, env.escapes), slots)
    ensures Compilable(e, env)
    decreases e, 1
  {
    hide Context, Within;
    match e
    case Literal(_) =>
    case Symbol(b) => SymbolIsCompilable(b, env, conts, dyn, stat, slots, params);
    case If(c, t, f) =>
      IfSlots(e, env, slots);
      LaidOutIsCompilable(c, env, conts, dyn, stat, slots, params);
      LaidOutIsCompilable(t, env, conts, dyn, stat, slots, params);
      LaidOutIsCompilable(f, env, conts, dyn, stat, slots, params);
    case Function(_, _, _) =>
    case Storage(b, args) =>
      StorageSlots(e, env, conts, dyn, stat, slots, params);
      LaidOutIsCompilableAll(args, env, conts, dyn + {b}, stat, slots, params);
    case Invoke(target, args, _) =>
      InvokeSlots(e, env, slots);
      JumpFreeFlag(target);
      JumpFreeFlagAll(args);
      LaidOutIsCompilable(target, env, conts, dyn, stat, slots, params);
      LaidOutIsCompilableAll(args, env, conts, dyn, stat, slots, params);
    case Constrain(body) => LaidOutIsCompilable(body, env, conts, dyn, stat, slots, params);
  }

  lemma {:induction false} LaidOutIsCompilableAll(es: seq<Expr>, env: Env, conts: Conts, dyn: set<nat>, stat: set<nat>, slots: seq<Slot>, params: seq<nat>)
    requires JumpFreeAll(es) && AnalysedAll(es, env, conts) && ScopedAll(es, dyn, stat)
    requires Context(env, conts, dyn, stat, slots, params) && dyn !! conts.Keys && Within(FrameSlotsAll(es, env.escapes), slots)
    ensures CompilableAll(es, env)
    decreases es, 0
  {
    hide Context;
    if es != [] {
      WithinAppend(FrameSlots(es[0], env.escapes), FrameSlotsAll(es[1..], env.escapes), slots);
      hide Within;
      LaidOutIsCompilable(es[0], env, conts, dyn, stat, slots, params);
      LaidOutIsCompilableAll(es[1..], env, conts, dyn, stat, slots, params);
    }
  }

  lemma {:induction false} SymbolIsCompilable(b: nat, env: Env, conts: Conts, dyn: set<nat>, stat: set<nat>, slots: seq<Slot>, params: seq<nat>)
    requires Context(env, conts, dyn, stat, slots, params) && dyn !! conts.Keys && (b in dyn || b in stat)
    ensures Compilable(Symbol(b), env)
  {
    if b !in stat && b !in env.parameters {
      var n: nat :| Slot(b, n) in slots;
      var i := SlotPlace(env, slots, Slot(b, n));
    }
  }

  lemma {:induction false} IfSlots(e: Expr, env: Env, slots: seq<Slot>)
    requires e.If? && Within(FrameSlots(e, env.escapes), slots)
    ensures Within(FrameSlots(e.condition, env.escapes), slots) && Within(FrameSlots(e.consequent, env.escapes), slots)
    ensures Within(FrameSlots(e.alternate, env.escapes), slots)
  {
    WithinAppend(FrameSlots(e.condition, env.escapes), FrameSlots(e.consequent, env.escapes), slots);
    WithinAppend(FrameSlots(e.condition, env.escapes) + FrameSlots(e.consequent, env.escapes), FrameSlots(e.alternate, env.escapes), slots);
  }

  lemma {:induction false} InvokeSlots(e: Expr, env: Env, slots: seq<Slot>)
    requires e.Invoke? && Within(FrameSlots(e, env.escapes), slots)
    ensures Within(FrameSlots(e.target, env.escapes), slots) && Within(FrameSlotsAll(e.args, env.escapes), slots)
  {
    var own := if BufferFlag(e.target, e.args) == CONTAINS_WITH then [Slot(e.temp, WORD_SIZE * |e.args|)] else [];
    WithinAppend(FrameSlots(e.target, env.escapes), FrameSlotsAll(e.args, env.escapes), slots);
    WithinAppend(FrameSlots(e.target, env.escapes) + FrameSlotsAll(e.args, env.escapes), own, slots);
  }

  lemma {:induction false} StorageSlots(e: Expr, env: Env, conts: Conts, dyn: set<nat>, stat: set<nat>, slots: seq<Slot>, params: seq<nat>)
    requires e.Storage? && Analysed(e, env, conts) && Context(env, conts, dyn, stat, slots, params) && Within(FrameSlots(e, env.escapes), slots)
    ensures Context(env, conts, dyn + {e.bndg}, stat, slots, params) && env.PlaceOf(e.bndg).FrameRelative?
    ensures Within(FrameSlotsAll(e.args, env.escapes), slots)
  {
    var own := [Slot(e.bndg, |e.args| * WORD_SIZE)];
    WithinAppend(FrameSlotsAll(e.args, env.escapes), own, slots);
    assert own[0] in own;
    EnterStorage(env, conts, dyn, stat, slots, params, e.bndg, |e.args| * WORD_SIZE);
    var i := SlotPlace(env, slots, own[0]);
  }

  /** What the analyses establish for an expression and everything nested in it. */
  ghost predicate Ready(e: Expr, env: Env, conts: Conts) {
    && Unique(e) && AgreesOn(e, env, conts) && CodePlaced(e, env.places)
    && LaidOut(e, env.escapes, env.places, env.frames)
  }

  ghost predicate ReadyAll(es: seq<Expr>, env: Env, conts: Conts) {
    && UniqueAll(es) && AgreesOnAll(es, env, conts) && CodePlacedAll(es, env.places)
    && LaidOutAll(es, env.escapes, env.places, env.frames)
  }

  ghost predicate StaticAll(stat: set<nat>, env: Env, conts: Conts) {
    forall b :: b in stat ==> StaticPlaced(b, env, conts)
  }

  lemma {:induction false} ReadyParts(e: Expr, env: Env, conts: Conts)
    requires Ready(e, env, conts)
    ensures e.If? ==> Ready(e.condition, env, conts) && Ready(e.consequent, env, conts) && Ready(e.alternate, env, conts)
    ensures e.Function? || e.Continuation? || e.With? || e.Constrain? ==> Ready(e.body, env, conts)
    ensures e.Storage? || e.Jump? || e.Invoke? ==> ReadyAll(e.args, env, conts)
    ensures e.Jump? || e.Invoke? ==> Ready(e.target, env, conts)
  {
    match e
    case If(_, _, _) => IfAgrees(e, env, conts);
    case Function(_, _, _) => BodyAgrees(e, env, conts);
    case Continuation(_, _, _, _) => BodyAgrees(e, env, conts);
    case With(_, _, _, _) => BodyAgrees(e, env, conts);
    case Storage(_, _) => StorageAgrees(e, env, conts);
    case Jump(_, _, _) => BufferedAgrees(e, env, conts);
    case Invoke(_, _, _) => BufferedAgrees(e, env, conts);
    case Constrain(_) => ConstrainAgrees(e, env, conts);
    case _ =>
  }

  lemma {:induction false} FunctionIsStatic(e: Expr, env: Env, conts: Conts, stat: set<nat>)
    requires e.Function? && Ready(e, env, conts) && StaticAll(stat, env, conts)
    ensures StaticAll(stat + {e.bndg}, env, conts)
  {
    AllAreOwned(e.body, conts);
  }

  /** A function nested anywhere in e is ready, and its symbols name what linking makes visible there. */
  ghost predicate FunctionReady(g: Expr, env: Env, conts: Conts) {
    g.Function? && Ready(g, env, conts) && exists stat :: StaticAll(stat, env, conts) && Scoped(g, {}, stat)
  }

  lemma {:induction false} NestedAreReady(e: Expr, env: Env, conts: Conts, dyn: set<nat>, stat: set<nat>)
    requires Ready(e, env, conts) && Scoped(e, dyn, stat) && StaticAll(stat, env, conts)
    ensures forall g :: g in FunctionsOf(e, env) ==> FunctionReady(g, env, conts)
    decreases e, 1
  {
    ReadyParts(e, env, conts);
    hide Ready, StaticAll, FunctionReady;
    match e
    case Literal(_) =>
    case Symbol(_) =>
    case If(c, t, f) =>
      NestedAreReady(c, env, conts, dyn, stat);
      NestedAreReady(t, env, conts, dyn, stat);
      NestedAreReady(f, env, conts, dyn, stat);
    case Function(b, params, body) =>
      assert FunctionReady(e, env, conts) by { FunctionItselfReady(e, env, conts, dyn, stat); }
      FunctionIsStatic(e, env, conts, stat);
      NestedAreReady(body, env, conts, SetOf(params), stat + {b});
    case Continuation(b, params, body, _) => NestedAreReady(body, env, conts, dyn + {b} + SetOf(params), stat);
    case With(b, _, body, _) => NestedAreReady(body, env, conts, dyn + {b}, stat);
    case Storage(b, args) => NestedAreReadyAll(args, env, conts, dyn + {b}, stat);
    case Jump(target, args, _) =>
      NestedAreReady(target, env, conts, dyn, stat);
      NestedAreReadyAll(args, env, conts, dyn, stat);
    case Invoke(target, args, _) =>
      NestedAreReady(target, env, conts, dyn, stat);
      NestedAreReadyAll(args, env, conts, dyn, stat);
    case Constrain(body) => NestedAreReady(body, env, conts, dyn, stat);
  }

  lemma {:induction false} FunctionItselfReady(e: Expr, env: Env, conts: Conts, dyn: set<nat>, stat: set<nat>)
    requires e.Function? && Ready(e, env, conts) && Scoped(e, dyn, stat) && StaticAll(stat, env, conts)
    ensures FunctionReady(e, env, conts)
  {
    assert Scoped(e, {}, stat);
  }

  lemma {:induction false} ReadyAllParts(es: seq<Expr>, env: Env, conts: Conts)
    requires es != [] && ReadyAll(es, env, conts)
    ensures Ready(es[0], env, conts) && ReadyAll(es[1..], env, conts)
  {
    ItemsAgree(es, env, conts);
    hide AgreesOn, AgreesOnAll, Unique, Owned, CodePlaced, LaidOut;
  }

  lemma {:induction false} AgreeApart(A: set<nat>, C: Conts, Q: set<nat>, K: map<nat, Circuit>, A2: set<nat>, C2: Conts, Q2: set<nat>, K2: map<nat, Circuit>, env: Env, conts: Conts)
    requires Agrees(A + A2, C + C2, Q + Q2, K + K2, env, conts) && A !! A2
    requires C.Keys <= A && Q <= A && K.Keys <= A && C2.Keys <= A2 && Q2 <= A2 && K2.Keys <= A2
    ensures Agrees(A, C, Q, K, env, conts) && Agrees(A2, C2, Q2, K2, env, conts)
  {}

  lemma {:induction false} ItemsAgree(es: seq<Expr>, env: Env, conts: Conts)
    requires es != [] && UniqueAll(es) && AgreesOnAll(es, env, conts)
    ensures AgreesOn(es[0], env, conts) && AgreesOnAll(es[1..], env, conts)
  {
    AllAreOwned(es[0], conts);
    AllAreOwnedAll(es[1..], conts);
    hide Unique, Owned, ContsOf, ParametersOf, CircuitsOf, Agrees;
    AgreeApart(Owned(es[0]), ContsOf(es[0]), ParametersOf(es[0]), CircuitsOf(es[0], conts),
      OwnedAll(es[1..]), ContsOfAll(es[1..]), ParametersOfAll(es[1..]), CircuitsOfAll(es[1..], conts), env, conts);
  }

  lemma {:induction false} NestedAreReadyAll(es: seq<Expr>, env: Env, conts: Conts, dyn: set<nat>, stat: set<nat>)
    requires ReadyAll(es, env, conts) && ScopedAll(es, dyn, stat) && StaticAll(stat, env, conts)
    ensures forall g :: g in FunctionsOfAll(es, env) ==> FunctionReady(g, env, conts)
    decreases es, 0
  {
    if es != [] {
      ReadyAllParts(es, env, conts);
      hide StaticAll, FunctionReady, Ready, ReadyAll;
      NestedAreReady(es[0], env, conts, dyn, stat);
      NestedAreReadyAll(es[1..], env, conts, dyn, stat);
    }
  }

  // ----- the program in memory -----

  lemma {:induction false} FunctionIsCompilable(g: Expr, env: Env, conts: Conts)
    requires FunctionReady(g, env, conts) && JumpFree(g.body)
    ensures Compilable(g.body, env) && ParameterPlaces(env, g.params)
    ensures env.FrameSize(g.bndg) == Total(FrameSlots(g.body, env.escapes)) && Aligned(env.FrameSize(g.bndg))
  {
    hide Ready, StaticAll, Scoped, Compilable, ParameterPlaces, Total, Aligned, FrameSlots;
    var stat :| StaticAll(stat, env, conts) && Scoped(g, {}, stat);
    FunctionIsStatic(g, env, conts, stat);
    FunctionFrame(g, env, conts);
    FunctionBodyScoped(g, stat);
    FunctionContext(g, env, conts, stat + {g.bndg});
    LaidOutIsCompilable(g.body, env, conts, SetOf(g.params), stat + {g.bndg}, FrameSlots(g.body, env.escapes), g.params);
  }

  lemma {:induction false} FunctionBodyScoped(g: Expr, stat: set<nat>)
    requires g.Function? && Scoped(g, {}, stat)
    ensures Scoped(g.body, SetOf(g.params), stat + {g.bndg})
  {}

  /** The frame that layout made for a function. */
  lemma {:induction false} FunctionFrame(g: Expr, env: Env, conts: Conts)
    requires g.Function? && Ready(g, env, conts)
    ensures env.FrameSize(g.bndg) == Total(FrameSlots(g.body, env.escapes)) && Aligned(env.FrameSize(g.bndg))
    ensures ParameterPlaces(env, g.params)
  {
    hide Unique, AgreesOn, CodePlaced;
    var slots := FrameSlots(g.body, env.escapes);
    assert slots[0..] == slots;
    TotalFalls(slots, 0, 0);
    hide FrameSlots, SlotsPlaced, Total;
  }

  /** What holds where a function's body begins. */
  lemma {:induction false} FunctionContext(g: Expr, env: Env, conts: Conts, stat: set<nat>)
    requires g.Function? && Ready(g, env, conts) && StaticAll(stat, env, conts)
    ensures Context(env, conts, SetOf(g.params), stat, FrameSlots(g.body, env.escapes), g.params)
    ensures SetOf(g.params) !! conts.Keys && Analysed(g.body, env, conts)
    ensures Within(FrameSlots(g.body, env.escapes), FrameSlots(g.body, env.escapes))
  {
    ParametersAgree(g, env, conts);
    FunctionBodyAnalysed(g, env, conts);
    hide Unique, AgreesOn, CodePlaced, FrameSlots, Analysed;
  }

  lemma {:induction false} FunctionBodyAnalysed(g: Expr, env: Env, conts: Conts)
    requires g.Function? && Ready(g, env, conts)
    ensures Analysed(g.body, env, conts)
  {
    ReadyParts(g, env, conts);
    AnalysesAgree(g.body, env, conts);
  }

  /** The functions of the program whose bodies are jump-free, at the addresses of their labels. */
  ghost predicate FunsAre(funs: map<int, Expr>, es: seq<Expr>, env: Env, link: map<nat, int>) {
    forall a :: a in funs ==>
      funs[a] in FunctionsOfAll(es, env) && funs[a].Function? && JumpFree(funs[a].body) &&
      funs[a].bndg in link && link[funs[a].bndg] == a
  }

  lemma {:induction false} FunctionIsAt(M: Mach, es: seq<Expr>, env: Env, lab: nat, conts: Conts, g: Expr)
    requires M.code == ProgramCode(es, env, lab) && Linked(M)
    requires g in FunctionsOfAll(es, env) && FunctionReady(g, env, conts) && JumpFree(g.body) && g.bndg in M.link
    ensures FunctionAt(M, env, M.link[g.bndg], g)
  {
    ProgramHosts(es, env, lab);
    FunctionIsCompilable(g, env, conts);
    assert HasBody(M.code, g, env);
    var p: nat, l: nat :| Placed(M.code, p, FunctionBody(g, env, l));
    FirstIsLabel(M, p, g, env, l);
  }

  lemma {:induction false} FirstIsLabel(M: Mach, p: nat, g: Expr, env: Env, l: nat)
    requires Linked(M) && g.Function? && Placed(M.code, p, FunctionBody(g, env, l))
    ensures p < |M.code| && g.bndg in M.link && M.link[g.bndg] == M.base + p
  {
    var body := FunctionBody(g, env, l);
    assert |body| > 0 && body[0] == Label(g.bndg) by { StartsWithLabel(g, env, l); }
    PlacedAt(M.code, p, body, 0);
  }

  lemma {:induction false} StartsWithLabel(g: Expr, env: Env, l: nat)
    requires g.Function?
    ensures |FunctionBody(g, env, l)| > 0 && FunctionBody(g, env, l)[0] == Label(g.bndg)
  {
    hide Code, ENTER_FUNCTION, LEAVE_FUNCTION;
  }

  /** A program that passed the analyses, once loaded, meets everything that the correctness of its
      code rests on: so calling any of its jump-free functions returns what the function means. */
  lemma {:induction false} ProgramMatches(M: Mach, W: World, es: seq<Expr>, lab: nat, conts: Conts, stat: set<nat>)
    requires MarkedOnceAll(es) && Older(MarksAll(es), lab) && ReadyAll(es, W.env, conts)
    requires ScopedAll(es, {}, stat) && StaticAll(stat, W.env, conts)
    requires M.code == ProgramCode(es, W.env, lab) && 0 <= M.base && M.base + |M.code| < MODULUS
    requires forall b :: b in LinkOf(M.code, M.base) ==> b in M.link && M.link[b] == LinkOf(M.code, M.base)[b]
    requires W.link == M.link && 0 <= W.limit && (forall a :: W.inside(a) == M.Inside(a)) && OutsideFollows(M, W)
    requires FunsAre(W.funs, es, W.env, M.link)
    ensures Matches(M, W)
  {
    ProgramIsLinked(M, es, W.env, lab);
    NestedAreReadyAll(es, W.env, conts, {}, stat);
    forall a | a in W.funs ensures FunctionAt(M, W.env, a, W.funs[a]) {
      FunctionIsAt(M, es, W.env, lab, conts, W.funs[a]);
    }
  }

  /** Calling a jump-free function of a compiled program: the call returns with the function's value
      in RAX, the stack and callee-saved registers as they were, and memory as the function leaves it. */
  lemma {:induction false} ProgramCallOk(M: Mach, W: World, es: seq<Expr>, lab: nat, conts: Conts, stat: set<nat>,
    fuel: nat, g: Expr, vs: seq<int>, m: Mem, s: State)
    requires MarkedOnceAll(es) && Older(MarksAll(es), lab) && ReadyAll(es, W.env, conts)
    requires ScopedAll(es, {}, stat) && StaticAll(stat, W.env, conts)
    requires M.code == ProgramCode(es, W.env, lab) && 0 <= M.base && M.base + |M.code| < MODULUS
    requires forall b :: b in LinkOf(M.code, M.base) ==> b in M.link && M.link[b] == LinkOf(M.code, M.base)[b]
    requires W.link == M.link && 0 <= W.limit && (forall a :: W.inside(a) == M.Inside(a)) && OutsideFollows(M, W)
    requires FunsAre(W.funs, es, W.env, M.link)
    requires g in FunctionsOfAll(es, W.env) && g.Function? && g.bndg in M.link && M.link[g.bndg] in W.funs
    requires Call(W, fuel, M.link[g.bndg], vs, s.regs[RSP], m).Some?
    requires Next(M, s, CallReg(R11)) && s.regs[R11] == M.link[g.bndg] && CallState(W, m, s, |vs|) && ArgsReady(s, vs)
    ensures var r := Call(W, fuel, M.link[g.bndg], vs, s.regs[RSP], m).value;
      exists t :: Goes(M, s, t) && t.pc == s.pc + 1 && Returned(s, t, |vs|, r.0, r.1)
  {
    var r := Call(W, fuel, M.link[g.bndg], vs, s.regs[RSP], m).value;
    hide *;
    ProgramMatches(M, W, es, lab, conts, stat);
    var t := CallOk(M, W, fuel, M.link[g.bndg], vs, m, s, r);
  }

  /** Writing the words of a laid-out storage expression is always allowed. */
  lemma {:induction false} StorageIsWritable(g: Expr, env: Env, conts: Conts, i: nat, k: nat, c: Ctx, m: Mem)
    requires FunctionReady(g, env, conts) && JumpFree(g.body) && i < |FrameSlots(g.body, env.escapes)|
    requires (k + 1) * WORD_SIZE <= FrameSlots(g.body, env.escapes)[i].size
    requires c.size == env.FrameSize(g.bndg) && Word(c.frame) && c.size <= c.frame
    ensures env.PlaceOf(FrameSlots(g.body, env.escapes)[i].bndg) == FrameRelative(SlotOffset(FrameSlots(g.body, env.escapes), i))
    ensures Writable(c, m, c.frame + SlotOffset(FrameSlots(g.body, env.escapes), i) + k * WORD_SIZE)
  {
    hide Ready, StaticAll, Scoped, FrameSlots, SlotOffset, Total, JumpFree, Compilable, Writable;
    assert g.Function?;
    hide FunctionReady;
    var slots := FrameSlots(g.body, env.escapes);
    FunctionIsCompilable(g, env, conts);
    SlotInFrame(slots, i);
    ReadySlotPlaced(g, env, conts, i);
    WordWritable(c, m, Total(slots), SlotOffset(slots, i), slots[i].size, k);
  }

  lemma {:induction false} ReadySlotPlaced(g: Expr, env: Env, conts: Conts, i: nat)
    requires FunctionReady(g, env, conts) && i < |FrameSlots(g.body, env.escapes)|
    ensures env.PlaceOf(FrameSlots(g.body, env.escapes)[i].bndg) == FrameRelative(SlotOffset(FrameSlots(g.body, env.escapes), i))
  {
    hide Unique, AgreesOn, CodePlaced, Scoped, StaticAll;
    var slots := FrameSlots(g.body, env.escapes);
    assert SlotsPlaced(slots, env.places);
    hide LaidOut, FrameSlots, SlotOffset;
    assert slots[i].bndg in env.places;
  }

  lemma {:induction false} WordWritable(c: Ctx, m: Mem, total: int, offset: int, size: nat, k: nat)
    requires c.size == total && Word(c.frame) && c.size <= c.frame
    requires -total <= offset && offset % WORD_SIZE == 0 && offset + size <= 0 && (k + 1) * WORD_SIZE <= size
    ensures Writable(c, m, c.frame + offset + k * WORD_SIZE)
  {}

  // ----- running a whole program -----

  /** The machine ran the expressions' code to position pc: the stack and the callee-saved registers are
      as they were, memory is as the expressions leave it, and the last value is in RAX. */
  ghost predicate Ran(c: Ctx, sp: int, s: State, t: State, pc: int, vs: seq<int>, m: Mem, m': Mem) {
    && t.pc == pc && t.regs[RSP] == sp && SameSaved(s.regs, t.regs)
    && Agree(t.mem, m') && Kept(s.mem, t.mem, sp, m') && Grows(c, m, m')
    && (vs != [] ==> t.regs[RAX] == vs[|vs| - 1])
  }

  lemma {:induction false} RanNowhere(W: World, c: Ctx, sp: int, m: Mem, s: State)
    requires InFrame(W, c, sp, m, s)
    ensures Ran(c, sp, s, s, s.pc, [], m, m)
  {}

  lemma {:induction false} RanThen(c: Ctx, sp: int, s: State, t: State, u: State, pc: int, pc': int, v: int, vs: seq<int>, m: Mem, m1: Mem, m2: Mem)
    requires Finished(c, sp, s, t, pc, v, m, m1) && Ran(c, sp, t, u, pc', vs, m1, m2) && (vs == [] ==> u == t)
    ensures Ran(c, sp, s, u, pc', [v] + vs, m, m2)
  {
    forall a | a >= sp && a !in m2 ensures Read(u.mem, a) == Read(s.mem, a) {
      assert a !in m1;
    }
  }

  lemma {:induction false} FinishedInFrame(W: World, c: Ctx, sp: int, m: Mem, s: State, t: State, pc: int, v: int, m1: Mem)
    requires InFrame(W, c, sp, m, s) && Finished(c, sp, s, t, pc, v, m, m1)
    ensures InFrame(W, c, sp, m1, t) && t.pc == pc
  {
    StillInFrame(W, c, sp, m, s, t, m1);
  }

  /** One expression after another, from left to right. */
  lemma {:induction false} RunInOrder(M: Mach, W: World, fuel: nat, es: seq<Expr>, c: Ctx, sp: int, m: Mem, lab: nat, s: State, q: (seq<int>, Mem)) returns (t: State)
    requires Matches(M, W) && InFrame(W, c, sp, m, s) && CompilableAll(es, W.env)
    requires Placed(M.code, s.pc, ProgramCode(es, W.env, lab)) && EvalArgs(W, fuel, es, c, sp, m) == Some(q)
    ensures Goes(M, s, t) && Ran(c, sp, s, t, s.pc + |ProgramCode(es, W.env, lab)|, q.0, m, q.1)
    ensures es == [] ==> t == s
    decreases es
  {
    hide Matches, InFrame, Goes, Step, Finished, Ran, Code, Eval, Compilable, Labels;
    if es == [] {
      GoesNowhere(M, s);
      RanNowhere(W, c, sp, m, s);
      t := s;
    } else {
      var head, rest := Code(es[0], W.env, lab), ProgramCode(es[1..], W.env, lab + Labels(es[0], W.env));
      PlacedSplit(M.code, s.pc, head, rest);
      var r := Eval(W, fuel, es[0], c, sp, m).value;
      var q' := EvalArgs(W, fuel, es[1..], c, sp, r.1).value;
      var u := EvalOk(M, W, fuel, es[0], c, sp, m, lab, s, r);
      FinishedInFrame(W, c, sp, m, s, u, s.pc + |head|, r.0, r.1);
      t := RunInOrder(M, W, fuel, es[1..], c, sp, r.1, lab + Labels(es[0], W.env), u, q');
      GoesThen(M, s, u, t);
      RanThen(c, sp, s, u, t, s.pc + |head|, u.pc + |rest|, r.0, q'.0, m, r.1, q'.1);
    }
  }

  /** Loaded anywhere and entered at its first instruction, the program evaluates the expressions in order
      and ends behind its last instruction. Functions outside the program are arbitrary: whatever they
      leave in memory, such as a record of their calls, is there as evaluation says. */
  ghost predicate RunsAs(program: seq<Instr>, es: seq<Expr>, env: Env) {
    forall M: Mach, W: World, fuel: nat, c: Ctx, sp: int, m: Mem, s: State ::
      M.code == program && W.env == env && Matches(M, W) && InFrame(W, c, sp, m, s) && s.pc == 0 &&
      EvalArgs(W, fuel, es, c, sp, m).Some? ==>
        RunsFrom(M, c, sp, s, EvalArgs(W, fuel, es, c, sp, m).value, m)
  }

  ghost predicate RunsFrom(M: Mach, c: Ctx, sp: int, s: State, q: (seq<int>, Mem), m: Mem) {
    exists t :: Goes(M, s, t) && Ran(c, sp, s, t, |M.code|, q.0, m, q.1)
  }

  lemma {:induction false} ProgramRuns(es: seq<Expr>, env: Env, lab: nat)
    requires CompilableAll(es, env)
    ensures RunsAs(ProgramCode(es, env, lab), es, env)
  {
    hide Matches, InFrame, Goes, Ran, EvalArgs, CompilableAll, ProgramCode;
    var program := ProgramCode(es, env, lab);
    forall M: Mach, W: World, fuel: nat, c: Ctx, sp: int, m: Mem, s: State |
      M.code == program && W.env == env && Matches(M, W) && InFrame(W, c, sp, m, s) && s.pc == 0 && EvalArgs(W, fuel, es, c, sp, m).Some?
      ensures RunsFrom(M, c, sp, s, EvalArgs(W, fuel, es, c, sp, m).value, m)
    {
      assert M.code[0..0 + |program|] == program;
      var t := RunInOrder(M, W, fuel, es, c, sp, m, lab, s, EvalArgs(W, fuel, es, c, sp, m).value);
    }
  }

  // ----- expressions outside every function -----

  ghost predicate SlotsStatic(slots: seq<Slot>, P: Places) {
    forall s :: s in slots ==> s.bndg in P && P[s.bndg] == Absolute
  }

  lemma {:induction false} StaticAppend(a: seq<Slot>, b: seq<Slot>, P: Places)
    ensures SlotsStatic(a + b, P) <==> SlotsStatic(a, P) && SlotsStatic(b, P)
  {
    assert forall s :: s in a + b <==> s in a || s in b;
  }

  /** Analysis and classification give jump-free expressions outside functions what their code needs. */
  lemma {:induction false} TopIsCompilable(e: Expr, env: Env, conts: Conts, dyn: set<nat>, stat: set<nat>)
    requires JumpFree(e) && Analysed(e, env, conts) && Scoped(e, dyn, stat) && StaticAll(stat, env, conts)
    requires SlotsStatic(FrameSlots(e, env.escapes), env.places) && forall b :: b in dyn ==> env.PlaceOf(b) == Absolute
    ensures Compilable(e, env)
    decreases e, 1
  {
    match e
    case Literal(_) =>
    case Symbol(b) =>
    case If(c, t, f) =>
      StaticAppend(FrameSlots(c, env.escapes), FrameSlots(t, env.escapes), env.places);
      StaticAppend(FrameSlots(c, env.escapes) + FrameSlots(t, env.escapes), FrameSlots(f, env.escapes), env.places);
      hide SlotsStatic, StaticAll;
      TopIsCompilable(c, env, conts, dyn, stat);
      TopIsCompilable(t, env, conts, dyn, stat);
      TopIsCompilable(f, env, conts, dyn, stat);
    case Function(_, _, _) =>
    case Storage(b, args) =>
      var own := [Slot(b, |args| * WORD_SIZE)];
      StaticAppend(FrameSlotsAll(args, env.escapes), own, env.places);
      assert own[0] in own;
      TopAllCompilable(args, env, conts, dyn + {b}, stat);
    case Invoke(target, args, _) =>
      JumpFreeFlag(target);
      JumpFreeFlagAll(args);
      StaticAppend(FrameSlots(target, env.escapes), FrameSlotsAll(args, env.escapes), env.places);
      assert FrameSlots(e, env.escapes) == FrameSlots(target, env.escapes) + FrameSlotsAll(args, env.escapes);
      TopIsCompilable(target, env, conts, dyn, stat);
      TopAllCompilable(args, env, conts, dyn, stat);
    case Constrain(body) => TopIsCompilable(body, env, conts, dyn, stat);
  }

  lemma {:induction false} TopAllCompilable(es: seq<Expr>, env: Env, conts: Conts, dyn: set<nat>, stat: set<nat>)
    requires JumpFreeAll(es) && AnalysedAll(es, env, conts) && ScopedAll(es, dyn, stat) && StaticAll(stat, env, conts)
    requires SlotsStatic(FrameSlotsAll(es, env.escapes), env.places) && forall b :: b in dyn ==> env.PlaceOf(b) == Absolute
    ensures CompilableAll(es, env)
    decreases es, 0
  {
    if es != [] {
      StaticAppend(FrameSlots(es[0], env.escapes), FrameSlotsAll(es[1..], env.escapes), env.places);
      hide SlotsStatic, StaticAll, Compilable;
      TopIsCompilable(es[0], env, conts, dyn, stat);
      TopAllCompilable(es[1..], env, conts, dyn, stat);
    }
  }

  lemma {:induction false} ReadyAllAnalysed(es: seq<Expr>, env: Env, conts: Conts)
    requires ReadyAll(es, env, conts)
    ensures AnalysedAll(es, env, conts)
  {
    AnalysesAgreeAll(es, env, conts);
  }

  /** Running a compiled, loaded program of jump-free expressions. Its functions may be arbitrary as long
      as evaluation calls jump-free ones only. */
  lemma {:induction false} ProgramRunOk(M: Mach, W: World, es: seq<Expr>, lab: nat, conts: Conts, stat: set<nat>,
    fuel: nat, c: Ctx, sp: int, m: Mem, s: State)
    requires MarkedOnceAll(es) && Older(MarksAll(es), lab) && ReadyAll(es, W.env, conts)
    requires ScopedAll(es, {}, stat) && StaticAll(stat, W.env, conts)
    requires M.code == ProgramCode(es, W.env, lab) && 0 <= M.base && M.base + |M.code| < MODULUS
    requires forall b :: b in LinkOf(M.code, M.base) ==> b in M.link && M.link[b] == LinkOf(M.code, M.base)[b]
    requires W.link == M.link && 0 <= W.limit && (forall a :: W.inside(a) == M.Inside(a)) && OutsideFollows(M, W)
    requires FunsAre(W.funs, es, W.env, M.link)
    requires JumpFreeAll(es) && SlotsStatic(FrameSlotsAll(es, W.env.escapes), W.env.places)
    requires InFrame(W, c, sp, m, s) && s.pc == 0 && EvalArgs(W, fuel, es, c, sp, m).Some?
    ensures RunsFrom(M, c, sp, s, EvalArgs(W, fuel, es, c, sp, m).value, m)
  {
    hide *;
    ProgramMatches(M, W, es, lab, conts, stat);
    ReadyAllAnalysed(es, W.env, conts);
    NothingInScope(W.env);
    TopAllCompilable(es, W.env, conts, {}, stat);
    ProgramRuns(es, W.env, lab);
    ApplyRuns(M, W, es, fuel, c, sp, m, s);
  }

  lemma {:induction false} NothingInScope(env: Env)
    ensures forall b: nat :: b in {} ==> env.PlaceOf(b) == Absolute
  {}

  lemma {:induction false} ApplyRuns(M: Mach, W: World, es: seq<Expr>, fuel: nat, c: Ctx, sp: int, m: Mem, s: State)
    requires RunsAs(M.code, es, W.env) && Matches(M, W) && InFrame(W, c, sp, m, s) && s.pc == 0 && EvalArgs(W, fuel, es, c, sp, m).Some?
    ensures RunsFrom(M, c, sp, s, EvalArgs(W, fuel, es, c, sp, m).value, m)
  {
    hide Matches, InFrame, EvalArgs, RunsFrom;
  }

  // ----- compiling -----

  lemma {:induction false} CodeStaysPlaced(e: Expr, code: set<nat>, P: Places, P': Places)
    requires CodePlaced(e, P) && Marks(e) <= code && KeepsCode(code, P, P')
    ensures CodePlaced(e, P')
    decreases e, 1
  {
    match e
    case If(c, t, f) => CodeStaysPlaced(c, code, P, P'); CodeStaysPlaced(t, code, P, P'); CodeStaysPlaced(f, code, P, P');
    case Function(_, _, body) => CodeStaysPlaced(body, code, P, P');
    case Continuation(_, _, body, _) => CodeStaysPlaced(body, code, P, P');
    case With(_, _, body, _) => CodeStaysPlaced(body, code, P, P');
    case Storage(_, args) => CodeStaysPlacedAll(args, code, P, P');
    case Jump(target, args, _) => CodeStaysPlaced(target, code, P, P'); CodeStaysPlacedAll(args, code, P, P');
    case Invoke(target, args, _) => CodeStaysPlaced(target, code, P, P'); CodeStaysPlacedAll(args, code, P, P');
    case Constrain(body) => CodeStaysPlaced(body, code, P, P');
    case _ =>
  }

  lemma {:induction false} CodeStaysPlacedAll(es: seq<Expr>, code: set<nat>, P: Places, P': Places)
    requires CodePlacedAll(es, P) && MarksAll(es) <= code && KeepsCode(code, P, P')
    ensures CodePlacedAll(es, P')
    decreases es, 0
  {
    if es != [] {
      CodeStaysPlaced(es[0], code, P, P');
      CodeStaysPlacedAll(es[1..], code, P, P');
    }
  }

  /** The bindings of e outside functions: they live at absolute addresses. */
  function Classified(e: Expr): set<nat>
    decreases e, 1
  {
    match e
    case Constrain(body) => Classified(body)
    case Storage(b, args) => {b} + ClassifiedAll(args)
    case Jump(target, args, temp) => {temp} + Classified(target) + ClassifiedAll(args)
    case Invoke(target, args, temp) => {temp} + Classified(target) + ClassifiedAll(args)
    case Continuation(b, params, body, _) => {b} + SetOf(params) + Classified(body)
    case With(b, param, body, _) => {b, param} + Classified(body)
    case If(c, t, f) => Classified(c) + Classified(t) + Classified(f)
    case _ => {}
  }

  function ClassifiedAll(es: seq<Expr>): set<nat>
    decreases es, 0
  {
    if es == [] then {} else Classified(es[0]) + ClassifiedAll(es[1..])
  }

  lemma {:induction false} ClassifiedSnoc(es: seq<Expr>, k: nat)
    requires k < |es|
    ensures ClassifiedAll(es[..k + 1]) == ClassifiedAll(es[..k]) + Classified(es[k])
    decreases k
  {
    hide Classified;
    var tail := es[1..];
    if k == 0 {
      assert es[..1][1..] == [] && es[..0] == [];
      assert ClassifiedAll([]) == {};
    } else {
      assert es[..k + 1][1..] == tail[..k] && es[..k][1..] == tail[..k - 1] && es[k] == tail[k - 1];
      ClassifiedSnoc(tail, k - 1);
    }
  }

  /** The bindings bs, and no others, are now absolute. */
  ghost predicate MadeAbsolute(bs: set<nat>, P: Places, P': Places) {
    && (forall b :: b in bs ==> b in P' && P'[b] == Absolute)
    && (forall b :: b !in bs ==> (b in P <==> b in P') && (b in P ==> P'[b] == P[b]))
  }

  lemma {:induction false} MadeThen(A: set<nat>, B: set<nat>, P: Places, P1: Places, P2: Places)
    requires MadeAbsolute(A, P, P1) && MadeAbsolute(B, P1, P2)
    ensures MadeAbsolute(A + B, P, P2)
  {}

  lemma {:induction false} MadeNone(P: Places)
    ensures MadeAbsolute({}, P, P)
  {}

  /** classify_program_binding_augs. */
  class Classifier {
    var places: Places

    constructor (places: Places)
      ensures this.places == places
    {
      this.places := places;
    }

    method MakeAbsolute(bs: seq<nat>)
      modifies this
      ensures MadeAbsolute(SetOf(bs), old(places), places)
    {
      for i := 0 to |bs|
        invariant MadeAbsolute(SetOf(bs[..i]), old(places), places)
      {
        places := places[bs[i] := Absolute];
        assert bs[..i + 1] == bs[..i] + [bs[i]];
      }
      assert bs[..|bs|] == bs;
    }

    method Classify(e: Expr)
      modifies this
      ensures MadeAbsolute(Classified(e), old(places), places)
      decreases e, 1
    {
      hide MadeAbsolute;
      MadeNone(places);
      match e
      case Constrain(body) => Classify(body);
      case Storage(b, args) =>
        MakeAbsolute([b]);
        ghost var P := places;
        ClassifyAll(args);
        MadeThen(SetOf([b]), ClassifiedAll(args), old(places), P, places);
        OneOf(b);
      case Jump(_, _, _) => ClassifyBuffered(e);
      case Invoke(_, _, _) => ClassifyBuffered(e);
      case Continuation(b, params, body, _) =>
        MakeAbsolute([b] + params);
        ghost var P := places;
        Classify(body);
        MadeThen(SetOf([b] + params), Classified(body), old(places), P, places);
        FirstOf(b, params);
      case With(b, param, body, _) =>
        MakeAbsolute([b, param]);
        ghost var P := places;
        Classify(body);
        MadeThen(SetOf([b, param]), Classified(body), old(places), P, places);
        TwoOf(b, param);
      case If(c, t, f) =>
        Classify(c);
        ghost var P := places;
        Classify(t);
        MadeThen(Classified(c), Classified(t), old(places), P, places);
        P := places;
        Classify(f);
        MadeThen(Classified(c) + Classified(t), Classified(f), old(places), P, places);
      case _ =>
    }

    method ClassifyBuffered(e: Expr)
      requires e.Jump? || e.Invoke?
      modifies this
      ensures MadeAbsolute({e.temp} + Classified(e.target) + ClassifiedAll(e.args), old(places), places)
      decreases e, 0
    {
      hide MadeAbsolute, Classified;
      MakeAbsolute([e.temp]);
      OneOf(e.temp);
      ghost var P := places;
      Classify(e.target);
      MadeThen({e.temp}, Classified(e.target), old(places), P, places);
      P := places;
      ClassifyAll(e.args);
      MadeThen({e.temp} + Classified(e.target), ClassifiedAll(e.args), old(places), P, places);
    }

    method ClassifyAll(args: seq<Expr>)
      modifies this
      ensures MadeAbsolute(ClassifiedAll(args), old(places), places)
      decreases args, 0
    {
      hide MadeAbsolute, Classified;
      MadeNone(places);
      for i := 0 to |args|
        invariant MadeAbsolute(ClassifiedAll(args[..i]), old(places), places)
      {
        ghost var P := places;
        Classify(args[i]);
        MadeThen(ClassifiedAll(args[..i]), Classified(args[i]), old(places), P, places);
        ClassifiedSnoc(args, i);
      }
      assert args[..|args|] == args;
    }
  }

  lemma {:induction false} OneOf(b: nat)
    ensures SetOf([b]) == {b}
  {}

  lemma {:induction false} TwoOf(a: nat, b: nat)
    ensures SetOf([a, b]) == {a, b}
  {
    assert forall x :: x in [a, b] <==> x == a || x == b;
  }

  lemma {:induction false} FirstOf(b: nat, bs: seq<nat>)
    ensures SetOf([b] + bs) == {b} + SetOf(bs)
  {
    assert forall x :: x in [b] + bs <==> x == b || x in bs;
  }

  /** Slots that no function owns belong to classified bindings. */
  lemma {:induction false} SlotsAreClassified(e: Expr, escapes: set<nat>)
    ensures forall s :: s in FrameSlots(e, escapes) ==> s.bndg in Classified(e)
    decreases e, 1
  {
    match e
    case Continuation(b, params, body, _) =>
      SlotsAreClassified(body, escapes);
      assert forall s :: s in ParamSlots(params) ==> s.bndg in SetOf(params);
    case With(b, param, body, _) => SlotsAreClassified(body, escapes);
    case Storage(_, args) => SlotsAreClassifiedAll(args, escapes);
    case Jump(target, args, _) => SlotsAreClassified(target, escapes); SlotsAreClassifiedAll(args, escapes);
    case Invoke(target, args, _) => SlotsAreClassified(target, escapes); SlotsAreClassifiedAll(args, escapes);
    case If(c, t, f) => SlotsAreClassified(c, escapes); SlotsAreClassified(t, escapes); SlotsAreClassified(f, escapes);
    case Constrain(body) => SlotsAreClassified(body, escapes);
    case _ =>
  }

  lemma {:induction false} SlotsAreClassifiedAll(es: seq<Expr>, escapes: set<nat>)
    ensures forall s :: s in FrameSlotsAll(es, escapes) ==> s.bndg in ClassifiedAll(es)
    decreases es, 0
  {
    if es != [] {
      SlotsAreClassified(es[0], escapes);
      SlotsAreClassifiedAll(es[1..], escapes);
    }
  }

  lemma {:induction false} CodeStillPlaced(e: Expr, bs: set<nat>, P: Places, P': Places)
    requires CodePlaced(e, P) && MadeAbsolute(bs, P, P')
    ensures CodePlaced(e, P')
    decreases e, 1
  {
    match e
    case If(c, t, f) => CodeStillPlaced(c, bs, P, P'); CodeStillPlaced(t, bs, P, P'); CodeStillPlaced(f, bs, P, P');
    case Function(_, _, body) => CodeStillPlaced(body, bs, P, P');
    case Continuation(_, _, body, _) => CodeStillPlaced(body, bs, P, P');
    case With(_, _, body, _) => CodeStillPlaced(body, bs, P, P');
    case Storage(_, args) => CodeStillPlacedAll(args, bs, P, P');
    case Jump(target, args, _) => CodeStillPlaced(target, bs, P, P'); CodeStillPlacedAll(args, bs, P, P');
    case Invoke(target, args, _) => CodeStillPlaced(target, bs, P, P'); CodeStillPlacedAll(args, bs, P, P');
    case Constrain(body) => CodeStillPlaced(body, bs, P, P');
    case _ =>
  }

  lemma {:induction false} CodeStillPlacedAll(es: seq<Expr>, bs: set<nat>, P: Places, P': Places)
    requires CodePlacedAll(es, P) && MadeAbsolute(bs, P, P')
    ensures CodePlacedAll(es, P')
    decreases es, 0
  {
    if es != [] {
      CodeStillPlaced(es[0], bs, P, P');
      CodeStillPlacedAll(es[1..], bs, P, P');
    }
  }

  /** Layout leaves the bindings outside functions where classification put them. */
  lemma {:induction false} TopStaysStatic(es: seq<Expr>, escapes: set<nat>, P0: Places, P: Places, F: FrameSizes, P': Places, F': FrameSizes)
    requires UniqueAll(es) && MadeAbsolute(ClassifiedAll(es), P0, P) && Only(DecidedAll(es, escapes), P, F, P', F')
    ensures SlotsStatic(FrameSlotsAll(es, escapes), P')
  {
    DecidedApartAll(es, escapes);
    SlotsAreClassifiedAll(es, escapes);
    hide UniqueAll, FrameSlotsAll, DecidedAll, ClassifiedAll, OwnedAll;
    var slots := FrameSlotsAll(es, escapes);
    forall s | s in slots ensures s.bndg in P' && P'[s.bndg] == Absolute {
      var i :| 0 <= i < |slots| && slots[i] == s;
      assert slots[i].bndg in Ids(slots);
    }
  }

  /** compile_program for linked expressions: classification, escape analysis, layout and generation.
      When the expressions are jump-free and their symbols name what is visible outside functions, the
      program evaluates them in order. */
  method CompileProgram(es: seq<Expr>, places: Places, lab: nat) returns (env: Env, program: seq<Instr>)
    requires UniqueAll(es) && CodePlacedAll(es, places)
    requires MarksAll(es) !! MovableAll(es, EscapesOfAll(es, ContsOfAll(es)))
    ensures ReadyAll(es, env, ContsOfAll(es)) && env.escapes == EscapesOfAll(es, ContsOfAll(es))
    ensures program == ProgramCode(es, env, lab) && SlotsStatic(FrameSlotsAll(es, env.escapes), env.places)
    ensures forall stat :: JumpFreeAll(es) && ScopedAll(es, {}, stat) && StaticAll(stat, env, ContsOfAll(es)) ==> RunsAs(program, es, env)
    ensures forall b :: b !in DecidedAll(es, env.escapes) + ClassifiedAll(es) ==> (b in places <==> b in env.places) && (b in places ==> env.places[b] == places[b])
  {
    hide UniqueAll, EscapesOfAll, ContsOfAll, CircuitsOfAll, ParametersOfAll, MarksAll, MovableAll, DecidedAll, LaidOutAll, ProgramCode, CodePlacedAll, OwnedAll, ClassifiedAll, FrameSlotsAll, RunsAs, JumpFreeAll, ScopedAll, StaticAll, SlotsStatic;
    var conts := ContsOfAll(es);
    var classifier := new Classifier(places);
    classifier.ClassifyAll(es);
    var classified := classifier.places;
    CodeStillPlacedAll(es, ClassifiedAll(es), places, classified);
    var analyser := new Analyser(conts);
    analyser.AnalyseAll(es);
    assert analyser.escapes == EscapesOfAll(es, conts) && analyser.circuits == CircuitsOfAll(es, conts);
    var layouter := new Layouter(analyser.escapes, classified, MarksAll(es));
    ghost var F := layouter.frames;
    var statics := layouter.LayoutArguments(es, []);
    CodeStaysPlacedAll(es, MarksAll(es), classified, layouter.places);
    TopStaysStatic(es, analyser.escapes, places, classified, F, layouter.places, layouter.frames);
    env := Env(layouter.places, ParametersOfAll(es), layouter.frames, analyser.escapes, analyser.circuits);
    var emitter := new Emitter(env, lab);
    program := emitter.GenerateProgram(es);
    forall stat | JumpFreeAll(es) && ScopedAll(es, {}, stat) && StaticAll(stat, env, conts) ensures RunsAs(program, es, env) {
      CompiledRuns(es, env, lab, conts, stat);
    }
  }

  lemma {:induction false} CompiledRuns(es: seq<Expr>, env: Env, lab: nat, conts: Conts, stat: set<nat>)
    requires ReadyAll(es, env, conts) && JumpFreeAll(es) && ScopedAll(es, {}, stat) && StaticAll(stat, env, conts)
    requires SlotsStatic(FrameSlotsAll(es, env.escapes), env.places)
    ensures RunsAs(ProgramCode(es, env, lab), es, env)
  {
    hide *;
    ReadyAllAnalysed(es, env, conts);
    NothingInScope(env);
    TopAllCompilable(es, env, conts, {}, stat);
    ProgramRuns(es, env, lab);
  }
}
