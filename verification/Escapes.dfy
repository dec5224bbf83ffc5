/** Escape analysis (escape_analysis, bootstrap/analysis.c) and what it buys: the code of a
    function addresses only slots that layout gave to that function. */
module Escapes {
  import opened Syntax
  import opened Machine
  import opened Generator
  import opened Frames

  /** The parameters and entry of every continuation and with, by the binding that names it. */
  type Conts = map<nat, Circuit>

  /** The continuations and withs that escape through e. */
  function EscapesOf(e: Expr, escaping: bool, conts: Conts): set<nat>
    decreases e, 1
  {
    match e
    case Literal(_) => {}
    case Symbol(b) => if escaping && b in conts then {b} else {}
    case If(c, t, f) => EscapesOf(c, true, conts) + EscapesOf(t, true, conts) + EscapesOf(f, true, conts)
    case Function(_, _, body) => EscapesOf(body, true, conts)
    case Continuation(b, _, body, _) => (if escaping then {b} else {}) + EscapesOf(body, true, conts)
    case With(_, _, body, _) => EscapesOf(body, true, conts)
    case Storage(_, args) => EscapesOfAll(args, conts)
    case Jump(target, args, _) => EscapesOf(target, false, conts) + EscapesOfAll(args, conts)
    case Invoke(target, args, _) => EscapesOf(target, true, conts) + EscapesOfAll(args, conts)
    case Constrain(body) => EscapesOf(body, true, conts)
  }

  function EscapesOfAll(es: seq<Expr>, conts: Conts): set<nat>
    decreases es, 0
  {
    if es == [] then {} else EscapesOf(es[0], true, conts) + EscapesOfAll(es[1..], conts)
  }

  predicate HasCircuit(target: Expr, conts: Conts) {
    (target.Symbol? && target.bndg in conts) || target.Continuation?
  }

  /** Where a jump to this target may go directly. */
  function CircuitOf(target: Expr, conts: Conts): Circuit
    requires HasCircuit(target, conts)
  {
    if target.Symbol? then conts[target.bndg] else Circuit(target.params, target.entry)
  }

  /** Every jump in e that has a direct destination, with that destination. */
  function CircuitsOf(e: Expr, conts: Conts): map<nat, Circuit>
    decreases e, 1
  {
    match e
    case Literal(_) => map[]
    case Symbol(_) => map[]
    case If(c, t, f) => CircuitsOf(c, conts) + CircuitsOf(t, conts) + CircuitsOf(f, conts)
    case Function(_, _, body) => CircuitsOf(body, conts)
    case Continuation(_, _, body, _) => CircuitsOf(body, conts)
    case With(_, _, body, _) => CircuitsOf(body, conts)
    case Storage(_, args) => CircuitsOfAll(args, conts)
    case Jump(target, args, temp) =>
      (if HasCircuit(target, conts) then map[temp := CircuitOf(target, conts)] else map[]) +
      CircuitsOf(target, conts) + CircuitsOfAll(args, conts)
    case Invoke(target, args, _) => CircuitsOf(target, conts) + CircuitsOfAll(args, conts)
    case Constrain(body) => CircuitsOf(body, conts)
  }

  function CircuitsOfAll(es: seq<Expr>, conts: Conts): map<nat, Circuit>
    decreases es, 0
  {
    if es == [] then map[] else CircuitsOf(es[0], conts) + CircuitsOfAll(es[1..], conts)
  }

  lemma {:induction false} Assoc<K, V>(a: map<K, V>, b: map<K, V>, d: map<K, V>)
    ensures a + b + d == a + (b + d)
  {}

  lemma {:induction false} AllSnoc(es: seq<Expr>, k: nat, conts: Conts)
    requires k < |es|
    ensures EscapesOfAll(es[..k + 1], conts) == EscapesOfAll(es[..k], conts) + EscapesOf(es[k], true, conts)
    ensures CircuitsOfAll(es[..k + 1], conts) == CircuitsOfAll(es[..k], conts) + CircuitsOf(es[k], conts)
    decreases k
  {
    hide EscapesOf, CircuitsOf;
    var tail := es[1..];
    if k == 0 {
      assert es[..1] == [es[0]] && es[..0] == [] && es[..1][1..] == [];
      assert EscapesOfAll([], conts) == {} && CircuitsOfAll([], conts) == map[];
      assert CircuitsOf(es[0], conts) + map[] == CircuitsOf(es[0], conts) == map[] + CircuitsOf(es[0], conts);
    } else {
      assert es[..k + 1][1..] == tail[..k];
      assert es[..k][1..] == tail[..k - 1];
      assert es[k] == tail[k - 1] && es[..k + 1][0] == es[0] && es[..k][0] == es[0];
      AllSnoc(tail, k - 1, conts);
      Assoc(CircuitsOf(es[0], conts), CircuitsOfAll(tail[..k - 1], conts), CircuitsOf(es[k], conts));
    }
  }

  /** The escapes and short_circuit fields that the analysis sets. */
  class Analyser {
    const conts: Conts
    var escapes: set<nat>
    var circuits: map<nat, Circuit>

    constructor (conts: Conts)
      ensures this.conts == conts && escapes == {} && circuits == map[]
    {
      this.conts, escapes, circuits := conts, {}, map[];
    }

    method EscapeAnalysis(s: Expr, escaping: bool)
      modifies this
      ensures escapes == old(escapes) + EscapesOf(s, escaping, conts)
      ensures circuits == old(circuits) + CircuitsOf(s, conts)
      decreases s, 1
    {
      match s
      case Literal(_) =>
      case Symbol(b) =>
        if escaping && b in conts {
          escapes := escapes + {b};
        }
      case If(c, t, f) =>
        Assoc(circuits, CircuitsOf(c, conts), CircuitsOf(t, conts));
        Assoc(circuits, CircuitsOf(c, conts) + CircuitsOf(t, conts), CircuitsOf(f, conts));
        EscapeAnalysis(c, true);
        EscapeAnalysis(t, true);
        EscapeAnalysis(f, true);
      case Function(_, _, body) => EscapeAnalysis(body, true);
      case Continuation(b, _, body, _) =>
        if escaping {
          escapes := escapes + {b};
        }
        EscapeAnalysis(body, true);
      case With(_, _, body, _) => EscapeAnalysis(body, true);
      case Storage(_, args) => AnalyseAll(args);
      case Jump(_, _, _) => AnalyseJump(s);
      case Invoke(target, args, _) =>
        Assoc(circuits, CircuitsOf(target, conts), CircuitsOfAll(args, conts));
        EscapeAnalysis(target, true);
        AnalyseAll(args);
      case Constrain(body) => EscapeAnalysis(body, true);
    }

    method AnalyseJump(s: Expr)
      requires s.Jump?
      modifies this
      ensures escapes == old(escapes) + EscapesOf(s, false, conts)
      ensures circuits == old(circuits) + CircuitsOf(s, conts)
      decreases s, 0
    {
      ghost var own := if HasCircuit(s.target, conts) then map[s.temp := CircuitOf(s.target, conts)] else map[];
      Assoc(circuits, own, CircuitsOf(s.target, conts));
      Assoc(circuits, own + CircuitsOf(s.target, conts), CircuitsOfAll(s.args, conts));
      if HasCircuit(s.target, conts) {
        circuits := circuits[s.temp := CircuitOf(s.target, conts)];
      }
      assert circuits == old(circuits) + own;
      EscapeAnalysis(s.target, false);
      AnalyseAll(s.args);
    }

    method AnalyseAll(args: seq<Expr>)
      modifies this
      ensures escapes == old(escapes) + EscapesOfAll(args, conts)
      ensures circuits == old(circuits) + CircuitsOfAll(args, conts)
      decreases args, 0
    {
      hide EscapesOf, CircuitsOf;
      for i := 0 to |args|
        invariant escapes == old(escapes) + EscapesOfAll(args[..i], conts)
        invariant circuits == old(circuits) + CircuitsOfAll(args[..i], conts)
      {
        AllSnoc(args, i, conts);
        Assoc(old(circuits), CircuitsOfAll(args[..i], conts), CircuitsOf(args[i], conts));
        EscapeAnalysis(args[i], true);
      }
      assert args[..|args|] == args;
    }
  }

  // ----- what the generator may assume about a function's body -----

  /** The environment agrees with e: names of continuations, parameters and storage are what they
      are, and the circuits are those of the analysis. */
  ghost predicate Analysed(e: Expr, env: Env, conts: Conts)
    decreases e, 1
  {
    match e
    case Literal(_) => true
    case Symbol(_) => true
    case If(c, t, f) => Analysed(c, env, conts) && Analysed(t, env, conts) && Analysed(f, env, conts)
    case Function(b, _, _) => env.PlaceOf(b) == Absolute
    case Continuation(b, params, body, entry) =>
      && b in conts && conts[b] == Circuit(params, entry) && b !in env.parameters
      && (forall k :: 0 <= k < |params| ==> params[k] in env.parameters && params[k] !in conts)
      && env.PlaceOf(entry) == Absolute && Analysed(body, env, conts)
    case With(b, param, body, entry) =>
      && b in conts && conts[b] == Circuit([param], entry) && b !in env.parameters
      && env.PlaceOf(entry) == Absolute && Analysed(body, env, conts)
    case Storage(b, args) => b !in conts && b !in env.parameters && AnalysedAll(args, env, conts)
    case Jump(target, args, temp) =>
      && (temp in env.circuits <==> HasCircuit(target, conts))
      && (HasCircuit(target, conts) ==> env.circuits[temp] == CircuitOf(target, conts))
      && BufferPlaced(temp, BufferFlag(target, args), env.places)
      && Analysed(target, env, conts) && AnalysedAll(args, env, conts)
    case Invoke(target, args, temp) =>
      && BufferPlaced(temp, BufferFlag(target, args), env.places)
      && Analysed(target, env, conts) && AnalysedAll(args, env, conts)
    case Constrain(body) => Analysed(body, env, conts)
  }

  ghost predicate AnalysedAll(es: seq<Expr>, env: Env, conts: Conts)
    decreases es, 0
  {
    es == [] || (Analysed(es[0], env, conts) && AnalysedAll(es[1..], env, conts))
  }

  /** Symbols name what linking makes visible: `dyn` inside the function, `stat` outside it. */
  ghost predicate Scoped(e: Expr, dyn: set<nat>, stat: set<nat>)
    decreases e, 1
  {
    match e
    case Literal(_) => true
    case Symbol(b) => b in dyn || b in stat
    case If(c, t, f) => Scoped(c, dyn, stat) && Scoped(t, dyn, stat) && Scoped(f, dyn, stat)
    case Function(b, params, body) => Scoped(body, SetOf(params), stat + {b})
    case Continuation(b, params, body, _) => Scoped(body, dyn + {b} + SetOf(params), stat)
    case With(b, _, body, _) => Scoped(body, dyn + {b}, stat)
    case Storage(b, args) => ScopedAll(args, dyn + {b}, stat)
    case Jump(target, args, _) => Scoped(target, dyn, stat) && ScopedAll(args, dyn, stat)
    case Invoke(target, args, _) => Scoped(target, dyn, stat) && ScopedAll(args, dyn, stat)
    case Constrain(body) => Scoped(body, dyn, stat)
  }

  ghost predicate ScopedAll(es: seq<Expr>, dyn: set<nat>, stat: set<nat>)
    decreases es, 0
  {
    es == [] || (Scoped(es[0], dyn, stat) && ScopedAll(es[1..], dyn, stat))
  }

  /** The function's own code: the bodies of functions nested in it are someone else's. */
  function Strip(e: Expr): Expr
    decreases e, 1
  {
    match e
    case If(c, t, f) => If(Strip(c), Strip(t), Strip(f))
    case Function(b, params, _) => Function(b, params, Literal(0))
    case Continuation(b, params, body, entry) => Continuation(b, params, Strip(body), entry)
    case With(b, param, body, entry) => With(b, param, Strip(body), entry)
    case Storage(b, args) => Storage(b, StripAll(args))
    case Jump(target, args, temp) => Jump(Strip(target), StripAll(args), temp)
    case Invoke(target, args, temp) => Invoke(Strip(target), StripAll(args), temp)
    case Constrain(body) => Constrain(Strip(body))
    case _ => e
  }

  function StripAll(es: seq<Expr>): (r: seq<Expr>)
    ensures |r| == |es|
    decreases es, 0
  {
    if es == [] then [] else [Strip(es[0])] + StripAll(es[1..])
  }

  lemma {:induction false} ContainsStrip(e: Expr)
    ensures Contains(Strip(e)) == Contains(e)
    decreases e, 1
  {
    match e
    case If(c, t, f) => ContainsStrip(c); ContainsStrip(t); ContainsStrip(f);
    case Storage(_, args) => ContainsStripAll(args);
    case Invoke(target, args, _) => ContainsStrip(target); ContainsStripAll(args);
    case Constrain(body) => ContainsStrip(body);
    case _ =>
  }

  lemma {:induction false} ContainsStripAll(es: seq<Expr>)
    ensures ContainsAny(StripAll(es)) == ContainsAny(es)
    decreases es, 0
  {
    if es != [] {
      ContainsStrip(es[0]);
      ContainsStripAll(es[1..]);
      assert StripAll(es)[1..] == StripAll(es[1..]);
    }
  }

  // ----- operands -----

  /** d is the base of a slot of the frame. */
  ghost predicate SlotBase(d: int, slots: seq<Slot>) {
    exists i :: 0 <= i < |slots| && SlotOffset(slots, i) == d
  }

  /** The word at d lies in a slot of the frame or is a parameter. */
  ghost predicate SlotWord(d: int, slots: seq<Slot>, params: nat) {
    || (exists i :: 0 <= i < |slots| && SlotOffset(slots, i) <= d && d + WORD_SIZE <= SlotOffset(slots, i) + slots[i].size)
    || (exists k :: 0 <= k < params && d == 2 * WORD_SIZE + k * WORD_SIZE)
  }

  ghost predicate OperandOk(i: Instr, slots: seq<Slot>, params: nat) {
    match i
    case LeaqMdbToReg(disp, base, _) => base == RBP ==> SlotBase(disp, slots)
    case MovqRegToMdb(_, disp, base) => base == RBP ==> SlotWord(disp, slots, params)
    case MovqMdbToReg(disp, base, _) => base == RBP ==> SlotWord(disp, slots, params)
    case _ => true
  }

  ghost predicate AllOk(code: seq<Instr>, slots: seq<Slot>, params: nat) {
    forall i :: 0 <= i < |code| ==> OperandOk(code[i], slots, params)
  }

  lemma {:induction false} OkAppend(a: seq<Instr>, b: seq<Instr>, slots: seq<Slot>, params: nat)
    requires AllOk(a, slots, params) && AllOk(b, slots, params)
    ensures AllOk(a + b, slots, params)
  {}

  // ----- the pieces of code -----

  /** A binding made outside every function, with the parameters it has if it is a continuation. */
  ghost predicate StaticPlaced(b: nat, env: Env, conts: Conts) {
    && env.PlaceOf(b) == Absolute
    && (b in conts ==> forall k :: 0 <= k < |conts[b].params| ==> env.PlaceOf(conts[b].params[k]) == Absolute)
  }

  /** The frame of the function being compiled, and what its symbols may name. */
  ghost predicate Context(env: Env, conts: Conts, dyn: set<nat>, stat: set<nat>, slots: seq<Slot>, params: seq<nat>) {
    && SlotsPlaced(slots, env.places) && ParamsPlaced(params, env.places)
    && (forall b :: b in dyn && b in env.parameters ==> b !in conts && (b in params || Slot(b, WORD_SIZE) in slots))
    && (forall b :: b in dyn && b !in env.parameters && b !in conts ==> exists n :: Slot(b, n) in slots)
    && (forall b :: b in dyn && b in conts && b in env.escapes ==> Slot(b, CONT_SIZE) in slots)
    && (forall b, k :: b in dyn && b in conts && 0 <= k < |conts[b].params| ==> Slot(conts[b].params[k], WORD_SIZE) in slots)
    && (forall b :: b in stat ==> StaticPlaced(b, env, conts))
  }

  lemma {:induction false} SlotPlace(env: Env, slots: seq<Slot>, s: Slot) returns (i: nat)
    requires SlotsPlaced(slots, env.places) && s in slots
    ensures i < |slots| && slots[i] == s && env.PlaceOf(s.bndg) == FrameRelative(SlotOffset(slots, i))
  {
    i :| 0 <= i < |slots| && slots[i] == s;
    assert slots[i].bndg in env.places;
  }

  lemma {:induction false} SlotLoadOk(env: Env, slots: seq<Slot>, params: nat, b: nat, n: nat, offset: int, dest: nat, scratch: nat)
    requires SlotsPlaced(slots, env.places) && Slot(b, n) in slots && 0 <= offset && offset + WORD_SIZE <= n && scratch != RBP
    ensures AllOk(LoadCode(env.PlaceOf(b), b, offset, dest, scratch), slots, params)
    ensures AllOk(StoreCode(dest, env.PlaceOf(b), b, offset, scratch), slots, params)
  {
    var i := SlotPlace(env, slots, Slot(b, n));
    assert SlotOffset(slots, i) <= SlotOffset(slots, i) + offset;
  }

  lemma {:induction false} SlotAddressOk(env: Env, slots: seq<Slot>, params: nat, b: nat, n: nat, dest: nat)
    requires SlotsPlaced(slots, env.places) && Slot(b, n) in slots
    ensures AllOk(AddressCode(env.PlaceOf(b), b, dest), slots, params)
  {
    var i := SlotPlace(env, slots, Slot(b, n));
  }

  lemma {:induction false} OtherPlacesOk(p: Place, b: nat, offset: int, r: nat, scratch: nat, slots: seq<Slot>, params: nat)
    requires !p.FrameRelative? && scratch != RBP
    ensures AllOk(LoadCode(p, b, offset, r, scratch), slots, params)
    ensures AllOk(StoreCode(r, p, b, offset, scratch), slots, params)
    ensures AllOk(AddressCode(p, b, r), slots, params)
  {}

  lemma {:induction false} SymbolOk(env: Env, conts: Conts, dyn: set<nat>, stat: set<nat>, slots: seq<Slot>, params: seq<nat>, b: nat, lab: nat)
    requires Context(env, conts, dyn, stat, slots, params) && (b in dyn || b in stat)
    requires b in conts ==> b in env.escapes
    ensures AllOk(Code(Symbol(b), env, lab), slots, |params|)
  {
    if b in stat {
      OtherPlacesOk(Absolute, b, 0, RAX, R11, slots, |params|);
    } else if b in env.parameters {
      if b in params {
        var k :| 0 <= k < |params| && params[k] == b;
        assert env.PlaceOf(params[k]) == FrameRelative(2 * WORD_SIZE + k * WORD_SIZE);
      } else {
        SlotLoadOk(env, slots, |params|, b, WORD_SIZE, 0, RAX, R11);
      }
    } else {
      var n: nat :| Slot(b, n) in slots;
      SlotAddressOk(env, slots, |params|, b, n, RAX);
    }
  }

  /** An argument buffer of n words: a slot, the top of the stack, or nowhere. */
  ghost predicate BufferOk(env: Env, slots: seq<Slot>, temp: nat, n: nat) {
    Slot(temp, WORD_SIZE * n) in slots || !env.PlaceOf(temp).FrameRelative?
  }

  lemma {:induction false} BufferWordOk(env: Env, slots: seq<Slot>, params: nat, temp: nat, n: nat, i: nat, r: nat, scratch: nat)
    requires SlotsPlaced(slots, env.places) && BufferOk(env, slots, temp, n) && i < n && scratch != RBP
    ensures AllOk(LoadCode(env.PlaceOf(temp), temp, i * WORD_SIZE, r, scratch), slots, params)
    ensures AllOk(StoreCode(r, env.PlaceOf(temp), temp, i * WORD_SIZE, scratch), slots, params)
  {
    if Slot(temp, WORD_SIZE * n) in slots {
      SlotLoadOk(env, slots, params, temp, WORD_SIZE * n, i * WORD_SIZE, r, scratch);
    } else {
      OtherPlacesOk(env.PlaceOf(temp), temp, i * WORD_SIZE, r, scratch, slots, params);
    }
  }

  lemma {:induction false} BufferToDestOk(env: Env, slots: seq<Slot>, params: nat, temp: nat, i: nat, n: nat, offset: int)
    requires SlotsPlaced(slots, env.places) && BufferOk(env, slots, temp, n)
    ensures AllOk(BufferToDest(env.PlaceOf(temp), temp, i, n, R11, offset), slots, params)
    decreases n - i
  {
    hide LoadCode, BufferOk, SlotsPlaced;
    if i < n {
      BufferWordOk(env, slots, params, temp, n, i, RAX, R10);
      BufferToDestOk(env, slots, params, temp, i + 1, n, offset);
      var a, d := LoadCode(env.PlaceOf(temp), temp, i * WORD_SIZE, RAX, R10), [MovqRegToMdb(RAX, offset + i * WORD_SIZE, R11)];
      OkAppend(a, d, slots, params);
      OkAppend(a + d, BufferToDest(env.PlaceOf(temp), temp, i + 1, n, R11, offset), slots, params);
    }
  }

  lemma {:induction false} PushArgumentsOk(env: Env, slots: seq<Slot>, params: nat, temp: nat, n: nat, m: nat)
    requires SlotsPlaced(slots, env.places) && BufferOk(env, slots, temp, m) && n <= m
    ensures AllOk(PushArguments(env.PlaceOf(temp), temp, n), slots, params)
    decreases n
  {
    hide LoadCode, BufferOk, SlotsPlaced;
    if n > 0 {
      BufferWordOk(env, slots, params, temp, m, n - 1, R11, R10);
      PushArgumentsOk(env, slots, params, temp, n - 1, m);
      var a := LoadCode(env.PlaceOf(temp), temp, (n - 1) * WORD_SIZE, R11, R10);
      OkAppend(a, [PushqReg(R11)], slots, params);
      OkAppend(a + [PushqReg(R11)], PushArguments(env.PlaceOf(temp), temp, n - 1), slots, params);
    }
  }

  lemma {:induction false} CallCodeOk(n: nat, slots: seq<Slot>, params: nat)
    ensures AllOk(CallCode(n), slots, params)
  {
    PopsOk(0, n, slots, params);
    hide PopArguments;
    OkAppend([MovqRegToReg(RAX, R11)], PopArguments(0, n), slots, params);
    OkAppend([MovqRegToReg(RAX, R11)] + PopArguments(0, n), [MovqImmToReg(Lit(0), RAX), CallReg(R11)], slots, params);
  }

  lemma {:induction false} PopsOk(i: nat, n: nat, slots: seq<Slot>, params: nat)
    ensures AllOk(PopArguments(i, n), slots, params)
    decreases 6 - i
  {
    if i < 6 && i < n {
      PopsOk(i + 1, n, slots, params);
    }
  }

  lemma {:induction false} SaveContinuationOk(env: Env, slots: seq<Slot>, params: nat, b: nat, entry: nat)
    requires SlotsPlaced(slots, env.places) && Slot(b, CONT_SIZE) in slots && env.PlaceOf(entry) == Absolute
    ensures AllOk(SaveContinuationCode(env.PlaceOf(b), b, env.PlaceOf(entry), entry), slots, params)
  {
    SlotLoadOk(env, slots, params, b, CONT_SIZE, CONT_RBX, RBX, R11);
    SlotLoadOk(env, slots, params, b, CONT_SIZE, CONT_R12, R12, R11);
    SlotLoadOk(env, slots, params, b, CONT_SIZE, CONT_R13, R13, R11);
    SlotLoadOk(env, slots, params, b, CONT_SIZE, CONT_R14, R14, R11);
    SlotLoadOk(env, slots, params, b, CONT_SIZE, CONT_R15, R15, R11);
    SlotLoadOk(env, slots, params, b, CONT_SIZE, CONT_CIR, R10, R11);
    SlotLoadOk(env, slots, params, b, CONT_SIZE, CONT_RBP, RBP, R11);
    OtherPlacesOk(Absolute, entry, 0, R10, R11, slots, params);
    hide StoreCode, AddressCode, SlotsPlaced, OperandOk;
    var p := env.PlaceOf(b);
    var c := StoreCode(RBX, p, b, CONT_RBX, R11);
    c := OkThen(c, StoreCode(R12, p, b, CONT_R12, R11), slots, params);
    c := OkThen(c, StoreCode(R13, p, b, CONT_R13, R11), slots, params);
    c := OkThen(c, StoreCode(R14, p, b, CONT_R14, R11), slots, params);
    c := OkThen(c, StoreCode(R15, p, b, CONT_R15, R11), slots, params);
    c := OkThen(c, AddressCode(env.PlaceOf(entry), entry, R10), slots, params);
    c := OkThen(c, StoreCode(R10, p, b, CONT_CIR, R11), slots, params);
    c := OkThen(c, StoreCode(RBP, p, b, CONT_RBP, R11), slots, params);
  }

  lemma {:induction false} OkThen(a: seq<Instr>, b: seq<Instr>, slots: seq<Slot>, params: nat) returns (c: seq<Instr>)
    requires AllOk(a, slots, params) && AllOk(b, slots, params)
    ensures c == a + b && AllOk(c, slots, params)
  {
    c := a + b;
  }

  // ----- every operand of a function's own code names one of its slots -----

  ghost predicate Within(part: seq<Slot>, slots: seq<Slot>) {
    forall s :: s in part ==> s in slots
  }

  lemma {:induction false} WithinAppend(a: seq<Slot>, b: seq<Slot>, slots: seq<Slot>)
    ensures Within(a + b, slots) <==> Within(a, slots) && Within(b, slots)
  {
    assert forall s :: s in a + b <==> s in a || s in b;
  }

  /** The scope of a continuation's body. */
  lemma {:induction false} EnterContinuation(env: Env, conts: Conts, dyn: set<nat>, stat: set<nat>, slots: seq<Slot>, params: seq<nat>, b: nat, ps: seq<nat>, entry: nat)
    requires Context(env, conts, dyn, stat, slots, params)
    requires b in conts && conts[b] == Circuit(ps, entry) && b !in env.parameters
    requires forall k :: 0 <= k < |ps| ==> ps[k] in env.parameters && ps[k] !in conts
    requires b in env.escapes ==> Slot(b, CONT_SIZE) in slots
    requires Within(ParamSlots(ps), slots)
    ensures Context(env, conts, dyn + {b} + SetOf(ps), stat, slots, params)
  {
    forall k | 0 <= k < |ps| ensures Slot(ps[k], WORD_SIZE) in slots {
      assert ParamSlots(ps)[k] in ParamSlots(ps);
    }
  }

  lemma {:induction false} EnterWith(env: Env, conts: Conts, dyn: set<nat>, stat: set<nat>, slots: seq<Slot>, params: seq<nat>, b: nat, p: nat, entry: nat)
    requires Context(env, conts, dyn, stat, slots, params)
    requires b in conts && conts[b] == Circuit([p], entry) && b !in env.parameters
    requires b in env.escapes ==> Slot(b, CONT_SIZE) in slots
    requires Within(ParamSlots([p]), slots)
    ensures Context(env, conts, dyn + {b}, stat, slots, params) && Slot(p, WORD_SIZE) in slots
  {
    assert ParamSlots([p])[0] in ParamSlots([p]);
  }

  lemma {:induction false} EnterStorage(env: Env, conts: Conts, dyn: set<nat>, stat: set<nat>, slots: seq<Slot>, params: seq<nat>, b: nat, n: nat)
    requires Context(env, conts, dyn, stat, slots, params) && b !in conts && b !in env.parameters && Slot(b, n) in slots
    ensures Context(env, conts, dyn + {b}, stat, slots, params)
  {}

  lemma {:induction false} ContextPlaced(env: Env, conts: Conts, dyn: set<nat>, stat: set<nat>, slots: seq<Slot>, params: seq<nat>)
    requires Context(env, conts, dyn, stat, slots, params)
    ensures SlotsPlaced(slots, env.places)
  {}

  lemma {:induction false} OperandsOk(e: Expr, env: Env, conts: Conts, escaping: bool, dyn: set<nat>, stat: set<nat>, slots: seq<Slot>, params: seq<nat>, lab: nat)
    requires Context(env, conts, dyn, stat, slots, params) && Analysed(e, env, conts) && Scoped(e, dyn, stat)
    requires EscapesOf(e, escaping, conts) <= env.escapes && Within(FrameSlots(e, env.escapes), slots)
    requires e.Symbol? && e.bndg in conts ==> escaping
    ensures AllOk(Code(Strip(e), env, lab), slots, |params|)
    decreases e, 2
  {
    hide Context, OperandOk, Within;
    match e
    case Literal(_) => LiteralOk(e, env, slots, |params|, lab);
    case Symbol(b) => SymbolOk(env, conts, dyn, stat, slots, params, b, lab);
    case If(_, _, _) => IfOk(e, env, conts, dyn, stat, slots, params, lab);
    case Function(b, ps, _) => StrippedFunctionOk(b, ps, env, slots, |params|, lab);
    case Continuation(_, _, _, _) => ContinuationOk(e, env, conts, escaping, dyn, stat, slots, params, lab);
    case With(_, _, _, _) => WithOk(e, env, conts, dyn, stat, slots, params, lab);
    case Storage(_, _) => StorageOk(e, env, conts, dyn, stat, slots, params, lab);
    case Jump(_, _, _) => JumpOk(e, env, conts, dyn, stat, slots, params, lab);
    case Invoke(_, _, _) => InvokeOk(e, env, conts, dyn, stat, slots, params, lab);
    case Constrain(body) => OperandsOk(body, env, conts, true, dyn, stat, slots, params, lab);
  }

  lemma {:induction false} LiteralOk(e: Expr, env: Env, slots: seq<Slot>, params: nat, lab: nat)
    requires e.Literal?
    ensures AllOk(Code(Strip(e), env, lab), slots, params)
  {}

  lemma {:induction false} StrippedFunctionOk(b: nat, ps: seq<nat>, env: Env, slots: seq<Slot>, params: nat, lab: nat)
    requires env.PlaceOf(b) == Absolute
    ensures AllOk(Code(Function(b, ps, Literal(0)), env, lab), slots, params)
  {
    var e := Function(b, ps, Literal(0));
    FunctionCode(e, env, lab);
    OtherPlacesOk(Absolute, b, 0, RAX, R11, slots, params);
    LiteralOk(Literal(0), env, slots, params, lab + 1);
    hide Code, AddressCode;
    var c := OkThen(AddressCode(env.PlaceOf(b), b, RAX), [JmpRel(lab), Label(b)], slots, params);
    c := OkThen(c, ENTER_FUNCTION, slots, params);
    c := OkThen(c, [SubqImmToReg(env.FrameSize(b), RSP)], slots, params);
    c := OkThen(c, Code(Literal(0), env, lab + 1), slots, params);
    c := OkThen(c, LEAVE_FUNCTION, slots, params);
    c := OkThen(c, [Label(lab)], slots, params);
  }

  lemma {:induction false} IfParts(e: Expr, env: Env, conts: Conts, dyn: set<nat>, stat: set<nat>, slots: seq<Slot>)
    requires e.If? && Analysed(e, env, conts) && Scoped(e, dyn, stat)
    requires EscapesOf(e, true, conts) <= env.escapes && Within(FrameSlots(e, env.escapes), slots)
    ensures Strip(e) == If(Strip(e.condition), Strip(e.consequent), Strip(e.alternate))
    ensures forall part :: part in {e.condition, e.consequent, e.alternate} ==>
      && Analysed(part, env, conts) && Scoped(part, dyn, stat)
      && EscapesOf(part, true, conts) <= env.escapes && Within(FrameSlots(part, env.escapes), slots)
  {
    WithinAppend(FrameSlots(e.condition, env.escapes), FrameSlots(e.consequent, env.escapes), slots);
    WithinAppend(FrameSlots(e.condition, env.escapes) + FrameSlots(e.consequent, env.escapes), FrameSlots(e.alternate, env.escapes), slots);
  }

  lemma {:induction false} IfOk(e: Expr, env: Env, conts: Conts, dyn: set<nat>, stat: set<nat>, slots: seq<Slot>, params: seq<nat>, lab: nat)
    requires e.If? && Context(env, conts, dyn, stat, slots, params) && Analysed(e, env, conts) && Scoped(e, dyn, stat)
    requires EscapesOf(e, true, conts) <= env.escapes && Within(FrameSlots(e, env.escapes), slots)
    ensures AllOk(Code(Strip(e), env, lab), slots, |params|)
    decreases e, 1
  {
    hide *;
    var k := |params|;
    var d := Strip(e);
    IfParts(e, env, conts, dyn, stat, slots);
    IfCode(d, env, lab);
    var alternate := lab + Labels(d.condition, env);
    var end := alternate + 1 + Labels(d.consequent, env);
    JumpsOk(alternate, end, slots, k);
    OperandsOk(e.condition, env, conts, true, dyn, stat, slots, params, lab);
    OperandsOk(e.consequent, env, conts, true, dyn, stat, slots, params, alternate + 1);
    OperandsOk(e.alternate, env, conts, true, dyn, stat, slots, params, end + 1);
    var c := OkThen(Code(d.condition, env, lab), [OrqRegToReg(RAX, RAX), JeRel(alternate)], slots, k);
    c := OkThen(c, Code(d.consequent, env, alternate + 1), slots, k);
    c := OkThen(c, [JmpRel(end), Label(alternate)], slots, k);
    c := OkThen(c, Code(d.alternate, env, end + 1), slots, k);
    c := OkThen(c, [Label(end)], slots, k);
  }

  lemma {:induction false} ContinuationOk(e: Expr, env: Env, conts: Conts, escaping: bool, dyn: set<nat>, stat: set<nat>, slots: seq<Slot>, params: seq<nat>, lab: nat)
    requires e.Continuation? && Context(env, conts, dyn, stat, slots, params) && Analysed(e, env, conts) && Scoped(e, dyn, stat)
    requires EscapesOf(e, escaping, conts) <= env.escapes && Within(FrameSlots(e, env.escapes), slots)
    ensures AllOk(Code(Strip(e), env, lab), slots, |params|)
    decreases e, 1
  {
    var b, k := e.bndg, |params|;
    var d := Strip(e);
    var mid := if b in env.escapes then [Slot(b, CONT_SIZE)] else [];
    WithinAppend(FrameSlots(e.body, env.escapes), mid, slots);
    WithinAppend(FrameSlots(e.body, env.escapes) + mid, ParamSlots(e.params), slots);
    assert b in env.escapes ==> mid[0] in mid;
    ContinuationCode(d, env, lab);
    ContextPlaced(env, conts, dyn, stat, slots, params);
    EnterContinuation(env, conts, dyn, stat, slots, params, b, e.params, e.entry);
    hide Context, Code, Labels, Within, AddressCode, SaveContinuationCode;
    OperandsOk(e.body, env, conts, true, dyn + {b} + SetOf(e.params), stat, slots, params, lab + 1);
    var c: seq<Instr> := [];
    if b in env.escapes {
      SlotAddressOk(env, slots, k, b, CONT_SIZE, RAX);
      SaveContinuationOk(env, slots, k, b, e.entry);
      c := OkThen(AddressCode(env.PlaceOf(b), b, RAX), SaveContinuationCode(env.PlaceOf(b), b, env.PlaceOf(e.entry), e.entry), slots, k);
    }
    c := OkThen(c, [JmpRel(lab), Label(e.entry)], slots, k);
    c := OkThen(c, Code(d.body, env, lab + 1), slots, k);
    c := OkThen(c, [Label(lab)], slots, k);
  }

  lemma {:induction false} WithParts(e: Expr, env: Env, conts: Conts, dyn: set<nat>, stat: set<nat>, slots: seq<Slot>)
    requires e.With? && Analysed(e, env, conts) && Scoped(e, dyn, stat)
    requires EscapesOf(e, true, conts) <= env.escapes && Within(FrameSlots(e, env.escapes), slots)
    ensures e.bndg in env.escapes ==> Slot(e.bndg, CONT_SIZE) in slots
    ensures Within(ParamSlots([e.param]), slots) && Within(FrameSlots(e.body, env.escapes), slots)
    ensures EscapesOf(e.body, true, conts) <= env.escapes && Analysed(e.body, env, conts) && Scoped(e.body, dyn + {e.bndg}, stat)
    ensures e.bndg in conts && conts[e.bndg] == Circuit([e.param], e.entry) && e.bndg !in env.parameters && env.PlaceOf(e.entry) == Absolute
    ensures Strip(e) == e.(body := Strip(e.body)) 
  {
    var mid := if e.bndg in env.escapes then [Slot(e.bndg, CONT_SIZE)] else [];
    WithinAppend(FrameSlots(e.body, env.escapes), mid, slots);
    WithinAppend(FrameSlots(e.body, env.escapes) + mid, ParamSlots([e.param]), slots);
    assert e.bndg in env.escapes ==> mid[0] in mid;
  }

  lemma {:induction false} ParameterLoadOk(env: Env, slots: seq<Slot>, params: nat, b: nat)
    requires SlotsPlaced(slots, env.places) && Slot(b, WORD_SIZE) in slots
    ensures AllOk(LoadCode(env.PlaceOf(b), b, 0, RAX, R10), slots, params)
  {
    SlotLoadOk(env, slots, params, b, WORD_SIZE, 0, RAX, R10);
  }

  lemma {:induction false} WithOk(e: Expr, env: Env, conts: Conts, dyn: set<nat>, stat: set<nat>, slots: seq<Slot>, params: seq<nat>, lab: nat)
    requires e.With? && Context(env, conts, dyn, stat, slots, params) && Analysed(e, env, conts) && Scoped(e, dyn, stat)
    requires EscapesOf(e, true, conts) <= env.escapes && Within(FrameSlots(e, env.escapes), slots)
    ensures AllOk(Code(Strip(e), env, lab), slots, |params|)
    decreases e, 1
  {
    hide *;
    var b, k := e.bndg, |params|;
    var d := Strip(e);
    WithParts(e, env, conts, dyn, stat, slots);
    WithCode(d, env, lab);
    ContextPlaced(env, conts, dyn, stat, slots, params);
    EnterWith(env, conts, dyn, stat, slots, params, b, e.param, e.entry);
    ParameterLoadOk(env, slots, k, e.param);
    JumpsOk(lab + Labels(d.body, env), e.entry, slots, k);
    AllOkEmpty(slots, k);
    OperandsOk(e.body, env, conts, true, dyn + {b}, stat, slots, params, lab);
    var c: seq<Instr> := [];
    if b in env.escapes {
      SaveContinuationOk(env, slots, k, b, e.entry);
      c := SaveContinuationCode(env.PlaceOf(b), b, env.PlaceOf(e.entry), e.entry);
    }
    c := OkThen(c, Code(d.body, env, lab), slots, k);
    c := OkThen(c, [JmpRel(lab + Labels(d.body, env)), Label(e.entry)], slots, k);
    c := OkThen(c, LoadCode(env.PlaceOf(e.param), e.param, 0, RAX, R10), slots, k);
    c := OkThen(c, [Label(lab + Labels(d.body, env))], slots, k);
  }

  lemma {:induction false} ArgsHead(es: seq<Expr>, env: Env, conts: Conts, dyn: set<nat>, stat: set<nat>, slots: seq<Slot>)
    requires es != [] && AnalysedAll(es, env, conts) && ScopedAll(es, dyn, stat)
    requires EscapesOfAll(es, conts) <= env.escapes && Within(FrameSlotsAll(es, env.escapes), slots)
    ensures Analysed(es[0], env, conts) && Scoped(es[0], dyn, stat) && EscapesOf(es[0], true, conts) <= env.escapes
    ensures Within(FrameSlots(es[0], env.escapes), slots) && Within(FrameSlotsAll(es[1..], env.escapes), slots)
    ensures AnalysedAll(es[1..], env, conts) && ScopedAll(es[1..], dyn, stat) && EscapesOfAll(es[1..], conts) <= env.escapes
    ensures |StripAll(es)| == |es| && StripAll(es)[0] == Strip(es[0]) && StripAll(es)[1..] == StripAll(es[1..])
  {
    WithinAppend(FrameSlots(es[0], env.escapes), FrameSlotsAll(es[1..], env.escapes), slots);
    assert StripAll(es)[1..] == StripAll(es[1..]);
  }

  lemma {:induction false} ArgsCodeHead(ds: seq<Expr>, b: nat, i: nat, scratch: nat, env: Env, lab: nat)
    requires ds != []
    ensures ArgsCode(ds, b, i, scratch, env, lab) ==
      Code(ds[0], env, lab) + StoreCode(RAX, env.PlaceOf(b), b, i * WORD_SIZE, scratch) +
      ArgsCode(ds[1..], b, i + 1, scratch, env, lab + Labels(ds[0], env))
  {}

  lemma {:induction false} NoArgsOk(b: nat, i: nat, scratch: nat, env: Env, lab: nat, slots: seq<Slot>, params: nat)
    ensures AllOk(ArgsCode(StripAll([]), b, i, scratch, env, lab), slots, params)
  {}

  /** Arguments i, i+1, ... stored in a binding that has n words. */
  lemma {:induction false} ArgsOk(es: seq<Expr>, env: Env, conts: Conts, dyn: set<nat>, stat: set<nat>, slots: seq<Slot>, params: seq<nat>, b: nat, i: nat, n: nat, scratch: nat, lab: nat)
    requires Context(env, conts, dyn, stat, slots, params) && AnalysedAll(es, env, conts) && ScopedAll(es, dyn, stat)
    requires EscapesOfAll(es, conts) <= env.escapes && Within(FrameSlotsAll(es, env.escapes), slots)
    requires BufferOk(env, slots, b, n) && i + |es| <= n && scratch != RBP
    ensures AllOk(ArgsCode(StripAll(es), b, i, scratch, env, lab), slots, |params|)
    decreases es, 0
  {
    hide *;
    if es == [] {
      NoArgsOk(b, i, scratch, env, lab, slots, |params|);
    } else {
      var k := |params|;
      var ds := StripAll(es);
      ArgsHead(es, env, conts, dyn, stat, slots);
      ArgsCodeHead(ds, b, i, scratch, env, lab);
      ContextPlaced(env, conts, dyn, stat, slots, params);
      OperandsOk(es[0], env, conts, true, dyn, stat, slots, params, lab);
      BufferWordOk(env, slots, k, b, n, i, RAX, scratch);
      ArgsOk(es[1..], env, conts, dyn, stat, slots, params, b, i + 1, n, scratch, lab + Labels(ds[0], env));
      var c := OkThen(Code(ds[0], env, lab), StoreCode(RAX, env.PlaceOf(b), b, i * WORD_SIZE, scratch), slots, k);
      c := OkThen(c, ArgsCode(ds[1..], b, i + 1, scratch, env, lab + Labels(ds[0], env)), slots, k);
    }
  }

  lemma {:induction false} StorageOk(e: Expr, env: Env, conts: Conts, dyn: set<nat>, stat: set<nat>, slots: seq<Slot>, params: seq<nat>, lab: nat)
    requires e.Storage? && Context(env, conts, dyn, stat, slots, params) && Analysed(e, env, conts) && Scoped(e, dyn, stat)
    requires EscapesOf(e, true, conts) <= env.escapes && Within(FrameSlots(e, env.escapes), slots)
    ensures AllOk(Code(Strip(e), env, lab), slots, |params|)
    decreases e, 1
  {
    var b, n := e.bndg, |e.args|;
    var own := [Slot(b, n * WORD_SIZE)];
    WithinAppend(FrameSlotsAll(e.args, env.escapes), own, slots);
    assert own[0] in own;
    EnterStorage(env, conts, dyn, stat, slots, params, b, n * WORD_SIZE);
    ContextPlaced(env, conts, dyn, stat, slots, params);
    SlotAddressOk(env, slots, |params|, b, n * WORD_SIZE, RAX);
    assert BufferOk(env, slots, b, n);
    hide Context, Within, AddressCode, ArgsCode;
    ArgsOk(e.args, env, conts, dyn + {b}, stat, slots, params, b, 0, n, R11, lab);
    var c := OkThen(ArgsCode(StripAll(e.args), b, 0, R11, env, lab), AddressCode(env.PlaceOf(b), b, RAX), slots, |params|);
  }

  lemma {:induction false} FlagValues(e: Expr)
    ensures Contains(e) in {CONTAINS_NONE, CONTAINS_JUMP, CONTAINS_WITH}
    decreases e, 1
  {
    match e
    case If(c, t, f) => FlagValues(c); FlagValues(t); FlagValues(f);
    case Storage(_, args) => FlagValuesAny(args);
    case Invoke(target, args, _) => FlagValues(target); FlagValuesAny(args);
    case Constrain(body) => FlagValues(body);
    case _ =>
  }

  lemma {:induction false} FlagValuesAny(es: seq<Expr>)
    ensures ContainsAny(es) in {CONTAINS_NONE, CONTAINS_JUMP, CONTAINS_WITH}
    decreases es, 0
  {
    if es != [] {
      FlagValues(es[0]);
      FlagValuesAny(es[1..]);
    }
  }

  /** What an invoke or jump gives its parts. */
  lemma {:induction false} BufferedParts(e: Expr, env: Env, conts: Conts, dyn: set<nat>, stat: set<nat>, slots: seq<Slot>)
    requires e.Jump? || e.Invoke?
    requires Analysed(e, env, conts) && Scoped(e, dyn, stat)
    requires EscapesOf(e, true, conts) <= env.escapes && Within(FrameSlots(e, env.escapes), slots)
    ensures BufferOk(env, slots, e.temp, |e.args|)
    ensures Within(FrameSlots(e.target, env.escapes), slots) && Within(FrameSlotsAll(e.args, env.escapes), slots)
    ensures Analysed(e.target, env, conts) && AnalysedAll(e.args, env, conts)
    ensures Scoped(e.target, dyn, stat) && ScopedAll(e.args, dyn, stat)
    ensures EscapesOf(e.target, e.Invoke?, conts) <= env.escapes && EscapesOfAll(e.args, conts) <= env.escapes
    ensures BufferFlag(Strip(e.target), StripAll(e.args)) == BufferFlag(e.target, e.args)
    ensures e.Jump? ==> (e.temp in env.circuits <==> HasCircuit(e.target, conts))
    ensures e.Jump? && e.temp !in env.circuits ==> !(e.target.Symbol? && e.target.bndg in conts)
    ensures R10 != RBP && |StripAll(e.args)| == |e.args|
  {
    var flag := BufferFlag(e.target, e.args);
    var own := if flag == CONTAINS_WITH then [Slot(e.temp, WORD_SIZE * |e.args|)] else [];
    WithinAppend(FrameSlots(e.target, env.escapes), FrameSlotsAll(e.args, env.escapes), slots);
    WithinAppend(FrameSlots(e.target, env.escapes) + FrameSlotsAll(e.args, env.escapes), own, slots);
    FlagValues(e.target);
    FlagValuesAny(e.args);
    ContainsStrip(e.target);
    ContainsStripAll(e.args);
    if flag == CONTAINS_WITH {
      assert own[0] in own;
    }
  }

  lemma {:induction false} StripParts(e: Expr)
    requires e.Jump? || e.Invoke?
    ensures Strip(e) == e.(target := Strip(e.target), args := StripAll(e.args))
    ensures Strip(e.target).Continuation? == e.target.Continuation?
  {}

  lemma {:induction false} InvokeOk(e: Expr, env: Env, conts: Conts, dyn: set<nat>, stat: set<nat>, slots: seq<Slot>, params: seq<nat>, lab: nat)
    requires e.Invoke? && Context(env, conts, dyn, stat, slots, params) && Analysed(e, env, conts) && Scoped(e, dyn, stat)
    requires EscapesOf(e, true, conts) <= env.escapes && Within(FrameSlots(e, env.escapes), slots)
    ensures AllOk(Code(Strip(e), env, lab), slots, |params|)
    decreases e, 1
  {
    hide *;
    var k, n := |params|, |e.args|;
    var p := env.PlaceOf(e.temp);
    StripParts(e);
    BufferedParts(e, env, conts, dyn, stat, slots);
    ContextPlaced(env, conts, dyn, stat, slots, params);
    AllOkEmpty(slots, k);
    var target, args := Strip(e.target), StripAll(e.args);
    ArgsOk(e.args, env, conts, dyn, stat, slots, params, e.temp, 0, n, R10, lab);
    OperandsOk(e.target, env, conts, true, dyn, stat, slots, params, lab + LabelsAll(args, env));
    CallCodeOk(n, slots, k);
    ReserveOk(p, n, slots, k);
    PushArgumentsOk(env, slots, k, e.temp, n, n);
    var push := if BufferFlag(target, args) == CONTAINS_WITH then PushArguments(p, e.temp, n) else [];
    var c := OkThen(ReserveCode(p, n), ArgsCode(args, e.temp, 0, R10, env, lab), slots, k);
    c := OkThen(c, push, slots, k);
    c := OkThen(c, Code(target, env, lab + LabelsAll(args, env)), slots, k);
    c := OkThen(c, CallCode(n), slots, k);
    InvokeCode(Strip(e), env, lab);
  }

  lemma {:induction false} AllOkEmpty(slots: seq<Slot>, params: nat)
    ensures AllOk([], slots, params)
  {}

  lemma {:induction false} JumpsOk(a: nat, b: nat, slots: seq<Slot>, params: nat)
    ensures AllOk([OrqRegToReg(RAX, RAX), JeRel(a)], slots, params) && AllOk([JmpRel(b), Label(a)], slots, params) && AllOk([JmpRel(a), Label(b)], slots, params)
    ensures AllOk([JmpRel(a)], slots, params) && AllOk([Label(a)], slots, params) && AllOk([Label(b)], slots, params)
  {}

  lemma {:induction false} ReserveOk(p: Place, n: nat, slots: seq<Slot>, params: nat)
    ensures AllOk(ReserveCode(p, n), slots, params) && AllOk(ReleaseCode(p, n), slots, params)
  {}

  lemma {:induction false} RestoreOk(slots: seq<Slot>, params: nat)
    ensures AllOk(RESTORE_AND_JUMP, slots, params) && AllOk([MovqRegToReg(RAX, R11)], slots, params)
  {}

  lemma {:induction false} JumpOk(e: Expr, env: Env, conts: Conts, dyn: set<nat>, stat: set<nat>, slots: seq<Slot>, params: seq<nat>, lab: nat)
    requires e.Jump? && Context(env, conts, dyn, stat, slots, params) && Analysed(e, env, conts) && Scoped(e, dyn, stat)
    requires EscapesOf(e, true, conts) <= env.escapes && Within(FrameSlots(e, env.escapes), slots)
    ensures AllOk(Code(Strip(e), env, lab), slots, |params|)
    decreases e, 1
  {
    BufferedParts(e, env, conts, dyn, stat, slots);
    if e.temp in env.circuits {
      DirectJumpOk(e, env, conts, dyn, stat, slots, params, lab);
    } else {
      IndirectJumpOk(e, env, conts, dyn, stat, slots, params, lab);
    }
  }

  lemma {:induction false} IndirectJumpOk(e: Expr, env: Env, conts: Conts, dyn: set<nat>, stat: set<nat>, slots: seq<Slot>, params: seq<nat>, lab: nat)
    requires e.Jump? && e.temp !in env.circuits && Context(env, conts, dyn, stat, slots, params) && Analysed(e, env, conts) && Scoped(e, dyn, stat)
    requires EscapesOf(e, true, conts) <= env.escapes && Within(FrameSlots(e, env.escapes), slots)
    ensures AllOk(Code(Strip(e), env, lab), slots, |params|)
    decreases e, 0
  {
    hide *;
    var k, n := |params|, |e.args|;
    var p := env.PlaceOf(e.temp);
    StripParts(e);
    BufferedParts(e, env, conts, dyn, stat, slots);
    ContextPlaced(env, conts, dyn, stat, slots, params);
    var target, args := Strip(e.target), StripAll(e.args);
    ArgsOk(e.args, env, conts, dyn, stat, slots, params, e.temp, 0, n, R10, lab);
    OperandsOk(e.target, env, conts, false, dyn, stat, slots, params, lab + LabelsAll(args, env));
    ReserveOk(p, n, slots, k);
    RestoreOk(slots, k);
    BufferToDestOk(env, slots, k, e.temp, 0, n, CONT_SIZE);
    var c := OkThen(ReserveCode(p, n), ArgsCode(args, e.temp, 0, R10, env, lab), slots, k);
    c := OkThen(c, Code(target, env, lab + LabelsAll(args, env)), slots, k);
    c := OkThen(c, [MovqRegToReg(RAX, R11)], slots, k);
    c := OkThen(c, BufferToDest(p, e.temp, 0, n, R11, CONT_SIZE), slots, k);
    c := OkThen(c, ReleaseCode(p, n), slots, k);
    c := OkThen(c, RESTORE_AND_JUMP, slots, k);
    IndirectJumpCode(Strip(e), env, lab);
  }

  lemma {:induction false} IndirectJumpCode(e: Expr, env: Env, lab: nat)
    requires e.Jump? && e.temp !in env.circuits
    ensures Code(e, env, lab) ==
      ReserveCode(env.PlaceOf(e.temp), |e.args|) + ArgsCode(e.args, e.temp, 0, R10, env, lab) +
      Code(e.target, env, lab + LabelsAll(e.args, env)) + [MovqRegToReg(RAX, R11)] +
      BufferToDest(env.PlaceOf(e.temp), e.temp, 0, |e.args|, R11, CONT_SIZE) +
      ReleaseCode(env.PlaceOf(e.temp), |e.args|) + RESTORE_AND_JUMP
  {}

  /** The parameters of a direct destination have slots in this function's frame, unless the
      destination is outside every function. */
  lemma {:induction false} CircuitHere(e: Expr, env: Env, conts: Conts, dyn: set<nat>, stat: set<nat>, slots: seq<Slot>, params: seq<nat>)
    requires e.Jump? && HasCircuit(e.target, conts) && Context(env, conts, dyn, stat, slots, params) && Analysed(e, env, conts) && Scoped(e, dyn, stat)
    requires Within(FrameSlots(e.target, env.escapes), slots)
    ensures e.temp in env.circuits
    ensures var ps := env.circuits[e.temp].params; forall i :: 0 <= i < |ps| ==> Slot(ps[i], WORD_SIZE) in slots || env.PlaceOf(ps[i]) == Absolute
  {
    var t := e.target;
    if t.Continuation? {
      var mid := if t.bndg in env.escapes then [Slot(t.bndg, CONT_SIZE)] else [];
      WithinAppend(FrameSlots(t.body, env.escapes) + mid, ParamSlots(t.params), slots);
      forall i | 0 <= i < |t.params| ensures Slot(t.params[i], WORD_SIZE) in slots {
        assert ParamSlots(t.params)[i] in ParamSlots(t.params);
      }
    }
  }

  lemma {:induction false} ParameterAddressOk(env: Env, slots: seq<Slot>, params: nat, b: nat)
    requires SlotsPlaced(slots, env.places) && (Slot(b, WORD_SIZE) in slots || env.PlaceOf(b) == Absolute)
    ensures AllOk(AddressCode(env.PlaceOf(b), b, R11), slots, params)
  {
    if Slot(b, WORD_SIZE) in slots {
      SlotAddressOk(env, slots, params, b, WORD_SIZE, R11);
    }
  }

  lemma {:induction false} DirectJumpOk(e: Expr, env: Env, conts: Conts, dyn: set<nat>, stat: set<nat>, slots: seq<Slot>, params: seq<nat>, lab: nat)
    requires e.Jump? && e.temp in env.circuits && Context(env, conts, dyn, stat, slots, params) && Analysed(e, env, conts) && Scoped(e, dyn, stat)
    requires EscapesOf(e, true, conts) <= env.escapes && Within(FrameSlots(e, env.escapes), slots)
    ensures AllOk(Code(Strip(e), env, lab), slots, |params|)
    decreases e, 0
  {
    hide *;
    var k, n := |params|, |e.args|;
    StripParts(e);
    BufferedParts(e, env, conts, dyn, stat, slots);
    CircuitHere(e, env, conts, dyn, stat, slots, params);
    ContextPlaced(env, conts, dyn, stat, slots, params);
    AllOkEmpty(slots, k);
    JumpsOk(env.circuits[e.temp].entry, 0, slots, k);
    var target, args := Strip(e.target), StripAll(e.args);
    var circuit := env.circuits[e.temp];
    var c: seq<Instr> := [];
    if e.target.Continuation? {
      OperandsOk(e.target, env, conts, false, dyn, stat, slots, params, lab);
      c := Code(target, env, lab);
    }
    var lab' := lab + if e.target.Continuation? then Labels(target, env) else 0;
    if |circuit.params| > 0 {
      ParameterAddressOk(env, slots, k, circuit.params[0]);
      var q := PassOk(e, circuit.params[0], env, conts, dyn, stat, slots, params, lab');
      c := OkThen(c, q, slots, k);
    } else {
      c := OkThen(c, [], slots, k);
    }
    c := OkThen(c, [JmpRel(circuit.entry)], slots, k);
    DirectJumpCode(Strip(e), env, lab);
  }

  lemma {:induction false} DirectJumpCode(e: Expr, env: Env, lab: nat)
    requires e.Jump? && e.temp in env.circuits
    ensures var circuit := env.circuits[e.temp];
      Code(e, env, lab) ==
        (if e.target.Continuation? then Code(e.target, env, lab) else []) +
        (if |circuit.params| > 0 then
          ReserveCode(env.PlaceOf(e.temp), |e.args|) +
          ArgsCode(e.args, e.temp, 0, R10, env, lab + if e.target.Continuation? then Labels(e.target, env) else 0) +
          AddressCode(env.PlaceOf(circuit.params[0]), circuit.params[0], R11) +
          BufferToDest(env.PlaceOf(e.temp), e.temp, 0, |e.args|, R11, 0) +
          ReleaseCode(env.PlaceOf(e.temp), |e.args|)
        else []) + [JmpRel(circuit.entry)]
  {}

  lemma {:induction false} PassOk(e: Expr, first: nat, env: Env, conts: Conts, dyn: set<nat>, stat: set<nat>, slots: seq<Slot>, params: seq<nat>, lab: nat) returns (c: seq<Instr>)
    requires e.Jump? && Context(env, conts, dyn, stat, slots, params) && AnalysedAll(e.args, env, conts) && ScopedAll(e.args, dyn, stat)
    requires EscapesOfAll(e.args, conts) <= env.escapes && Within(FrameSlotsAll(e.args, env.escapes), slots)
    requires BufferOk(env, slots, e.temp, |e.args|) && SlotsPlaced(slots, env.places)
    requires AllOk(AddressCode(env.PlaceOf(first), first, R11), slots, |params|)
    ensures c ==
      ReserveCode(env.PlaceOf(e.temp), |e.args|) + ArgsCode(StripAll(e.args), e.temp, 0, R10, env, lab) +
      AddressCode(env.PlaceOf(first), first, R11) + BufferToDest(env.PlaceOf(e.temp), e.temp, 0, |e.args|, R11, 0) +
      ReleaseCode(env.PlaceOf(e.temp), |e.args|)
    ensures AllOk(c, slots, |params|)
    decreases e, -1
  {
    var k, n := |params|, |e.args|;
    var p := env.PlaceOf(e.temp);
    hide Context, Within, BufferOk, ArgsCode, BufferToDest, AddressCode, ReserveCode, ReleaseCode;
    ArgsOk(e.args, env, conts, dyn, stat, slots, params, e.temp, 0, n, R10, lab);
    ReserveOk(p, n, slots, k);
    BufferToDestOk(env, slots, k, e.temp, 0, n, 0);
    c := OkThen(ReserveCode(p, n), ArgsCode(StripAll(e.args), e.temp, 0, R10, env, lab), slots, k);
    c := OkThen(c, AddressCode(env.PlaceOf(first), first, R11), slots, k);
    c := OkThen(c, BufferToDest(p, e.temp, 0, n, R11, 0), slots, k);
    c := OkThen(c, ReleaseCode(p, n), slots, k);
  }

  // ----- short-circuited jumps stay in their function -----

  /** The entries of the continuations and withs in e, leaving out nested functions. */
  function Entries(e: Expr): set<nat>
    decreases e, 1
  {
    match e
    case If(c, t, f) => Entries(c) + Entries(t) + Entries(f)
    case Continuation(_, _, body, entry) => {entry} + Entries(body)
    case With(_, _, body, entry) => {entry} + Entries(body)
    case Storage(_, args) => EntriesAll(args)
    case Jump(target, args, _) => Entries(target) + EntriesAll(args)
    case Invoke(target, args, _) => Entries(target) + EntriesAll(args)
    case Constrain(body) => Entries(body)
    case _ => {}
  }

  function EntriesAll(es: seq<Expr>): set<nat>
    decreases es, 0
  {
    if es == [] then {} else Entries(es[0]) + EntriesAll(es[1..])
  }

  /** Every direct jump of e, leaving out nested functions, goes to one of these entries. */
  ghost predicate JumpsTo(e: Expr, env: Env, entries: set<nat>)
    decreases e, 1
  {
    match e
    case If(c, t, f) => JumpsTo(c, env, entries) && JumpsTo(t, env, entries) && JumpsTo(f, env, entries)
    case Continuation(_, _, body, _) => JumpsTo(body, env, entries)
    case With(_, _, body, _) => JumpsTo(body, env, entries)
    case Storage(_, args) => JumpsToAll(args, env, entries)
    case Jump(target, args, temp) =>
      && (temp in env.circuits ==> env.circuits[temp].entry in entries)
      && JumpsTo(target, env, entries) && JumpsToAll(args, env, entries)
    case Invoke(target, args, _) => JumpsTo(target, env, entries) && JumpsToAll(args, env, entries)
    case Constrain(body) => JumpsTo(body, env, entries)
    case _ => true
  }

  ghost predicate JumpsToAll(es: seq<Expr>, env: Env, entries: set<nat>)
    decreases es, 0
  {
    es == [] || (JumpsTo(es[0], env, entries) && JumpsToAll(es[1..], env, entries))
  }

  ghost predicate Reaches(bs: set<nat>, conts: Conts, entries: set<nat>) {
    forall b :: b in bs && b in conts ==> conts[b].entry in entries
  }

  /** A direct jump goes to a continuation or with of the same function, or to one that is
      outside every function. */
  lemma {:induction false} JumpsStay(e: Expr, env: Env, conts: Conts, dyn: set<nat>, stat: set<nat>, entries: set<nat>)
    requires Analysed(e, env, conts) && Scoped(e, dyn, stat)
    requires Entries(e) <= entries && Reaches(dyn, conts, entries) && Reaches(stat, conts, entries)
    ensures JumpsTo(e, env, entries)
    decreases e, 1
  {
    match e
    case Literal(_) =>
    case Symbol(_) =>
    case Function(_, _, _) =>
    case If(c, t, f) =>
      JumpsStay(c, env, conts, dyn, stat, entries);
      JumpsStay(t, env, conts, dyn, stat, entries);
      JumpsStay(f, env, conts, dyn, stat, entries);
    case Continuation(b, params, body, _) =>
      JumpsStay(body, env, conts, dyn + {b} + SetOf(params), stat, entries);
    case With(b, _, body, _) => JumpsStay(body, env, conts, dyn + {b}, stat, entries);
    case Storage(b, args) => JumpsStayAll(args, env, conts, dyn + {b}, stat, entries);
    case Jump(target, args, _) =>
      JumpsStay(target, env, conts, dyn, stat, entries);
      JumpsStayAll(args, env, conts, dyn, stat, entries);
    case Invoke(target, args, _) =>
      JumpsStay(target, env, conts, dyn, stat, entries);
      JumpsStayAll(args, env, conts, dyn, stat, entries);
    case Constrain(body) => JumpsStay(body, env, conts, dyn, stat, entries);
  }

  lemma {:induction false} JumpsStayAll(es: seq<Expr>, env: Env, conts: Conts, dyn: set<nat>, stat: set<nat>, entries: set<nat>)
    requires AnalysedAll(es, env, conts) && ScopedAll(es, dyn, stat)
    requires EntriesAll(es) <= entries && Reaches(dyn, conts, entries) && Reaches(stat, conts, entries)
    ensures JumpsToAll(es, env, entries)
    decreases es, 0
  {
    if es != [] {
      JumpsStay(es[0], env, conts, dyn, stat, entries);
      JumpsStayAll(es[1..], env, conts, dyn, stat, entries);
    }
  }

  // ----- the analyses together -----

  function ContsOf(e: Expr): Conts
    decreases e, 1
  {
    match e
    case If(c, t, f) => ContsOf(c) + ContsOf(t) + ContsOf(f)
    case Function(_, _, body) => ContsOf(body)
    case Continuation(b, params, body, entry) => map[b := Circuit(params, entry)] + ContsOf(body)
    case With(b, param, body, entry) => map[b := Circuit([param], entry)] + ContsOf(body)
    case Storage(_, args) => ContsOfAll(args)
    case Jump(target, args, _) => ContsOf(target) + ContsOfAll(args)
    case Invoke(target, args, _) => ContsOf(target) + ContsOfAll(args)
    case Constrain(body) => ContsOf(body)
    case _ => map[]
  }

  function ContsOfAll(es: seq<Expr>): Conts
    decreases es, 0
  {
    if es == [] then map[] else ContsOf(es[0]) + ContsOfAll(es[1..])
  }

  /** The parameters of functions and continuations: the symbols that are loaded rather than
      addressed. */
  function ParametersOf(e: Expr): set<nat>
    decreases e, 1
  {
    match e
    case If(c, t, f) => ParametersOf(c) + ParametersOf(t) + ParametersOf(f)
    case Function(_, params, body) => SetOf(params) + ParametersOf(body)
    case Continuation(_, params, body, _) => SetOf(params) + ParametersOf(body)
    case With(_, _, body, _) => ParametersOf(body)
    case Storage(_, args) => ParametersOfAll(args)
    case Jump(target, args, _) => ParametersOf(target) + ParametersOfAll(args)
    case Invoke(target, args, _) => ParametersOf(target) + ParametersOfAll(args)
    case Constrain(body) => ParametersOf(body)
    case _ => {}
  }

  function ParametersOfAll(es: seq<Expr>): set<nat>
    decreases es, 0
  {
    if es == [] then {} else ParametersOf(es[0]) + ParametersOfAll(es[1..])
  }

  lemma {:induction false} AllAreOwned(e: Expr, conts: Conts)
    ensures ContsOf(e).Keys <= Owned(e) && ParametersOf(e) <= Owned(e) && CircuitsOf(e, conts).Keys <= Owned(e)
    decreases e, 1
  {
    match e
    case If(c, t, f) => AllAreOwned(c, conts); AllAreOwned(t, conts); AllAreOwned(f, conts);
    case Function(_, _, body) => AllAreOwned(body, conts);
    case Continuation(_, _, body, _) => AllAreOwned(body, conts);
    case With(_, _, body, _) => AllAreOwned(body, conts);
    case Storage(_, args) => AllAreOwnedAll(args, conts);
    case Jump(target, args, _) => AllAreOwned(target, conts); AllAreOwnedAll(args, conts);
    case Invoke(target, args, _) => AllAreOwned(target, conts); AllAreOwnedAll(args, conts);
    case Constrain(body) => AllAreOwned(body, conts);
    case _ =>
  }

  lemma {:induction false} AllAreOwnedAll(es: seq<Expr>, conts: Conts)
    ensures ContsOfAll(es).Keys <= OwnedAll(es) && ParametersOfAll(es) <= OwnedAll(es) && CircuitsOfAll(es, conts).Keys <= OwnedAll(es)
    decreases es, 0
  {
    if es != [] {
      AllAreOwned(es[0], conts);
      AllAreOwnedAll(es[1..], conts);
    }
  }

  /** On the bindings `bs` the environment says exactly what C, Q and K say. */
  ghost predicate Agrees(bs: set<nat>, C: Conts, Q: set<nat>, K: map<nat, Circuit>, env: Env, conts: Conts) {
    forall b :: b in bs ==>
      && (b in conts <==> b in C) && (b in C ==> conts[b] == C[b])
      && (b in env.parameters <==> b in Q)
      && (b in env.circuits <==> b in K) && (b in K ==> env.circuits[b] == K[b])
  }

  ghost predicate AgreesOn(e: Expr, env: Env, conts: Conts) {
    Agrees(Owned(e), ContsOf(e), ParametersOf(e), CircuitsOf(e, conts), env, conts)
  }

  ghost predicate AgreesOnAll(es: seq<Expr>, env: Env, conts: Conts) {
    Agrees(OwnedAll(es), ContsOfAll(es), ParametersOfAll(es), CircuitsOfAll(es, conts), env, conts)
  }

  /** Function bodies and continuation entries are addresses in the code. */
  ghost predicate CodePlaced(e: Expr, P: Places)
    decreases e, 1
  {
    match e
    case If(c, t, f) => CodePlaced(c, P) && CodePlaced(t, P) && CodePlaced(f, P)
    case Function(b, _, body) => b in P && P[b] == Absolute && CodePlaced(body, P)
    case Continuation(_, _, body, entry) => entry in P && P[entry] == Absolute && CodePlaced(body, P)
    case With(_, _, body, entry) => entry in P && P[entry] == Absolute && CodePlaced(body, P)
    case Storage(_, args) => CodePlacedAll(args, P)
    case Jump(target, args, _) => CodePlaced(target, P) && CodePlacedAll(args, P)
    case Invoke(target, args, _) => CodePlaced(target, P) && CodePlacedAll(args, P)
    case Constrain(body) => CodePlaced(body, P)
    case _ => true
  }

  ghost predicate CodePlacedAll(es: seq<Expr>, P: Places)
    decreases es, 0
  {
    es == [] || (CodePlaced(es[0], P) && CodePlacedAll(es[1..], P))
  }

  lemma {:induction false} IfAgrees(e: Expr, env: Env, conts: Conts)
    requires e.If? && Unique(e) && AgreesOn(e, env, conts)
    ensures AgreesOn(e.condition, env, conts) && AgreesOn(e.consequent, env, conts) && AgreesOn(e.alternate, env, conts)
  {
    AllAreOwned(e.condition, conts);
    AllAreOwned(e.consequent, conts);
    AllAreOwned(e.alternate, conts);
  }

  lemma {:induction false} BodyAgrees(e: Expr, env: Env, conts: Conts)
    requires (e.Function? || e.Continuation? || e.With?) && Unique(e) && AgreesOn(e, env, conts)
    ensures AgreesOn(e.body, env, conts)
  {
    AllAreOwned(e.body, conts);
  }

  lemma {:induction false} ParametersAgree(e: Expr, env: Env, conts: Conts)
    requires (e.Function? || e.Continuation?) && Unique(e) && AgreesOn(e, env, conts)
    ensures forall b :: b in SetOf(e.params) ==> b in env.parameters && b !in conts
    ensures forall k :: 0 <= k < |e.params| ==> e.params[k] in env.parameters && e.params[k] !in conts
    ensures e.Continuation? ==> e.bndg in conts && conts[e.bndg] == Circuit(e.params, e.entry) && e.bndg !in env.parameters
  {
    AllAreOwned(e.body, conts);
    assert forall k :: 0 <= k < |e.params| ==> e.params[k] in SetOf(e.params);
  }

  lemma {:induction false} BufferedAgrees(e: Expr, env: Env, conts: Conts)
    requires (e.Jump? || e.Invoke?) && Unique(e) && AgreesOn(e, env, conts)
    ensures AgreesOn(e.target, env, conts) && AgreesOnAll(e.args, env, conts)
    ensures e.Jump? ==> (e.temp in env.circuits <==> HasCircuit(e.target, conts))
    ensures e.Jump? && HasCircuit(e.target, conts) ==> env.circuits[e.temp] == CircuitOf(e.target, conts)
  {
    AllAreOwned(e.target, conts);
    AllAreOwnedAll(e.args, conts);
  }

  lemma {:induction false} StorageAgrees(e: Expr, env: Env, conts: Conts)
    requires e.Storage? && Unique(e) && AgreesOn(e, env, conts)
    ensures AgreesOnAll(e.args, env, conts) && e.bndg !in conts && e.bndg !in env.parameters
  {
    AllAreOwnedAll(e.args, conts);
  }

  lemma {:induction false} WithAgrees(e: Expr, env: Env, conts: Conts)
    requires e.With? && Unique(e) && AgreesOn(e, env, conts)
    ensures e.bndg in conts && conts[e.bndg] == Circuit([e.param], e.entry) && e.bndg !in env.parameters
  {
    AllAreOwned(e.body, conts);
  }

  /** Linking, escape analysis and layout give code generation all that it relies on. */
  lemma {:induction false} AnalysesAgree(e: Expr, env: Env, conts: Conts)
    requires Unique(e) && AgreesOn(e, env, conts) && CodePlaced(e, env.places)
    requires LaidOut(e, env.escapes, env.places, env.frames)
    ensures Analysed(e, env, conts)
    decreases e, 1
  {
    hide AgreesOn, AgreesOnAll, Owned, FrameSlots, Contains, ContainsAny, BufferPlaced;
    match e
    case Literal(_) =>
    case Symbol(_) =>
    case If(c, t, f) =>
      IfAgrees(e, env, conts);
      AnalysesAgree(c, env, conts);
      AnalysesAgree(t, env, conts);
      AnalysesAgree(f, env, conts);
    case Function(_, _, body) =>
    case Continuation(_, _, body, _) =>
      BodyAgrees(e, env, conts);
      ParametersAgree(e, env, conts);
      AnalysesAgree(body, env, conts);
    case With(_, _, body, _) =>
      BodyAgrees(e, env, conts);
      WithAgrees(e, env, conts);
      AnalysesAgree(body, env, conts);
    case Storage(_, args) =>
      StorageAgrees(e, env, conts);
      AnalysesAgreeAll(args, env, conts);
    case Jump(target, args, _) =>
      BufferedAgrees(e, env, conts);
      AnalysesAgree(target, env, conts);
      AnalysesAgreeAll(args, env, conts);
    case Invoke(target, args, _) =>
      BufferedAgrees(e, env, conts);
      AnalysesAgree(target, env, conts);
      AnalysesAgreeAll(args, env, conts);
    case Constrain(body) =>
      assert AgreesOn(body, env, conts) by { ConstrainAgrees(e, env, conts); }
      AnalysesAgree(body, env, conts);
  }

  lemma {:induction false} ConstrainAgrees(e: Expr, env: Env, conts: Conts)
    requires e.Constrain? && AgreesOn(e, env, conts)
    ensures AgreesOn(e.body, env, conts)
  {}

  lemma {:induction false} AnalysesAgreeAll(es: seq<Expr>, env: Env, conts: Conts)
    requires UniqueAll(es) && AgreesOnAll(es, env, conts) && CodePlacedAll(es, env.places)
    requires LaidOutAll(es, env.escapes, env.places, env.frames)
    ensures AnalysedAll(es, env, conts)
    decreases es, 0
  {
    hide Analysed, AgreesOn, AgreesOnAll, CodePlaced, LaidOut, Unique, Owned, OwnedAll;
    if es != [] {
      HeadAgrees(es, env, conts);
      AnalysesAgree(es[0], env, conts);
      AnalysesAgreeAll(es[1..], env, conts);
    }
  }

  lemma {:induction false} HeadAgrees(es: seq<Expr>, env: Env, conts: Conts)
    requires es != [] && UniqueAll(es) && AgreesOnAll(es, env, conts)
    ensures AgreesOn(es[0], env, conts) && AgreesOnAll(es[1..], env, conts)
  {
    AllAreOwned(es[0], conts);
    AllAreOwnedAll(es[1..], conts);
  }

  /** Every frame-relative operand in a function's own code names one of the slots that layout gave
      to that function or one of its parameters, and every direct jump stays in the function. */
  lemma {:induction false} FunctionKeepsToItsFrame(g: Expr, env: Env, conts: Conts, stat: set<nat>, outside: set<nat>, lab: nat)
    requires g.Function? && Unique(g) && AgreesOn(g, env, conts) && CodePlaced(g, env.places)
    requires LaidOut(g, env.escapes, env.places, env.frames)
    requires EscapesOf(g.body, true, conts) <= env.escapes
    requires Scoped(g.body, SetOf(g.params), stat) && (forall b :: b in stat ==> StaticPlaced(b, env, conts))
    requires Reaches(stat, conts, outside)
    ensures AllOk(Code(Strip(g.body), env, lab), FrameSlots(g.body, env.escapes), |g.params|)
    ensures JumpsTo(g.body, env, Entries(g.body) + outside)
  {
    var slots := FrameSlots(g.body, env.escapes);
    BodyAgrees(g, env, conts);
    ParametersAgree(g, env, conts);
    AnalysesAgree(g.body, env, conts);
    OperandsOk(g.body, env, conts, true, SetOf(g.params), stat, slots, g.params, lab);
    JumpsStay(g.body, env, conts, SetOf(g.params), stat, Entries(g.body) + outside);
  }
}
