/** From instructions to bytes, relocations and label positions (bootstrap/x86_64_assembler.c), and
    a decoder that recovers the instructions. The formats are those of sections 2.1.3 and 2.2.1 of
    volume 2 of the Intel 64 and IA-32 Architectures Software Developer's Manual. */
module Assembler {
  import opened Common
  import opened Machine
  import opened Bytes

  const MAX_INSTR_LEN := 15
  const MAX_INSTR_FIELDS := 2

  /** A relocation entry: the field of `kind` at the offset receives the binding's address. */
  datatype Kind = Abs64 | Pc32

  datatype Rela = Rela(offset: nat, bndg: nat, kind: Kind, addend: int)

  /** Machine code with its relocations, whose offsets count from the start of the code. */
  datatype Piece = Piece(bytes: seq<Byte>, relas: seq<Rela>)

  /** 1 for the registers that need an extension bit. */
  function High(r: nat): nat { r / 8 % 2 }

  function Low(r: nat): nat { r % 8 }

  /** REX, opcode, ModRM and, for RSP and R12 as a base, SIB. */
  function MrCode(opcode: Byte, reg: nat, rm: nat, m: bool, rexw: bool): (code: seq<Byte>)
    ensures 3 <= |code| <= 4
  {
    [64 + (if rexw then 8 else 0) + 4 * High(reg) + High(rm), opcode,
     64 * (if m then 2 else 3) + 8 * Low(reg) + Low(rm)] +
    (if m && (rm == RSP || rm == R12) then [36] else [])
  }

  function OCode(opcode: Byte, reg: nat): (code: seq<Byte>)
    requires opcode < 248
    ensures 1 <= |code| <= 2
  {
    (if High(reg) == 1 then [65] else []) + [opcode + Low(reg)]
  }

  function Encode(i: Instr): Piece {
    match i
    case LeaqMdbToReg(disp, base, dest) => Piece(MrCode(0x8D, dest, base, true, true) + Little(disp, 4), [])
    case MovqRegToMdb(src, disp, base) => Piece(MrCode(0x89, src, base, true, true) + Little(disp, 4), [])
    case JmpRel(target) => Piece([0xE9] + Little(0, 4), [Rela(1, target, Pc32, -4)])
    case MovqMdbToReg(disp, base, dest) => Piece(MrCode(0x8B, dest, base, true, true) + Little(disp, 4), [])
    case PushqReg(reg) => Piece(OCode(0x50, reg), [])
    case MovqRegToReg(src, dest) => Piece(MrCode(0x8B, dest, src, false, true), [])
    case SubqImmToReg(imm, reg) => Piece(MrCode(0x81, 5, reg, false, true) + Little(imm, 4), [])
    case AddqImmToReg(imm, reg) => Piece(MrCode(0x81, 0, reg, false, true) + Little(imm, 4), [])
    case PopqReg(reg) => Piece(OCode(0x58, reg), [])
    case Leave => Piece([0xC9], [])
    case Ret => Piece([0xC3], [])
    case JmpToReg(reg) => Piece(MrCode(0xFF, 4, reg, false, false), [])
    case JeRel(target) => Piece([0x0F, 0x84] + Little(0, 4), [Rela(2, target, Pc32, -4)])
    case OrqRegToReg(src, dest) => Piece(MrCode(0x0B, dest, src, false, true), [])
    case MovqImmToReg(value, dest) =>
      Piece([72 + High(dest), 0xB8 + Low(dest)] + Little(if value.Lit? then value.value else 0, 8),
        if value.Lit? then [] else [Rela(2, value.bndg, Abs64, value.offset)])
    case CallReg(reg) => Piece(MrCode(0xFF, 2, reg, false, false), [])
    case Label(_) => Piece([], [])
  }

  function Shift(relas: seq<Rela>, d: nat): seq<Rela> {
    seq(|relas|, k requires 0 <= k < |relas| => relas[k].(offset := relas[k].offset + d))
  }

  /** All code, all relocations with offsets into it, and the last position of every label. */
  datatype Output = Output(bytes: seq<Byte>, relas: seq<Rela>, values: map<nat, nat>)

  function Assembled(code: seq<Instr>): Output {
    if code == [] then Output([], [], map[]) else
    var before, i := Assembled(code[..|code| - 1]), code[|code| - 1];
    var piece := Encode(i);
    Output(before.bytes + piece.bytes, before.relas + Shift(piece.relas, |before.bytes|),
      if i.Label? then before.values[i.name := |before.bytes|] else before.values)
  }

  /** The buffers are sized for this many bytes and relocations an instruction. */
  lemma {:induction false} PieceFits(i: Instr)
    ensures |Encode(i).bytes| <= MAX_INSTR_LEN && |Encode(i).relas| <= MAX_INSTR_FIELDS
  {}

  lemma {:induction false} OutputFits(code: seq<Instr>)
    ensures |Assembled(code).bytes| <= MAX_INSTR_LEN * |code| && |Assembled(code).relas| <= MAX_INSTR_FIELDS * |code|
  {
    if code != [] {
      OutputFits(code[..|code| - 1]);
      PieceFits(code[|code| - 1]);
    }
  }

  lemma {:induction false} NoShift(d: nat)
    ensures Shift([], d) == []
  {}

  // ----- the assembler -----

  class Writer {
    var bin: array<Byte>
    var pos: nat
    var relas: seq<Rela>
    var values: map<nat, nat>

    constructor (size: nat)
      ensures fresh(bin) && bin.Length == size && pos == 0 && relas == [] && values == map[]
    {
      bin := new Byte[size](_ => 0);
      pos, relas, values := 0, [], map[];
    }

    ghost function Written(): seq<Byte>
      reads this`pos, this`bin, bin
      requires pos <= bin.Length
    {
      bin[..pos]
    }

    method MemWrite(bytes: seq<Byte>)
      requires pos + |bytes| <= bin.Length
      modifies this`pos, bin
      ensures pos == old(pos) + |bytes| && Written() == old(Written()) + bytes
    {
      for k := 0 to |bytes|
        invariant pos == old(pos) + k && Written() == old(Written()) + bytes[..k]
      {
        bin[pos] := bytes[k];
        pos := pos + 1;
      }
    }

    method WriteMrInstr(opcode: Byte, reg: nat, rm: nat, m: bool, rexw: bool)
      requires pos + 4 <= bin.Length
      modifies this`pos, bin
      ensures pos == old(pos) + |MrCode(opcode, reg, rm, m, rexw)|
      ensures Written() == old(Written()) + MrCode(opcode, reg, rm, m, rexw)
    {
      hide Written;
      var mod := if m then 2 else 3;
      var modrm := mod * 64 + Low(reg) * 8 + Low(rm);
      var hasSib := m && (rm == RSP || rm == R12);
      var rex := 64;
      if rexw {
        rex := rex + 8;
      }
      if High(reg) == 1 {
        rex := rex + 4;
      }
      if High(rm) == 1 {
        rex := rex + 1;
      }
      MemWrite([rex]);
      MemWrite([opcode]);
      MemWrite([modrm]);
      if hasSib {
        MemWrite([4 * 8 + Low(rm)]);
      }
    }

    method WriteOInstr(opcode: Byte, reg: nat)
      requires opcode < 248 && pos + 2 <= bin.Length
      modifies this`pos, bin
      ensures pos == old(pos) + |OCode(opcode, reg)| && Written() == old(Written()) + OCode(opcode, reg)
    {
      if High(reg) == 1 {
        MemWrite([64 + 1]);
      }
      MemWrite([opcode + Low(reg)]);
    }

    /** An eight-byte immediate: a literal, or zero with a relocation. */
    method WriteImmediate(value: Imm)
      requires pos + 8 <= bin.Length
      modifies this`pos, this`relas, bin
      ensures pos == old(pos) + 8 && Written() == old(Written()) + Little(if value.Lit? then value.value else 0, 8)
      ensures relas == old(relas) + if value.Lit? then [] else [Rela(old(pos), value.bndg, Abs64, value.offset)]
    {
      var v := 0;
      if value.Lit? {
        v := value.value;
      } else {
        relas := relas + [Rela(pos, value.bndg, Abs64, value.offset)];
      }
      MemWrite(Little(v, 8));
    }

    /** A four-byte displacement to a label from the instruction that follows. */
    method WriteTarget(target: nat)
      requires pos + 4 <= bin.Length
      modifies this`pos, this`relas, bin
      ensures pos == old(pos) + 4 && Written() == old(Written()) + Little(0, 4)
      ensures relas == old(relas) + [Rela(old(pos), target, Pc32, -4)]
    {
      relas := relas + [Rela(pos, target, Pc32, -4)];
      MemWrite(Little(0, 4));
    }

    /** A ModRM instruction with a displacement or immediate of four bytes. */
    method WriteWithOperand(opcode: Byte, reg: nat, rm: nat, m: bool, operand: int)
      requires pos + 8 <= bin.Length
      modifies this`pos, bin
      ensures pos == old(pos) + |MrCode(opcode, reg, rm, m, true)| + 4
      ensures Written() == old(Written()) + (MrCode(opcode, reg, rm, m, true) + Little(operand, 4))
    {
      WriteMrInstr(opcode, reg, rm, m, true);
      MemWrite(Little(operand, 4));
    }

    method WriteMove(value: Imm, dest: nat)
      requires pos + 10 <= bin.Length
      modifies this`pos, this`relas, bin
      ensures pos == old(pos) + 10
      ensures Written() == old(Written()) + Encode(MovqImmToReg(value, dest)).bytes
      ensures relas == old(relas) + Shift(Encode(MovqImmToReg(value, dest)).relas, old(pos))
    {
      hide Little;
      var rex := 64 + 8;
      if High(dest) == 1 {
        rex := rex + 1;
      }
      MemWrite([rex]);
      MemWrite([0xB8 + Low(dest)]);
      WriteImmediate(value);
    }

    method WriteJump(opcode: seq<Byte>, target: nat)
      requires pos + |opcode| + 4 <= bin.Length
      modifies this`pos, this`relas, bin
      ensures pos == old(pos) + |opcode| + 4 && Written() == old(Written()) + (opcode + Little(0, 4))
      ensures relas == old(relas) + Shift([Rela(|opcode|, target, Pc32, -4)], old(pos))
    {
      hide Little;
      MemWrite(opcode);
      WriteTarget(target);
    }

    method WriteInstr(i: Instr)
      requires pos + MAX_INSTR_LEN <= bin.Length
      modifies this, bin
      ensures bin == old(bin) && pos == old(pos) + |Encode(i).bytes|
      ensures Written() == old(Written()) + Encode(i).bytes
      ensures relas == old(relas) + Shift(Encode(i).relas, old(pos))
      ensures values == if i.Label? then old(values)[i.name := old(pos)] else old(values)
    {
      hide Little, High, Low, MrCode, OCode, Written, Shift;
      NoShift(pos);
      match i
      case Label(name) => values := values[name := pos];
      case LeaqMdbToReg(disp, base, dest) =>
        WriteWithOperand(0x8D, dest, base, true, disp);
      case MovqRegToMdb(src, disp, base) =>
        WriteWithOperand(0x89, src, base, true, disp);
      case JmpRel(target) => WriteJump([0xE9], target);
      case MovqMdbToReg(disp, base, dest) =>
        WriteWithOperand(0x8B, dest, base, true, disp);
      case PushqReg(reg) => WriteOInstr(0x50, reg);
      case MovqRegToReg(src, dest) => WriteMrInstr(0x8B, dest, src, false, true);
      case SubqImmToReg(imm, reg) =>
        WriteWithOperand(0x81, 5, reg, false, imm);
      case AddqImmToReg(imm, reg) =>
        WriteWithOperand(0x81, 0, reg, false, imm);
      case PopqReg(reg) => WriteOInstr(0x58, reg);
      case Leave => MemWrite([0xC9]);
      case Ret => MemWrite([0xC3]);
      case JmpToReg(reg) => WriteMrInstr(0xFF, 4, reg, false, false);
      case JeRel(target) => WriteJump([0x0F, 0x84], target);
      case OrqRegToReg(src, dest) => WriteMrInstr(0x0B, dest, src, false, true);
      case MovqImmToReg(value, dest) => WriteMove(value, dest);
      case CallReg(reg) => WriteMrInstr(0xFF, 2, reg, false, false);
    }

    method Assemble(code: seq<Instr>)
      requires bin.Length >= MAX_INSTR_LEN * |code| && relas == [] && values == map[]
      modifies this, bin
      ensures bin == old(bin) && pos <= bin.Length
      ensures Output(Written(), relas, values) == Assembled(code)
    {
      hide Encode, Shift;
      pos := 0;
      for k := 0 to |code|
        invariant bin == old(bin) && pos <= MAX_INSTR_LEN * k
        invariant Output(Written(), relas, values) == Assembled(code[..k])
      {
        assert code[..k + 1][..k] == code[..k];
        OutputFits(code[..k]);
        PieceFits(code[k]);
        WriteInstr(code[k]);
      }
      assert code[..|code|] == code;
    }
  }

  // ----- the decoder -----

  /** One decoded instruction, its length and how many relocations it consumed. */
  datatype Decoded = Decoded(instr: Instr, length: nat, used: nat)

  function DecodeOne(bs: seq<Byte>, relas: seq<Rela>, pos: nat): Option<Decoded> {
    if bs == [] then None
    else if bs[0] == 0xC9 then Some(Decoded(Leave, 1, 0))
    else if bs[0] == 0xC3 then Some(Decoded(Ret, 1, 0))
    else if bs[0] == 0xE9 then
      if |bs| >= 5 && relas != [] && relas[0].offset == pos + 1 then Some(Decoded(JmpRel(relas[0].bndg), 5, 1)) else None
    else if bs[0] == 0x0F then
      if |bs| >= 6 && bs[1] == 0x84 && relas != [] && relas[0].offset == pos + 2 then Some(Decoded(JeRel(relas[0].bndg), 6, 1)) else None
    else if 0x50 <= bs[0] < 0x58 then Some(Decoded(PushqReg(bs[0] - 0x50), 1, 0))
    else if 0x58 <= bs[0] < 0x60 then Some(Decoded(PopqReg(bs[0] - 0x58), 1, 0))
    else if 0x40 <= bs[0] < 0x50 then DecodeRex(bs[0] - 0x40, bs, relas, pos)
    else None
  }

  function DecodeRex(rex: nat, bs: seq<Byte>, relas: seq<Rela>, pos: nat): Option<Decoded> {
    if |bs| < 2 then None else
    var op, high := bs[1], 8 * (rex % 2);
    if 0x50 <= op < 0x58 then Some(Decoded(PushqReg(op - 0x50 + high), 2, 0))
    else if 0x58 <= op < 0x60 then Some(Decoded(PopqReg(op - 0x58 + high), 2, 0))
    else if 0xB8 <= op < 0xC0 then
      if |bs| < 10 then None
      else if relas != [] && relas[0].offset == pos + 2 then
        Some(Decoded(MovqImmToReg(Ref(relas[0].bndg, relas[0].addend), op - 0xB8 + high), 10, 1))
      else Some(Decoded(MovqImmToReg(Lit(Value(bs[2..10])), op - 0xB8 + high), 10, 0))
    else if |bs| < 3 then None
    else DecodeMr(op, bs[2] / 64, bs[2] / 8 % 8, bs[2] / 8 % 8 + 8 * (rex / 4 % 2), bs[2] % 8 + high, bs[2] % 8 == 4, bs)
  }

  /** `field` is the register field without its extension, `sib` whether a SIB byte may follow. */
  function DecodeMr(op: Byte, mod: nat, field: nat, reg: nat, rm: nat, sib: bool, bs: seq<Byte>): Option<Decoded> {
    if mod == 2 then
      var at := if sib then 4 else 3;
      if |bs| < at + 4 then None else
      var disp := SignedValue(bs[at..at + 4]);
      if op == 0x8D then Some(Decoded(LeaqMdbToReg(disp, rm, reg), at + 4, 0))
      else if op == 0x89 then Some(Decoded(MovqRegToMdb(reg, disp, rm), at + 4, 0))
      else if op == 0x8B then Some(Decoded(MovqMdbToReg(disp, rm, reg), at + 4, 0))
      else None
    else if mod != 3 then None
    else if op == 0x8B then Some(Decoded(MovqRegToReg(rm, reg), 3, 0))
    else if op == 0x0B then Some(Decoded(OrqRegToReg(rm, reg), 3, 0))
    else if op == 0xFF then
      if field == 4 then Some(Decoded(JmpToReg(rm), 3, 0)) else if field == 2 then Some(Decoded(CallReg(rm), 3, 0)) else None
    else if op == 0x81 && |bs| >= 7 then
      var imm := SignedValue(bs[3..7]);
      if field == 5 then Some(Decoded(SubqImmToReg(imm, rm), 7, 0))
      else if field == 0 then Some(Decoded(AddqImmToReg(imm, rm), 7, 0)) else None
    else None
  }

  function Decode(bs: seq<Byte>, relas: seq<Rela>, pos: nat): Option<seq<Instr>>
    decreases |bs|
  {
    if bs == [] then (if relas == [] then Some([]) else None) else
    var d := DecodeOne(bs, relas, pos);
    if d.None? || d.value.length == 0 || d.value.length > |bs| || d.value.used > |relas| then None else
    var rest := Decode(bs[d.value.length..], relas[d.value.used..], pos + d.value.length);
    if rest.None? then None else Some([d.value.instr] + rest.value)
  }

  // ----- the decoder recovers the instructions -----

  predicate Registers(i: Instr) {
    match i
    case LeaqMdbToReg(_, base, dest) => base < 16 && dest < 16
    case MovqRegToMdb(src, _, base) => src < 16 && base < 16
    case MovqMdbToReg(_, base, dest) => base < 16 && dest < 16
    case MovqRegToReg(src, dest) => src < 16 && dest < 16
    case OrqRegToReg(src, dest) => src < 16 && dest < 16
    case PushqReg(reg) => reg < 16
    case PopqReg(reg) => reg < 16
    case SubqImmToReg(_, reg) => reg < 16
    case AddqImmToReg(_, reg) => reg < 16
    case JmpToReg(reg) => reg < 16
    case CallReg(reg) => reg < 16
    case MovqImmToReg(_, dest) => dest < 16
    case _ => true
  }

  /** The number that the low four bytes of v stand for. */
  function Signed32(v: int): int { SignedValue(Little(v, 4)) }

  /** What is left of an instruction's operands after they were truncated to their fields. */
  function Truncated(i: Instr): Instr {
    match i
    case LeaqMdbToReg(disp, base, dest) => LeaqMdbToReg(Signed32(disp), base, dest)
    case MovqRegToMdb(src, disp, base) => MovqRegToMdb(src, Signed32(disp), base)
    case MovqMdbToReg(disp, base, dest) => MovqMdbToReg(Signed32(disp), base, dest)
    case SubqImmToReg(imm, reg) => SubqImmToReg(Signed32(imm), reg)
    case AddqImmToReg(imm, reg) => AddqImmToReg(Signed32(imm), reg)
    case MovqImmToReg(Lit(v), dest) => MovqImmToReg(Lit(Wrap(v)), dest)
    case _ => i
  }

  /** The instructions other than labels, as their bytes can express them. */
  function Expressed(code: seq<Instr>): seq<Instr> {
    if code == [] then [] else (if code[0].Label? then [] else [Truncated(code[0])]) + Expressed(code[1..])
  }

  /** What the decoder reads off a ModRM instruction. */
  lemma {:induction false} MrFields(op: Byte, reg: nat, rm: nat, m: bool, rexw: bool, tail: seq<Byte>)
    requires reg < 16 && rm < 16
    ensures var bs := MrCode(op, reg, rm, m, rexw) + tail; var rex := bs[0] - 0x40; var at := |MrCode(op, reg, rm, m, rexw)|;
      && 0 <= rex < 16 && bs[1] == op && bs[2] / 64 == (if m then 2 else 3) && bs[2] / 8 % 8 == reg % 8
      && bs[2] / 8 % 8 + 8 * (rex / 4 % 2) == reg && bs[2] % 8 + 8 * (rex % 2) == rm
      && at == (if m && bs[2] % 8 == 4 then 4 else 3) && bs[at..] == tail
  {
    var code := MrCode(op, reg, rm, m, rexw);
    NumberParts(reg);
    NumberParts(rm);
    RexParts(if rexw then 1 else 0, High(reg), High(rm));
    ModRmParts(if m then 2 else 3, Low(reg), Low(rm));
    hide High, Low;
  }

  lemma {:induction false} NumberParts(r: nat)
    requires r < 16
    ensures Low(r) + 8 * High(r) == r && Low(r) < 8 && High(r) < 2 && Low(r) == r % 8
    ensures r == RSP || r == R12 <==> Low(r) == 4
  {}

  lemma {:induction false} RexParts(w: nat, r: nat, b: nat)
    requires w < 2 && r < 2 && b < 2
    ensures (8 * w + 4 * r + b) / 4 % 2 == r && (8 * w + 4 * r + b) % 2 == b
  {}

  lemma {:induction false} ModRmParts(mod: nat, reg: nat, rm: nat)
    requires mod < 4 && reg < 8 && rm < 8
    ensures (64 * mod + 8 * reg + rm) / 64 == mod && (64 * mod + 8 * reg + rm) / 8 % 8 == reg && (64 * mod + 8 * reg + rm) % 8 == rm
  {}

  /** How a ModRM instruction decodes. */
  lemma {:induction false} MrDecodes(op: Byte, reg: nat, rm: nat, m: bool, rexw: bool, tail: seq<Byte>, relas: seq<Rela>, pos: nat) returns (sib: bool)
    requires reg < 16 && rm < 16 && op !in {0x0F, 0xE9} && !(0x50 <= op < 0x60) && !(0xB8 <= op < 0xC0)
    ensures var bs := MrCode(op, reg, rm, m, rexw) + tail;
      && DecodeOne(bs, relas, pos) == DecodeMr(op, if m then 2 else 3, reg % 8, reg, rm, sib, bs)
      && |MrCode(op, reg, rm, m, rexw)| == (if m && sib then 4 else 3)
      && bs[|MrCode(op, reg, rm, m, rexw)|..] == tail
  {
    MrFields(op, reg, rm, m, rexw, tail);
    var bs := MrCode(op, reg, rm, m, rexw) + tail;
    sib := bs[2] % 8 == 4;
    hide MrCode, DecodeMr;
    assert DecodeOne(bs, relas, pos) == DecodeRex(bs[0] - 0x40, bs, relas, pos);
  }

  ghost predicate Recovers(i: Instr, bytes: seq<Byte>, own: seq<Rela>, rest: seq<Byte>, restRelas: seq<Rela>, pos: nat) {
    DecodeOne(bytes + rest, own + restRelas, pos) == Some(Decoded(Truncated(i), |bytes|, |own|))
  }

  lemma {:induction false} MemoryRecovered(i: Instr, op: Byte, reg: nat, rm: nat, disp: int, rest: seq<Byte>, restRelas: seq<Rela>, pos: nat)
    requires (i == LeaqMdbToReg(disp, rm, reg) && op == 0x8D) || (i == MovqRegToMdb(reg, disp, rm) && op == 0x89) || (i == MovqMdbToReg(disp, rm, reg) && op == 0x8B)
    requires reg < 16 && rm < 16
    ensures Recovers(i, Encode(i).bytes, [], rest, restRelas, pos)
  {
    var head, d := MrCode(op, reg, rm, true, true), Little(disp, 4);
    var sib := MrDecodes(op, reg, rm, true, true, d + rest, restRelas, pos);
    hide MrCode, DecodeOne, DecodeRex, Little, SignedValue;
    assert head + d + rest == head + (d + rest);
    assert (head + (d + rest))[|head|..|head| + 4] == d;
    assert [] + restRelas == restRelas;
  }

  lemma {:induction false} ArithmeticRecovered(i: Instr, reg: nat, rm: nat, imm: int, rest: seq<Byte>, restRelas: seq<Rela>, pos: nat)
    requires (i == SubqImmToReg(imm, rm) && reg == 5) || (i == AddqImmToReg(imm, rm) && reg == 0)
    requires rm < 16
    ensures Recovers(i, Encode(i).bytes, [], rest, restRelas, pos)
  {
    var head, d := MrCode(0x81, reg, rm, false, true), Little(imm, 4);
    var sib := MrDecodes(0x81, reg, rm, false, true, d + rest, restRelas, pos);
    hide MrCode, DecodeOne, DecodeRex, Little, SignedValue;
    assert head + d + rest == head + (d + rest);
    assert (head + (d + rest))[|head|..|head| + 4] == d;
    assert [] + restRelas == restRelas;
  }

  lemma {:induction false} RegisterRecovered(i: Instr, op: Byte, reg: nat, rm: nat, rexw: bool, rest: seq<Byte>, restRelas: seq<Rela>, pos: nat)
    requires (i == MovqRegToReg(rm, reg) && op == 0x8B && rexw) || (i == OrqRegToReg(rm, reg) && op == 0x0B && rexw) ||
      (i == JmpToReg(rm) && op == 0xFF && reg == 4 && !rexw) || (i == CallReg(rm) && op == 0xFF && reg == 2 && !rexw)
    requires reg < 16 && rm < 16
    ensures Recovers(i, Encode(i).bytes, [], rest, restRelas, pos)
  {
    var sib := MrDecodes(op, reg, rm, false, rexw, rest, restRelas, pos);
    hide MrCode, DecodeOne, DecodeRex;
    assert [] + restRelas == restRelas;
  }

  lemma {:induction false} StackRecovered(i: Instr, op: Byte, reg: nat, rest: seq<Byte>, restRelas: seq<Rela>, pos: nat)
    requires (i == PushqReg(reg) && op == 0x50) || (i == PopqReg(reg) && op == 0x58)
    requires reg < 16
    ensures Recovers(i, Encode(i).bytes, [], rest, restRelas, pos)
  {
    var bs := OCode(op, reg) + rest;
    hide DecodeMr;
    assert [] + restRelas == restRelas;
    if High(reg) == 1 {
      assert bs[0] == 65 && bs[1] == op + Low(reg);
    } else {
      assert bs[0] == op + Low(reg);
    }
  }

  lemma {:induction false} JumpRecovered(i: Instr, target: nat, rest: seq<Byte>, restRelas: seq<Rela>, pos: nat)
    requires i == JmpRel(target) || i == JeRel(target)
    ensures Recovers(i, Encode(i).bytes, Shift(Encode(i).relas, pos), rest, restRelas, pos)
  {
    hide DecodeMr, DecodeRex, Little;
  }

  lemma {:induction false} MoveDecodes(dest: nat, v: int, rest: seq<Byte>, relas: seq<Rela>, pos: nat)
    requires dest < 16
    ensures DecodeOne(Encode(MovqImmToReg(Lit(v), dest)).bytes + rest, relas, pos) ==
      if relas != [] && relas[0].offset == pos + 2
      then Some(Decoded(MovqImmToReg(Ref(relas[0].bndg, relas[0].addend), dest), 10, 1))
      else Some(Decoded(MovqImmToReg(Lit(Wrap(v)), dest), 10, 0))
  {
    var head := [72 + High(dest), 0xB8 + Low(dest)];
    var bs := head + Little(v, 8) + rest;
    ValueOfLittle(v, 8);
    Pow256Values();
    assert bs[2..10] == Little(v, 8);
    assert bs[0] == head[0] && bs[1] == head[1];
    hide DecodeMr, Little, Value;
  }

  lemma {:induction false} MoveRecovered(i: Instr, rest: seq<Byte>, restRelas: seq<Rela>, pos: nat)
    requires i.MovqImmToReg? && Registers(i)
    requires forall k :: 0 <= k < |restRelas| ==> restRelas[k].offset >= pos + 10
    ensures Recovers(i, Encode(i).bytes, Shift(Encode(i).relas, pos), rest, restRelas, pos)
  {
    MoveDecodes(i.dest, if i.value.Lit? then i.value.value else 0, rest, Shift(Encode(i).relas, pos) + restRelas, pos);
    hide DecodeOne, Little;
  }

  lemma {:induction false} SimpleRecovered(i: Instr, rest: seq<Byte>, restRelas: seq<Rela>, pos: nat)
    requires i.Leave? || i.Ret?
    ensures Recovers(i, Encode(i).bytes, [], rest, restRelas, pos)
  {}

  lemma {:induction false} InstrRecovered(i: Instr, rest: seq<Byte>, restRelas: seq<Rela>, pos: nat)
    requires !i.Label? && Registers(i)
    requires forall k :: 0 <= k < |restRelas| ==> restRelas[k].offset >= pos + |Encode(i).bytes|
    ensures Recovers(i, Encode(i).bytes, Shift(Encode(i).relas, pos), rest, restRelas, pos)
  {
    NoShift(pos);
    hide Recovers, MrCode, OCode, Little;
    match i
    case LeaqMdbToReg(disp, base, dest) => MemoryRecovered(i, 0x8D, dest, base, disp, rest, restRelas, pos);
    case MovqRegToMdb(src, disp, base) => MemoryRecovered(i, 0x89, src, base, disp, rest, restRelas, pos);
    case MovqMdbToReg(disp, base, dest) => MemoryRecovered(i, 0x8B, dest, base, disp, rest, restRelas, pos);
    case JmpRel(target) => JumpRecovered(i, target, rest, restRelas, pos);
    case JeRel(target) => JumpRecovered(i, target, rest, restRelas, pos);
    case PushqReg(reg) => StackRecovered(i, 0x50, reg, rest, restRelas, pos);
    case PopqReg(reg) => StackRecovered(i, 0x58, reg, rest, restRelas, pos);
    case MovqRegToReg(src, dest) => RegisterRecovered(i, 0x8B, dest, src, true, rest, restRelas, pos);
    case OrqRegToReg(src, dest) => RegisterRecovered(i, 0x0B, dest, src, true, rest, restRelas, pos);
    case JmpToReg(reg) => RegisterRecovered(i, 0xFF, 4, reg, false, rest, restRelas, pos);
    case CallReg(reg) => RegisterRecovered(i, 0xFF, 2, reg, false, rest, restRelas, pos);
    case SubqImmToReg(imm, reg) => ArithmeticRecovered(i, 5, reg, imm, rest, restRelas, pos);
    case AddqImmToReg(imm, reg) => ArithmeticRecovered(i, 0, reg, imm, rest, restRelas, pos);
    case Leave => SimpleRecovered(i, rest, restRelas, pos);
    case Ret => SimpleRecovered(i, rest, restRelas, pos);
    case MovqImmToReg(_, _) => MoveRecovered(i, rest, restRelas, pos);
    case Label(_) =>
  }

  lemma {:induction false} ShiftAppend(a: seq<Rela>, b: seq<Rela>, d: nat)
    ensures Shift(a + b, d) == Shift(a, d) + Shift(b, d)
  {}

  lemma {:induction false} ShiftTwice(a: seq<Rela>, d: nat, e: nat)
    ensures Shift(Shift(a, d), e) == Shift(a, d + e)
  {}

  /** The output of a list starts with the output of its first instruction. */
  lemma {:induction false} AssembledCons(i: Instr, code: seq<Instr>)
    ensures Assembled([i] + code).bytes == Encode(i).bytes + Assembled(code).bytes
    ensures Assembled([i] + code).relas == Encode(i).relas + Shift(Assembled(code).relas, |Encode(i).bytes|)
    decreases code
  {
    hide Encode, Shift;
    var all := [i] + code;
    if code == [] {
      assert all == [i] && all[..0] == [];
      ShiftZero(Encode(i).relas);
      NoShift(|Encode(i).bytes|);
    } else {
      var front, last := code[..|code| - 1], code[|code| - 1];
      assert all[..|code|] == [i] + front && all[|code|] == last;
      AssembledCons(i, front);
      ShiftAppend(Assembled(front).relas, Shift(Encode(last).relas, |Assembled(front).bytes|), |Encode(i).bytes|);
      ShiftTwice(Encode(last).relas, |Assembled(front).bytes|, |Encode(i).bytes|);
    }
  }

  lemma {:induction false} ShiftZero(a: seq<Rela>)
    ensures Shift(a, 0) == a
  {}

  /** Decoding the output of any instruction list recovers the list. */
  lemma {:induction false} DecodeAssembled(code: seq<Instr>, pos: nat)
    requires forall k :: 0 <= k < |code| ==> Registers(code[k])
    ensures Decode(Assembled(code).bytes, Shift(Assembled(code).relas, pos), pos) == Some(Expressed(code))
    decreases code
  {
    hide *;
    if code == [] {
      NothingDecodes(pos);
      assert code == [];
    } else {
      var i, rest := code[0], code[1..];
      assert code == [i] + rest;
      AssembledCons(i, rest);
      ExpressedCons(i, rest);
      var n := |Encode(i).bytes|;
      ShiftAppend(Encode(i).relas, Shift(Assembled(rest).relas, n), pos);
      ShiftTwice(Assembled(rest).relas, n, pos);
      assert forall k :: 0 <= k < |rest| ==> rest[k] == code[k + 1];
      DecodeAssembled(rest, pos + n);
      if i.Label? {
        LabelIsNothing(i.name, pos);
        assert i == Label(i.name) && [] + Expressed(rest) == Expressed(rest);
        assert [] + Assembled(rest).bytes == Assembled(rest).bytes;
        assert [] + Shift(Assembled(rest).relas, pos) == Shift(Assembled(rest).relas, pos);
      } else {
        DecodeStep(i, rest, pos);
      }
    }
  }

  lemma {:induction false} NothingDecodes(pos: nat)
    ensures Decode(Assembled([]).bytes, Shift(Assembled([]).relas, pos), pos) == Some(Expressed([]))
  {}

  lemma {:induction false} ExpressedCons(i: Instr, rest: seq<Instr>)
    ensures Expressed([i] + rest) == (if i.Label? then [] else [Truncated(i)]) + Expressed(rest)
  {
    assert ([i] + rest)[1..] == rest;
  }

  lemma {:induction false} LabelIsNothing(name: nat, pos: nat)
    ensures Encode(Label(name)) == Piece([], []) && Shift([], pos) == []
  {}

  lemma {:induction false} DecodeStep(i: Instr, rest: seq<Instr>, pos: nat)
    requires !i.Label? && Registers(i)
    requires Decode(Assembled(rest).bytes, Shift(Assembled(rest).relas, pos + |Encode(i).bytes|), pos + |Encode(i).bytes|) == Some(Expressed(rest))
    ensures Decode(Encode(i).bytes + Assembled(rest).bytes, Shift(Encode(i).relas, pos) + Shift(Assembled(rest).relas, pos + |Encode(i).bytes|), pos) ==
      Some([Truncated(i)] + Expressed(rest))
  {
    hide *;
    var n := |Encode(i).bytes|;
    var more, moreRelas := Assembled(rest).bytes, Shift(Assembled(rest).relas, pos + n);
    ShiftedBeyond(Assembled(rest).relas, pos + n);
    InstrRecovered(i, more, moreRelas, pos);
    RecoversMeans(i, Encode(i).bytes, Shift(Encode(i).relas, pos), more, moreRelas, pos);
    NotEmpty(i);
    ShiftLength(Encode(i).relas, pos);
    DecodeUnfold(Encode(i).bytes, more, Shift(Encode(i).relas, pos), moreRelas, pos, Truncated(i), Expressed(rest));
  }

  lemma {:induction false} RecoversMeans(i: Instr, bytes: seq<Byte>, own: seq<Rela>, rest: seq<Byte>, restRelas: seq<Rela>, pos: nat)
    requires Recovers(i, bytes, own, rest, restRelas, pos)
    ensures DecodeOne(bytes + rest, own + restRelas, pos) == Some(Decoded(Truncated(i), |bytes|, |own|))
  {}

  lemma {:induction false} ShiftedBeyond(relas: seq<Rela>, d: nat)
    ensures forall k :: 0 <= k < |Shift(relas, d)| ==> Shift(relas, d)[k].offset >= d
  {}

  lemma {:induction false} ShiftLength(relas: seq<Rela>, d: nat)
    ensures |Shift(relas, d)| == |relas|
  {}

  lemma {:induction false} DecodeUnfold(bytes: seq<Byte>, more: seq<Byte>, own: seq<Rela>, moreRelas: seq<Rela>, pos: nat, i: Instr, rest: seq<Instr>)
    requires bytes != [] && DecodeOne(bytes + more, own + moreRelas, pos) == Some(Decoded(i, |bytes|, |own|))
    requires Decode(more, moreRelas, pos + |bytes|) == Some(rest)
    ensures Decode(bytes + more, own + moreRelas, pos) == Some([i] + rest)
  {
    hide DecodeOne;
    assert (bytes + more)[|bytes|..] == more && (own + moreRelas)[|own|..] == moreRelas;
  }

  lemma {:induction false} NotEmpty(i: Instr)
    requires !i.Label?
    ensures |Encode(i).bytes| > 0
  {}

  predicate OperandFits(i: Instr) {
    match i
    case LeaqMdbToReg(disp, _, _) => Fits32(disp)
    case MovqRegToMdb(_, disp, _) => Fits32(disp)
    case MovqMdbToReg(disp, _, _) => Fits32(disp)
    case SubqImmToReg(imm, _) => Fits32(imm)
    case AddqImmToReg(imm, _) => Fits32(imm)
    case MovqImmToReg(Lit(v), _) => 0 <= v < MODULUS
    case _ => true
  }

  /** When every operand fits its field, decoding gives back the instructions themselves. */
  lemma {:induction false} ExactWhenFitting(i: Instr)
    ensures Truncated(i) == i <==> OperandFits(i)
  {
    match i
    case LeaqMdbToReg(disp, _, _) => SignedFits(disp);
    case MovqRegToMdb(_, disp, _) => SignedFits(disp);
    case MovqMdbToReg(disp, _, _) => SignedFits(disp);
    case SubqImmToReg(imm, _) => SignedFits(imm);
    case AddqImmToReg(imm, _) => SignedFits(imm);
    case _ =>
  }

  predicate Fits32(v: int) { -0x8000_0000 <= v < 0x8000_0000 }

  lemma {:induction false} SignedFits(v: int)
    ensures Signed32(v) == v <==> Fits32(v)
  {
    Pow256Values();
    ValueOfLittle(v, 4);
    if Fits32(v) {
      SignedOfLittle(v, 4);
    }
  }
}
