/** The link simplification of the L2 compiler's ELF writer (write-elf and do-relocation in
    src/x86-64-assembler.l2): relocations within a section are applied early, relocations to static
    storage are redirected to one symbol, and the symbol table is compacted. */
module ElfWriter {
  import opened Common
  import opened Bytes
  import opened Object

  /** A symbol as the writer links it: its section, its value there, and whether it is local. */
  datatype LinkedSymbol = LinkedSymbol(sec: nat, value: int, size: int, isLocal: bool)

  /** A relocation as the writer links it: it points at its symbol rather than at an index. */
  datatype LinkedRela = LinkedRela(offset: nat, kind: Type, sym: nat, addend: int)

  const UNDEFINED_SECTION: nat := 0

  /** Symbols 0 and 1 are the mandatory undefined symbol and the symbol of the .bss section. */
  const UND_SYM: nat := 0
  const BSS_SYM: nat := 1

  const WORD: int := 0x1_0000_0000_0000_0000

  /** The 64-bit number that a relocation at r-offset `at` computes from a symbol's value and size. */
  function RelocationValue(kind: Type, value: int, size: int, addend: int, at: int): int {
    match kind
    case Pc32 => (value + addend - at) % WORD
    case Pc16 => (value + addend - at) % WORD
    case Pc8 => (value + addend - at) % WORD
    case GlobDat => value % WORD
    case JumpSlot => value % WORD
    case Size32 => (size + addend) % WORD
    case Size64 => (size + addend) % WORD
    case _ => (value + addend) % WORD
  }

  predicate SignExtended(v: int, half: int) { v < half || v >= WORD - half }

  /** Whether truncating the number preserves it; the sizes are not checked. */
  predicate Preserved(kind: Type, v: int) {
    match kind
    case Pc32 => SignExtended(v, 0x8000_0000)
    case Abs32S => SignExtended(v, 0x8000_0000)
    case Pc16 => SignExtended(v, 0x8000)
    case Pc8 => SignExtended(v, 0x80)
    case Abs32 => v < 0x1_0000_0000
    case Abs16 => v < 0x1_0000
    case Abs8 => v < 0x100
    case Unsupported => false
    case _ => true
  }

  // ----- what a section becomes in memory -----

  /** Where sections are placed and what undefined symbols turn out to be. */
  datatype Placement = Placement(base: nat -> int, outside: nat -> int)

  function AddressOf(s: nat, syms: seq<LinkedSymbol>, p: Placement): int
    requires s < |syms|
  {
    if syms[s].sec == UNDEFINED_SECTION then p.outside(s) else p.base(syms[s].sec) + syms[s].value
  }

  /** What the loader computes for a relocation of section sec. */
  function FinalValue(r: LinkedRela, sec: nat, syms: seq<LinkedSymbol>, p: Placement): int
    requires r.sym < |syms|
  {
    RelocationValue(r.kind, AddressOf(r.sym, syms, p), syms[r.sym].size, r.addend, p.base(sec) + r.offset)
  }

  predicate Inside(r: LinkedRela, bytes: seq<Byte>, syms: seq<LinkedSymbol>) {
    r.offset + Width(r.kind) <= |bytes| && r.sym < |syms|
  }

  predicate AllInside(rs: seq<LinkedRela>, bytes: seq<Byte>, syms: seq<LinkedSymbol>) {
    forall k :: 0 <= k < |rs| ==> Inside(rs[k], bytes, syms)
  }

  function Put(bytes: seq<Byte>, at: nat, v: int, w: nat): (r: seq<Byte>)
    requires at + w <= |bytes|
    ensures |r| == |bytes|
  {
    bytes[..at] + Little(v, w) + bytes[at + w..]
  }

  /** The bytes of a section after loading. */
  function Image(bytes: seq<Byte>, rs: seq<LinkedRela>, sec: nat, syms: seq<LinkedSymbol>, p: Placement): (r: seq<Byte>)
    requires AllInside(rs, bytes, syms)
    ensures |r| == |bytes|
  {
    if rs == [] then bytes else
    var last := rs[|rs| - 1];
    Put(Image(bytes, rs[..|rs| - 1], sec, syms, p), last.offset, FinalValue(last, sec, syms, p), Width(last.kind))
  }

  /** Whether loading goes through. */
  predicate Loads(rs: seq<LinkedRela>, sec: nat, syms: seq<LinkedSymbol>, p: Placement)
    requires forall k :: 0 <= k < |rs| ==> rs[k].sym < |syms|
  {
    forall k :: 0 <= k < |rs| ==> Preserved(rs[k].kind, FinalValue(rs[k], sec, syms, p))
  }

  predicate Apart(r: LinkedRela, q: LinkedRela) {
    r.offset + Width(r.kind) <= q.offset || q.offset + Width(q.kind) <= r.offset
  }

  predicate AllApart(rs: seq<LinkedRela>) {
    forall j, k :: 0 <= j < k < |rs| ==> Apart(rs[j], rs[k])
  }

  // ----- when the simplification is right -----

  /** The value does not depend on where a section that holds both field and symbol lies. */
  predicate PositionIndependent(kind: Type) {
    kind.None? || kind.Pc32? || kind.Pc16? || kind.Pc8? || kind.Size32? || kind.Size64?
  }

  /** The value depends on the symbol only through its address plus the addend. */
  predicate Additive(kind: Type) {
    !(kind.GlobDat? || kind.JumpSlot? || kind.Size32? || kind.Size64?)
  }

  /** What the writer stores early. */
  function EarlyValue(r: LinkedRela, syms: seq<LinkedSymbol>): int
    requires r.sym < |syms|
  {
    RelocationValue(r.kind, syms[r.sym].value, syms[r.sym].size, r.addend, r.offset)
  }

  function Redirected(r: LinkedRela, syms: seq<LinkedSymbol>): LinkedRela
    requires r.sym < |syms|
  {
    r.(addend := (syms[r.sym].value + r.addend) % WORD, sym := BSS_SYM)
  }

  /** Relocations applied early store what the loader would, wherever the section goes, exactly when
      their type is position independent. */
  lemma {:induction false} EarlyIsRight(r: LinkedRela, sec: nat, syms: seq<LinkedSymbol>)
    requires r.sym < |syms| && syms[r.sym].sec == sec && sec != UNDEFINED_SECTION && !r.kind.Unsupported?
    ensures PositionIndependent(r.kind) <==>
      forall p: Placement :: Little(FinalValue(r, sec, syms, p), Width(r.kind)) == Little(EarlyValue(r, syms), Width(r.kind))
  {
    if PositionIndependent(r.kind) {
      forall p: Placement ensures Little(FinalValue(r, sec, syms, p), Width(r.kind)) == Little(EarlyValue(r, syms), Width(r.kind)) {
        EarlySame(r, sec, syms, p);
      }
    } else {
      var p := Placement(_ => 1, _ => 0);
      OneFurther(r, sec, syms, p);
      assert Little(FinalValue(r, sec, syms, p), Width(r.kind)) != Little(EarlyValue(r, syms), Width(r.kind));
    }
  }

  lemma {:induction false} EarlySame(r: LinkedRela, sec: nat, syms: seq<LinkedSymbol>, p: Placement)
    requires r.sym < |syms| && syms[r.sym].sec == sec && sec != UNDEFINED_SECTION && PositionIndependent(r.kind)
    ensures r.kind.None? || FinalValue(r, sec, syms, p) == EarlyValue(r, syms)
    ensures Little(FinalValue(r, sec, syms, p), Width(r.kind)) == Little(EarlyValue(r, syms), Width(r.kind))
    ensures Preserved(r.kind, FinalValue(r, sec, syms, p)) <==> Preserved(r.kind, EarlyValue(r, syms))
  {
    var s := syms[r.sym];
    assert p.base(sec) + s.value + r.addend - (p.base(sec) + r.offset) == s.value + r.addend - r.offset;
  }

  /** A section at address 1 shows the difference in the lowest byte. */
  lemma {:induction false} OneFurther(r: LinkedRela, sec: nat, syms: seq<LinkedSymbol>, p: Placement)
    requires r.sym < |syms| && syms[r.sym].sec == sec && sec != UNDEFINED_SECTION
    requires !PositionIndependent(r.kind) && !r.kind.Unsupported? && p.base(sec) == 1
    ensures Little(FinalValue(r, sec, syms, p), Width(r.kind)) != Little(EarlyValue(r, syms), Width(r.kind))
  {
    var s := syms[r.sym];
    var v := if r.kind.GlobDat? || r.kind.JumpSlot? then s.value else s.value + r.addend;
    assert EarlyValue(r, syms) == v % WORD && FinalValue(r, sec, syms, p) == (v + 1) % WORD;
    LowByte(v);
    LowByte(v + 1);
    assert Little(v % WORD, Width(r.kind))[0] == v % WORD % 256;
  }

  lemma {:induction false} LowByte(v: int)
    ensures v % WORD % 256 == v % 256
  {}

  /** Redirecting to the .bss symbol leaves the computed number alone, wherever .bss goes, when the
      type adds the symbol's address and the addend. */
  lemma {:induction false} RedirectIsRight(r: LinkedRela, sec: nat, syms: seq<LinkedSymbol>, p: Placement)
    requires r.sym < |syms| && |syms| > BSS_SYM && syms[r.sym].sec == syms[BSS_SYM].sec != UNDEFINED_SECTION && syms[BSS_SYM].value == 0
    ensures Additive(r.kind) ==> FinalValue(Redirected(r, syms), sec, syms, p) == FinalValue(r, sec, syms, p)
    ensures r.kind.GlobDat? || r.kind.JumpSlot? ==>
      (FinalValue(Redirected(r, syms), sec, syms, p) == FinalValue(r, sec, syms, p) <==> syms[r.sym].value % WORD == 0)
    ensures r.kind.Size32? || r.kind.Size64? ==>
      (FinalValue(Redirected(r, syms), sec, syms, p) == FinalValue(r, sec, syms, p) <==>
        (syms[BSS_SYM].size + syms[r.sym].value - syms[r.sym].size) % WORD == 0)
  {
    var s, b := syms[r.sym], p.base(syms[BSS_SYM].sec);
    var at := p.base(sec) + r.offset;
    Absorb(b, s.value + r.addend);
    Absorb(b - at, s.value + r.addend);
    Absorb(syms[BSS_SYM].size, s.value + r.addend);
    Difference(b, b + s.value);
    Difference(syms[BSS_SYM].size + s.value + r.addend, s.size + r.addend);
  }

  lemma {:induction false} Absorb(b: int, v: int)
    ensures (b + v % WORD) % WORD == (b + v) % WORD
  {}

  lemma {:induction false} Difference(a: int, b: int)
    ensures a % WORD == b % WORD <==> (a - b) % WORD == 0
    ensures a % WORD == b % WORD <==> (b - a) % WORD == 0
  {}

  // ----- simplifying one section -----

  /** The bytes, the surviving relocations and the symbols they mark; or an early value that would
      be truncated. */
  datatype Simplified = Simplified(bytes: seq<Byte>, relas: seq<LinkedRela>, marks: set<nat>) | Failed

  function Simplify(bytes: seq<Byte>, rs: seq<LinkedRela>, sec: nat, syms: seq<LinkedSymbol>): (s: Simplified)
    requires AllInside(rs, bytes, syms) && |syms| > BSS_SYM
    ensures s.Simplified? ==> |s.bytes| == |bytes| && AllInside(s.relas, bytes, syms)
  {
    if rs == [] then Simplified(bytes, [], {}) else
    var before, r := Simplify(bytes, rs[..|rs| - 1], sec, syms), rs[|rs| - 1];
    if before.Failed? then Failed
    else if syms[r.sym].sec == sec then
      if Preserved(r.kind, EarlyValue(r, syms))
      then before.(bytes := Put(before.bytes, r.offset, EarlyValue(r, syms), Width(r.kind)))
      else Failed
    else if syms[r.sym].sec == syms[BSS_SYM].sec then before.(relas := before.relas + [Redirected(r, syms)])
    else before.(relas := before.relas + [r], marks := before.marks + {r.sym})
  }

  /** The relocation types that the simplification is meant for. */
  predicate Suitable(rs: seq<LinkedRela>, sec: nat, syms: seq<LinkedSymbol>)
    requires |syms| > BSS_SYM && forall k :: 0 <= k < |rs| ==> rs[k].sym < |syms|
  {
    forall k :: 0 <= k < |rs| ==>
      (syms[rs[k].sym].sec == sec ==> PositionIndependent(rs[k].kind)) &&
      (syms[rs[k].sym].sec == syms[BSS_SYM].sec ==> Additive(rs[k].kind))
  }

  ghost predicate Sections(sec: nat, syms: seq<LinkedSymbol>) {
    && |syms| > BSS_SYM && sec != UNDEFINED_SECTION && syms[BSS_SYM].sec != UNDEFINED_SECTION
    && sec != syms[BSS_SYM].sec && syms[BSS_SYM].value == 0
  }

  /** Every field of kept is a field of rs. */
  ghost predicate FieldsFrom(kept: seq<LinkedRela>, rs: seq<LinkedRela>) {
    forall k :: 0 <= k < |kept| ==> exists j :: 0 <= j < |rs| && rs[j].offset == kept[k].offset && rs[j].kind == kept[k].kind
  }

  lemma {:induction false} PutCommutes(b: seq<Byte>, at: nat, v: int, w: nat, at': nat, v': int, w': nat)
    requires at + w <= |b| && at' + w' <= |b| && (at + w <= at' || at' + w' <= at)
    ensures Put(Put(b, at, v, w), at', v', w') == Put(Put(b, at', v', w'), at, v, w)
  {
    hide Little;
  }

  lemma {:induction false} ImageOfPut(b: seq<Byte>, rs: seq<LinkedRela>, sec: nat, syms: seq<LinkedSymbol>, p: Placement, r: LinkedRela, v: int)
    requires AllInside(rs, b, syms) && Inside(r, b, syms) && forall k :: 0 <= k < |rs| ==> Apart(rs[k], r)
    ensures AllInside(rs, Put(b, r.offset, v, Width(r.kind)), syms)
    ensures Image(Put(b, r.offset, v, Width(r.kind)), rs, sec, syms, p) == Put(Image(b, rs, sec, syms, p), r.offset, v, Width(r.kind))
    decreases rs
  {
    if rs != [] {
      var front, last := rs[..|rs| - 1], rs[|rs| - 1];
      ImageOfPut(b, front, sec, syms, p, r, v);
      PutCommutes(Image(b, front, sec, syms, p), r.offset, v, Width(r.kind), last.offset, FinalValue(last, sec, syms, p), Width(last.kind));
    }
  }

  lemma {:induction false} KeptFields(bytes: seq<Byte>, rs: seq<LinkedRela>, sec: nat, syms: seq<LinkedSymbol>)
    requires AllInside(rs, bytes, syms) && |syms| > BSS_SYM
    ensures Simplify(bytes, rs, sec, syms).Simplified? ==> FieldsFrom(Simplify(bytes, rs, sec, syms).relas, rs)
    decreases rs
  {
    if rs != [] {
      var front := rs[..|rs| - 1];
      KeptFields(bytes, front, sec, syms);
      hide Put, RelocationValue, Preserved;
      assert forall j :: 0 <= j < |front| ==> front[j] == rs[j];
    }
  }

  lemma {:induction false} Front(rs: seq<LinkedRela>, bytes: seq<Byte>, sec: nat, syms: seq<LinkedSymbol>)
    requires rs != [] && AllInside(rs, bytes, syms) && AllApart(rs) && |syms| > BSS_SYM && Suitable(rs, sec, syms)
    ensures var front := rs[..|rs| - 1]; AllInside(front, bytes, syms) && AllApart(front) && Suitable(front, sec, syms)
    ensures forall j :: 0 <= j < |rs| - 1 ==> Apart(rs[j], rs[|rs| - 1])
  {}

  lemma {:induction false} KeptApart(kept: seq<LinkedRela>, rs: seq<LinkedRela>)
    requires rs != [] && FieldsFrom(kept, rs[..|rs| - 1]) && AllApart(rs)
    ensures forall k :: 0 <= k < |kept| ==> Apart(kept[k], rs[|rs| - 1])
  {}

  lemma {:induction false} LoadsSnoc(rs: seq<LinkedRela>, r: LinkedRela, sec: nat, syms: seq<LinkedSymbol>, p: Placement)
    requires r.sym < |syms| && forall k :: 0 <= k < |rs| ==> rs[k].sym < |syms|
    ensures Loads(rs + [r], sec, syms, p) <==> Loads(rs, sec, syms, p) && Preserved(r.kind, FinalValue(r, sec, syms, p))
  {
    var all := rs + [r];
    assert all[|rs|] == r && forall k :: 0 <= k < |rs| ==> all[k] == rs[k];
  }

  /** Early applications, redirections and the relocations that stay as they are give the final
      bytes that the original relocations give, for every placement, and fail when those fail. */
  lemma {:induction false} SimplifyPreserves(bytes: seq<Byte>, rs: seq<LinkedRela>, sec: nat, syms: seq<LinkedSymbol>, p: Placement)
    requires AllInside(rs, bytes, syms) && AllApart(rs) && Sections(sec, syms) && Suitable(rs, sec, syms)
    ensures Simplify(bytes, rs, sec, syms).Failed? ==> !Loads(rs, sec, syms, p)
    ensures Simplify(bytes, rs, sec, syms).Simplified? ==> var s := Simplify(bytes, rs, sec, syms);
      && Image(s.bytes, s.relas, sec, syms, p) == Image(bytes, rs, sec, syms, p)
      && (Loads(s.relas, sec, syms, p) <==> Loads(rs, sec, syms, p))
    decreases rs
  {
    if rs != [] {
      var front, r := rs[..|rs| - 1], rs[|rs| - 1];
      Front(rs, bytes, sec, syms);
      SimplifyPreserves(bytes, front, sec, syms, p);
      assert rs == front + [r];
      LoadsSnoc(front, r, sec, syms, p);
      KeptFields(bytes, front, sec, syms);
      var before := Simplify(bytes, front, sec, syms);
      if before.Simplified? {
        if syms[r.sym].sec == sec {
          EarlyStep(before, bytes, rs, sec, syms, p);
        } else {
          KeptStep(before, bytes, rs, sec, syms, p);
        }
      }
    }
  }

  lemma {:induction false} EarlyStep(before: Simplified, bytes: seq<Byte>, rs: seq<LinkedRela>, sec: nat, syms: seq<LinkedSymbol>, p: Placement)
    requires rs != [] && AllInside(rs, bytes, syms) && AllApart(rs) && Sections(sec, syms) && Suitable(rs, sec, syms)
    requires before == Simplify(bytes, rs[..|rs| - 1], sec, syms) && before.Simplified? && FieldsFrom(before.relas, rs[..|rs| - 1])
    requires Image(before.bytes, before.relas, sec, syms, p) == Image(bytes, rs[..|rs| - 1], sec, syms, p)
    requires syms[rs[|rs| - 1].sym].sec == sec
    ensures var r := rs[|rs| - 1]; var b := Put(before.bytes, r.offset, EarlyValue(r, syms), Width(r.kind));
      AllInside(before.relas, b, syms) && Image(b, before.relas, sec, syms, p) == Image(bytes, rs, sec, syms, p)
    ensures Preserved(rs[|rs| - 1].kind, FinalValue(rs[|rs| - 1], sec, syms, p)) <==> Preserved(rs[|rs| - 1].kind, EarlyValue(rs[|rs| - 1], syms))
  {
    var r := rs[|rs| - 1];
    assert Inside(r, before.bytes, syms);
    KeptApart(before.relas, rs);
    ImageOfPut(before.bytes, before.relas, sec, syms, p, r, EarlyValue(r, syms));
    EarlySame(r, sec, syms, p);
    hide RelocationValue, Little, Simplify;
  }

  lemma {:induction false} KeptStep(before: Simplified, bytes: seq<Byte>, rs: seq<LinkedRela>, sec: nat, syms: seq<LinkedSymbol>, p: Placement)
    requires rs != [] && AllInside(rs, bytes, syms) && Sections(sec, syms) && Suitable(rs, sec, syms)
    requires before.Simplified? && |before.bytes| == |bytes| && AllInside(before.relas, bytes, syms)
    requires Image(before.bytes, before.relas, sec, syms, p) == Image(bytes, rs[..|rs| - 1], sec, syms, p)
    ensures var r := rs[|rs| - 1]; var r' := if syms[r.sym].sec == syms[BSS_SYM].sec then Redirected(r, syms) else r;
      && AllInside(before.relas + [r'], before.bytes, syms) && Image(before.bytes, before.relas + [r'], sec, syms, p) == Image(bytes, rs, sec, syms, p)
      && (Loads(before.relas + [r'], sec, syms, p) <==> Loads(before.relas, sec, syms, p) && Preserved(r.kind, FinalValue(r, sec, syms, p)))
  {
    var r := rs[|rs| - 1];
    var r' := if syms[r.sym].sec == syms[BSS_SYM].sec then Redirected(r, syms) else r;
    if syms[r.sym].sec == syms[BSS_SYM].sec {
      RedirectIsRight(r, sec, syms, p);
    }
    assert FinalValue(r', sec, syms, p) == FinalValue(r, sec, syms, p);
    LoadsSnoc(before.relas, r', sec, syms, p);
    hide RelocationValue, Little, Simplify, Redirected;
    assert (before.relas + [r'])[..|before.relas|] == before.relas;
  }

  // ----- the symbol table -----

  /** The kept symbols, in order. */
  function Selected(symtab: seq<nat>, marked: set<nat>, syms: seq<LinkedSymbol>): seq<nat>
    requires forall k :: 0 <= k < |symtab| ==> symtab[k] < |syms|
  {
    if symtab == [] then [] else
    Selected(symtab[..|symtab| - 1], marked, syms) +
    (if symtab[|symtab| - 1] in marked || !syms[symtab[|symtab| - 1]].isLocal then [symtab[|symtab| - 1]] else [])
  }

  /** The local symbols, or the others. */
  function Side(symtab: seq<nat>, isLocal: bool, syms: seq<LinkedSymbol>): (r: seq<nat>)
    requires forall k :: 0 <= k < |symtab| ==> symtab[k] < |syms|
    ensures forall s :: s in r <==> s in symtab && syms[s].isLocal == isLocal
  {
    if symtab == [] then [] else
    Side(symtab[..|symtab| - 1], isLocal, syms) + (if syms[symtab[|symtab| - 1]].isLocal == isLocal then [symtab[|symtab| - 1]] else [])
  }

  /** The order in which symbols are written: local ones first. */
  function Written(symtab: seq<nat>, syms: seq<LinkedSymbol>): seq<nat>
    requires forall k :: 0 <= k < |symtab| ==> symtab[k] < |syms|
  {
    Side(symtab, true, syms) + Side(symtab, false, syms)
  }

  lemma {:induction false} SelectedMembers(symtab: seq<nat>, marked: set<nat>, syms: seq<LinkedSymbol>)
    requires forall k :: 0 <= k < |symtab| ==> symtab[k] < |syms|
    ensures forall s :: s in Selected(symtab, marked, syms) <==> s in symtab && (s in marked || !syms[s].isLocal)
    ensures Distinct(symtab) ==> Distinct(Selected(symtab, marked, syms))
    decreases symtab
  {
    if symtab != [] {
      var front, last := symtab[..|symtab| - 1], symtab[|symtab| - 1];
      assert symtab == front + [last];
      SelectedMembers(front, marked, syms);
    }
  }

  lemma {:induction false} SideDistinct(symtab: seq<nat>, isLocal: bool, syms: seq<LinkedSymbol>)
    requires (forall k :: 0 <= k < |symtab| ==> symtab[k] < |syms|) && Distinct(symtab)
    ensures Distinct(Side(symtab, isLocal, syms))
    decreases symtab
  {
    if symtab != [] {
      var front, last := symtab[..|symtab| - 1], symtab[|symtab| - 1];
      assert symtab == front + [last];
      SideDistinct(front, isLocal, syms);
    }
  }

  lemma {:induction false} NoSide(isLocal: bool, syms: seq<LinkedSymbol>)
    ensures Side([], isLocal, syms) == []
  {}

  lemma {:induction false} SideSnoc(symtab: seq<nat>, k: nat, isLocal: bool, syms: seq<LinkedSymbol>)
    requires (forall k :: 0 <= k < |symtab| ==> symtab[k] < |syms|) && Distinct(symtab) && k < |symtab|
    ensures Side(symtab[..k + 1], isLocal, syms) ==
      Side(symtab[..k], isLocal, syms) + (if syms[symtab[k]].isLocal == isLocal then [symtab[k]] else [])
    ensures symtab[k] !in Side(symtab[..k], isLocal, syms)
  {
    assert symtab[..k + 1][..k] == symtab[..k];
    assert symtab[k] !in symtab[..k];
  }

  // ----- the writer -----

  class LinkWriter {
    const syms: seq<LinkedSymbol>
    var marked: set<nat>
    var symtab: seq<nat>
    var index: map<nat, nat>
    var localEnd: nat

    constructor (syms: seq<LinkedSymbol>, symtab: seq<nat>)
      ensures this.syms == syms && this.symtab == symtab && marked == {}
    {
      this.syms, this.symtab := syms, symtab;
      marked, index, localEnd := {}, map[], 0;
    }

    /** do-relocation: fails when truncation would lose the number. */
    method DoRelocation(text: array<Byte>, r: LinkedRela) returns (ok: bool)
      requires r.offset + Width(r.kind) <= text.Length && r.sym < |syms|
      modifies text
      ensures ok == Preserved(r.kind, EarlyValue(r, syms))
      ensures text[..] == if ok then Put(old(text[..]), r.offset, EarlyValue(r, syms), Width(r.kind)) else old(text[..])
    {
      ok := Preserved(r.kind, EarlyValue(r, syms));
      if ok {
        var bytes := Little(EarlyValue(r, syms), Width(r.kind));
        hide Little;
        for k := 0 to |bytes|
          invariant forall a :: 0 <= a < text.Length ==> text[a] == if r.offset <= a < r.offset + k then bytes[a - r.offset] else old(text[a])
        {
          text[r.offset + k] := bytes[k];
        }
      }
    }

    /** The in-place filter over the relocations of one section. */
    method SimplifySection(text: array<Byte>, sec: nat, relas: seq<LinkedRela>) returns (ok: bool, kept: seq<LinkedRela>)
      requires |syms| > BSS_SYM && AllInside(relas, text[..], syms)
      modifies text, this`marked
      ensures ok <==> Simplify(old(text[..]), relas, sec, syms).Simplified?
      ensures ok ==> text[..] == Simplify(old(text[..]), relas, sec, syms).bytes && kept == Simplify(old(text[..]), relas, sec, syms).relas
      ensures ok ==> marked == old(marked) + Simplify(old(text[..]), relas, sec, syms).marks
    {
      hide Preserved, RelocationValue, Put, Simplify;
      ghost var bytes, n := text[..], 0;
      kept := relas;
      var m := 0;
      NothingSimplified(bytes, sec, syms);
      assert relas[..0] == [];
      while m < |kept|
        invariant 0 <= m && 0 <= n <= |relas| && |kept| - m == |relas| - n && kept[m..] == relas[n..]
        invariant AllInside(relas[..n], bytes, syms)
        invariant Simplify(bytes, relas[..n], sec, syms).Simplified? && Simplify(bytes, relas[..n], sec, syms).bytes == text[..]
        invariant Simplify(bytes, relas[..n], sec, syms).relas == kept[..m]
        invariant marked == old(marked) + Simplify(bytes, relas[..n], sec, syms).marks
        decreases |kept| - m
      {
        var r := kept[m];
        assert r == kept[m..][0] == relas[n];
        SimplifySnoc(bytes, relas, n, sec, syms);
        assert Inside(relas[n], bytes, syms);
        if syms[r.sym].sec == sec {
          var done := DoRelocation(text, r);
          if !done {
            FailureStays(bytes, relas, n + 1, sec, syms);
            return false, kept;
          }
          kept := kept[..m] + kept[m + 1..];
        } else if syms[r.sym].sec == syms[BSS_SYM].sec {
          kept := kept[m := Redirected(r, syms)];
          m := m + 1;
        } else {
          marked := marked + {r.sym};
          m := m + 1;
        }
        n := n + 1;
      }
      assert relas[..n] == relas;
      ok := true;
    }

    /** Keeps the symbols that relocations refer to or other objects may. */
    method FilterSymbols()
      requires (forall k :: 0 <= k < |symtab| ==> symtab[k] < |syms|)
      modifies this`symtab
      ensures symtab == Selected(old(symtab), marked, syms)
      ensures forall k :: 0 <= k < |symtab| ==> symtab[k] < |syms|
    {
      ghost var n := 0;
      var m := 0;
      assert symtab[..0] == [];
      while m < |symtab|
        invariant 0 <= m && 0 <= n <= |old(symtab)| && |symtab| - m == |old(symtab)| - n && symtab[m..] == old(symtab)[n..]
        invariant symtab[..m] == Selected(old(symtab)[..n], marked, syms)
        invariant forall k :: 0 <= k < |symtab| ==> symtab[k] < |syms|
        decreases |symtab| - m
      {
        assert symtab[m] == symtab[m..][0] == old(symtab)[n];
        assert old(symtab)[..n + 1][..n] == old(symtab)[..n];
        if symtab[m] in marked || !syms[symtab[m]].isLocal {
          m := m + 1;
        } else {
          symtab := symtab[..m] + symtab[m + 1..];
        }
        n := n + 1;
      }
      assert old(symtab)[..n] == old(symtab);
      SelectedMembers(old(symtab), marked, syms);
    }

    /** Consecutive indices, local symbols first. */
    method AssignIndices()
      requires (forall k :: 0 <= k < |symtab| ==> symtab[k] < |syms|) && Distinct(symtab)
      modifies this`index, this`localEnd
      ensures localEnd == |Side(symtab, true, syms)|
      ensures Indexed(Written(symtab, syms), 0)
    {
      index := map[];
      localEnd := IndexSide(true, 0);
      var end := IndexSide(false, localEnd);
    }

    /** Numbers one side of the symbol table and leaves the other side's numbers alone. */
    method IndexSide(isLocal: bool, first: nat) returns (acc: nat)
      requires (forall k :: 0 <= k < |symtab| ==> symtab[k] < |syms|) && Distinct(symtab)
      modifies this`index
      ensures acc == first + |Side(symtab, isLocal, syms)| && Indexed(Side(symtab, isLocal, syms), first)
      ensures forall s :: s in old(index) && s !in Side(symtab, isLocal, syms) ==> s in index && index[s] == old(index)[s]
    {
      hide Side, Distinct;
      acc := first;
      NoSide(isLocal, syms);
      assert symtab[..0] == [];
      for k := 0 to |symtab|
        invariant acc == first + |Side(symtab[..k], isLocal, syms)| && Indexed(Side(symtab[..k], isLocal, syms), first)
        invariant forall s :: s in old(index) && s !in Side(symtab[..k], isLocal, syms) ==> s in index && index[s] == old(index)[s]
      {
        SideSnoc(symtab, k, isLocal, syms);
        if syms[symtab[k]].isLocal == isLocal {
          index := index[symtab[k] := acc];
          acc := acc + 1;
        }
      }
      assert symtab[..|symtab|] == symtab;
    }

    ghost predicate Indexed(part: seq<nat>, first: nat)
      reads this`index
    {
      forall i :: 0 <= i < |part| ==> part[i] in index && index[part[i]] == first + i
    }
  }

  lemma {:induction false} NothingSimplified(bytes: seq<Byte>, sec: nat, syms: seq<LinkedSymbol>)
    requires |syms| > BSS_SYM
    ensures Simplify(bytes, [], sec, syms) == Simplified(bytes, [], {})
  {}

  lemma {:induction false} SimplifySnoc(bytes: seq<Byte>, rs: seq<LinkedRela>, n: nat, sec: nat, syms: seq<LinkedSymbol>)
    requires AllInside(rs, bytes, syms) && n < |rs| && |syms| > BSS_SYM
    ensures AllInside(rs[..n], bytes, syms) && AllInside(rs[..n + 1], bytes, syms)
    ensures var before, r := Simplify(bytes, rs[..n], sec, syms), rs[n];
      Simplify(bytes, rs[..n + 1], sec, syms) ==
        if before.Failed? then Failed
        else if syms[r.sym].sec == sec then
          if Preserved(r.kind, EarlyValue(r, syms))
          then before.(bytes := Put(before.bytes, r.offset, EarlyValue(r, syms), Width(r.kind)))
          else Failed
        else if syms[r.sym].sec == syms[BSS_SYM].sec then before.(relas := before.relas + [Redirected(r, syms)])
        else before.(relas := before.relas + [r], marks := before.marks + {r.sym})
  {
    assert rs[..n + 1][..n] == rs[..n];
  }

  lemma {:induction false} FailureStays(bytes: seq<Byte>, rs: seq<LinkedRela>, n: nat, sec: nat, syms: seq<LinkedSymbol>)
    requires AllInside(rs, bytes, syms) && n <= |rs| && |syms| > BSS_SYM
    requires AllInside(rs[..n], bytes, syms) && Simplify(bytes, rs[..n], sec, syms).Failed?
    ensures Simplify(bytes, rs, sec, syms).Failed?
    decreases |rs| - n
  {
    if n < |rs| {
      SimplifySnoc(bytes, rs, n, sec, syms);
      FailureStays(bytes, rs, n + 1, sec, syms);
    } else {
      assert rs[..n] == rs;
    }
  }

  // ----- the whole -----

  lemma {:induction false} SurvivorsAreMarked(bytes: seq<Byte>, rs: seq<LinkedRela>, sec: nat, syms: seq<LinkedSymbol>)
    requires AllInside(rs, bytes, syms) && |syms| > BSS_SYM
    ensures var s := Simplify(bytes, rs, sec, syms);
      s.Simplified? ==> SymbolsMarked(s.relas, s.marks) && forall m :: m in s.marks ==> m < |syms|
    decreases rs
  {
    if rs != [] {
      SurvivorsAreMarked(bytes, rs[..|rs| - 1], sec, syms);
      hide Put, Preserved, RelocationValue;
    }
  }

  /** Two versions of a section and its relocations that load alike wherever sections go. */
  ghost predicate LoadAlike(bytes: seq<Byte>, rs: seq<LinkedRela>, bytes': seq<Byte>, rs': seq<LinkedRela>, sec: nat, syms: seq<LinkedSymbol>) {
    && AllInside(rs, bytes, syms) && AllInside(rs', bytes', syms)
    && forall p: Placement :: Image(bytes', rs', sec, syms, p) == Image(bytes, rs, sec, syms, p) && (Loads(rs', sec, syms, p) <==> Loads(rs, sec, syms, p))
  }

  ghost predicate NeverLoads(rs: seq<LinkedRela>, sec: nat, syms: seq<LinkedSymbol>) {
    (forall k :: 0 <= k < |rs| ==> rs[k].sym < |syms|) && forall p: Placement :: !Loads(rs, sec, syms, p)
  }

  ghost predicate SymbolsMarked(rs: seq<LinkedRela>, marked: set<nat>) {
    forall k :: 0 <= k < |rs| ==> rs[k].sym == BSS_SYM || rs[k].sym in marked
  }

  /** What the simplification does to one section. */
  lemma {:induction false} SectionSimplified(bytes: seq<Byte>, rs: seq<LinkedRela>, sec: nat, syms: seq<LinkedSymbol>)
    requires AllInside(rs, bytes, syms) && AllApart(rs) && Sections(sec, syms) && Suitable(rs, sec, syms)
    ensures var s := Simplify(bytes, rs, sec, syms);
      && (s.Failed? ==> NeverLoads(rs, sec, syms))
      && (s.Simplified? ==> LoadAlike(bytes, rs, s.bytes, s.relas, sec, syms) && SymbolsMarked(s.relas, s.marks) && forall m :: m in s.marks ==> m < |syms|)
  {
    forall p: Placement ensures var s := Simplify(bytes, rs, sec, syms);
      if s.Failed? then !Loads(rs, sec, syms, p)
      else Image(s.bytes, s.relas, sec, syms, p) == Image(bytes, rs, sec, syms, p) && (Loads(s.relas, sec, syms, p) <==> Loads(rs, sec, syms, p))
    {
      SimplifyPreserves(bytes, rs, sec, syms, p);
    }
    SurvivorsAreMarked(bytes, rs, sec, syms);
    hide Simplify, Image, Loads;
  }

  /** A section of code: its number, its bytes and its relocations. */
  datatype Code = Code(sec: nat, text: array<Byte>, relas: seq<LinkedRela>)

  ghost predicate Simplifiable(c: Code, syms: seq<LinkedSymbol>)
    reads c.text
  {
    Sections(c.sec, syms) && AllInside(c.relas, c.text[..], syms) && AllApart(c.relas) && Suitable(c.relas, c.sec, syms)
  }

  /** All sections and the symbol table they share. */
  method SimplifyLinks(codes: seq<Code>, syms: seq<LinkedSymbol>, symtab: seq<nat>)
    returns (ok: bool, kept: seq<seq<LinkedRela>>, w: LinkWriter)
    requires forall i :: 0 <= i < |codes| ==> Simplifiable(codes[i], syms)
    requires forall i, j :: 0 <= i < j < |codes| ==> codes[i].text != codes[j].text
    requires Distinct(symtab) && (forall k :: 0 <= k < |symtab| ==> symtab[k] < |syms|) && (forall s: nat :: s < |syms| ==> s in symtab)
    requires |syms| > BSS_SYM
    modifies set i | 0 <= i < |codes| :: codes[i].text
    ensures w.syms == syms && forall k :: 0 <= k < |w.symtab| ==> w.symtab[k] < |syms|
    ensures !ok ==> exists i :: 0 <= i < |codes| && NeverLoads(codes[i].relas, codes[i].sec, syms)
    ensures ok ==> |kept| == |codes| && forall i :: 0 <= i < |codes| ==>
      LoadAlike(old(codes[i].text[..]), codes[i].relas, codes[i].text[..], kept[i], codes[i].sec, syms)
    ensures ok ==> forall s: nat :: s in w.symtab <==> s < |syms| && (s in w.marked || !syms[s].isLocal)
    ensures ok ==> forall i, k :: 0 <= i < |kept| && 0 <= k < |kept[i]| ==> kept[i][k].sym in w.symtab
    ensures ok ==> forall s :: s in w.symtab ==>
      && s in w.index && w.index[s] < |Written(w.symtab, syms)| && Written(w.symtab, syms)[w.index[s]] == s
      && (syms[s].isLocal <==> w.index[s] < w.localEnd)
  {
    hide Simplify, LoadAlike, NeverLoads, SymbolsMarked, Sections, AllApart, Suitable, AllInside, Written, Distinct, Side;
    w := new LinkWriter(syms, symtab);
    kept := [];
    ok := true;
    for i := 0 to |codes|
      invariant w.syms == syms && w.symtab == symtab && |kept| == i && forall m :: m in w.marked ==> m < |syms|
      invariant forall j :: 0 <= j < i ==> SymbolsMarked(kept[j], w.marked)
      invariant forall j :: 0 <= j < i ==>
        LoadAlike(old(codes[j].text[..]), codes[j].relas, codes[j].text[..], kept[j], codes[j].sec, syms)
      invariant forall j :: i <= j < |codes| ==> codes[j].text[..] == old(codes[j].text[..])
    {
      assert Simplifiable(codes[i], syms);
      ghost var bytes, before := codes[i].text[..], w.marked;
      SectionSimplified(bytes, codes[i].relas, codes[i].sec, syms);
      var own;
      ok, own := w.SimplifySection(codes[i].text, codes[i].sec, codes[i].relas);
      if !ok {
        return;
      }
      forall j | 0 <= j < i ensures SymbolsMarked(kept[j], w.marked) {
        MoreMarked(kept[j], before, w.marked);
      }
      MoreMarked(own, Simplify(bytes, codes[i].relas, codes[i].sec, syms).marks, w.marked);
      kept := kept + [own];
    }
    ghost var before := w.marked;
    w.marked := w.marked + {UND_SYM, BSS_SYM};
    CompactSymbols(w, kept, before);
  }

  lemma {:induction false} MoreMarked(rs: seq<LinkedRela>, marked: set<nat>, more: set<nat>)
    requires SymbolsMarked(rs, marked) && marked <= more
    ensures SymbolsMarked(rs, more)
  {}

  method CompactSymbols(w: LinkWriter, ghost kept: seq<seq<LinkedRela>>, ghost before: set<nat>)
    requires Distinct(w.symtab) && (forall k :: 0 <= k < |w.symtab| ==> w.symtab[k] < |w.syms|) && (forall s: nat :: s < |w.syms| ==> s in w.symtab)
    requires |w.syms| > BSS_SYM && w.marked == before + {UND_SYM, BSS_SYM} && forall j :: 0 <= j < |kept| ==> SymbolsMarked(kept[j], before)
    requires forall s :: s in before ==> s < |w.syms|
    modifies w`symtab, w`index, w`localEnd
    ensures forall k :: 0 <= k < |w.symtab| ==> w.symtab[k] < |w.syms|
    ensures forall s: nat :: s in w.symtab <==> s < |w.syms| && (s in w.marked || !w.syms[s].isLocal)
    ensures forall i, k :: 0 <= i < |kept| && 0 <= k < |kept[i]| ==> kept[i][k].sym in w.symtab
    ensures forall s :: s in w.symtab ==>
      && s in w.index && w.index[s] < |Written(w.symtab, w.syms)| && Written(w.symtab, w.syms)[w.index[s]] == s
      && (w.syms[s].isLocal <==> w.index[s] < w.localEnd)
  {
    SelectedMembers(w.symtab, w.marked, w.syms);
    hide Selected, Side;
    w.FilterSymbols();
    w.AssignIndices();
    IndicesArePositions(w);
    forall i, k | 0 <= i < |kept| && 0 <= k < |kept[i]| ensures kept[i][k].sym in w.symtab {
      assert SymbolsMarked(kept[i], before);
    }
  }

  lemma {:induction false} IndicesArePositions(w: LinkWriter)
    requires forall k :: 0 <= k < |w.symtab| ==> w.symtab[k] < |w.syms|
    requires w.localEnd == |Side(w.symtab, true, w.syms)|
    requires w.Indexed(Written(w.symtab, w.syms), 0)
    ensures forall s :: s in w.symtab ==> s in w.index && w.index[s] < |Written(w.symtab, w.syms)| && Written(w.symtab, w.syms)[w.index[s]] == s
    ensures forall s :: s in w.symtab ==> (w.syms[s].isLocal <==> w.index[s] < w.localEnd)
  {
    var locals, others := Side(w.symtab, true, w.syms), Side(w.symtab, false, w.syms);
    forall s | s in w.symtab
      ensures s in w.index && w.index[s] < |Written(w.symtab, w.syms)| && Written(w.symtab, w.syms)[w.index[s]] == s
      ensures w.syms[s].isLocal <==> w.index[s] < w.localEnd
    {
      if w.syms[s].isLocal {
        var i :| 0 <= i < |locals| && locals[i] == s;
        assert Written(w.symtab, w.syms)[i] == s;
      } else {
        var i :| 0 <= i < |others| && others[i] == s;
        assert Written(w.symtab, w.syms)[|locals| + i] == s;
      }
    }
  }
}
