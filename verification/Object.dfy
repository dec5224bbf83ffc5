/** Loading object code and relocating it (bootstrap/x86_64_object.c, section 4.4.1 of the System V
    AMD64 ABI). */
module Object {
  import opened Common
  import opened Machine
  import opened Bytes
  import opened Assembler

  datatype Type =
    | None | Abs64 | Pc32 | GlobDat | JumpSlot | Abs32 | Abs32S | Abs16 | Pc16 | Abs8 | Pc8 | Size32 | Size64
    | Unsupported

  function Width(t: Type): nat {
    match t
    case None => 0
    case Unsupported => 0
    case Abs64 => 8
    case GlobDat => 8
    case JumpSlot => 8
    case Size64 => 8
    case Pc32 => 4
    case Abs32 => 4
    case Abs32S => 4
    case Size32 => 4
    case Abs16 => 2
    case Pc16 => 2
    case Abs8 => 1
    case Pc8 => 1
  }

  /** Which section a symbol belongs to. */
  datatype Home = Undefined | Common | AbsoluteValue | InSection(sec: nat)

  datatype Symbol = Symbol(name: string, value: nat, size: nat, home: Home, outward: bool)

  /** A relocation entry; `addend` is meaningful when the section's entries carry addends. */
  datatype Entry = Entry(offset: nat, sym: nat, kind: Type, addend: int)

  datatype RelocSection = RelocSection(target: nat, explicit: bool, entries: seq<Entry>)

  /** An entry with its stored addend, located in memory. */
  datatype Fix = Fix(location: nat, sym: nat, kind: Type, addend: int)

  type Memory = seq<Byte>

  // ----- what relocation computes -----

  function Computed(f: Fix, s: Symbol): int {
    match f.kind
    case Pc32 => s.value + f.addend - f.location
    case Pc16 => s.value + f.addend - f.location
    case Pc8 => s.value + f.addend - f.location
    case GlobDat => s.value
    case JumpSlot => s.value
    case Size32 => s.size + f.addend
    case Size64 => s.size + f.addend
    case _ => s.value + f.addend
  }

  predicate Covers(f: Fix, a: int) { f.location <= a < f.location + Width(f.kind) }

  predicate Fits(f: Fix, m: Memory, syms: seq<Symbol>) {
    f.location + Width(f.kind) <= |m| && f.sym < |syms|
  }

  predicate AllFit(fs: seq<Fix>, m: Memory, syms: seq<Symbol>) {
    forall k :: 0 <= k < |fs| ==> Fits(fs[k], m, syms)
  }

  function Patched(m: Memory, f: Fix, syms: seq<Symbol>): (r: Memory)
    requires Fits(f, m, syms)
    ensures |r| == |m|
  {
    m[..f.location] + Little(Computed(f, syms[f.sym]), Width(f.kind)) + m[f.location + Width(f.kind)..]
  }

  function Relocated(m: Memory, fs: seq<Fix>, syms: seq<Symbol>): (r: Memory)
    requires AllFit(fs, m, syms)
    ensures |r| == |m|
  {
    if fs == [] then m else Patched(Relocated(m, fs[..|fs| - 1], syms), fs[|fs| - 1], syms)
  }

  // ----- relocation is history independent -----

  predicate CoveredBy(fs: seq<Fix>, a: int) { exists k :: 0 <= k < |fs| && Covers(fs[k], a) }

  lemma {:induction false} PatchedAt(m: Memory, f: Fix, syms: seq<Symbol>, a: nat)
    requires Fits(f, m, syms) && a < |m|
    ensures Patched(m, f, syms)[a] == if Covers(f, a) then Little(Computed(f, syms[f.sym]), Width(f.kind))[a - f.location] else m[a]
  {}

  lemma {:induction false} CoveredSnoc(fs: seq<Fix>, a: int)
    requires fs != []
    ensures CoveredBy(fs, a) <==> CoveredBy(fs[..|fs| - 1], a) || Covers(fs[|fs| - 1], a)
  {
    var front := fs[..|fs| - 1];
    assert forall k :: 0 <= k < |front| ==> front[k] == fs[k];
  }

  /** Relocating two memories that differ at most in fields and in bs leaves them different at most
      in bs. */
  lemma {:induction false} SameAfterwards(m: Memory, n: Memory, fs: seq<Fix>, syms: seq<Symbol>, bs: iset<int>)
    requires |m| == |n| && AllFit(fs, m, syms)
    requires forall a :: 0 <= a < |m| && !CoveredBy(fs, a) && a !in bs ==> m[a] == n[a]
    ensures forall a :: 0 <= a < |m| && a !in bs ==> Relocated(m, fs, syms)[a] == Relocated(n, fs, syms)[a]
    decreases fs
  {
    if fs != [] {
      var front, last := fs[..|fs| - 1], fs[|fs| - 1];
      var more := iset a | a in bs || Covers(last, a);
      forall a | 0 <= a < |m| && !CoveredBy(front, a) && a !in more ensures m[a] == n[a] {
        CoveredSnoc(fs, a);
      }
      SameAfterwards(m, n, front, syms, more);
      forall a | 0 <= a < |m| && a !in bs ensures Relocated(m, fs, syms)[a] == Relocated(n, fs, syms)[a] {
        PatchedAt(Relocated(m, front, syms), last, syms, a);
        PatchedAt(Relocated(n, front, syms), last, syms, a);
      }
    }
  }

  lemma {:induction false} Untouched(m: Memory, fs: seq<Fix>, syms: seq<Symbol>, a: nat)
    requires AllFit(fs, m, syms) && a < |m| && !CoveredBy(fs, a)
    ensures Relocated(m, fs, syms)[a] == m[a]
    decreases fs
  {
    if fs != [] {
      var front, last := fs[..|fs| - 1], fs[|fs| - 1];
      assert !CoveredBy(front, a) by {
        assert forall k :: 0 <= k < |front| ==> front[k] == fs[k];
      }
      Untouched(m, front, syms, a);
      PatchedAt(Relocated(m, front, syms), last, syms, a);
    }
  }

  /** Relocating again, with other symbols, is the same as having relocated only with those: no
      matter whether fields overlap. */
  lemma {:induction false} Rerelocated(m: Memory, fs: seq<Fix>, was: seq<Symbol>, syms: seq<Symbol>)
    requires AllFit(fs, m, was) && AllFit(fs, m, syms)
    ensures Relocated(Relocated(m, fs, was), fs, syms) == Relocated(m, fs, syms)
  {
    var n := Relocated(m, fs, was);
    forall a | 0 <= a < |m| && !CoveredBy(fs, a) ensures n[a] == m[a] {
      Untouched(m, fs, was, a);
    }
    SameAfterwards(n, m, fs, syms, iset{});
  }

  predicate Disjoint(fs: seq<Fix>) {
    forall j, k :: 0 <= j < k < |fs| ==>
      fs[j].location + Width(fs[j].kind) <= fs[k].location || fs[k].location + Width(fs[k].kind) <= fs[j].location
  }

  function Field(m: Memory, f: Fix): seq<Byte>
    requires f.location + Width(f.kind) <= |m|
  {
    m[f.location..f.location + Width(f.kind)]
  }

  /** Every field holds what its entry computes, when no other field overlaps it. */
  lemma {:induction false} FieldHolds(m: Memory, fs: seq<Fix>, syms: seq<Symbol>, k: nat)
    requires AllFit(fs, m, syms) && k < |fs| && Disjoint(fs)
    ensures Field(Relocated(m, fs, syms), fs[k]) == Little(Computed(fs[k], syms[fs[k].sym]), Width(fs[k].kind))
    decreases fs
  {
    var front, last := fs[..|fs| - 1], fs[|fs| - 1];
    assert forall j :: 0 <= j < |front| ==> front[j] == fs[j];
    var before := Relocated(m, front, syms);
    if k < |front| {
      FieldHolds(m, front, syms, k);
      FieldKept(before, last, syms, fs[k]);
    } else {
      assert Patched(before, last, syms)[..last.location + Width(last.kind)][last.location..] ==
        Little(Computed(last, syms[last.sym]), Width(last.kind));
    }
  }

  lemma {:induction false} FieldKept(m: Memory, f: Fix, syms: seq<Symbol>, g: Fix)
    requires Fits(f, m, syms) && g.location + Width(g.kind) <= |m|
    requires f.location + Width(f.kind) <= g.location || g.location + Width(g.kind) <= f.location
    ensures Field(Patched(m, f, syms), g) == Field(m, g)
  {
    forall a | g.location <= a < g.location + Width(g.kind) ensures Patched(m, f, syms)[a] == m[a] {
      PatchedAt(m, f, syms, a);
    }
  }

  // ----- bindings -----

  datatype Update = Update(name: string, address: nat)

  predicate Mutable(s: Symbol) { (s.home == Undefined || s.home == Common) && s.outward }

  function Updated1(s: Symbol, u: Update): Symbol {
    if s.name == u.name && Mutable(s) then s.(value := u.address) else s
  }

  /** The mandatory symbol 0 is never updated. */
  function UpdatedAll(syms: seq<Symbol>, u: Update): seq<Symbol> {
    seq(|syms|, k requires 0 <= k < |syms| => if k == 0 then syms[k] else Updated1(syms[k], u))
  }

  function Updated(syms: seq<Symbol>, us: seq<Update>): (r: seq<Symbol>)
    ensures |r| == |syms|
  {
    if us == [] then syms else UpdatedAll(Updated(syms, us[..|us| - 1]), us[|us| - 1])
  }

  /** The address that the last update of a name gives it. */
  function Latest(us: seq<Update>, name: string, otherwise: nat): nat {
    if us == [] then otherwise
    else if us[|us| - 1].name == name then us[|us| - 1].address
    else Latest(us[..|us| - 1], name, otherwise)
  }

  lemma {:induction false} UpdatedIsLatest(syms: seq<Symbol>, us: seq<Update>, k: nat)
    requires k < |syms|
    ensures Updated(syms, us)[k] ==
      if k > 0 && Mutable(syms[k]) then syms[k].(value := Latest(us, syms[k].name, syms[k].value)) else syms[k]
  {
    if us != [] {
      UpdatedIsLatest(syms, us[..|us| - 1], k);
    }
  }

  lemma {:induction false} UpdatedAppend(syms: seq<Symbol>, us: seq<Update>, vs: seq<Update>)
    ensures Updated(syms, us + vs) == Updated(Updated(syms, us), vs)
    decreases vs
  {
    if vs == [] {
      assert us + vs == us;
    } else {
      assert (us + vs)[..|us + vs| - 1] == us + vs[..|vs| - 1];
      UpdatedAppend(syms, us, vs[..|vs| - 1]);
    }
  }

  function Flat(runs: seq<seq<Update>>): seq<Update> {
    if runs == [] then [] else Flat(runs[..|runs| - 1]) + runs[|runs| - 1]
  }

  /** Memory after loading and then any number of binding mutations. */
  function AfterRuns(m: Memory, fs: seq<Fix>, syms: seq<Symbol>, runs: seq<seq<Update>>): (r: Memory)
    requires AllFit(fs, m, syms)
    ensures |r| == |m|
    decreases runs
  {
    if runs == [] then Relocated(m, fs, syms) else
    var before := AfterRuns(m, fs, syms, runs[..|runs| - 1]);
    Relocated(before, fs, Updated(syms, Flat(runs)))
  }

  /** Any sequence of mutations leaves memory as one relocation with the latest addresses would. */
  lemma {:induction false} HistoryIndependent(m: Memory, fs: seq<Fix>, syms: seq<Symbol>, runs: seq<seq<Update>>)
    requires AllFit(fs, m, syms)
    ensures AfterRuns(m, fs, syms, runs) == Relocated(m, fs, Updated(syms, Flat(runs)))
    decreases runs
  {
    if runs != [] {
      var front := runs[..|runs| - 1];
      HistoryIndependent(m, fs, syms, front);
      Rerelocated(m, fs, Updated(syms, Flat(front)), Updated(syms, Flat(runs)));
    }
  }

  /** The symbol as the latest update of its name leaves it. */
  function Final(s: Symbol, k: nat, us: seq<Update>): Symbol {
    if k > 0 && Mutable(s) then s.(value := Latest(us, s.name, s.value)) else s
  }

  /** So every field, of whatever type, holds what its entry computes from the stored addend and the
      latest address of its symbol. */
  lemma {:induction false} FieldsHoldLatest(m: Memory, fs: seq<Fix>, syms: seq<Symbol>, runs: seq<seq<Update>>, k: nat)
    requires AllFit(fs, m, syms) && k < |fs| && Disjoint(fs)
    ensures Field(AfterRuns(m, fs, syms, runs), fs[k]) ==
      Little(Computed(fs[k], Final(syms[fs[k].sym], fs[k].sym, Flat(runs))), Width(fs[k].kind))
  {
    HistoryIndependent(m, fs, syms, runs);
    FieldHolds(m, fs, Updated(syms, Flat(runs)), k);
    UpdatedIsLatest(syms, Flat(runs), fs[k].sym);
  }

  // ----- the loaded object -----

  function FixesOf(r: RelocSection, addends: seq<int>): seq<Fix>
    requires |addends| == |r.entries|
  {
    seq(|r.entries|, k requires 0 <= k < |r.entries| => Fix(r.entries[k].offset, r.entries[k].sym, r.entries[k].kind, addends[k]))
  }

  predicate Paired(sections: seq<RelocSection>, addends: seq<seq<int>>) {
    |addends| == |sections| && forall s :: 0 <= s < |sections| ==> |addends[s]| == |sections[s].entries|
  }

  function Fixes(sections: seq<RelocSection>, addends: seq<seq<int>>): seq<Fix>
    requires Paired(sections, addends)
  {
    if sections == [] then [] else
    var n := |sections| - 1;
    Fixes(sections[..n], addends[..n]) + FixesOf(sections[n], addends[n])
  }

  function Located(r: RelocSection, segs: seq<nat>): RelocSection
    requires r.target < |segs|
  {
    r.(entries := seq(|r.entries|, k requires 0 <= k < |r.entries| => r.entries[k].(offset := segs[r.target] + r.entries[k].offset)))
  }

  predicate Homed(s: Symbol, segs: seq<nat>) { s.home.InSection? ==> s.home.sec < |segs| }

  function Addressed(s: Symbol, segs: seq<nat>): Symbol
    requires Homed(s, segs)
  {
    match s.home
    case AbsoluteValue => s
    case InSection(sec) => s.(value := segs[sec] + s.value)
    case _ => s.(value := 0)
  }

  predicate HasAddendField(t: Type) { t != Type.None && t != Unsupported }

  /** The addend of an entry: stated, or the unsigned number in its field. */
  function StoredAddend(m: Memory, e: Entry, explicit: bool): int
    requires !explicit ==> e.offset + Width(e.kind) <= |m|
  {
    if explicit then e.addend else Value(m[e.offset..e.offset + Width(e.kind)])
  }

  predicate HasFields(m: Memory, sections: seq<RelocSection>) {
    forall s, k :: 0 <= s < |sections| && 0 <= k < |sections[s].entries| ==>
      sections[s].entries[k].offset + Width(sections[s].entries[k].kind) <= |m|
  }

  /** The addends that are stored before relocation. */
  function AddendsOf(m: Memory, sections: seq<RelocSection>): seq<seq<int>>
    requires HasFields(m, sections)
  {
    seq(|sections|, s requires 0 <= s < |sections| =>
      seq(|sections[s].entries|, k requires 0 <= k < |sections[s].entries| => StoredAddend(m, sections[s].entries[k], sections[s].explicit)))
  }

  /** Addends can be stored exactly when every implicit one has a field. */
  predicate Storable(sections: seq<RelocSection>) {
    forall s, k :: 0 <= s < |sections| && 0 <= k < |sections[s].entries| && !sections[s].explicit ==>
      HasAddendField(sections[s].entries[k].kind)
  }

  predicate Placeable(sections: seq<RelocSection>, syms: seq<Symbol>, segs: seq<nat>, m: Memory) {
    && (forall s :: 0 <= s < |sections| ==> sections[s].target < |segs|)
    && (forall k :: 0 <= k < |syms| ==> Homed(syms[k], segs))
    && (forall s, k :: 0 <= s < |sections| && 0 <= k < |sections[s].entries| ==>
          segs[sections[s].target] + sections[s].entries[k].offset + Width(sections[s].entries[k].kind) <= |m| &&
          sections[s].entries[k].sym < |syms|)
  }

  function LocatedAll(sections: seq<RelocSection>, segs: seq<nat>): seq<RelocSection>
    requires forall s :: 0 <= s < |sections| ==> sections[s].target < |segs|
  {
    seq(|sections|, s requires 0 <= s < |sections| => Located(sections[s], segs))
  }

  function AddressedAll(syms: seq<Symbol>, segs: seq<nat>): seq<Symbol>
    requires forall k :: 0 <= k < |syms| ==> Homed(syms[k], segs)
  {
    seq(|syms|, k requires 0 <= k < |syms| => Addressed(syms[k], segs))
  }

  lemma {:induction false} PlacedFits(sections: seq<RelocSection>, syms: seq<Symbol>, segs: seq<nat>, m: Memory)
    requires Placeable(sections, syms, segs, m)
    ensures var located := LocatedAll(sections, segs);
      && HasFields(m, located) && Paired(located, AddendsOf(m, located))
      && AllFit(Fixes(located, AddendsOf(m, located)), m, AddressedAll(syms, segs))
  {
    var located := LocatedAll(sections, segs);
    assert HasFields(m, located);
    FixesFit(located, AddendsOf(m, located), m, AddressedAll(syms, segs));
  }

  /** Memory after loading: relocated with the addends stored before. */
  function AfterLoad(m: Memory, sections: seq<RelocSection>, syms: seq<Symbol>, segs: seq<nat>): (r: Memory)
    requires Placeable(sections, syms, segs, m)
    ensures |r| == |m|
  {
    PlacedFits(sections, syms, segs, m);
    var located := LocatedAll(sections, segs);
    Relocated(m, Fixes(located, AddendsOf(m, located)), AddressedAll(syms, segs))
  }

  lemma {:induction false} StillFits(fs: seq<Fix>, m: Memory, n: Memory, syms: seq<Symbol>)
    requires AllFit(fs, m, syms) && |n| == |m|
    ensures AllFit(fs, n, syms)
  {}

  lemma {:induction false} StorableMeans(sections: seq<RelocSection>)
    ensures Storable(sections) <==>
      forall s, k :: 0 <= s < |sections| && 0 <= k < |sections[s].entries| && !sections[s].explicit ==> HasAddendField(sections[s].entries[k].kind)
  {}

  lemma {:induction false} LocatedStorable(sections: seq<RelocSection>, segs: seq<nat>)
    requires forall s :: 0 <= s < |sections| ==> sections[s].target < |segs|
    ensures Storable(LocatedAll(sections, segs)) <==> Storable(sections)
  {
    var located := LocatedAll(sections, segs);
    if Storable(located) {
      forall s, k | 0 <= s < |sections| && 0 <= k < |sections[s].entries| && !sections[s].explicit
        ensures HasAddendField(sections[s].entries[k].kind)
      {
        assert located[s].entries[k].kind == sections[s].entries[k].kind;
      }
    }
  }

  lemma {:induction false} AddendsAre(m: Memory, sections: seq<RelocSection>, addends: seq<seq<int>>)
    requires HasFields(m, sections) && Paired(sections, addends)
    requires forall s, k :: 0 <= s < |sections| && 0 <= k < |sections[s].entries| ==>
      addends[s][k] == StoredAddend(m, sections[s].entries[k], sections[s].explicit)
    ensures addends == AddendsOf(m, sections)
  {
    var all := AddendsOf(m, sections);
    forall s | 0 <= s < |sections| ensures addends[s] == all[s] {
      forall k | 0 <= k < |sections[s].entries| ensures addends[s][k] == all[s][k] {}
    }
  }

  class LoadedObject {
    var mem: array<Byte>
    var segs: seq<nat>
    var syms: seq<Symbol>
    var sections: seq<RelocSection>
    var addends: seq<seq<int>>

    constructor (mem: array<Byte>, segs: seq<nat>, syms: seq<Symbol>, sections: seq<RelocSection>)
      ensures this.mem == mem && this.segs == segs && this.syms == syms && this.sections == sections && addends == []
    {
      this.mem, this.segs, this.syms, this.sections, addends := mem, segs, syms, sections, [];
    }

    ghost predicate Relocatable()
      reads this, mem
    {
      Paired(sections, addends) && AllFit(Fixes(sections, addends), mem[..], syms)
    }

    method OffsetsToAddresses()
      requires forall s :: 0 <= s < |sections| ==> sections[s].target < |segs|
      requires forall k :: 0 <= k < |syms| ==> Homed(syms[k], segs)
      modifies this`sections, this`syms
      ensures |sections| == |old(sections)| && |syms| == |old(syms)|
      ensures forall s :: 0 <= s < |sections| ==> sections[s] == Located(old(sections)[s], segs)
      ensures forall k :: 0 <= k < |syms| ==> syms[k] == Addressed(old(syms)[k], segs)
    {
      for s := 0 to |sections|
        invariant |sections| == |old(sections)| && syms == old(syms)
        invariant forall j :: 0 <= j < s ==> sections[j] == Located(old(sections)[j], segs)
        invariant forall j :: s <= j < |sections| ==> sections[j] == old(sections)[j]
      {
        var entries := sections[s].entries;
        for k := 0 to |entries|
          invariant |entries| == |sections[s].entries|
          invariant forall j :: 0 <= j < |entries| ==>
            entries[j] == if j < k then sections[s].entries[j].(offset := segs[sections[s].target] + sections[s].entries[j].offset) else sections[s].entries[j]
        {
          entries := entries[k := entries[k].(offset := segs[sections[s].target] + entries[k].offset)];
        }
        assert entries == Located(sections[s], segs).entries;
        sections := sections[s := sections[s].(entries := entries)];
      }
      for k := 0 to |syms|
        invariant |syms| == |old(syms)| && |sections| == |old(sections)|
        invariant forall s :: 0 <= s < |sections| ==> sections[s] == Located(old(sections)[s], segs)
        invariant forall j :: 0 <= j < |syms| ==> syms[j] == if j < k then Addressed(old(syms)[j], segs) else old(syms)[j]
      {
        match syms[k].home
        case AbsoluteValue =>
        case InSection(sec) => syms := syms[k := syms[k].(value := segs[sec] + syms[k].value)];
        case _ => syms := syms[k := syms[k].(value := 0)];
      }
    }

    /** Fails on an entry whose field cannot hold an addend. */
    method StoreAddends() returns (ok: bool)
      requires forall s, k :: 0 <= s < |sections| && 0 <= k < |sections[s].entries| && !sections[s].explicit ==>
        sections[s].entries[k].offset + Width(sections[s].entries[k].kind) <= mem.Length
      modifies this`addends
      ensures ok <==> forall s, k :: 0 <= s < |sections| && 0 <= k < |sections[s].entries| && !sections[s].explicit ==>
        HasAddendField(sections[s].entries[k].kind)
      ensures ok ==> Paired(sections, addends) && forall s, k :: 0 <= s < |sections| && 0 <= k < |sections[s].entries| ==>
        addends[s][k] == StoredAddend(mem[..], sections[s].entries[k], sections[s].explicit)
    {
      hide Value;
      addends := [];
      for s := 0 to |sections|
        invariant |addends| == s && forall j :: 0 <= j < s ==> |addends[j]| == |sections[j].entries|
        invariant forall j, k :: 0 <= j < s && 0 <= k < |sections[j].entries| && !sections[j].explicit ==> HasAddendField(sections[j].entries[k].kind)
        invariant forall j, k :: 0 <= j < s && 0 <= k < |sections[j].entries| ==>
          addends[j][k] == StoredAddend(mem[..], sections[j].entries[k], sections[j].explicit)
      {
        var entries, own := sections[s].entries, [];
        for k := 0 to |entries|
          invariant |own| == k
          invariant forall j :: 0 <= j < k && !sections[s].explicit ==> HasAddendField(entries[j].kind)
          invariant forall j :: 0 <= j < k ==> own[j] == StoredAddend(mem[..], entries[j], sections[s].explicit)
        {
          if !sections[s].explicit && !HasAddendField(entries[k].kind) {
            return false;
          }
          var a := entries[k].addend;
          if !sections[s].explicit {
            a := Value(mem[entries[k].offset..entries[k].offset + Width(entries[k].kind)]);
            assert mem[..][entries[k].offset..entries[k].offset + Width(entries[k].kind)] == mem[entries[k].offset..entries[k].offset + Width(entries[k].kind)];
          }
          own := own + [a];
        }
        addends := addends + [own];
      }
      ok := true;
    }

    /** memcpy. */
    method Copy(at: nat, bytes: seq<Byte>)
      requires at + |bytes| <= mem.Length
      modifies mem
      ensures mem[..] == old(mem[..])[..at] + bytes + old(mem[..])[at + |bytes|..]
    {
      for k := 0 to |bytes|
        invariant forall a :: 0 <= a < mem.Length ==> mem[a] == if at <= a < at + k then bytes[a - at] else old(mem[a])
      {
        mem[at + k] := bytes[k];
      }
    }

    method DoRelocations()
      requires Relocatable()
      modifies mem
      ensures mem[..] == Relocated(old(mem[..]), Fixes(sections, addends), syms)
    {
      hide Fixes, Relocated, Patched, Little, AllFit;
      ghost var m := mem[..];
      NoFixes(m, syms);
      for s := 0 to |sections|
        invariant AllFit(Fixes(sections[..s], addends[..s]), m, syms)
        invariant mem[..] == Relocated(m, Fixes(sections[..s], addends[..s]), syms)
        invariant AllFit(Fixes(sections, addends), m, syms)
      {
        ghost var before, own := Fixes(sections[..s], addends[..s]), FixesOf(sections[s], addends[s]);
        FixesSnoc(sections, addends, s, m, syms);
        assert before + own[..0] == before;
        for k := 0 to |sections[s].entries|
          invariant AllFit(before + own, m, syms) && AllFit(before + own[..k], m, syms)
          invariant mem[..] == Relocated(m, before + own[..k], syms)
        {
          RelocatedSnoc(m, before, own, k, syms);
          var e := sections[s].entries[k];
          DoRelocation(Fix(e.offset, e.sym, e.kind, addends[s][k]));
        }
        assert own[..|sections[s].entries|] == own;
      }
      assert sections[..|sections|] == sections && addends[..|sections|] == addends;
    }

    method DoRelocation(f: Fix)
      requires Fits(f, mem[..], syms)
      modifies mem
      ensures mem[..] == Patched(old(mem[..]), f, syms)
    {
      var temp, size := FieldContents(f, syms[f.sym]);
      hide Little, Width, Computed;
      Copy(f.location, Little(temp, size));
    }

    /** The number that goes into a field and the size of the field. */
    method FieldContents(f: Fix, sym: Symbol) returns (temp: int, size: nat)
      ensures size == Width(f.kind) && (size > 0 ==> temp == Computed(f, sym))
      ensures Little(temp, size) == Little(Computed(f, sym), size)
    {
      temp, size := 0, 0;
      match f.kind
      case None =>
      case Unsupported =>
      case Abs64 => temp, size := sym.value + f.addend, 8;
      case Pc32 => temp, size := sym.value + f.addend - f.location, 4;
      case GlobDat => temp, size := sym.value, 8;
      case JumpSlot => temp, size := sym.value, 8;
      case Abs32 => temp, size := sym.value + f.addend, 4;
      case Abs32S => temp, size := sym.value + f.addend, 4;
      case Abs16 => temp, size := sym.value + f.addend, 2;
      case Pc16 => temp, size := sym.value + f.addend - f.location, 2;
      case Abs8 => temp, size := sym.value + f.addend, 1;
      case Pc8 => temp, size := sym.value + f.addend - f.location, 1;
      case Size32 => temp, size := sym.size + f.addend, 4;
      case Size64 => temp, size := sym.size + f.addend, 8;
    }

    method MutateBindings(updates: seq<Update>)
      requires Relocatable()
      modifies this`syms, mem
      ensures Relocatable() && syms == Updated(old(syms), updates)
      ensures mem[..] == Relocated(old(mem[..]), Fixes(sections, addends), syms)
    {
      UpdateSymbols(updates);
      DoRelocations();
    }

    method UpdateSymbols(updates: seq<Update>)
      modifies this`syms
      ensures syms == Updated(old(syms), updates)
    {
      for u := 0 to |updates|
        invariant syms == Updated(old(syms), updates[..u])
      {
        assert updates[..u + 1][..u] == updates[..u];
        ghost var was := syms;
        var k := 1;
        while k < |syms|
          invariant 1 <= k && |syms| == |was|
          invariant forall j :: 0 <= j < |syms| ==> syms[j] == if 0 < j < k then Updated1(was[j], updates[u]) else was[j]
        {
          if syms[k].name == updates[u].name && (syms[k].home == Undefined || syms[k].home == Common) && syms[k].outward {
            syms := syms[k := syms[k].(value := updates[u].address)];
          }
          k := k + 1;
        }
        assert syms == UpdatedAll(was, updates[u]);
      }
      assert updates[..|updates|] == updates;
    }

    /** Loading fails exactly on an implicit addend that has no field; otherwise the addends are
        those in the entries and fields, and memory is relocated with them. */
    method Load() returns (ok: bool)
      requires Placeable(sections, syms, segs, mem[..])
      modifies this`sections, this`syms, this`addends, mem
      ensures syms == AddressedAll(old(syms), segs) && sections == LocatedAll(old(sections), segs)
      ensures ok <==> Storable(old(sections))
      ensures ok ==> HasFields(old(mem[..]), sections) && addends == AddendsOf(old(mem[..]), sections)
      ensures ok ==> Relocatable() && mem[..] == AfterLoad(old(mem[..]), old(sections), old(syms), segs)
    {
      hide Relocated, Fixes, AllFit, Addressed, Value, StoredAddend, AddendsOf, Storable;
      LoadedFrom(mem[..], sections, syms, segs);
      LocatedStorable(sections, segs);
      OffsetsToAddresses();
      assert sections == LocatedAll(old(sections), segs) && syms == AddressedAll(old(syms), segs);
      StorableMeans(sections);
      ok := StoreAddends();
      if ok {
        AddendsAre(mem[..], sections, addends);
        DoRelocations();
        StillFits(Fixes(sections, addends), old(mem[..]), mem[..], syms);
      }
    }

    /** Loading and then any number of mutations amounts to one relocation with the stored addends. */
    method LoadAndMutate(runs: seq<seq<Update>>) returns (ok: bool)
      requires Placeable(sections, syms, segs, mem[..])
      modifies this`sections, this`syms, this`addends, mem
      ensures ok <==> Storable(old(sections))
      ensures sections == LocatedAll(old(sections), segs) && |syms| == |old(syms)|
      ensures ok ==> HasFields(old(mem[..]), sections) && addends == AddendsOf(old(mem[..]), sections)
      ensures ok ==> forall k :: 0 <= k < |syms| ==> syms[k] == Final(Addressed(old(syms)[k], segs), k, Flat(runs))
      ensures ok ==> Relocatable() && AllFit(Fixes(sections, addends), old(mem[..]), syms)
      ensures ok ==> mem[..] == Relocated(old(mem[..]), Fixes(sections, addends), syms)
    {
      hide AllFit, Relocated, Fixes, Placeable, Storable, AddendsOf, HasFields, LocatedAll;
      ghost var m := mem[..];
      LoadedFrom(m, sections, syms, segs);
      ok := Load();
      if ok {
        LoadedFrom(m, old(sections), old(syms), segs);
        ghost var fs, first := Fixes(sections, addends), syms;
        NoRuns(m, fs, first);
        for r := 0 to |runs|
          invariant Relocatable() && sections == LocatedAll(old(sections), segs) && addends == AddendsOf(m, sections)
          invariant Fixes(sections, addends) == fs && AllFit(fs, m, first)
          invariant syms == Updated(first, Flat(runs[..r])) && mem[..] == AfterRuns(m, fs, first, runs[..r])
        {
          MoreRuns(m, fs, first, runs, r);
          MutateBindings(runs[r]);
        }
        assert runs[..|runs|] == runs;
        HistoryIndependent(m, fs, first, runs);
        SameSymbolsFit(fs, m, first, syms);
        forall k | 0 <= k < |syms| ensures syms[k] == Final(Addressed(old(syms)[k], segs), k, Flat(runs)) {
          UpdatedIsLatest(first, Flat(runs), k);
        }
      }
    }
  }

  lemma {:induction false} LoadedFrom(m: Memory, sections: seq<RelocSection>, syms: seq<Symbol>, segs: seq<nat>)
    requires Placeable(sections, syms, segs, m)
    ensures forall s :: 0 <= s < |sections| ==> sections[s].target < |segs|
    ensures forall k :: 0 <= k < |syms| ==> Homed(syms[k], segs)
    ensures var located := LocatedAll(sections, segs);
      && HasFields(m, located) && Paired(located, AddendsOf(m, located))
      && AllFit(Fixes(located, AddendsOf(m, located)), m, AddressedAll(syms, segs))
      && AfterLoad(m, sections, syms, segs) == Relocated(m, Fixes(located, AddendsOf(m, located)), AddressedAll(syms, segs))
  {
    PlacedFits(sections, syms, segs, m);
  }

  lemma {:induction false} SameSymbolsFit(fs: seq<Fix>, m: Memory, a: seq<Symbol>, b: seq<Symbol>)
    requires AllFit(fs, m, a) && |a| == |b|
    ensures AllFit(fs, m, b)
  {}

  lemma {:induction false} NoRuns(m: Memory, fs: seq<Fix>, syms: seq<Symbol>)
    requires AllFit(fs, m, syms)
    ensures Updated(syms, Flat([])) == syms && AfterRuns(m, fs, syms, []) == Relocated(m, fs, syms)
  {}

  lemma {:induction false} MoreRuns(m: Memory, fs: seq<Fix>, syms: seq<Symbol>, runs: seq<seq<Update>>, r: nat)
    requires AllFit(fs, m, syms) && r < |runs|
    ensures Updated(syms, Flat(runs[..r + 1])) == Updated(Updated(syms, Flat(runs[..r])), runs[r])
    ensures AllFit(fs, AfterRuns(m, fs, syms, runs[..r]), Updated(syms, Flat(runs[..r + 1])))
    ensures AfterRuns(m, fs, syms, runs[..r + 1]) ==
      Relocated(AfterRuns(m, fs, syms, runs[..r]), fs, Updated(syms, Flat(runs[..r + 1])))
  {
    assert runs[..r + 1][..r] == runs[..r];
    UpdatedAppend(syms, Flat(runs[..r]), runs[r]);
  }

  lemma {:induction false} FixesFit(sections: seq<RelocSection>, addends: seq<seq<int>>, m: Memory, syms: seq<Symbol>)
    requires Paired(sections, addends)
    requires forall s, k :: 0 <= s < |sections| && 0 <= k < |sections[s].entries| ==>
      sections[s].entries[k].offset + Width(sections[s].entries[k].kind) <= |m| && sections[s].entries[k].sym < |syms|
    ensures AllFit(Fixes(sections, addends), m, syms)
    decreases |sections|
  {
    if sections != [] {
      var n := |sections| - 1;
      FixesFit(sections[..n], addends[..n], m, syms);
    }
  }

  lemma {:induction false} NoFixes(m: Memory, syms: seq<Symbol>)
    ensures Fixes([], []) == [] && AllFit([], m, syms) && Relocated(m, [], syms) == m
  {}

  lemma {:induction false} FixesPrefix(sections: seq<RelocSection>, addends: seq<seq<int>>, s: nat)
    requires Paired(sections, addends) && s <= |sections|
    ensures exists more :: Fixes(sections, addends) == Fixes(sections[..s], addends[..s]) + more
    decreases |sections| - s
  {
    if s == |sections| {
      assert sections[..s] == sections && addends[..s] == addends;
      assert Fixes(sections, addends) == Fixes(sections, addends) + [];
    } else {
      FixesPrefix(sections, addends, s + 1);
      var more :| Fixes(sections, addends) == Fixes(sections[..s + 1], addends[..s + 1]) + more;
      assert sections[..s + 1][..s] == sections[..s] && addends[..s + 1][..s] == addends[..s];
      assert Fixes(sections, addends) == Fixes(sections[..s], addends[..s]) + (FixesOf(sections[s], addends[s]) + more);
    }
  }

  lemma {:induction false} FixesSnoc(sections: seq<RelocSection>, addends: seq<seq<int>>, s: nat, m: Memory, syms: seq<Symbol>)
    requires Paired(sections, addends) && s < |sections| && AllFit(Fixes(sections, addends), m, syms)
    ensures Fixes(sections[..s + 1], addends[..s + 1]) == Fixes(sections[..s], addends[..s]) + FixesOf(sections[s], addends[s])
    ensures AllFit(Fixes(sections[..s + 1], addends[..s + 1]), m, syms)
  {
    assert sections[..s + 1][..s] == sections[..s] && addends[..s + 1][..s] == addends[..s];
    FixesPrefix(sections, addends, s + 1);
    var more :| Fixes(sections, addends) == Fixes(sections[..s + 1], addends[..s + 1]) + more;
    var some := Fixes(sections[..s + 1], addends[..s + 1]);
    forall k | 0 <= k < |some| ensures Fits(some[k], m, syms) {
      assert (some + more)[k] == some[k];
    }
  }

  lemma {:induction false} RelocatedSnoc(m: Memory, before: seq<Fix>, own: seq<Fix>, k: nat, syms: seq<Symbol>)
    requires AllFit(before + own, m, syms) && k < |own|
    ensures AllFit(before + own[..k], m, syms) && AllFit(before + own[..k + 1], m, syms) && Fits(own[k], m, syms)
    ensures Relocated(m, before + own[..k + 1], syms) == Patched(Relocated(m, before + own[..k], syms), own[k], syms)
  {
    var fs := before + own[..k + 1];
    assert forall j :: 0 <= j < |fs| ==> fs[j] == (before + own)[j];
    assert (before + own)[|before| + k] == own[k];
    assert fs[..|fs| - 1] == before + own[..k];
  }

  // ----- assembled code, once loaded -----

  /** The loader's view of an assembled relocation when the code lies at `base`. */
  function FixOf(r: Rela, base: nat, index: map<nat, nat>): Fix
    requires r.bndg in index
  {
    Fix(base + r.offset, index[r.bndg], if r.kind == Kind.Abs64 then Type.Abs64 else Type.Pc32, r.addend)
  }

  predicate Indexed(relas: seq<Rela>, index: map<nat, nat>) {
    forall k :: 0 <= k < |relas| ==> relas[k].bndg in index
  }

  function FixesFor(relas: seq<Rela>, base: nat, index: map<nat, nat>): seq<Fix>
    requires Indexed(relas, index)
  {
    seq(|relas|, k requires 0 <= k < |relas| => FixOf(relas[k], base, index))
  }

  function RelaWidth(r: Rela): nat { if r.kind == Kind.Abs64 then 8 else 4 }

  ghost predicate Ascending(relas: seq<Rela>, limit: nat) {
    && (forall k :: 0 <= k < |relas| ==> relas[k].offset + RelaWidth(relas[k]) <= limit)
    && (forall j, k :: 0 <= j < k < |relas| ==> relas[j].offset + RelaWidth(relas[j]) <= relas[k].offset)
  }

  /** Fields of assembled code follow one another inside the code. */
  lemma {:induction false} FieldsAscend(code: seq<Instr>)
    ensures Ascending(Assembled(code).relas, |Assembled(code).bytes|)
  {
    if code != [] {
      var before, piece := Assembled(code[..|code| - 1]), Encode(code[|code| - 1]);
      FieldsAscend(code[..|code| - 1]);
      OwnFields(code[|code| - 1]);
      hide Encode, Ascending;
      AscendingAppend(before.relas, |before.bytes|, piece.relas, |piece.bytes|);
    }
  }

  lemma {:induction false} AscendingAppend(a: seq<Rela>, n: nat, b: seq<Rela>, m: nat)
    requires Ascending(a, n) && Ascending(b, m)
    ensures Ascending(a + Shift(b, n), n + m)
  {}

  lemma {:induction false} OwnFields(i: Instr)
    ensures Ascending(Encode(i).relas, |Encode(i).bytes|)
  {}

  /** Instruction k of the code, its position and the relocation it may own. */
  lemma {:induction false} InstructionAt(code: seq<Instr>, k: nat)
    requires k < |code| && |Encode(code[k]).relas| == 1
    ensures var o, before := Assembled(code), Assembled(code[..k]);
      |before.relas| < |o.relas| && o.relas[|before.relas|] == Shift(Encode(code[k]).relas, |before.bytes|)[0]
    decreases |code|
  {
    hide Encode;
    var front := code[..|code| - 1];
    if k < |front| {
      assert front[..k] == code[..k];
      InstructionAt(front, k);
    } else {
      assert code[..k] == front;
    }
  }

  /** A label's value is the position where it stands. */
  lemma {:induction false} LabelValue(code: seq<Instr>, j: nat)
    requires j < |code| && code[j].Label?
    requires forall i :: 0 <= i < |code| && i != j && code[i].Label? ==> code[i].name != code[j].name
    ensures code[j].name in Assembled(code).values && Assembled(code).values[code[j].name] == |Assembled(code[..j]).bytes|
    decreases |code|
  {
    hide Encode;
    var front := code[..|code| - 1];
    if j < |front| {
      assert front[..j] == code[..j];
      assert forall i :: 0 <= i < |front| ==> front[i] == code[i];
      LabelValue(front, j);
    } else {
      assert code[..j] == front;
    }
  }

  /** Assembled code at `base`, relocated with symbols that have these addresses. */
  ghost predicate LoadedAt(code: seq<Instr>, base: nat, index: map<nat, nat>, m: Memory, syms: seq<Symbol>) {
    var o := Assembled(code);
    && Indexed(o.relas, index) && base + |o.bytes| <= |m|
    && (forall b :: b in index ==> index[b] < |syms|)
  }

  lemma {:induction false} LoadedFits(code: seq<Instr>, base: nat, index: map<nat, nat>, m: Memory, syms: seq<Symbol>)
    requires LoadedAt(code, base, index, m, syms)
    ensures Indexed(Assembled(code).relas, index)
    ensures AllFit(FixesFor(Assembled(code).relas, base, index), m, syms)
    ensures Disjoint(FixesFor(Assembled(code).relas, base, index))
  {
    FieldsAscend(code);
    hide Assembled;
  }

  /** The one relocation of an instruction, in the assembled code. */
  function RelaAt(code: seq<Instr>, k: nat): Rela
    requires k < |code| && |Encode(code[k]).relas| == 1
  {
    Shift(Encode(code[k]).relas, |Assembled(code[..k]).bytes|)[0]
  }

  lemma {:induction false} RelaFieldHolds(code: seq<Instr>, k: nat, base: nat, index: map<nat, nat>, m: Memory, syms: seq<Symbol>)
    requires LoadedAt(code, base, index, m, syms) && k < |code| && |Encode(code[k]).relas| == 1
    ensures Indexed(Assembled(code).relas, index) && AllFit(FixesFor(Assembled(code).relas, base, index), m, syms)
    ensures RelaAt(code, k).bndg in index
    ensures var f := FixOf(RelaAt(code, k), base, index);
      && f.location + Width(f.kind) <= |m| && f.sym < |syms|
      && Field(Relocated(m, FixesFor(Assembled(code).relas, base, index), syms), f) == Little(Computed(f, syms[f.sym]), Width(f.kind))
  {
    LoadedFits(code, base, index, m, syms);
    InstructionAt(code, k);
    hide Assembled, Encode, Shift, Relocated, Little, Computed, Width, Field, Disjoint;
    var relas, n := Assembled(code).relas, |Assembled(code[..k]).relas|;
    var fs := FixesFor(relas, base, index);
    assert relas[n] == RelaAt(code, k);
    assert fs[n] == FixOf(relas[n], base, index);
    FieldHolds(m, fs, syms, n);
    assert Fits(fs[n], m, syms);
  }

  lemma {:induction false} JumpRela(code: seq<Instr>, k: nat)
    requires k < |code| && (code[k].JmpRel? || code[k].JeRel?)
    ensures |Encode(code[k]).relas| == 1
    ensures RelaAt(code, k) == Rela(|Assembled(code[..k]).bytes| + |Encode(code[k]).bytes| - 4, code[k].target, Kind.Pc32, -4)
    ensures RelaWidth(RelaAt(code, k)) == 4
  {
    hide Assembled;
  }

  lemma {:induction false} MoveRela(code: seq<Instr>, k: nat)
    requires k < |code| && code[k].MovqImmToReg? && code[k].value.Ref?
    ensures |Encode(code[k]).relas| == 1
    ensures RelaAt(code, k) == Rela(|Assembled(code[..k]).bytes| + 2, code[k].value.bndg, Kind.Abs64, code[k].value.offset)
    ensures RelaWidth(RelaAt(code, k)) == 8
  {
    hide Assembled;
  }

  /** Memory after the code's relocations. */
  function Loaded(code: seq<Instr>, base: nat, index: map<nat, nat>, m: Memory, syms: seq<Symbol>): (r: Memory)
    requires Indexed(Assembled(code).relas, index) && AllFit(FixesFor(Assembled(code).relas, base, index), m, syms)
    ensures |r| == |m|
  {
    Relocated(m, FixesFor(Assembled(code).relas, base, index), syms)
  }

  /** The bytes of one relocated field. */
  lemma {:induction false} FieldBytes(code: seq<Instr>, k: nat, base: nat, index: map<nat, nat>, m: Memory, syms: seq<Symbol>, r: Rela, at: nat, w: nat)
    requires LoadedAt(code, base, index, m, syms) && k < |code| && |Encode(code[k]).relas| == 1
    requires r == RelaAt(code, k) && at == base + r.offset && w == RelaWidth(r)
    ensures Indexed(Assembled(code).relas, index) && AllFit(FixesFor(Assembled(code).relas, base, index), m, syms)
    ensures r.bndg in index && index[r.bndg] < |syms| && at + w <= |m|
    ensures Loaded(code, base, index, m, syms)[at..at + w] ==
      Little(syms[index[r.bndg]].value + r.addend - (if r.kind == Kind.Pc32 then at else 0), w)
  {
    hide *;
    RelaFieldHolds(code, k, base, index, m, syms);
    FixMeans(r, base, index);
    LoadedMeans(code, base, index, m, syms);
    FieldMeans(Loaded(code, base, index, m, syms), FixOf(r, base, index));
  }

  lemma {:induction false} FixMeans(r: Rela, base: nat, index: map<nat, nat>)
    requires r.bndg in index
    ensures var f := FixOf(r, base, index);
      && f.location == base + r.offset && Width(f.kind) == RelaWidth(r) && f.sym == index[r.bndg]
      && forall s :: Computed(f, s) == s.value + r.addend - (if r.kind == Kind.Pc32 then base + r.offset else 0)
  {}

  lemma {:induction false} LoadedMeans(code: seq<Instr>, base: nat, index: map<nat, nat>, m: Memory, syms: seq<Symbol>)
    requires Indexed(Assembled(code).relas, index) && AllFit(FixesFor(Assembled(code).relas, base, index), m, syms)
    ensures Loaded(code, base, index, m, syms) == Relocated(m, FixesFor(Assembled(code).relas, base, index), syms)
  {}

  lemma {:induction false} FieldMeans(m: Memory, f: Fix)
    requires f.location + Width(f.kind) <= |m|
    ensures Field(m, f) == m[f.location..f.location + Width(f.kind)]
  {}

  /** After loading, a relative jump added to the address of the next instruction is the address of
      its target, when that is within reach. */
  lemma {:induction false} JumpReachesTarget(code: seq<Instr>, k: nat, base: nat, index: map<nat, nat>, m: Memory, syms: seq<Symbol>, next: nat)
    requires LoadedAt(code, base, index, m, syms) && k < |code| && (code[k].JmpRel? || code[k].JeRel?)
    requires next == base + |Assembled(code[..k]).bytes| + |Encode(code[k]).bytes|
    ensures Indexed(Assembled(code).relas, index) && AllFit(FixesFor(Assembled(code).relas, base, index), m, syms)
    ensures code[k].target in index && index[code[k].target] < |syms| && 4 <= next <= |m|
    ensures var to := syms[index[code[k].target]].value;
      Fits32(to - next) <==> next + SignedValue(Loaded(code, base, index, m, syms)[next - 4..next]) == to
  {
    hide *;
    JumpRela(code, k);
    JumpLength(code[k]);
    FieldBytes(code, k, base, index, m, syms, RelaAt(code, k), next - 4, 4);
    var d := syms[index[code[k].target]].value - next;
    assert SignedValue(Little(d, 4)) == d <==> Fits32(d) by { SignedFits(d); SignedMeans(d); }
  }

  lemma {:induction false} SignedMeans(d: int)
    ensures Signed32(d) == SignedValue(Little(d, 4))
  {}

  lemma {:induction false} JumpLength(i: Instr)
    requires i.JmpRel? || i.JeRel?
    ensures |Encode(i).bytes| >= 5
  {}

  /** After loading, a 64-bit immediate is the address of its binding plus the offset. */
  lemma {:induction false} ImmediateHoldsAddress(code: seq<Instr>, k: nat, base: nat, index: map<nat, nat>, m: Memory, syms: seq<Symbol>, at: nat)
    requires LoadedAt(code, base, index, m, syms) && k < |code| && code[k].MovqImmToReg? && code[k].value.Ref?
    requires at == base + |Assembled(code[..k]).bytes| + 2
    ensures Indexed(Assembled(code).relas, index) && AllFit(FixesFor(Assembled(code).relas, base, index), m, syms)
    ensures code[k].value.bndg in index && index[code[k].value.bndg] < |syms| && at + 8 <= |m|
    ensures Value(Loaded(code, base, index, m, syms)[at..at + 8]) ==
      (syms[index[code[k].value.bndg]].value + code[k].value.offset) % 0x1_0000_0000_0000_0000
  {
    hide *;
    MoveRela(code, k);
    FieldBytes(code, k, base, index, m, syms, RelaAt(code, k), at, 8);
    var v := syms[index[code[k].value.bndg]].value + code[k].value.offset;
    Pow256Values();
    ValueOfLittle(v, 8);
  }

  // ----- written, then loaded -----

  /** The relocation entry that the writer makes of an assembled relocation; entries carry addends. */
  function EntryOf(r: Rela, index: map<nat, nat>): Entry
    requires r.bndg in index
  {
    Entry(r.offset, index[r.bndg], if r.kind == Kind.Abs64 then Type.Abs64 else Type.Pc32, r.addend)
  }

  function TextRelocations(relas: seq<Rela>, index: map<nat, nat>, text: nat): RelocSection
    requires Indexed(relas, index)
  {
    RelocSection(text, true, seq(|relas|, k requires 0 <= k < |relas| => EntryOf(relas[k], index)))
  }

  /** The object written for the code: every binding it refers to has a symbol, and the symbol of a
      label lies in the text section at the label's position. */
  ghost predicate WrittenAs(code: seq<Instr>, text: nat, index: map<nat, nat>, syms: seq<Symbol>) {
    var o := Assembled(code);
    && Indexed(o.relas, index) && (forall b :: b in index ==> index[b] < |syms|)
    && (forall b :: b in o.values ==> b in index && syms[index[b]].home == InSection(text) && syms[index[b]].value == o.values[b])
  }

  /** The code lies in a segment of its own in memory, and every symbol in a segment. */
  ghost predicate SegmentsHold(code: seq<Instr>, text: nat, syms: seq<Symbol>, segs: seq<nat>, m: Memory) {
    && text < |segs| && segs[text] + |Assembled(code).bytes| <= |m|
    && forall k :: 0 <= k < |syms| ==> Homed(syms[k], segs)
  }

  /** What the loader does with the written relocations is what FixesFor says. */
  lemma {:induction false} LoadedAsWritten(code: seq<Instr>, text: nat, index: map<nat, nat>, syms: seq<Symbol>, segs: seq<nat>, m: Memory)
    requires WrittenAs(code, text, index, syms) && SegmentsHold(code, text, syms, segs, m)
    ensures Indexed(Assembled(code).relas, index) && text < |segs| && forall k :: 0 <= k < |syms| ==> Homed(syms[k], segs)
    ensures var sections := [TextRelocations(Assembled(code).relas, index, text)]; var base := segs[text];
      && Storable(sections) && Placeable(sections, syms, segs, m)
      && LoadedAt(code, base, index, m, AddressedAll(syms, segs))
      && AllFit(FixesFor(Assembled(code).relas, base, index), m, AddressedAll(syms, segs))
      && AfterLoad(m, sections, syms, segs) == Loaded(code, base, index, m, AddressedAll(syms, segs))
    ensures forall b :: b in Assembled(code).values ==>
      b in index && index[b] < |syms| && AddressedAll(syms, segs)[index[b]].value == segs[text] + Assembled(code).values[b]
  {
    FieldsAscend(code);
    hide Assembled, Relocated;
    var relas, base, final := Assembled(code).relas, segs[text], AddressedAll(syms, segs);
    var sections := [TextRelocations(relas, index, text)];
    assert forall k :: 0 <= k < |relas| ==> relas[k].offset + RelaWidth(relas[k]) <= |Assembled(code).bytes|;
    LoadedFits(code, base, index, m, final);
    LoadedFrom(m, sections, syms, segs);
    LocatedFixes(relas, index, text, segs, m);
  }

  lemma {:induction false} LocatedFixes(relas: seq<Rela>, index: map<nat, nat>, text: nat, segs: seq<nat>, m: Memory)
    requires Indexed(relas, index) && text < |segs|
    requires HasFields(m, LocatedAll([TextRelocations(relas, index, text)], segs))
    ensures var located := LocatedAll([TextRelocations(relas, index, text)], segs);
      Paired(located, AddendsOf(m, located)) && Fixes(located, AddendsOf(m, located)) == FixesFor(relas, segs[text], index)
  {
    var located := LocatedAll([TextRelocations(relas, index, text)], segs);
    var addends := AddendsOf(m, located);
    assert located[..0] == [] && addends[..0] == [] && Fixes([], []) == [];
    assert FixesOf(located[0], addends[0]) == FixesFor(relas, segs[text], index);
  }

  /** Code that is assembled, written and loaded anywhere: a jump to a label lands on the label. */
  lemma {:induction false} JumpLandsOnLabel(code: seq<Instr>, k: nat, j: nat, text: nat, index: map<nat, nat>, syms: seq<Symbol>, segs: seq<nat>, m: Memory, next: nat, to: nat)
    requires WrittenAs(code, text, index, syms) && SegmentsHold(code, text, syms, segs, m)
    requires k < |code| && (code[k].JmpRel? || code[k].JeRel?) && next == segs[text] + |Assembled(code[..k]).bytes| + |Encode(code[k]).bytes|
    requires j < |code| && code[j] == Label(code[k].target) && to == segs[text] + |Assembled(code[..j]).bytes|
    requires forall i :: 0 <= i < |code| && i != j && code[i].Label? ==> code[i].name != code[j].name
    ensures Indexed(Assembled(code).relas, index)
    ensures Placeable([TextRelocations(Assembled(code).relas, index, text)], syms, segs, m) && 4 <= next <= |m|
    ensures Fits32(to - next) <==>
      next + SignedValue(AfterLoad(m, [TextRelocations(Assembled(code).relas, index, text)], syms, segs)[next - 4..next]) == to
  {
    hide *;
    LoadedAsWritten(code, text, index, syms, segs, m);
    JumpReachesTarget(code, k, segs[text], index, m, AddressedAll(syms, segs), next);
    LabelValue(code, j);
  }

  /** And a 64-bit immediate that names a label holds the label's address plus the offset. */
  lemma {:induction false} ImmediateNamesLabel(code: seq<Instr>, k: nat, j: nat, text: nat, index: map<nat, nat>, syms: seq<Symbol>, segs: seq<nat>, m: Memory, at: nat)
    requires WrittenAs(code, text, index, syms) && SegmentsHold(code, text, syms, segs, m)
    requires k < |code| && code[k].MovqImmToReg? && code[k].value.Ref? && at == segs[text] + |Assembled(code[..k]).bytes| + 2
    requires j < |code| && code[j] == Label(code[k].value.bndg)
    requires forall i :: 0 <= i < |code| && i != j && code[i].Label? ==> code[i].name != code[j].name
    ensures Indexed(Assembled(code).relas, index)
    ensures Placeable([TextRelocations(Assembled(code).relas, index, text)], syms, segs, m) && at + 8 <= |m|
    ensures Value(AfterLoad(m, [TextRelocations(Assembled(code).relas, index, text)], syms, segs)[at..at + 8]) ==
      (segs[text] + |Assembled(code[..j]).bytes| + code[k].value.offset) % 0x1_0000_0000_0000_0000
  {
    hide *;
    LoadedAsWritten(code, text, index, syms, segs, m);
    ImmediateHoldsAddress(code, k, segs[text], index, m, AddressedAll(syms, segs), at);
    LabelValue(code, j);
  }
}
