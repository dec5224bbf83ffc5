/** Register assignment of the L2 compiler (src/x86-64-generator.l2): bindings get registers that
    neither the mask nor any sub-expression uses, or else slots of the frame. */
module Registers {

  // ----- register usage vectors -----

  /** Register codes carry the register's number in their low four bits. */
  type Register = bv64

  type UseVec = bv64

  const NONE: Register := 17
  const ALL: UseVec := 0xFFFF_FFFF_FFFF_FFFF
  const UPPER: UseVec := 0xFFFF_FFFF_FFFF_0000

  /** x64 register codes are their number with the marks of a 64-bit operand. */
  function X64(number: bv64): Register { number | 0x100 | 0x200 }

  function IndexOf(reg: Register): bv64 { reg & 0xF }

  function BitOf(index: bv64): UseVec
    requires index < 64
  {
    1 << index
  }

  function Bit(reg: Register): UseVec { BitOf(IndexOf(reg)) }

  predicate Overlap(a: bv64, b: bv64) { a & b != 0 }

  /** register-in-use? */
  predicate InUse(reg: Register, use: UseVec) { Overlap(Bit(reg), use) }

  /** One vector records everything that another does. */
  predicate Includes(use: UseVec, part: UseVec) { use & part == part }

  const PREFERENCES: seq<Register> :=
    [X64(10), X64(11), X64(0), X64(9), X64(8), X64(1), X64(2), X64(6), X64(7), X64(12), X64(13), X64(14), X64(15), X64(3), X64(4), X64(5)]

  lemma {:induction false} BitsDiffer(i: bv64, j: bv64)
    requires i < 16 && j < 16
    ensures i != j <==> BitOf(i) & BitOf(j) == 0
    ensures BitOf(i) & BitOf(i) != 0
  {}

  lemma {:induction false} Distributes(x: bv64, a: bv64, b: bv64)
    ensures x & (a | b) == (x & a) | (x & b)
  {}

  lemma {:induction false} OrIsZero(a: bv64, b: bv64)
    ensures a | b == 0 <==> a == 0 && b == 0
  {}

  lemma {:induction false} IndexIsSmall(reg: Register)
    ensures IndexOf(reg) < 16
  {}

  lemma {:induction false} RegisterBits(a: Register, b: Register)
    ensures IndexOf(a) == IndexOf(b) <==> Overlap(Bit(b), Bit(a))
  {
    IndexIsSmall(a);
    IndexIsSmall(b);
    BitsDiffer(IndexOf(b), IndexOf(a));
    BitsDiffer(IndexOf(a), IndexOf(a));
    hide IndexOf, BitOf;
  }

  lemma {:induction false} AddedBits(x: bv64, y: bv64, use: bv64)
    ensures Overlap(y, x | use) <==> Overlap(y, x) || Overlap(y, use)
  {
    Distributes(y, x, use);
    OrIsZero(y & x, y & use);
  }

  lemma {:induction false} InUseMeans(reg: Register, use: UseVec)
    ensures InUse(reg, use) <==> Overlap(Bit(reg), use)
  {}

  lemma {:induction false} UseAdded(use: UseVec, a: Register, b: Register)
    ensures InUse(b, Bit(a) | use) <==> IndexOf(a) == IndexOf(b) || InUse(b, use)
    ensures Includes(Bit(a) | use, use)
  {
    hide *;
    RegisterBits(a, b);
    AddedBits(Bit(a), Bit(b), use);
    InUseMeans(b, Bit(a) | use);
    InUseMeans(b, use);
    OrIncludes(Bit(a), use);
  }

  lemma {:induction false} IncludesInUse(use: UseVec, part: UseVec, reg: Register)
    requires Includes(use, part) && InUse(reg, part)
    ensures InUse(reg, use)
  {
    var b := Bit(reg);
    assert b & part == b & (use & part) == (b & use) & part;
  }

  lemma {:induction false} IncludesThen(a: UseVec, b: UseVec, c: UseVec)
    requires Includes(a, b) && Includes(b, c)
    ensures Includes(a, c)
  {}

  lemma {:induction false} OrIncludes(a: UseVec, b: UseVec)
    ensures Includes(a | b, a) && Includes(a | b, b)
  {}

  /** Everything that either vector records. */
  function Both(a: UseVec, b: UseVec): UseVec { a | b }

  /** When the upper bits are set and every register is in use, all bits are set. */
  lemma {:induction false} SomeRegisterFree(use: UseVec)
    requires Includes(use, UPPER) && forall k :: 0 <= k < 16 ==> InUse(PREFERENCES[k], use)
    ensures use == ALL
  {
    assert InUse(PREFERENCES[0], use) && InUse(PREFERENCES[1], use) && InUse(PREFERENCES[2], use) && InUse(PREFERENCES[3], use);
    assert InUse(PREFERENCES[4], use) && InUse(PREFERENCES[5], use) && InUse(PREFERENCES[6], use) && InUse(PREFERENCES[7], use);
    assert InUse(PREFERENCES[8], use) && InUse(PREFERENCES[9], use) && InUse(PREFERENCES[10], use) && InUse(PREFERENCES[11], use);
    assert InUse(PREFERENCES[12], use) && InUse(PREFERENCES[13], use) && InUse(PREFERENCES[14], use) && InUse(PREFERENCES[15], use);
  }

  /** The vector once reg is taken. */
  function Added(use: UseVec, reg: Register): UseVec { Bit(reg) | use }

  lemma {:induction false} SameIndex(a: Register, b: Register, use: UseVec)
    requires IndexOf(a) == IndexOf(b)
    ensures InUse(a, use) <==> InUse(b, use)
  {
    hide IndexOf, BitOf, Overlap;
  }

  lemma {:induction false} AddedOne(use: UseVec, a: Register, b: Register)
    ensures InUse(b, Added(use, a)) <==> IndexOf(a) == IndexOf(b) || InUse(b, use)
    ensures Includes(Added(use, a), use)
    ensures IndexOf(a) == IndexOf(b) ==> (InUse(b, use) <==> InUse(a, use))
  {
    UseAdded(use, a, b);
    if IndexOf(a) == IndexOf(b) {
      SameIndex(a, b, use);
    }
    hide InUse, IndexOf, Bit, Includes;
  }

  lemma {:induction false} AddedMeans(use: UseVec, a: Register)
    ensures Includes(Added(use, a), use)
    ensures forall b :: InUse(b, Added(use, a)) <==> IndexOf(a) == IndexOf(b) || InUse(b, use)
    ensures forall b :: IndexOf(a) == IndexOf(b) ==> (InUse(b, use) <==> InUse(a, use))
  {
    hide *;
    AddedOne(use, a, a);
    forall b
      ensures InUse(b, Added(use, a)) <==> IndexOf(a) == IndexOf(b) || InUse(b, use)
      ensures IndexOf(a) == IndexOf(b) ==> (InUse(b, use) <==> InUse(a, use))
    {
      AddedOne(use, a, b);
    }
  }

  predicate SomeFree(use: UseVec) { exists k :: 0 <= k < 16 && !InUse(PREFERENCES[k], use) }

  /** The search for a register ends: there is a free one, or all bits are set and none is searched. */
  predicate Searchable(use: UseVec) { use == ALL || SomeFree(use) }

  /** The search succeeds within the 16 preferences exactly when one of the low 16 bits is clear. */
  lemma {:induction false} SearchSucceeds(use: UseVec)
    ensures SomeFree(use) <==> use & 0xFFFF != 0xFFFF
  {
    if forall k :: 0 <= k < 16 ==> InUse(PREFERENCES[k], use) {
      AllInUse(use);
    } else {
      var k :| 0 <= k < 16 && !InUse(PREFERENCES[k], use);
      SomeClear(use, k);
    }
  }

  lemma {:induction false} AllInUse(use: UseVec)
    requires forall k :: 0 <= k < 16 ==> InUse(PREFERENCES[k], use)
    ensures use & 0xFFFF == 0xFFFF
  {
    assert InUse(PREFERENCES[0], use) && InUse(PREFERENCES[1], use) && InUse(PREFERENCES[2], use) && InUse(PREFERENCES[3], use);
    assert InUse(PREFERENCES[4], use) && InUse(PREFERENCES[5], use) && InUse(PREFERENCES[6], use) && InUse(PREFERENCES[7], use);
    assert InUse(PREFERENCES[8], use) && InUse(PREFERENCES[9], use) && InUse(PREFERENCES[10], use) && InUse(PREFERENCES[11], use);
    assert InUse(PREFERENCES[12], use) && InUse(PREFERENCES[13], use) && InUse(PREFERENCES[14], use) && InUse(PREFERENCES[15], use);
  }

  lemma {:induction false} SomeClear(use: UseVec, k: nat)
    requires k < 16 && !InUse(PREFERENCES[k], use)
    ensures use & 0xFFFF != 0xFFFF
  {
    IndexIsSmall(PREFERENCES[k]);
    ClearBit(use, IndexOf(PREFERENCES[k]));
  }

  lemma {:induction false} ClearBit(use: UseVec, i: bv64)
    requires i < 16 && !Overlap(BitOf(i), use)
    ensures use & 0xFFFF != 0xFFFF
  {}

  lemma {:induction false} UpperIsSearchable(use: UseVec)
    requires Includes(use, UPPER)
    ensures Searchable(use)
  {
    if use != ALL {
      FreeWithin(use);
    }
  }

  lemma {:induction false} FreeWithin(use: UseVec)
    requires Includes(use, UPPER) && use != ALL
    ensures SomeFree(use)
  {
    if forall k :: 0 <= k < 16 ==> InUse(PREFERENCES[k], use) {
      SomeRegisterFree(use);
      assert false;
    }
  }

  /** Without the upper bits the search would run off the table of registers. */
  lemma {:induction false} NothingToFind()
    ensures !Searchable(0xFFFF)
  {
    SearchSucceeds(0xFFFF);
  }

  /** The most preferred register that is not in use. */
  predicate FirstFree(reg: Register, use: UseVec) {
    !InUse(reg, use) && exists k :: 0 <= k < 16 && PREFERENCES[k] == reg && forall j :: 0 <= j < k ==> InUse(PREFERENCES[j], use)
  }

  // ----- bindings -----

  const WORD_SIZE := 8

  datatype Location = Nowhere | InRegister(reg: Register) | InFrame(offset: int) | InStatic(offset: int)

  class Binding {
    const depth: nat
    const isRead: bool
    const isStatic: bool
    var location: Location
    var size: int
    const preferred: Location

    constructor (depth: nat, isRead: bool, isStatic: bool, preferred: Location)
      ensures this.depth == depth && this.isRead == isRead && this.isStatic == isStatic && this.preferred == preferred && location == Nowhere
    {
      this.depth, this.isRead, this.isStatic, this.preferred := depth, isRead, isStatic, preferred;
      location, size := Nowhere, 0;
    }

    /** context->memory-storage. */
    function Slot(offset: int): Location { if isStatic then InStatic(offset) else InFrame(offset) }

    method TryPreferred(use: UseVec) returns (use': UseVec)
      modifies this`location, this`size
      ensures preferred.Nowhere? ==> location == old(location) && use' == use
      ensures preferred.InFrame? || preferred.InStatic? ==> location == preferred && use' == use
      ensures preferred.InRegister? ==>
        if InUse(preferred.reg, use) || preferred.reg == NONE then location == old(location) && use' == use
        else location == preferred && size == WORD_SIZE && use' == Added(use, preferred.reg)
    {
      use' := use;
      match preferred
      case Nowhere =>
      case InFrame(_) => location := preferred;
      case InStatic(_) => location := preferred;
      case InRegister(reg) =>
        if !InUse(reg, use) && reg != NONE {
          size, location := WORD_SIZE, preferred;
          use' := Added(use, reg);
        }
    }

    /** The first free register in order of preference, or the slot at offset when none is free. */
    method ToRegisterOrMemory(offset: int, use: UseVec) returns (use': UseVec)
      requires Searchable(use)
      modifies this`location, this`size
      ensures size == WORD_SIZE
      ensures use == ALL ==> location == Slot(offset) && use' == use
      ensures use != ALL ==> location.InRegister? && use' == Added(use, location.reg) && FirstFree(location.reg, use)
    {
      hide InUse, Includes;
      size := WORD_SIZE;
      if use == ALL {
        location, use' := Slot(offset), use;
      } else {
        var i := 0;
        while InUse(PREFERENCES[i], use)
          invariant 0 <= i < 16 && (forall j :: 0 <= j < i ==> InUse(PREFERENCES[j], use))
          invariant exists k :: i <= k < 16 && !InUse(PREFERENCES[k], use)
          decreases 16 - i
        {
          i := i + 1;
        }
        location, use' := InRegister(PREFERENCES[i]), Added(use, PREFERENCES[i]);
      }
    }
  }

  // ----- one assignment call -----

  /** A register that the vector gained since base. */
  predicate Gained(l: Location, base: UseVec, use: UseVec) {
    l.InRegister? ==> InUse(l.reg, use) && !InUse(l.reg, base)
  }

  predicate DifferentRegisters(l: Location, m: Location) {
    l.InRegister? && m.InRegister? ==> IndexOf(l.reg) != IndexOf(m.reg)
  }

  /** Registers given to bs are in the vector, were not in base, and are distinct. */
  ghost predicate Assigned(bs: set<Binding>, base: UseVec, use: UseVec)
    reads bs
  {
    && Includes(use, base)
    && (forall b :: b in bs ==> Gained(b.location, base, use))
    && (forall b, c :: b in bs && c in bs && b != c ==> DifferentRegisters(b.location, c.location))
  }

  /** Slots given to bindings are distinct and lie in words from low up to high. */
  ghost predicate Spilled(spilled: map<Binding, int>, bs: set<Binding>, low: int, high: int)
    reads bs
  {
    && spilled.Keys <= bs
    && (forall b :: b in spilled ==> b.location == b.Slot(spilled[b]) && low <= spilled[b] && spilled[b] + WORD_SIZE <= high)
    && (forall b, c :: b in spilled && c in spilled && b != c ==> spilled[b] + WORD_SIZE <= spilled[c] || spilled[c] + WORD_SIZE <= spilled[b])
  }

  /** Where the bindings of the call are: those wanted are somewhere, in a register, in a slot of
      the call or where they prefer to be, and the others are nowhere. */
  ghost predicate Settled(bs: set<Binding>, wanted: set<Binding>, spilled: map<Binding, int>)
    reads bs
  {
    forall b :: b in bs ==>
      (b !in wanted ==> b.location == Nowhere) &&
      (b.location.InFrame? || b.location.InStatic? ==> b in spilled || b.location == b.preferred)
  }

  /** Some binding is in the register that it prefers, and it is this one. */
  ghost predicate TakenBy(bs: set<Binding>, reg: Register)
    reads bs
  {
    exists c :: c in bs && c.location.InRegister? && c.location == c.preferred && IndexOf(c.location.reg) == IndexOf(reg)
  }

  /** The registers in use beyond base are there because a binding prefers them. */
  ghost predicate Earned(bs: set<Binding>, base: UseVec, use: UseVec)
    reads bs
  {
    forall reg :: InUse(reg, use) && !InUse(reg, base) ==> TakenBy(bs, reg)
  }

  /** A binding that prefers memory is there. One that prefers a register which was free at first is in
      that register, unless another binding that prefers it is. */
  ghost predicate Honoured(done: set<Binding>, bs: set<Binding>, base: UseVec)
    reads done, bs
  {
    forall b :: b in done ==>
      && (b.preferred.InFrame? || b.preferred.InStatic? ==> b.location == b.preferred)
      && (b.preferred.InRegister? && b.preferred.reg != NONE && !InUse(b.preferred.reg, base) ==>
            b.location == b.preferred || TakenBy(bs - {b}, b.preferred.reg))
  }

  lemma {:induction false} NothingEarned(bs: set<Binding>, base: UseVec)
    ensures Earned(bs, base, base) && Honoured({}, bs, base)
  {}

  /** Where the bindings are. */
  ghost function Locations(bs: set<Binding>): map<Binding, Location>
    reads bs
  {
    map b | b in bs :: b.location
  }

  ghost predicate HonouredAt(was: map<Binding, Location>, done: set<Binding>, bs: set<Binding>, base: UseVec) {
    && done <= bs == was.Keys
    && forall b :: b in done ==>
      && (b.preferred.InFrame? || b.preferred.InStatic? ==> was[b] == b.preferred)
      && (b.preferred.InRegister? && b.preferred.reg != NONE && !InUse(b.preferred.reg, base) ==>
            was[b] == b.preferred || exists c :: c in bs && c != b && was[c].InRegister? && was[c] == c.preferred && IndexOf(was[c].reg) == IndexOf(b.preferred.reg))
  }

  lemma {:induction false} HonouredThen(done: set<Binding>, bs: set<Binding>, base: UseVec)
    requires Honoured(done, bs, base) && done <= bs
    ensures HonouredAt(Locations(bs), done, bs, base)
  {
    hide InUse, IndexOf;
  }

  /** Bindings that had a location keep it, so preferences stay honoured. */
  lemma {:induction false} StillHonoured(was: map<Binding, Location>, done: set<Binding>, bs: set<Binding>, base: UseVec)
    requires HonouredAt(was, done, bs, base)
    requires forall b :: b in bs && was[b] != Nowhere ==> b.location == was[b]
    ensures Honoured(done, bs, base)
  {
    hide InUse, IndexOf;
    forall b | b in done && b.preferred.InRegister? && b.preferred.reg != NONE && !InUse(b.preferred.reg, base)
      ensures b.location == b.preferred || TakenBy(bs - {b}, b.preferred.reg)
    {
      if was[b] != b.preferred {
        var c :| c in bs && c != b && was[c].InRegister? && was[c] == c.preferred && IndexOf(was[c].reg) == IndexOf(b.preferred.reg);
        assert c in bs - {b};
      }
    }
  }

  /** After trying b the registers in use are still earned, and b is honoured with those before. */
  lemma {:induction false} TriedOne(was: map<Binding, Location>, b: Binding, done: set<Binding>, bs: set<Binding>, base: UseVec, use: UseVec, use': UseVec)
    requires HonouredAt(was, done, bs, base) && b in bs
    requires forall reg :: InUse(reg, use) && !InUse(reg, base) ==> exists c :: c in bs && was[c].InRegister? && was[c] == c.preferred && IndexOf(was[c].reg) == IndexOf(reg)
    requires forall c :: c in bs && c != b ==> c.location == was[c]
    requires b.location == was[b] || b.location == b.preferred
    requires b.preferred.InFrame? || b.preferred.InStatic? ==> b.location == b.preferred
    requires use' == use || (b.preferred.InRegister? && b.location == b.preferred && use' == Added(use, b.preferred.reg))
    requires b.preferred.InRegister? && b.preferred.reg != NONE && !InUse(b.preferred.reg, use) ==> b.location == b.preferred
    ensures Earned(bs, base, use') && Honoured(done + {b}, bs, base)
  {
    hide InUse, IndexOf, Added;
    if b.preferred.InRegister? { AddedMeans(use, b.preferred.reg); }
    forall c | c in bs && was[c] == c.preferred ensures c.location == c.preferred {}
    forall reg | InUse(reg, use') && !InUse(reg, base) ensures TakenBy(bs, reg) {
      if !InUse(reg, use) {
        assert IndexOf(b.preferred.reg) == IndexOf(reg);
      } else {
        var c :| c in bs && was[c].InRegister? && was[c] == c.preferred && IndexOf(was[c].reg) == IndexOf(reg);
        assert c.location == c.preferred;
      }
    }
    forall a | a in done + {b} && a.preferred.InRegister? && a.preferred.reg != NONE && !InUse(a.preferred.reg, base)
      ensures a.location == a.preferred || TakenBy(bs - {a}, a.preferred.reg)
    {
      if a.location != a.preferred {
        var c :| c in bs && was[c].InRegister? && was[c] == c.preferred && IndexOf(was[c].reg) == IndexOf(a.preferred.reg);
        assert c.location == c.preferred && c in bs - {a};
      }
    }
  }

  lemma {:induction false} EarnedThen(bs: set<Binding>, base: UseVec, use: UseVec)
    requires Earned(bs, base, use)
    ensures forall reg :: InUse(reg, use) && !InUse(reg, base) ==>
      exists c :: c in bs && Locations(bs)[c].InRegister? && Locations(bs)[c] == c.preferred && IndexOf(Locations(bs)[c].reg) == IndexOf(reg)
  {
    hide InUse, IndexOf;
  }

  method Prefer(b: Binding, ghost bs: set<Binding>, ghost wanted: set<Binding>, ghost base: UseVec, use: UseVec) returns (use': UseVec)
    requires b in bs && b in wanted && Assigned(bs, base, use) && Settled(bs, wanted, map[])
    modifies b`location, b`size
    ensures Assigned(bs, base, use') && Settled(bs, wanted, map[]) && Includes(use', use)
    ensures use' == use || b.location != Nowhere
    ensures old(b.location) != Nowhere ==> b.location != Nowhere
    ensures b.location == old(b.location) || b.location == b.preferred
    ensures b.preferred.InFrame? || b.preferred.InStatic? ==> b.location == b.preferred
    ensures use' == use || (b.preferred.InRegister? && b.location == b.preferred && use' == Added(use, b.preferred.reg))
    ensures b.preferred.InRegister? && b.preferred.reg != NONE && !InUse(b.preferred.reg, use) ==> b.location == b.preferred
  {
    hide InUse, Includes, IndexOf, Added;
    if b.preferred.InRegister? {
      AddedMeans(use, b.preferred.reg);
      AddedIncludes(use, b.preferred.reg, base);
    }
    IncludesSelf(use);
    use' := b.TryPreferred(use);
  }

  lemma {:induction false} IncludesSelf(use: UseVec)
    ensures Includes(use, use)
  {}

  lemma {:induction false} AddedIncludes(use: UseVec, reg: Register, base: UseVec)
    requires Includes(use, base)
    ensures Includes(Added(use, reg), base)
    ensures forall r :: InUse(r, base) ==> InUse(r, use)
  {
    UseAdded(use, reg, reg);
    IncludesThen(Added(use, reg), use, base);
    forall r | InUse(r, base) ensures InUse(r, use) {
      IncludesInUse(use, base, r);
    }
  }

  /** A wanted binding that is nowhere yet gets a register or the slot at offset. */
  method Place(b: Binding, offset: int, ghost bs: set<Binding>, ghost wanted: set<Binding>, ghost base: UseVec, use: UseVec,
    ghost spilled: map<Binding, int>, ghost low: int, ghost high: int)
    returns (use': UseVec, ghost spilled': map<Binding, int>)
    requires b in bs && b in wanted && b.location == Nowhere && Searchable(use)
    requires Assigned(bs, base, use) && Settled(bs, wanted, spilled) && Spilled(spilled, bs, low, high)
    requires low <= offset && offset + WORD_SIZE <= high
    requires forall c :: c in spilled ==> spilled[c] + WORD_SIZE <= offset || offset + WORD_SIZE <= spilled[c]
    modifies b`location, b`size
    ensures Assigned(bs, base, use') && Settled(bs, wanted, spilled') && Spilled(spilled', bs, low, high) && Includes(use', use)
    ensures b.location != Nowhere && (spilled' == spilled || spilled' == spilled[b := offset])
  {
    hide InUse, Includes, IndexOf, Added, FirstFree, Searchable;
    IncludesSelf(use);
    assert b !in spilled;
    use' := b.ToRegisterOrMemory(offset, use);
    spilled' := if use == ALL then spilled[b := offset] else spilled;
    if use != ALL {
      AddedMeans(use, b.location.reg);
      AddedIncludes(use, b.location.reg, base);
      FreeMeans(b.location.reg, use);
    }
  }

  lemma {:induction false} FreeMeans(reg: Register, use: UseVec)
    requires FirstFree(reg, use)
    ensures !InUse(reg, use)
  {}

  // ----- expressions -----

  /** What initialising an expression reports: its parts' vector and more, or a fixed vector when the
      parts live in a frame of their own. */
  datatype Report = Using(more: UseVec) | OwnFrame(size: int, reported: UseVec)

  /** An expression's value binding, and the call that initialising it makes for its parts. */
  datatype Group = Group(own: Binding, parts: seq<Group>, params: seq<Binding>, mask: UseVec, depth: nat, report: Report)

  function Owners(es: seq<Group>): set<Binding> { set u | u in es :: u.own }

  function SetOf(bs: seq<Binding>): set<Binding> { set b | b in bs }

  /** Every binding that initialising es may touch. */
  function Touched(es: seq<Group>): set<Binding>
    decreases es
  {
    if es == [] then {} else {es[0].own} + Touched(es[0].parts) + SetOf(es[0].params) + Touched(es[1..])
  }

  /** The bindings that initialising u places in the frame of u itself: those of its call and of the
      calls inside it, unless u has a frame of its own. */
  function InnerOf(u: Group): set<Binding>
    decreases u, 1
  {
    if u.report.OwnFrame? then {} else Owners(u.parts) + SetOf(u.params) + Inner(u.parts)
  }

  function Inner(es: seq<Group>): set<Binding>
    decreases es, 0
  {
    if es == [] then {} else InnerOf(es[0]) + Inner(es[1..])
  }

  /** The bindings that initialising u places in other frames. */
  function HiddenOf(u: Group): set<Binding>
    decreases u, 1
  {
    if u.report.OwnFrame? then Touched(u.parts) + SetOf(u.params) else Hidden(u.parts)
  }

  function Hidden(es: seq<Group>): set<Binding>
    decreases es, 0
  {
    if es == [] then {} else HiddenOf(es[0]) + Hidden(es[1..])
  }

  lemma {:induction false} OwnersCons(u: Group, es: seq<Group>)
    ensures Owners([u] + es) == {u.own} + Owners(es)
  {
    forall b | b in Owners([u] + es) ensures b in {u.own} + Owners(es) {
      var v :| v in [u] + es && v.own == b;
      assert v == u || v in es;
    }
    assert u in [u] + es;
    assert forall v :: v in es ==> v in [u] + es;
  }

  lemma {:induction false} TouchedSplit(es: seq<Group>)
    ensures Touched(es) == Owners(es) + Inner(es) + Hidden(es)
    decreases es, 0
  {
    if es != [] {
      OwnersCons(es[0], es[1..]);
      assert [es[0]] + es[1..] == es;
      TouchedSplitOne(es[0]);
      TouchedSplit(es[1..]);
      hide Touched, Inner, Hidden, Owners, InnerOf, HiddenOf;
      SplitHead(es);
    }
  }

  lemma {:induction false} SplitHead(es: seq<Group>)
    requires es != []
    ensures Touched(es) == {es[0].own} + (Touched(es[0].parts) + SetOf(es[0].params)) + Touched(es[1..])
    ensures Inner(es) == InnerOf(es[0]) + Inner(es[1..]) && Hidden(es) == HiddenOf(es[0]) + Hidden(es[1..])
  {}

  lemma {:induction false} TouchedSplitOne(u: Group)
    ensures Touched(u.parts) + SetOf(u.params) == InnerOf(u) + HiddenOf(u)
    decreases u, 1
  {
    TouchedSplit(u.parts);
  }

  lemma {:induction false} InnerSnoc(es: seq<Group>, k: nat)
    requires k < |es|
    ensures Inner(es[..k + 1]) == Inner(es[..k]) + InnerOf(es[k]) && HiddenOf(es[k]) <= Hidden(es)
    decreases k
  {
    hide InnerOf, HiddenOf;
    var tail := es[1..];
    if k == 0 {
      assert es[..1][1..] == [] && es[..0] == [];
      assert Inner([]) == {};
    } else {
      assert es[..k + 1][1..] == tail[..k] && es[..k][1..] == tail[..k - 1] && es[k] == tail[k - 1];
      InnerSnoc(tail, k - 1);
    }
  }

  /** Registers that these bindings are in are recorded. */
  ghost predicate Recorded(bs: set<Binding>, use: UseVec)
    reads bs
  {
    forall b :: b in bs && b.location.InRegister? ==> InUse(b.location.reg, use)
  }

  /** Memory that these bindings are in lies below the offset, or is where they prefer to be. */
  ghost predicate SlotsBelow(bs: set<Binding>, offset: int)
    reads bs
  {
    forall b :: b in bs && (b.location.InFrame? || b.location.InStatic?) ==>
      b.location.offset + WORD_SIZE <= offset || b.location == b.preferred
  }

  lemma {:induction false} RecordedMore(bs: set<Binding>, use: UseVec, more: UseVec)
    requires Recorded(bs, use) && Includes(more, use)
    ensures Recorded(bs, more)
  {
    hide InUse, Includes;
    forall b | b in bs && b.location.InRegister? ensures InUse(b.location.reg, more) {
      IncludesInUse(more, use, b.location.reg);
    }
  }

  lemma {:induction false} AssignedRecorded(bs: set<Binding>, base: UseVec, use: UseVec)
    requires Assigned(bs, base, use)
    ensures Recorded(bs, use) && Includes(use, base)
  {
    hide InUse, Includes;
  }

  lemma {:induction false} SpilledBelow(bs: set<Binding>, wanted: set<Binding>, spilled: map<Binding, int>, low: int, high: int)
    requires Settled(bs, wanted, spilled) && Spilled(spilled, bs, low, high)
    ensures SlotsBelow(bs, high)
  {}

  /** Masks have their upper bits set. */
  predicate Masked(es: seq<Group>)
    decreases es
  {
    es == [] || (Includes(es[0].mask, UPPER) && Masked(es[0].parts) && Masked(es[1..]))
  }

  lemma {:induction false} TouchedAt(es: seq<Group>, k: nat)
    requires k < |es|
    ensures {es[k].own} + Touched(es[k].parts) + SetOf(es[k].params) <= Touched(es)
    ensures Masked(es) ==> Includes(es[k].mask, UPPER) && Masked(es[k].parts)
  {
    if k > 0 {
      TouchedAt(es[1..], k - 1);
    }
  }

  lemma {:induction false} OwnersTouched(es: seq<Group>)
    ensures Owners(es) <= Touched(es)
  {
    forall u | u in es ensures u.own in Touched(es) {
      var k :| 0 <= k < |es| && es[k] == u;
      TouchedAt(es, k);
    }
  }

  /** The bindings that an assignment call is to place. */
  ghost function Wanted(es: seq<Group>, bs: seq<Binding>, depth: nat): set<Binding> {
    (set u | u in es && u.own.depth > depth && u.own.isRead :: u.own) + (set b | b in bs && b.depth >= depth && b.isRead)
  }

  /** The result of an assignment call with n expressions and m further bindings. */
  ghost predicate Placed(es: seq<Group>, bs: seq<Binding>, offset: int, depth: nat, base: UseVec, use: UseVec, spilled: map<Binding, int>)
    reads Owners(es), SetOf(bs)
  {
    var all := Owners(es) + SetOf(bs);
    && Assigned(all, base, use)
    && Spilled(spilled, all, offset - (|es| + |bs|) * WORD_SIZE, offset)
    && Settled(all, Wanted(es, bs, depth), spilled)
    && forall b :: b in Wanted(es, bs, depth) ==> b.location != Nowhere
  }

  /** Whatever is still to be placed can be: there is always room when the upper bits are set, and
      a single binding needs room only while it is nowhere. */
  ghost predicate Room(use: UseVec, bs: set<Binding>, n: nat)
    reads bs
  {
    Includes(use, UPPER) || (n <= 1 && (Searchable(use) || forall b :: b in bs ==> b.location != Nowhere))
  }

  lemma {:induction false} OnlyOne(es: seq<Group>, bs: seq<Binding>, b: Binding)
    requires |es| + |bs| <= 1 && b in Owners(es) + SetOf(bs)
    ensures Owners(es) + SetOf(bs) == {b}
  {
    if |es| == 1 {
      assert es[0] in es;
      forall c | c in Owners(es) ensures c == es[0].own {}
    } else {
      assert es == [] && bs[0] in bs;
    }
  }

  lemma {:induction false} RoomToSearch(use: UseVec, bs: set<Binding>, n: nat, b: Binding)
    requires Room(use, bs, n) && b in bs && b.location == Nowhere
    ensures Searchable(use)
  {
    if Includes(use, UPPER) {
      UpperIsSearchable(use);
    }
  }

  /** The masks that the compiler uses: the upper bits are set, or a single expression is placed and
      the vector it reports leaves a register to find. */
  predicate GoodMask(es: seq<Group>, bs: seq<Binding>, mask: UseVec) {
    || Includes(mask, UPPER)
    || (|es| == 1 && bs == [] && (es[0].report.OwnFrame? ==> Searchable(Both(mask, es[0].report.reported))))
  }

  function Min(a: int, b: int): int { if a < b then a else b }

  /** The bindings that sub-expressions of a call hold in its frame, and that the call itself does not place. */
  function Parts(es: seq<Group>, bs: seq<Binding>): set<Binding> {
    Inner(es) - Hidden(es) - Owners(es) - SetOf(bs)
  }

  /** Everything recorded in the mask and the reports. */
  function Union(mask: UseVec, reports: seq<UseVec>): UseVec {
    if reports == [] then mask else Both(Union(mask, reports[..|reports| - 1]), reports[|reports| - 1])
  }

  lemma {:induction false} UnionSnoc(mask: UseVec, reports: seq<UseVec>, u: UseVec)
    ensures Union(mask, reports + [u]) == Both(Union(mask, reports), u)
  {
    assert (reports + [u])[..|reports|] == reports;
  }

  lemma {:induction false} UnionIncludes(mask: UseVec, reports: seq<UseVec>)
    ensures Includes(Union(mask, reports), mask) && forall k :: 0 <= k < |reports| ==> Includes(Union(mask, reports), reports[k])
    decreases |reports|
  {
    IncludesSelf(mask);
    hide Includes, Both;
    if reports != [] {
      var front := reports[..|reports| - 1];
      UnionIncludes(mask, front);
      MoreInUse(Union(mask, front), reports[|reports| - 1], mask, front);
      assert Union(mask, reports) == Both(Union(mask, front), reports[|reports| - 1]);
    }
  }

  /** What a sub-expression reports: a fixed vector when it has a frame of its own, otherwise its mask, what
      its initializer adds, and at least the upper bits. */
  ghost predicate Reports(u: Group, report: UseVec) {
    match u.report
    case OwnFrame(_, reported) => report == reported
    case Using(more) => Includes(report, u.mask) && Includes(report, more) && Includes(report, UPPER)
  }

  ghost predicate Reported(es: seq<Group>, reports: seq<UseVec>) {
    |reports| == |es| && forall k :: 0 <= k < |es| ==> Reports(es[k], reports[k])
  }

  /** Initialises the expressions below this call's own slots and then places its bindings. `base` is
      the mask with the vectors that the sub-expressions report, `spilled` are the slots this call gives
      out. Whatever sub-expressions hold in this frame is in a register of `base` or below this call's slots. */
  method InitializeExpressions(es: seq<Group>, bs: seq<Binding>, offset: int, mask: UseVec, depth: nat)
    returns (bottom: int, use: UseVec, ghost base: UseVec, ghost reports: seq<UseVec>, ghost spilled: map<Binding, int>)
    requires GoodMask(es, bs, mask) && Masked(es)
    modifies Touched(es), SetOf(bs)
    ensures Reported(es, reports) && base == Union(mask, reports)
    ensures Includes(base, mask) && forall k :: 0 <= k < |reports| ==> Includes(base, reports[k])
    ensures Includes(mask, UPPER) ==> Includes(use, UPPER)
    ensures Recorded(Parts(es, bs), base) && SlotsBelow(Parts(es, bs), offset - (|es| + |bs|) * WORD_SIZE)
    ensures Placed(es, bs, offset, depth, base, use, spilled)
    ensures Honoured(Wanted(es, bs, depth), Owners(es) + SetOf(bs), base)
    ensures Recorded(Owners(es) + SetOf(bs) + (Inner(es) - Hidden(es)), use)
    ensures SlotsBelow(Owners(es) + SetOf(bs) + (Inner(es) - Hidden(es)), offset)
    ensures bottom <= offset - (|es| + |bs|) * WORD_SIZE && Includes(use, base)
    decreases es, 1
  {
    hide Includes, InUse, Touched, Owners, SetOf, Wanted, Searchable, Inner, Hidden, Recorded, SlotsBelow, Union, Both, Assigned, Spilled, Settled, Honoured, HonouredAt;
    var low := offset - (|es| + |bs|) * WORD_SIZE;
    bottom, use, reports := InitializeParts(es, low, mask);
    base := use;
    BaseHasRoom(es, bs, mask, base, reports);
    OwnersTouched(es);
    ghost var parts := Parts(es, bs);
    FewerHeld(Inner(es) - Hidden(es), parts, base, low);
    ghost var was := Snapshot(parts);
    HeldThen(parts, base, low);
    Clear(es, bs);
    ghost var all, wanted := Owners(es) + SetOf(bs), Wanted(es, bs, depth);
    NothingAssigned(all, wanted, base, low, offset);
    use := PreferAll(es, bs, depth, base, use);
    WantedAll(es, bs, depth);
    HonouredThen(wanted, all, base);
    ghost var preferring := Locations(all);
    use, spilled := PlaceExpressions(es, bs, offset, depth, base, use, preferring);
    use, spilled := PlaceBindings(es, bs, offset, depth, base, use, spilled, preferring);
    StillHonoured(preferring, wanted, all, base);
    StillHeld(parts, was, base, low);
    AllHeld(parts, all, wanted, base, use, spilled, low, offset);
    FewerHeld(parts + all, all + (Inner(es) - Hidden(es)), use, offset);
    UnionIncludes(mask, reports);
    if Includes(mask, UPPER) {
      IncludesThen(base, mask, UPPER);
      IncludesThen(use, base, UPPER);
    }
  }

  lemma {:induction false} FewerHeld(more: set<Binding>, fewer: set<Binding>, use: UseVec, offset: int)
    requires Recorded(more, use) && SlotsBelow(more, offset) && fewer <= more
    ensures Recorded(fewer, use) && SlotsBelow(fewer, offset)
  {}

  /** Where bindings are and where they prefer to be. */
  ghost function Snapshot(bs: set<Binding>): map<Binding, (Location, Location)>
    reads bs
  {
    map b | b in bs :: (b.location, b.preferred)
  }

  ghost predicate HeldAt(was: map<Binding, (Location, Location)>, use: UseVec, offset: int) {
    forall b :: b in was ==>
      && (was[b].0.InRegister? ==> InUse(was[b].0.reg, use))
      && (was[b].0.InFrame? || was[b].0.InStatic? ==> was[b].0.offset + WORD_SIZE <= offset || was[b].0 == was[b].1)
  }

  lemma {:induction false} HeldThen(bs: set<Binding>, use: UseVec, offset: int)
    requires Recorded(bs, use) && SlotsBelow(bs, offset)
    ensures HeldAt(Snapshot(bs), use, offset)
  {}

  lemma {:induction false} StillHeld(bs: set<Binding>, was: map<Binding, (Location, Location)>, use: UseVec, offset: int)
    requires HeldAt(was, use, offset) && forall b :: b in bs ==> b in was && was[b] == (b.location, b.preferred)
    ensures Recorded(bs, use) && SlotsBelow(bs, offset)
  {}

  lemma {:induction false} AllHeld(parts: set<Binding>, all: set<Binding>, wanted: set<Binding>, base: UseVec, use: UseVec, spilled: map<Binding, int>, low: int, high: int)
    requires Recorded(parts, base) && SlotsBelow(parts, low) && low <= high
    requires Assigned(all, base, use) && Settled(all, wanted, spilled) && Spilled(spilled, all, low, high)
    ensures Recorded(parts + all, use) && SlotsBelow(parts + all, high)
  {
    AssignedRecorded(all, base, use);
    RecordedMore(parts, base, use);
    SpilledBelow(all, wanted, spilled, low, high);
  }

  lemma {:induction false} BaseHasRoom(es: seq<Group>, bs: seq<Binding>, mask: UseVec, base: UseVec, reports: seq<UseVec>)
    requires GoodMask(es, bs, mask) && Reported(es, reports) && base == Union(mask, reports)
    ensures Includes(base, UPPER) || (|es| + |bs| <= 1 && Searchable(base))
  {
    UnionIncludes(mask, reports);
    hide Includes, Searchable, Both;
    if Includes(mask, UPPER) {
      IncludesThen(base, mask, UPPER);
    } else if es[0].report.Using? {
      assert Reports(es[0], reports[0]);
      IncludesThen(base, reports[0], UPPER);
    } else {
      assert Reports(es[0], reports[0]) && reports[..0] == [];
      assert Union(mask, []) == mask;
    }
  }

  method InitializeParts(es: seq<Group>, offset: int, mask: UseVec)
    returns (bottom: int, use: UseVec, ghost reports: seq<UseVec>)
    requires Masked(es)
    modifies Touched(es)
    ensures Reported(es, reports) && use == Union(mask, reports) && bottom <= offset
    ensures Recorded(Inner(es) - Hidden(es), use) && SlotsBelow(Inner(es) - Hidden(es), offset)
    decreases es, 0
  {
    hide Includes, Touched, Masked, Both, Reports, InUse, Inner, Hidden, InnerOf, HiddenOf, Recorded, SlotsBelow;
    bottom, use, reports := offset, mask, [];
    ghost var hidden := Hidden(es);
    NoneHeld(es, hidden, mask, offset);
    for k := 0 to |es|
      invariant Reported(es[..k], reports) && use == Union(mask, reports) && bottom <= offset
      invariant Recorded(Inner(es[..k]) - hidden, use) && SlotsBelow(Inner(es[..k]) - hidden, offset)
    {
      TouchedAt(es, k);
      InnerSnoc(es, k);
      TouchedSplitOne(es[k]);
      var b, u;
      ghost var was := Snapshot(Inner(es[..k]) - hidden);
      HeldThen(Inner(es[..k]) - hidden, use, offset);
      b, u := InitializeExpression(es[k], offset);
      bottom := Min(bottom, b);
      UnionSnoc(mask, reports, u);
      BothInclude(use, u);
      PartsHeld(Inner(es[..k]), was, InnerOf(es[k]), HiddenOf(es[k]), hidden, use, u, Both(use, u), offset);
      use := Both(use, u);
      reports := reports + [u];
    }
    assert es[..|es|] == es;
  }

  lemma {:induction false} NoneHeld(es: seq<Group>, hidden: set<Binding>, use: UseVec, offset: int)
    ensures Recorded(Inner(es[..0]) - hidden, use) && SlotsBelow(Inner(es[..0]) - hidden, offset)
  {}

  lemma {:induction false} BothInclude(a: UseVec, b: UseVec)
    ensures Includes(Both(a, b), a) && Includes(Both(a, b), b)
  {
    OrIncludes(a, b);
  }

  /** What earlier sub-expressions hold is still recorded, whether or not this one placed it anew. */
  lemma {:induction false} PartsHeld(earlier: set<Binding>, was: map<Binding, (Location, Location)>, own: set<Binding>, ownHidden: set<Binding>, hidden: set<Binding>, use: UseVec, u: UseVec, more: UseVec, offset: int)
    requires HeldAt(was, use, offset) && ownHidden <= hidden
    requires Recorded(own - ownHidden, u) && SlotsBelow(own - ownHidden, offset)
    requires forall b :: b in earlier - hidden && b !in own ==> b in was && was[b] == (b.location, b.preferred)
    requires Includes(more, use) && Includes(more, u)
    ensures Recorded(earlier + own - hidden, more) && SlotsBelow(earlier + own - hidden, offset)
  {
    hide InUse, Includes;
    forall b | b in earlier + own - hidden && b.location.InRegister? ensures InUse(b.location.reg, more) {
      if b in own {
        IncludesInUse(more, u, b.location.reg);
      } else {
        IncludesInUse(more, use, b.location.reg);
      }
    }
  }

  /** One expression: its parts' slots are in this frame unless it is a function. */
  method InitializeExpression(u: Group, offset: int) returns (bottom: int, use: UseVec)
    requires Includes(u.mask, UPPER) && Masked(u.parts)
    modifies Touched(u.parts), SetOf(u.params)
    ensures bottom <= offset && Reports(u, use)
    ensures Recorded(InnerOf(u) - HiddenOf(u), use) && SlotsBelow(InnerOf(u) - HiddenOf(u), offset)
    decreases u, 2
  {
    hide Includes, Both, Recorded, SlotsBelow, Touched, Union, Placed;
    ghost var base, reports, spilled;
    match u.report
    case Using(more) =>
      bottom, use, base, reports, spilled := InitializeExpressions(u.parts, u.params, offset, u.mask, u.depth);
      UnionIncludes(u.mask, reports);
      IncludesThen(use, base, u.mask);
      BothInclude(use, more);
      IncludesThen(Both(use, more), use, u.mask);
      IncludesThen(Both(use, more), u.mask, UPPER);
      FewerHeld(Owners(u.parts) + SetOf(u.params) + (Inner(u.parts) - Hidden(u.parts)), InnerOf(u) - HiddenOf(u), use, offset);
      RecordedMore(InnerOf(u) - HiddenOf(u), use, Both(use, more));
      use := Both(use, more);
    case OwnFrame(size, reported) =>
      bottom, use, base, reports, spilled := InitializeExpressions(u.parts, u.params, size, u.mask, u.depth);
      bottom, use := offset, reported;
      NothingHeld(use, offset);
      FewerHeld({}, InnerOf(u) - HiddenOf(u), use, offset);
  }

  lemma {:induction false} NothingHeld(use: UseVec, offset: int)
    ensures Recorded({}, use) && SlotsBelow({}, offset)
  {}

  lemma {:induction false} MoreInUse(use: UseVec, u: UseVec, mask: UseVec, reports: seq<UseVec>)
    requires Includes(use, mask) && forall j :: 0 <= j < |reports| ==> Includes(use, reports[j])
    ensures Includes(Both(use, u), mask) && Includes(Both(use, u), u) && forall j :: 0 <= j < |reports| ==> Includes(Both(use, u), reports[j])
  {
    OrIncludes(use, u);
    hide Includes;
    IncludesThen(Both(use, u), use, mask);
    forall j | 0 <= j < |reports| ensures Includes(Both(use, u), reports[j]) {
      IncludesThen(Both(use, u), use, reports[j]);
    }
  }

  method Clear(es: seq<Group>, bs: seq<Binding>)
    modifies Owners(es), SetOf(bs)
    ensures forall b :: b in Owners(es) + SetOf(bs) ==> b.location == Nowhere
  {
    for k := 0 to |es|
      invariant forall j :: 0 <= j < k ==> es[j].own.location == Nowhere
    {
      assert es[k] in es;
      es[k].own.location := Nowhere;
    }
    for k := 0 to |bs|
      invariant forall j :: 0 <= j < |es| ==> es[j].own.location == Nowhere
      invariant forall j :: 0 <= j < k ==> bs[j].location == Nowhere
    {
      assert bs[k] in bs;
      bs[k].location := Nowhere;
    }
  }

  lemma {:induction false} NothingAssigned(all: set<Binding>, wanted: set<Binding>, base: UseVec, low: int, high: int)
    requires forall b :: b in all ==> b.location == Nowhere
    ensures Assigned(all, base, base) && Settled(all, wanted, map[]) && Spilled(map[], all, low, high)
  {
    IncludesSelf(base);
  }

  /** One binding's preference, with what it means for the bindings tried before. */
  method PreferOne(es: seq<Group>, bs: seq<Binding>, b: Binding, ghost wanted: set<Binding>, ghost done: set<Binding>, ghost base: UseVec, use: UseVec) returns (use': UseVec)
    requires b in Owners(es) + SetOf(bs) && b in wanted && Assigned(Owners(es) + SetOf(bs), base, use) && Settled(Owners(es) + SetOf(bs), wanted, map[])
    requires Room(use, Owners(es) + SetOf(bs), |es| + |bs|) && done <= Owners(es) + SetOf(bs)
    requires Earned(Owners(es) + SetOf(bs), base, use) && Honoured(done, Owners(es) + SetOf(bs), base)
    modifies b`location, b`size
    ensures Assigned(Owners(es) + SetOf(bs), base, use') && Settled(Owners(es) + SetOf(bs), wanted, map[])
    ensures Room(use', Owners(es) + SetOf(bs), |es| + |bs|)
    ensures Earned(Owners(es) + SetOf(bs), base, use') && Honoured(done + {b}, Owners(es) + SetOf(bs), base)
  {
    hide Assigned, Settled, Includes, Searchable, Earned, Honoured, HonouredAt, InUse, Added, IndexOf, Owners, SetOf;
    ghost var all := Owners(es) + SetOf(bs);
    HonouredThen(done, all, base);
    EarnedThen(all, base, use);
    ghost var was := Locations(all);
    use' := Prefer(b, all, wanted, base, use);
    TriedOne(was, b, done, all, base, use, use');
    if Includes(use, UPPER) { IncludesThen(use', use, UPPER); } else { OnlyOne(es, bs, b); }
  }

  /** The locations that bindings prefer, when they are free. */
  method PreferAll(es: seq<Group>, bs: seq<Binding>, depth: nat, ghost base: UseVec, use: UseVec) returns (use': UseVec)
    requires Assigned(Owners(es) + SetOf(bs), base, use) && Settled(Owners(es) + SetOf(bs), Wanted(es, bs, depth), map[])
    requires Room(use, Owners(es) + SetOf(bs), |es| + |bs|) && use == base
    modifies Owners(es), SetOf(bs)
    ensures Assigned(Owners(es) + SetOf(bs), base, use') && Settled(Owners(es) + SetOf(bs), Wanted(es, bs, depth), map[])
    ensures Room(use', Owners(es) + SetOf(bs), |es| + |bs|) && Honoured(Wanted(es, bs, depth), Owners(es) + SetOf(bs), base)
  {
    hide Assigned, Settled, Includes, Searchable, Earned, Honoured, Room;
    ghost var all, wanted := Owners(es) + SetOf(bs), Wanted(es, bs, depth);
    ghost var done: set<Binding> := {};
    NothingEarned(all, base);
    use' := use;
    for k := 0 to |es|
      invariant Assigned(all, base, use') && Settled(all, wanted, map[]) && Room(use', all, |es| + |bs|)
      invariant done <= all && Earned(all, base, use') && Honoured(done, all, base)
      invariant forall j :: 0 <= j < k && es[j].own.depth > depth && es[j].own.isRead ==> es[j].own in done
    {
      assert es[k] in es;
      if es[k].own.depth > depth && es[k].own.isRead {
        use' := PreferOne(es, bs, es[k].own, wanted, done, base, use');
        done := done + {es[k].own};
      }
    }
    for k := 0 to |bs|
      invariant Assigned(all, base, use') && Settled(all, wanted, map[]) && Room(use', all, |es| + |bs|)
      invariant done <= all && Earned(all, base, use') && Honoured(done, all, base)
      invariant forall j :: 0 <= j < |es| && es[j].own.depth > depth && es[j].own.isRead ==> es[j].own in done
      invariant forall j :: 0 <= j < k && bs[j].depth >= depth && bs[j].isRead ==> bs[j] in done
    {
      assert bs[k] in bs;
      if bs[k].depth >= depth && bs[k].isRead {
        use' := PreferOne(es, bs, bs[k], wanted, done, base, use');
        done := done + {bs[k]};
      }
    }
    WantedDone(es, bs, depth, done);
    FewerHonoured(done, wanted, all, base);
  }

  lemma {:induction false} WantedAll(es: seq<Group>, bs: seq<Binding>, depth: nat)
    ensures Wanted(es, bs, depth) <= Owners(es) + SetOf(bs)
  {}

  lemma {:induction false} WantedDone(es: seq<Group>, bs: seq<Binding>, depth: nat, done: set<Binding>)
    requires forall j :: 0 <= j < |es| && es[j].own.depth > depth && es[j].own.isRead ==> es[j].own in done
    requires forall j :: 0 <= j < |bs| && bs[j].depth >= depth && bs[j].isRead ==> bs[j] in done
    ensures Wanted(es, bs, depth) <= done
  {}

  lemma {:induction false} FewerHonoured(done: set<Binding>, fewer: set<Binding>, bs: set<Binding>, base: UseVec)
    requires Honoured(done, bs, base) && fewer <= done
    ensures Honoured(fewer, bs, base)
  {
    hide InUse;
  }

  /** Slots given out so far lie in words from `low` up to `next`. */
  ghost predicate Upto(spilled: map<Binding, int>, low: int, next: int) {
    forall b :: b in spilled ==> low <= spilled[b] && spilled[b] + WORD_SIZE <= next
  }

  lemma {:induction false} OwnerWanted(es: seq<Group>, bs: seq<Binding>, depth: nat, k: nat)
    requires k < |es|
    ensures es[k].own in Owners(es) && (es[k].own.depth > depth && es[k].own.isRead ==> es[k].own in Wanted(es, bs, depth))
  {
    assert es[k] in es;
  }

  lemma {:induction false} BindingWanted(es: seq<Group>, bs: seq<Binding>, depth: nat, k: nat)
    requires k < |bs|
    ensures bs[k] in SetOf(bs) && (bs[k].depth >= depth && bs[k].isRead ==> bs[k] in Wanted(es, bs, depth))
  {
    assert bs[k] in bs;
  }

  lemma {:induction false} AllWantedPlaced(es: seq<Group>, bs: seq<Binding>, depth: nat)
    requires forall j :: 0 <= j < |es| && es[j].own.depth > depth && es[j].own.isRead ==> es[j].own.location != Nowhere
    requires forall j :: 0 <= j < |bs| && bs[j].depth >= depth && bs[j].isRead ==> bs[j].location != Nowhere
    ensures forall b :: b in Wanted(es, bs, depth) ==> b.location != Nowhere
  {
    forall b | b in Wanted(es, bs, depth) ensures b.location != Nowhere {
      if u :| u in es && u.own == b && u.own.depth > depth && u.own.isRead {
        var j :| 0 <= j < |es| && es[j] == u;
      } else {
        var j :| 0 <= j < |bs| && bs[j] == b;
      }
    }
  }

  /** Bindings that had a location keep it. */
  ghost predicate Unmoved(was: map<Binding, Location>)
    reads was.Keys
  {
    forall b :: b in was && was[b] != Nowhere ==> b.location == was[b]
  }

  /** One binding that is still nowhere, with room for the others afterwards. */
  method PlaceOne(es: seq<Group>, bs: seq<Binding>, b: Binding, offset: int, ghost wanted: set<Binding>, ghost base: UseVec, use: UseVec,
    ghost spilled: map<Binding, int>, ghost low: int, ghost high: int)
    returns (use': UseVec, ghost spilled': map<Binding, int>)
    requires b in Owners(es) + SetOf(bs) && b in wanted && b.location == Nowhere && Room(use, Owners(es) + SetOf(bs), |es| + |bs|)
    requires Assigned(Owners(es) + SetOf(bs), base, use) && Settled(Owners(es) + SetOf(bs), wanted, spilled) && Spilled(spilled, Owners(es) + SetOf(bs), low, high)
    requires low <= offset && offset + WORD_SIZE <= high
    requires forall c :: c in spilled ==> spilled[c] + WORD_SIZE <= offset || offset + WORD_SIZE <= spilled[c]
    modifies b`location, b`size
    ensures Assigned(Owners(es) + SetOf(bs), base, use') && Settled(Owners(es) + SetOf(bs), wanted, spilled') && Spilled(spilled', Owners(es) + SetOf(bs), low, high)
    ensures Room(use', Owners(es) + SetOf(bs), |es| + |bs|)
    ensures b.location != Nowhere && (spilled' == spilled || spilled' == spilled[b := offset])
  {
    hide Assigned, Settled, Spilled, Includes, Searchable, Owners, SetOf;
    ghost var all := Owners(es) + SetOf(bs);
    RoomToSearch(use, all, |es| + |bs|, b);
    use', spilled' := Place(b, offset, all, wanted, base, use, spilled, low, high);
    if Includes(use, UPPER) { IncludesThen(use', use, UPPER); } else { OnlyOne(es, bs, b); }
  }

  method PlaceExpressions(es: seq<Group>, bs: seq<Binding>, offset: int, depth: nat, ghost base: UseVec, use: UseVec, ghost was: map<Binding, Location>)
    returns (use': UseVec, ghost spilled: map<Binding, int>)
    requires Unmoved(was) && Assigned(Owners(es) + SetOf(bs), base, use) && Settled(Owners(es) + SetOf(bs), Wanted(es, bs, depth), map[])
    requires Room(use, Owners(es) + SetOf(bs), |es| + |bs|)
    modifies Owners(es)
    ensures Assigned(Owners(es) + SetOf(bs), base, use') && Settled(Owners(es) + SetOf(bs), Wanted(es, bs, depth), spilled)
    ensures Room(use', Owners(es) + SetOf(bs), |es| + |bs|)
    ensures Spilled(spilled, Owners(es) + SetOf(bs), offset - (|es| + |bs|) * WORD_SIZE, offset) && Upto(spilled, offset - |es| * WORD_SIZE, offset)
    ensures forall j :: 0 <= j < |es| && es[j].own.depth > depth && es[j].own.isRead ==> es[j].own.location != Nowhere
    ensures Unmoved(was)
  {
    hide Assigned, Settled, Spilled, Includes, Searchable, Room, Owners, SetOf, Wanted;
    ghost var all, wanted := Owners(es) + SetOf(bs), Wanted(es, bs, depth);
    ghost var low, high := offset - (|es| + |bs|) * WORD_SIZE, offset;
    use', spilled := use, map[];
    NothingSpilled(all, low, high);
    for k := 0 to |es|
      invariant Assigned(all, base, use') && Settled(all, wanted, spilled) && Room(use', all, |es| + |bs|)
      invariant Spilled(spilled, all, low, high) && Upto(spilled, offset - |es| * WORD_SIZE, offset - |es| * WORD_SIZE + k * WORD_SIZE)
      invariant forall j :: 0 <= j < k && es[j].own.depth > depth && es[j].own.isRead ==> es[j].own.location != Nowhere
      invariant Unmoved(was)
    {
      OwnerWanted(es, bs, depth, k);
      if es[k].own.depth > depth && es[k].own.location == Nowhere && es[k].own.isRead {
        use', spilled := PlaceOne(es, bs, es[k].own, offset - |es| * WORD_SIZE + k * WORD_SIZE, wanted, base, use', spilled, low, high);
      }
    }
  }

  lemma {:induction false} NothingSpilled(all: set<Binding>, low: int, high: int)
    ensures Spilled(map[], all, low, high)
  {}

  lemma {:induction false} AssignedIncludes(bs: set<Binding>, base: UseVec, use: UseVec)
    requires Assigned(bs, base, use)
    ensures Includes(use, base)
  {}

  method PlaceBindings(es: seq<Group>, bs: seq<Binding>, offset: int, depth: nat, ghost base: UseVec, use: UseVec, ghost spilled: map<Binding, int>, ghost was: map<Binding, Location>)
    returns (use': UseVec, ghost spilled': map<Binding, int>)
    requires Unmoved(was) && Assigned(Owners(es) + SetOf(bs), base, use) && Settled(Owners(es) + SetOf(bs), Wanted(es, bs, depth), spilled)
    requires Room(use, Owners(es) + SetOf(bs), |es| + |bs|)
    requires Spilled(spilled, Owners(es) + SetOf(bs), offset - (|es| + |bs|) * WORD_SIZE, offset) && Upto(spilled, offset - |es| * WORD_SIZE, offset)
    requires forall j :: 0 <= j < |es| && es[j].own.depth > depth && es[j].own.isRead ==> es[j].own.location != Nowhere
    modifies SetOf(bs)
    ensures Placed(es, bs, offset, depth, base, use', spilled') && Includes(use', base)
    ensures Unmoved(was)
  {
    hide Assigned, Settled, Spilled, Includes, Searchable, Room, Owners, SetOf, Wanted;
    ghost var all, wanted := Owners(es) + SetOf(bs), Wanted(es, bs, depth);
    ghost var high := offset;
    var low := offset - (|es| + |bs|) * WORD_SIZE;
    use', spilled' := use, spilled;
    for k := 0 to |bs|
      invariant Assigned(all, base, use') && Settled(all, wanted, spilled') && Room(use', all, |es| + |bs|)
      invariant Spilled(spilled', all, low, high)
      invariant forall b :: b in spilled' ==> spilled'[b] >= offset - |es| * WORD_SIZE || spilled'[b] + WORD_SIZE <= low + k * WORD_SIZE
      invariant forall j :: 0 <= j < |es| && es[j].own.depth > depth && es[j].own.isRead ==> es[j].own.location != Nowhere
      invariant forall j :: 0 <= j < k && bs[j].depth >= depth && bs[j].isRead ==> bs[j].location != Nowhere
      invariant Unmoved(was)
    {
      BindingWanted(es, bs, depth, k);
      if bs[k].depth >= depth && bs[k].location == Nowhere && bs[k].isRead {
        use', spilled' := PlaceOne(es, bs, bs[k], low + k * WORD_SIZE, wanted, base, use', spilled', low, high);
      }
    }
    AssignedIncludes(all, base, use');
    AllWantedPlaced(es, bs, depth);
  }

  /** Registers given by a call are outside its mask and outside what any sub-expression reports. */
  lemma {:induction false} NewRegistersAreFree(bs: set<Binding>, mask: UseVec, reports: seq<UseVec>, use: UseVec)
    requires Assigned(bs, Union(mask, reports), use)
    ensures forall b :: b in bs && b.location.InRegister? ==>
      !InUse(b.location.reg, mask) && forall k :: 0 <= k < |reports| ==> !InUse(b.location.reg, reports[k])
  {
    hide InUse, Includes, IndexOf, Union;
    UnionIncludes(mask, reports);
    var base := Union(mask, reports);
    forall b | b in bs && b.location.InRegister?
      ensures !InUse(b.location.reg, mask) && forall k :: 0 <= k < |reports| ==> !InUse(b.location.reg, reports[k])
    {
      NotInPart(base, mask, b.location.reg);
      forall k | 0 <= k < |reports| ensures !InUse(b.location.reg, reports[k]) {
        NotInPart(base, reports[k], b.location.reg);
      }
    }
  }

  /** What a call places is apart from what its sub-expressions hold in the same frame: no register is
      shared, and no slot given out by the call overlaps one of theirs. */
  lemma {:induction false} PlacedApart(es: seq<Group>, bs: seq<Binding>, offset: int, depth: nat, base: UseVec, use: UseVec, spilled: map<Binding, int>, b: Binding, c: Binding)
    requires Placed(es, bs, offset, depth, base, use, spilled) && b in Owners(es) + SetOf(bs) && c in Parts(es, bs)
    requires Recorded(Parts(es, bs), base) && SlotsBelow(Parts(es, bs), offset - (|es| + |bs|) * WORD_SIZE)
    ensures DifferentRegisters(b.location, c.location)
    ensures b in spilled && (c.location.InFrame? || c.location.InStatic?) && c.location != c.preferred ==>
      c.location.offset + WORD_SIZE <= spilled[b]
  {
    hide InUse, Includes, IndexOf, Parts;
    if b.location.InRegister? && c.location.InRegister? && IndexOf(b.location.reg) == IndexOf(c.location.reg) {
      SameIndex(b.location.reg, c.location.reg, base);
    }
  }

  lemma {:induction false} NotInPart(use: UseVec, part: UseVec, reg: Register)
    requires Includes(use, part) && !InUse(reg, use)
    ensures !InUse(reg, part)
  {
    if InUse(reg, part) {
      IncludesInUse(use, part, reg);
    }
  }
}
