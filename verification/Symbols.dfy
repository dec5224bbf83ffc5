/** The symbol table that is written with assembled code (write_elf, bootstrap/x86_64_assembler.c). */
module Symbols {
  import opened Machine
  import opened Assembler
  import opened Object

  const TEXT := 2
  const BSS := 5
  const WORD := 8

  /** A static binding and its size. */
  datatype Static = Static(bndg: nat, size: nat)

  function PadWord(n: nat): nat { (n + WORD - 1) / WORD * WORD }

  predicate HasLabel(code: seq<Instr>, b: nat) {
    exists i :: 0 <= i < |code| && code[i] == Label(b)
  }

  /** Every binding that instructions refer to is a label, a static binding or an undefined one. */
  predicate Known(code: seq<Instr>, statics: seq<Static>, undefined: seq<nat>) {
    forall k :: 0 <= k < |Assembled(code).relas| ==>
      var b := Assembled(code).relas[k].bndg;
      HasLabel(code, b) || b in undefined || exists i :: 0 <= i < |statics| && statics[i].bndg == b
  }

  lemma {:induction false} ValuesAreLabels(code: seq<Instr>, b: nat)
    ensures b in Assembled(code).values <==> HasLabel(code, b)
    decreases |code|
  {
    hide Encode, Shift, HasLabel;
    if code == [] {
      NoLabels();
    } else {
      ValuesAreLabels(code[..|code| - 1], b);
      LabelSnoc(code, |code| - 1);
      assert code[..|code|] == code;
    }
  }

  lemma {:induction false} NoLabels()
    ensures forall b :: !HasLabel([], b)
  {}

  /** Only the values of symbols differ. */
  ghost predicate Retained(was: seq<Symbol>, syms: seq<Symbol>) {
    |syms| == |was| && forall k :: 0 <= k < |syms| ==> syms[k] == was[k].(value := syms[k].value)
  }

  /** The table, and for every binding its latest symbol (the context of the binding). */
  class SymbolWriter {
    const names: nat -> string
    const outward: set<nat>    // bindings of global scope
    var syms: seq<Symbol>
    var index: map<nat, nat>

    /** The table starts with the mandatory undefined symbol. */
    constructor (names: nat -> string, outward: set<nat>)
      ensures this.names == names && this.outward == outward && Valid() && index == map[]
      ensures syms == [Symbol("", 0, 0, Undefined, false)]
    {
      this.names, this.outward := names, outward;
      syms, index := [Symbol("", 0, 0, Undefined, false)], map[];
    }

    /** Different bindings have different symbols. */
    ghost predicate Valid()
      reads this
    {
      && (forall b :: b in index ==> index[b] < |syms|)
      && (forall b, c :: b in index && c in index && index[b] == index[c] ==> b == c)
      && (forall k :: 0 <= k < |syms| && syms[k].home.InSection? ==> syms[k].home.sec == TEXT || syms[k].home.sec == BSS)
    }

    /** Symbols of bindings of this scope were added; earlier symbols and other bindings are as before. */
    twostate predicate Grew(scope: bool)
      reads this
    {
      && |old(syms)| <= |syms| && syms[..|old(syms)|] == old(syms)
      && (forall k :: |old(syms)| <= k < |syms| ==> syms[k].outward == scope)
      && (forall b :: b in old(index) ==> b in index)
      && (forall b :: (b in outward) != scope ==> (b in index <==> b in old(index)) && (b in index ==> index[b] == old(index)[b]))
    }

    method Add(b: nat, value: nat, size: nat, home: Home, scope: bool)
      requires Valid() && (b in outward) == scope && (home.InSection? ==> home.sec == TEXT || home.sec == BSS)
      modifies this
      ensures Valid() && Grew(scope)
      ensures syms == old(syms) + [Symbol(names(b), value, size, home, scope)] && index == old(index)[b := |old(syms)|]
    {
      syms, index := syms + [Symbol(names(b), value, size, home, scope)], index[b := |syms|];
    }

    /** Static bindings of one scope, one after another in the .bss section. */
    method AddStatics(statics: seq<Static>, scope: bool, start: nat) returns (bss: nat)
      requires Valid()
      modifies this
      ensures Valid() && Grew(scope) && start <= bss
      ensures forall i :: 0 <= i < |statics| && (statics[i].bndg in outward) == scope ==> statics[i].bndg in index
    {
      bss := start;
      for i := 0 to |statics|
        invariant Valid() && Grew(scope) && start <= bss
        invariant forall j :: 0 <= j < i && (statics[j].bndg in outward) == scope ==> statics[j].bndg in index
      {
        if (statics[i].bndg in outward) == scope {
          Add(statics[i].bndg, bss, statics[i].size, InSection(BSS), scope);
          bss := bss + PadWord(statics[i].size);
        }
      }
    }

    method AddUndefined(undefined: seq<nat>)
      requires Valid() && forall i :: 0 <= i < |undefined| ==> undefined[i] in outward
      modifies this
      ensures Valid() && Grew(true)
      ensures forall i :: 0 <= i < |undefined| ==> undefined[i] in index
    {
      for i := 0 to |undefined|
        invariant Valid() && Grew(true)
        invariant forall j :: 0 <= j < i ==> undefined[j] in index
      {
        Add(undefined[i], 0, 0, Undefined, true);
      }
    }

    /** The labels of one scope; their values are not known yet. */
    method AddLabels(code: seq<Instr>, scope: bool)
      requires Valid()
      modifies this
      ensures Valid() && Grew(scope)
      ensures forall b :: HasLabel(code, b) && (b in outward) == scope ==> LabelIn(b)
    {
      for i := 0 to |code|
        invariant Valid() && Grew(scope)
        invariant forall j :: 0 <= j < i && code[j].Label? && (code[j].name in outward) == scope ==> LabelIn(code[j].name)
      {
        if code[i].Label? && (code[i].name in outward) == scope {
          assert HasLabel(code, code[i].name);
          Add(code[i].name, 0, 0, InSection(TEXT), scope);
        }
      }
    }

    ghost predicate LabelIn(b: nat)
      reads this
    {
      b in index && index[b] < |syms| && syms[index[b]].home == InSection(TEXT)
    }

    method AddLocals(code: seq<Instr>, statics: seq<Static>) returns (bss: nat)
      requires Valid()
      modifies this
      ensures Valid() && Grew(false)
      ensures forall i :: 0 <= i < |statics| && statics[i].bndg !in outward ==> statics[i].bndg in index
      ensures forall b :: HasLabel(code, b) && b !in outward ==> LabelIn(b)
    {
      bss := AddStatics(statics, false, 0);
      AddLabels(code, false);
    }

    method AddGlobals(code: seq<Instr>, statics: seq<Static>, undefined: seq<nat>, start: nat)
      requires Valid() && forall i :: 0 <= i < |undefined| ==> undefined[i] in outward
      modifies this
      ensures Valid() && Grew(true)
      ensures forall i :: 0 <= i < |statics| && statics[i].bndg in outward ==> statics[i].bndg in index
      ensures forall i :: 0 <= i < |undefined| ==> undefined[i] in index
      ensures forall b :: HasLabel(code, b) && b in outward ==> LabelIn(b)
      ensures forall b :: b !in outward && old(LabelIn(b)) ==> LabelIn(b)
    {
      var bss := AddStatics(statics, true, start);
      AddUndefined(undefined);
      AddLabels(code, true);
    }

    /** Assembling stores the position of every label in its symbol. */
    method SetValues(code: seq<Instr>, values: map<nat, nat>)
      requires Valid() && forall b :: HasLabel(code, b) ==> LabelIn(b) && b in values
      modifies this`syms
      ensures Valid() && Retained(old(syms), syms)
      ensures forall b :: HasLabel(code, b) ==> LabelIn(b) && b in values && syms[index[b]].value == values[b]
    {
      hide HasLabel;
      NoLabels();
      ghost var was := syms;
      for i := 0 to |code|
        invariant Retained(was, syms)
        invariant forall b :: HasLabel(code[..i], b) ==> HasLabel(code, b) && b in values && syms[index[b]].value == values[b]
      {
        LabelSnoc(code, i);
        if code[i].Label? {
          var b := code[i].name;
          syms := syms[index[b] := syms[index[b]].(value := values[b])];
        }
      }
      assert code[..|code|] == code;
    }

    /** The whole table: local symbols first, every binding the code refers to has a symbol, and that of
        a label is in the text section at the position where the label was assembled. */
    method Write(code: seq<Instr>, statics: seq<Static>, undefined: seq<nat>, values: map<nat, nat>) returns (locals: nat)
      requires Valid() && |syms| == 1 && !syms[0].outward && index == map[] && values == Assembled(code).values
      requires Known(code, statics, undefined) && forall i :: 0 <= i < |undefined| ==> undefined[i] in outward
      modifies this
      ensures Valid() && WrittenAs(code, TEXT, index, syms)
      ensures locals <= |syms| && forall k :: 0 <= k < |syms| ==> (syms[k].outward <==> locals <= k)
    {
      hide Assembled, HasLabel, Known, WrittenAs;
      forall b: nat ensures b in values <==> HasLabel(code, b) { ValuesAreLabels(code, b); }
      var bss := AddLocals(code, statics);
      locals := |syms|;
      ghost var first := syms;
      AddGlobals(code, statics, undefined, bss);
      assert forall k :: 0 <= k < locals ==> syms[k] == first[k];
      SetValues(code, values);
      TableIsWritten(code, statics, undefined, index, syms);
    }
  }

  lemma {:induction false} TableIsWritten(code: seq<Instr>, statics: seq<Static>, undefined: seq<nat>, index: map<nat, nat>, syms: seq<Symbol>)
    requires Known(code, statics, undefined) && forall b :: b in index ==> index[b] < |syms|
    requires forall i :: 0 <= i < |statics| ==> statics[i].bndg in index
    requires forall i :: 0 <= i < |undefined| ==> undefined[i] in index
    requires forall b: nat :: HasLabel(code, b) ==> b in index && b in Assembled(code).values
    requires forall b: nat :: b in Assembled(code).values ==>
      b in index && syms[index[b]].home == InSection(TEXT) && syms[index[b]].value == Assembled(code).values[b]
    ensures WrittenAs(code, TEXT, index, syms)
  {
    hide Assembled;
  }

  lemma {:induction false} LabelSnoc(code: seq<Instr>, i: nat)
    requires i < |code|
    ensures forall b :: HasLabel(code[..i + 1], b) <==> HasLabel(code[..i], b) || code[i] == Label(b)
    ensures forall b :: HasLabel(code[..i], b) ==> HasLabel(code, b)
    ensures code[i].Label? ==> HasLabel(code, code[i].name)
  {
    var more, front := code[..i + 1], code[..i];
    forall b | HasLabel(more, b) ensures HasLabel(front, b) || code[i] == Label(b) {
      var k :| 0 <= k < |more| && more[k] == Label(b);
      assert k < i ==> front[k] == Label(b);
    }
    forall b | HasLabel(front, b) ensures HasLabel(more, b) && HasLabel(code, b) {
      var k :| 0 <= k < |front| && front[k] == Label(b);
      assert more[k] == Label(b) && code[k] == Label(b);
    }
    assert more[i] == code[i];
  }
}
