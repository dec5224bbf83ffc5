/** Where bindings live: escape analysis (bootstrap/analysis.c) and frame layout
    (bootstrap/x86_64_generator.c). */
module Frames {
  import opened Common
  import opened Syntax
  import opened Generator

  /** A binding on a function's binding_augs list. */
  datatype Slot = Slot(bndg: nat, size: nat)

  function ParamSlots(params: seq<nat>): seq<Slot> {
    seq(|params|, i requires 0 <= i < |params| => Slot(params[i], WORD_SIZE))
  }

  /** The slots that e adds to the list of the function around it, in order. */
  function FrameSlots(e: Expr, escapes: set<nat>): seq<Slot>
    decreases e, 1
  {
    match e
    case Literal(_) => []
    case Symbol(_) => []
    case Function(_, _, _) => []
    case Continuation(b, params, body, _) =>
      FrameSlots(body, escapes) + (if b in escapes then [Slot(b, CONT_SIZE)] else []) + ParamSlots(params)
    case With(b, param, body, _) =>
      FrameSlots(body, escapes) + (if b in escapes then [Slot(b, CONT_SIZE)] else []) + ParamSlots([param])
    case Storage(b, args) => FrameSlotsAll(args, escapes) + [Slot(b, |args| * WORD_SIZE)]
    case Jump(target, args, temp) =>
      FrameSlots(target, escapes) + FrameSlotsAll(args, escapes) +
      (if BufferFlag(target, args) == CONTAINS_WITH then [Slot(temp, WORD_SIZE * |args|)] else [])
    case Invoke(target, args, temp) =>
      FrameSlots(target, escapes) + FrameSlotsAll(args, escapes) +
      (if BufferFlag(target, args) == CONTAINS_WITH then [Slot(temp, WORD_SIZE * |args|)] else [])
    case If(c, t, f) => FrameSlots(c, escapes) + FrameSlots(t, escapes) + FrameSlots(f, escapes)
    case Constrain(body) => FrameSlots(body, escapes)
  }

  function FrameSlotsAll(es: seq<Expr>, escapes: set<nat>): seq<Slot>
    decreases es, 0
  {
    if es == [] then [] else FrameSlots(es[0], escapes) + FrameSlotsAll(es[1..], escapes)
  }

  function PadSize(n: nat): nat { (n + WORD_SIZE - 1) / WORD_SIZE * WORD_SIZE }

  function Total(slots: seq<Slot>): (n: int)
    ensures n >= 0
  {
    if slots == [] then 0 else PadSize(slots[0].size) + Total(slots[1..])
  }

  /** Offsets are handed out from the last slot to the first, downwards. */
  function SlotOffset(slots: seq<Slot>, i: nat): int
    requires i < |slots|
  {
    -Total(slots[i..])
  }

  // ----- geometry of a frame -----

  lemma {:induction false} TotalStep(slots: seq<Slot>, i: nat)
    requires i < |slots|
    ensures Total(slots[i..]) == PadSize(slots[i].size) + Total(slots[i + 1..])
  {
    assert slots[i..][1..] == slots[i + 1..];
  }

  lemma {:induction false} PadCovers(n: nat)
    ensures PadSize(n) >= n && PadSize(n) % WORD_SIZE == 0
  {}

  lemma {:induction false} SumOfWords(a: int, b: int)
    requires a % WORD_SIZE == 0 && b % WORD_SIZE == 0
    ensures (a + b) % WORD_SIZE == 0
  {}

  lemma {:induction false} TotalFalls(slots: seq<Slot>, i: nat, j: nat)
    requires i <= j <= |slots|
    ensures Total(slots[i..]) >= Total(slots[j..]) && Total(slots[i..]) % WORD_SIZE == 0
    decreases |slots| - i
  {
    hide PadSize;
    if i < |slots| {
      TotalStep(slots, i);
      PadCovers(slots[i].size);
      TotalFalls(slots, i + 1, if i < j then j else i + 1);
      SumOfWords(PadSize(slots[i].size), Total(slots[i + 1..]));
    }
  }

  /** Slots are word-aligned, lie inside the frame that the prologue reserves, and do not overlap. */
  lemma {:induction false} SlotsAreDisjoint(slots: seq<Slot>, i: nat, j: nat)
    requires i < j < |slots|
    ensures -Total(slots) <= SlotOffset(slots, i) && SlotOffset(slots, i) % WORD_SIZE == 0
    ensures SlotOffset(slots, i) + slots[i].size <= SlotOffset(slots, j)
    ensures SlotOffset(slots, j) + slots[j].size <= 0
  {
    SlotInFrame(slots, i);
    SlotInFrame(slots, j);
    TotalStep(slots, i);
    TotalFalls(slots, i + 1, j);
  }

  lemma {:induction false} SlotInFrame(slots: seq<Slot>, i: nat)
    requires i < |slots|
    ensures -Total(slots) <= SlotOffset(slots, i) <= 0 && SlotOffset(slots, i) % WORD_SIZE == 0
    ensures SlotOffset(slots, i) + slots[i].size <= 0
  {
    hide PadSize, Total;
    assert slots[0..] == slots;
    TotalFalls(slots, 0, i);
    TotalFalls(slots, i, i);
    TotalStep(slots, i);
    PadCovers(slots[i].size);
    Negated(Total(slots[i..]));
  }

  lemma {:induction false} Negated(a: int)
    requires a % WORD_SIZE == 0
    ensures -a % WORD_SIZE == 0
  {}

  /** A run of word-sized slots occupies consecutive words. */
  lemma {:induction false} WordsAreConsecutive(slots: seq<Slot>, i: nat, n: nat)
    requires i + n < |slots| && forall k :: i <= k < i + n ==> slots[k].size == WORD_SIZE
    ensures SlotOffset(slots, i + n) == SlotOffset(slots, i) + n * WORD_SIZE
    decreases n
  {
    if n > 0 {
      TotalStep(slots, i);
      WordsAreConsecutive(slots, i + 1, n - 1);
    }
  }

  // ----- which bindings an expression owns -----

  function SetOf(s: seq<nat>): set<nat> { set b | b in s }

  /** The bindings whose places layout decides while it visits e. */
  function Owned(e: Expr): set<nat>
    decreases e, 1
  {
    match e
    case Literal(_) => {}
    case Symbol(_) => {}
    case Function(b, params, body) => {b} + SetOf(params) + Owned(body)
    case Continuation(b, params, body, _) => {b} + SetOf(params) + Owned(body)
    case With(b, param, body, _) => {b, param} + Owned(body)
    case Storage(b, args) => {b} + OwnedAll(args)
    case Jump(target, args, temp) => {temp} + Owned(target) + OwnedAll(args)
    case Invoke(target, args, temp) => {temp} + Owned(target) + OwnedAll(args)
    case If(c, t, f) => Owned(c) + Owned(t) + Owned(f)
    case Constrain(body) => Owned(body)
  }

  function OwnedAll(es: seq<Expr>): set<nat>
    decreases es, 0
  {
    if es == [] then {} else Owned(es[0]) + OwnedAll(es[1..])
  }

  /** Every binding is owned once: each expression allocates its own. */
  ghost predicate Unique(e: Expr)
    decreases e, 1
  {
    match e
    case Literal(_) => true
    case Symbol(_) => true
    case Function(b, params, body) =>
      Distinct(params) && b !in params && SetOf(params) !! Owned(body) && b !in Owned(body) && Unique(body)
    case Continuation(b, params, body, _) =>
      Distinct(params) && b !in params && SetOf(params) !! Owned(body) && b !in Owned(body) && Unique(body)
    case With(b, param, body, _) => b != param && b !in Owned(body) && param !in Owned(body) && Unique(body)
    case Storage(b, args) => b !in OwnedAll(args) && UniqueAll(args)
    case Jump(target, args, temp) =>
      temp !in Owned(target) && temp !in OwnedAll(args) && Owned(target) !! OwnedAll(args) && Unique(target) && UniqueAll(args)
    case Invoke(target, args, temp) =>
      temp !in Owned(target) && temp !in OwnedAll(args) && Owned(target) !! OwnedAll(args) && Unique(target) && UniqueAll(args)
    case If(c, t, f) =>
      Owned(c) !! Owned(t) && Owned(c) !! Owned(f) && Owned(t) !! Owned(f) && Unique(c) && Unique(t) && Unique(f)
    case Constrain(body) => Unique(body)
  }

  ghost predicate UniqueAll(es: seq<Expr>)
    decreases es, 0
  {
    es == [] || (Owned(es[0]) !! OwnedAll(es[1..]) && Unique(es[0]) && UniqueAll(es[1..]))
  }

  // ----- what a finished layout looks like -----

  type Places = map<nat, Place>
  type FrameSizes = map<nat, int>

  ghost predicate SlotsPlaced(slots: seq<Slot>, P: Places) {
    forall i :: 0 <= i < |slots| ==> slots[i].bndg in P && P[slots[i].bndg] == FrameRelative(SlotOffset(slots, i))
  }

  ghost predicate ParamsPlaced(params: seq<nat>, P: Places) {
    forall k :: 0 <= k < |params| ==> params[k] in P && P[params[k]] == FrameRelative(2 * WORD_SIZE + k * WORD_SIZE)
  }

  ghost predicate BufferPlaced(temp: nat, flag: nat, P: Places) {
    && (flag == CONTAINS_NONE ==> temp in P && P[temp] == TopRelative(0))
    && (flag == CONTAINS_JUMP ==> temp in P && P[temp] == NoPlace)
  }

  /** Every function in e has its parameters and slots placed and its frame size recorded, and
      every buffer that does not need a slot is at the top of the stack or nowhere. */
  ghost predicate LaidOut(e: Expr, escapes: set<nat>, P: Places, F: FrameSizes)
    decreases e, 1
  {
    match e
    case Literal(_) => true
    case Symbol(_) => true
    case Function(b, params, body) =>
      && ParamsPlaced(params, P) && SlotsPlaced(FrameSlots(body, escapes), P)
      && b in F && F[b] == -Total(FrameSlots(body, escapes)) && LaidOut(body, escapes, P, F)
    case Continuation(_, _, body, _) => LaidOut(body, escapes, P, F)
    case With(_, _, body, _) => LaidOut(body, escapes, P, F)
    case Storage(_, args) => LaidOutAll(args, escapes, P, F)
    case Jump(target, args, temp) =>
      LaidOut(target, escapes, P, F) && LaidOutAll(args, escapes, P, F) && BufferPlaced(temp, BufferFlag(target, args), P)
    case Invoke(target, args, temp) =>
      LaidOut(target, escapes, P, F) && LaidOutAll(args, escapes, P, F) && BufferPlaced(temp, BufferFlag(target, args), P)
    case If(c, t, f) => LaidOut(c, escapes, P, F) && LaidOut(t, escapes, P, F) && LaidOut(f, escapes, P, F)
    case Constrain(body) => LaidOut(body, escapes, P, F)
  }

  ghost predicate LaidOutAll(es: seq<Expr>, escapes: set<nat>, P: Places, F: FrameSizes)
    decreases es, 0
  {
    es == [] || (LaidOut(es[0], escapes, P, F) && LaidOutAll(es[1..], escapes, P, F))
  }

  lemma {:induction false} OwnSlots(e: Expr, escapes: set<nat>)
    ensures forall i :: 0 <= i < |FrameSlots(e, escapes)| ==> FrameSlots(e, escapes)[i].bndg in Owned(e)
    decreases e, 1
  {
    match e
    case Literal(_) =>
    case Symbol(_) =>
    case Function(_, _, _) =>
    case Continuation(b, params, body, _) =>
      OwnSlots(body, escapes);
      forall k | 0 <= k < |params| ensures ParamSlots(params)[k].bndg in SetOf(params) {}
    case With(b, param, body, _) => OwnSlots(body, escapes);
    case Storage(b, args) => OwnSlotsAll(args, escapes);
    case Jump(target, args, temp) => OwnSlots(target, escapes); OwnSlotsAll(args, escapes);
    case Invoke(target, args, temp) => OwnSlots(target, escapes); OwnSlotsAll(args, escapes);
    case If(c, t, f) => OwnSlots(c, escapes); OwnSlots(t, escapes); OwnSlots(f, escapes);
    case Constrain(body) => OwnSlots(body, escapes);
  }

  lemma {:induction false} OwnSlotsAll(es: seq<Expr>, escapes: set<nat>)
    ensures forall i :: 0 <= i < |FrameSlotsAll(es, escapes)| ==> FrameSlotsAll(es, escapes)[i].bndg in OwnedAll(es)
    decreases es, 0
  {
    if es != [] {
      OwnSlots(es[0], escapes);
      OwnSlotsAll(es[1..], escapes);
    }
  }

  ghost predicate DistinctSlots(slots: seq<Slot>) {
    forall i, j :: 0 <= i < j < |slots| ==> slots[i].bndg != slots[j].bndg
  }

  ghost predicate SlotsIn(slots: seq<Slot>, bs: set<nat>) {
    forall i :: 0 <= i < |slots| ==> slots[i].bndg in bs
  }

  lemma {:induction false} DistinctAppend(a: seq<Slot>, b: seq<Slot>, A: set<nat>, B: set<nat>)
    requires DistinctSlots(a) && DistinctSlots(b) && SlotsIn(a, A) && SlotsIn(b, B) && A !! B
    ensures DistinctSlots(a + b) && SlotsIn(a + b, A + B)
  {}

  lemma {:induction false} SlotsDistinct(e: Expr, escapes: set<nat>)
    requires Unique(e)
    ensures DistinctSlots(FrameSlots(e, escapes)) && SlotsIn(FrameSlots(e, escapes), Owned(e))
    decreases e, 1
  {
    OwnSlots(e, escapes);
    match e
    case Literal(_) =>
    case Symbol(_) =>
    case Function(_, _, _) =>
    case Continuation(b, params, body, _) =>
      SlotsDistinct(body, escapes);
      ContinuationSlots(FrameSlots(body, escapes), Owned(body), b, params, escapes);
    case With(b, param, body, _) =>
      SlotsDistinct(body, escapes);
      ContinuationSlots(FrameSlots(body, escapes), Owned(body), b, [param], escapes);
    case Storage(b, args) =>
      SlotsDistinctAll(args, escapes);
      DistinctAppend(FrameSlotsAll(args, escapes), [Slot(b, |args| * WORD_SIZE)], OwnedAll(args), {b});
    case Jump(target, args, temp) =>
      SlotsDistinct(target, escapes);
      SlotsDistinctAll(args, escapes);
      DistinctAppend(FrameSlots(target, escapes), FrameSlotsAll(args, escapes), Owned(target), OwnedAll(args));
      DistinctAppend(FrameSlots(target, escapes) + FrameSlotsAll(args, escapes), [Slot(temp, WORD_SIZE * |args|)], Owned(target) + OwnedAll(args), {temp});
    case Invoke(target, args, temp) =>
      SlotsDistinct(target, escapes);
      SlotsDistinctAll(args, escapes);
      DistinctAppend(FrameSlots(target, escapes), FrameSlotsAll(args, escapes), Owned(target), OwnedAll(args));
      DistinctAppend(FrameSlots(target, escapes) + FrameSlotsAll(args, escapes), [Slot(temp, WORD_SIZE * |args|)], Owned(target) + OwnedAll(args), {temp});
    case If(c, t, f) =>
      SlotsDistinct(c, escapes);
      SlotsDistinct(t, escapes);
      SlotsDistinct(f, escapes);
      DistinctAppend(FrameSlots(c, escapes), FrameSlots(t, escapes), Owned(c), Owned(t));
      DistinctAppend(FrameSlots(c, escapes) + FrameSlots(t, escapes), FrameSlots(f, escapes), Owned(c) + Owned(t), Owned(f));
    case Constrain(body) => SlotsDistinct(body, escapes);
  }

  lemma {:induction false} ContinuationSlots(slots: seq<Slot>, bs: set<nat>, b: nat, params: seq<nat>, escapes: set<nat>)
    requires DistinctSlots(slots) && SlotsIn(slots, bs)
    requires Distinct(params) && b !in params && SetOf(params) !! bs && b !in bs
    ensures DistinctSlots(slots + (if b in escapes then [Slot(b, CONT_SIZE)] else []) + ParamSlots(params))
  {
    forall k | 0 <= k < |params| ensures ParamSlots(params)[k].bndg in SetOf(params) {}
    var mid := if b in escapes then [Slot(b, CONT_SIZE)] else [];
    DistinctAppend(slots, mid, bs, {b});
    DistinctAppend(slots + mid, ParamSlots(params), bs + {b}, SetOf(params));
  }

  lemma {:induction false} SlotsDistinctAll(es: seq<Expr>, escapes: set<nat>)
    requires UniqueAll(es)
    ensures DistinctSlots(FrameSlotsAll(es, escapes)) && SlotsIn(FrameSlotsAll(es, escapes), OwnedAll(es))
    decreases es, 0
  {
    if es != [] {
      SlotsDistinct(es[0], escapes);
      SlotsDistinctAll(es[1..], escapes);
      DistinctAppend(FrameSlots(es[0], escapes), FrameSlotsAll(es[1..], escapes), Owned(es[0]), OwnedAll(es[1..]));
    }
  }

  // ----- continuations and argument buffers in a frame -----

  /** The parts of e whose slots go to the same function as e's own. */
  function PartsOf(e: Expr): seq<Expr> {
    match e
    case Literal(_) => []
    case Symbol(_) => []
    case Function(_, _, _) => []
    case Continuation(_, _, body, _) => [body]
    case With(_, _, body, _) => [body]
    case Storage(_, args) => args
    case Jump(target, args, _) => [target] + args
    case Invoke(target, args, _) => [target] + args
    case If(c, t, f) => [c, t, f]
    case Constrain(body) => [body]
  }

  function Size(e: Expr): nat
    decreases e, 1
  {
    match e
    case Literal(_) => 1
    case Symbol(_) => 1
    case Function(_, _, _) => 1
    case Continuation(_, _, body, _) => 2 + Size(body)
    case With(_, _, body, _) => 2 + Size(body)
    case Storage(_, args) => 1 + SizeAll(args)
    case Jump(target, args, _) => 2 + Size(target) + SizeAll(args)
    case Invoke(target, args, _) => 2 + Size(target) + SizeAll(args)
    case If(c, t, f) => 4 + Size(c) + Size(t) + Size(f)
    case Constrain(body) => 2 + Size(body)
  }

  function SizeAll(es: seq<Expr>): nat
    decreases es, 0
  {
    if es == [] then 0 else 1 + Size(es[0]) + SizeAll(es[1..])
  }

  lemma {:induction false} SizeOfParts(e: Expr)
    ensures Size(e) == 1 + SizeAll(PartsOf(e))
  {
    match e
    case Jump(target, args, _) => assert PartsOf(e)[1..] == args;
    case Invoke(target, args, _) => assert PartsOf(e)[1..] == args;
    case If(c, t, f) =>
      assert PartsOf(e)[1..] == [t, f] && [t, f][1..] == [f] && [f][1..] == [];
      assert SizeAll([f]) == 1 + Size(f) && SizeAll([t, f]) == 1 + Size(t) + SizeAll([f]);
    case Continuation(_, _, body, _) => assert [body][1..] == [];
    case With(_, _, body, _) => assert [body][1..] == [];
    case Constrain(body) => assert [body][1..] == [];
    case _ =>
  }

  /** n is e or lies in e outside the functions nested in it: their slots share a frame. */
  ghost predicate SameFrame(e: Expr, n: Expr)
    decreases Size(e), 1
  {
    SizeOfParts(e);
    e == n || SameFrameAny(PartsOf(e), n)
  }

  ghost predicate SameFrameAny(es: seq<Expr>, n: Expr)
    decreases SizeAll(es), 0
  {
    es != [] && (SameFrame(es[0], n) || SameFrameAny(es[1..], n))
  }

  /** The parameters of a continuation or with. */
  function Formals(n: Expr): seq<nat>
    requires n.Continuation? || n.With?
  {
    if n.With? then [n.param] else n.params
  }

  /** The slots that n itself adds, after those of its parts. */
  function OwnRun(n: Expr, escapes: set<nat>): seq<Slot> {
    match n
    case Continuation(b, _, _, _) => (if b in escapes then [Slot(b, CONT_SIZE)] else []) + ParamSlots(Formals(n))
    case With(b, _, _, _) => (if b in escapes then [Slot(b, CONT_SIZE)] else []) + ParamSlots(Formals(n))
    case Storage(b, args) => [Slot(b, |args| * WORD_SIZE)]
    case Jump(target, args, temp) => if BufferFlag(target, args) == CONTAINS_WITH then [Slot(temp, WORD_SIZE * |args|)] else []
    case Invoke(target, args, temp) => if BufferFlag(target, args) == CONTAINS_WITH then [Slot(temp, WORD_SIZE * |args|)] else []
    case _ => []
  }

  ghost predicate RunAt(slots: seq<Slot>, run: seq<Slot>, i: nat) {
    i + |run| <= |slots| && slots[i..i + |run|] == run
  }

  ghost predicate HasRun(slots: seq<Slot>, run: seq<Slot>) {
    exists i: nat :: RunAt(slots, run, i)
  }

  lemma {:induction false} RunAppend(a: seq<Slot>, b: seq<Slot>, run: seq<Slot>)
    ensures HasRun(a, run) || HasRun(b, run) ==> HasRun(a + b, run)
  {
    if HasRun(a, run) {
      var i: nat :| RunAt(a, run, i);
      assert (a + b)[i..i + |run|] == a[i..i + |run|];
      assert RunAt(a + b, run, i);
    } else if HasRun(b, run) {
      var i: nat :| RunAt(b, run, i);
      assert (a + b)[|a| + i..|a| + i + |run|] == b[i..i + |run|];
      assert RunAt(a + b, run, |a| + i);
    }
  }

  lemma {:induction false} RunIsLast(a: seq<Slot>, run: seq<Slot>)
    ensures HasRun(a + run, run)
  {
    assert RunAt(a + run, run, |a|);
  }

  lemma {:induction false} OnePart(e: Expr, escapes: set<nat>)
    ensures FrameSlotsAll([e], escapes) == FrameSlots(e, escapes)
  {
    hide FrameSlots;
    assert [e][1..] == [] && FrameSlotsAll([], escapes) == [];
  }

  lemma {:induction false} FirstPart(e: Expr, es: seq<Expr>, escapes: set<nat>)
    ensures FrameSlotsAll([e] + es, escapes) == FrameSlots(e, escapes) + FrameSlotsAll(es, escapes)
  {
    hide FrameSlots;
    assert ([e] + es)[1..] == es;
  }

  lemma {:induction false} FrameSlotsSplit(e: Expr, escapes: set<nat>)
    ensures FrameSlots(e, escapes) == FrameSlotsAll(PartsOf(e), escapes) + OwnRun(e, escapes)
  {
    hide FrameSlotsAll, BufferFlag, CONTAINS_WITH, ParamSlots;
    match e
    case Jump(target, args, _) => FirstPart(target, args, escapes);
    case Invoke(target, args, _) => FirstPart(target, args, escapes);
    case If(c, t, f) =>
      FirstPart(c, [t, f], escapes);
      FirstPart(t, [f], escapes);
      OnePart(f, escapes);
      assert [c] + [t, f] == [c, t, f] && [t] + [f] == [t, f];
    case Continuation(_, _, body, _) => OnePart(body, escapes);
    case With(_, _, body, _) => OnePart(body, escapes);
    case Constrain(body) => OnePart(body, escapes);
    case _ => NoParts(escapes);
  }

  lemma {:induction false} NoParts(escapes: set<nat>)
    ensures FrameSlotsAll([], escapes) == []
  {}

  /** What an expression adds to the list stays together in the list of the function around it. */
  lemma {:induction false} OwnRunInFrame(e: Expr, n: Expr, escapes: set<nat>)
    requires SameFrame(e, n)
    ensures HasRun(FrameSlots(e, escapes), OwnRun(n, escapes))
    decreases Size(e), 1
  {
    hide HasRun, FrameSlots, FrameSlotsAll, OwnRun, PartsOf;
    FrameSlotsSplit(e, escapes);
    SizeOfParts(e);
    if e == n {
      RunIsLast(FrameSlotsAll(PartsOf(e), escapes), OwnRun(e, escapes));
    } else {
      OwnRunInFrameAny(PartsOf(e), n, escapes);
      RunAppend(FrameSlotsAll(PartsOf(e), escapes), OwnRun(e, escapes), OwnRun(n, escapes));
    }
  }

  lemma {:induction false} OwnRunInFrameAny(es: seq<Expr>, n: Expr, escapes: set<nat>)
    requires SameFrameAny(es, n)
    ensures HasRun(FrameSlotsAll(es, escapes), OwnRun(n, escapes))
    decreases SizeAll(es), 0
  {
    hide HasRun, OwnRun, FrameSlots;
    if SameFrame(es[0], n) { OwnRunInFrame(es[0], n, escapes); } else { OwnRunInFrameAny(es[1..], n, escapes); }
    RunAppend(FrameSlots(es[0], escapes), FrameSlotsAll(es[1..], escapes), OwnRun(n, escapes));
  }

  /** Both runs occur, and they do not overlap. */
  ghost predicate Apart(slots: seq<Slot>, run: seq<Slot>, run': seq<Slot>) {
    exists i: nat, j: nat :: RunAt(slots, run, i) && RunAt(slots, run', j) && (i + |run| <= j || j + |run'| <= i)
  }

  lemma {:induction false} ApartAppend(a: seq<Slot>, b: seq<Slot>, run: seq<Slot>, run': seq<Slot>)
    ensures Apart(a, run, run') || Apart(b, run, run') ==> Apart(a + b, run, run')
    ensures HasRun(a, run) && HasRun(b, run') ==> Apart(a + b, run, run') && Apart(a + b, run', run)
  {
    forall r, i: nat | RunAt(a, r, i) ensures RunAt(a + b, r, i) { assert (a + b)[i..i + |r|] == a[i..i + |r|]; }
    forall r, i: nat | RunAt(b, r, i) ensures RunAt(a + b, r, |a| + i) {
      assert (a + b)[|a| + i..|a| + i + |r|] == b[i..i + |r|];
    }
    hide RunAt;
    if Apart(b, run, run') && !Apart(a, run, run') {
      var i: nat, j: nat :| RunAt(b, run, i) && RunAt(b, run', j) && (i + |run| <= j || j + |run'| <= i);
      assert RunAt(a + b, run, |a| + i) && RunAt(a + b, run', |a| + j);
    }
    if HasRun(a, run) && HasRun(b, run') {
      var i: nat :| RunAt(a, run, i);
      var j: nat :| RunAt(b, run', j);
      RunFits(a, run, i);
      assert RunAt(a + b, run, i) && RunAt(a + b, run', |a| + j);
    }
  }

  lemma {:induction false} RunFits(slots: seq<Slot>, run: seq<Slot>, i: nat)
    requires RunAt(slots, run, i)
    ensures i + |run| <= |slots|
  {}

  /** Different expressions of one frame have different slots. */
  lemma {:induction false} RunsApart(e: Expr, n: Expr, m: Expr, escapes: set<nat>)
    requires SameFrame(e, n) && SameFrame(e, m) && n != m
    ensures Apart(FrameSlots(e, escapes), OwnRun(n, escapes), OwnRun(m, escapes))
    decreases Size(e), 1
  {
    hide HasRun, Apart, FrameSlots, FrameSlotsAll, OwnRun, PartsOf;
    FrameSlotsSplit(e, escapes);
    SizeOfParts(e);
    var parts, own := FrameSlotsAll(PartsOf(e), escapes), OwnRun(e, escapes);
    RunItself(own);
    if e == n {
      OwnRunInFrameAny(PartsOf(e), m, escapes);
      ApartAppend(parts, own, OwnRun(m, escapes), own);
    } else if e == m {
      OwnRunInFrameAny(PartsOf(e), n, escapes);
      ApartAppend(parts, own, OwnRun(n, escapes), own);
    } else {
      RunsApartAny(PartsOf(e), n, m, escapes);
      ApartAppend(parts, own, OwnRun(n, escapes), OwnRun(m, escapes));
    }
  }

  lemma {:induction false} RunItself(run: seq<Slot>)
    ensures HasRun(run, run)
  {
    assert RunAt(run, run, 0);
  }

  lemma {:induction false} RunsApartAny(es: seq<Expr>, n: Expr, m: Expr, escapes: set<nat>)
    requires SameFrameAny(es, n) && SameFrameAny(es, m) && n != m
    ensures Apart(FrameSlotsAll(es, escapes), OwnRun(n, escapes), OwnRun(m, escapes))
    decreases SizeAll(es), 0
  {
    hide HasRun, Apart, FrameSlots, OwnRun;
    var e, rest := es[0], es[1..];
    var here, there := FrameSlots(e, escapes), FrameSlotsAll(rest, escapes);
    ApartAppend(here, there, OwnRun(n, escapes), OwnRun(m, escapes));
    ApartAppend(here, there, OwnRun(m, escapes), OwnRun(n, escapes));
    if SameFrame(e, n) && SameFrame(e, m) {
      RunsApart(e, n, m, escapes);
    } else if SameFrame(e, n) {
      OwnRunInFrame(e, n, escapes);
      OwnRunInFrameAny(rest, m, escapes);
    } else if SameFrame(e, m) {
      OwnRunInFrame(e, m, escapes);
      OwnRunInFrameAny(rest, n, escapes);
    } else {
      RunsApartAny(rest, n, m, escapes);
    }
  }

  /** The first parameter of n is at offset o, the others follow in consecutive words, and the buffer
      of n, if it has one, lies directly below. */
  ghost predicate BlockAt(n: Expr, escapes: set<nat>, P: Places, o: int)
    requires n.Continuation? || n.With?
  {
    && o % WORD_SIZE == 0
    && (forall k :: 0 <= k < |Formals(n)| ==> Formals(n)[k] in P && P[Formals(n)[k]] == FrameRelative(o + k * WORD_SIZE))
    && (n.bndg in escapes ==> n.bndg in P && P[n.bndg] == FrameRelative(o - CONT_SIZE))
  }

  /** The offset at which the block of n starts. */
  function BlockStart(n: Expr, escapes: set<nat>, o: int): int
    requires n.Continuation? || n.With?
  {
    if n.bndg in escapes then o - CONT_SIZE else o
  }

  /** Every continuation and with of a laid out function has its block inside the function's frame. */
  lemma {:induction false} ContinuationGeometry(g: Expr, n: Expr, escapes: set<nat>, P: Places, F: FrameSizes) returns (o: int)
    requires g.Function? && LaidOut(g, escapes, P, F) && SameFrame(g.body, n) && (n.Continuation? || n.With?)
    ensures BlockAt(n, escapes, P, o)
    ensures g.bndg in F && F[g.bndg] <= BlockStart(n, escapes, o) && o + |Formals(n)| * WORD_SIZE <= 0
  {
    OwnRunInFrame(g.body, n, escapes);
    hide SameFrame, FrameSlots, LaidOut, OwnRun, RunAt;
    var i: nat :| RunAt(FrameSlots(g.body, escapes), OwnRun(n, escapes), i);
    o := BlockGeometry(g, n, escapes, P, F, i);
  }

  lemma {:induction false} BlockGeometry(g: Expr, n: Expr, escapes: set<nat>, P: Places, F: FrameSizes, i: nat) returns (o: int)
    requires g.Function? && LaidOut(g, escapes, P, F) && (n.Continuation? || n.With?)
    requires RunAt(FrameSlots(g.body, escapes), OwnRun(n, escapes), i)
    ensures BlockAt(n, escapes, P, o) && |OwnRun(n, escapes)| == |Formals(n)| + if n.bndg in escapes then 1 else 0
    ensures g.bndg in F && F[g.bndg] <= BlockStart(n, escapes, o) && o + |Formals(n)| * WORD_SIZE <= 0
    ensures i <= |FrameSlots(g.body, escapes)| && BlockStart(n, escapes, o) == -Total(FrameSlots(g.body, escapes)[i..])
    ensures forall h :: i + |OwnRun(n, escapes)| <= h <= |FrameSlots(g.body, escapes)| ==>
      o + |Formals(n)| * WORD_SIZE <= -Total(FrameSlots(g.body, escapes)[h..])
  {
    hide SameFrame, FrameSlots, LaidOut, Total, SlotOffset, SlotsPlaced, OwnRun, ParamSlots, RunAt, HasRun;
    var slots, params := FrameSlots(g.body, escapes), Formals(n);
    var first := OwnRunSplit(slots, n, escapes, i);
    o := -Total(slots[first..]);
    RunBounds(slots, i, first);
    FunctionFacts(g, escapes, P, F);
    forall k | 0 <= k < |params| ensures params[k] in P && P[params[k]] == FrameRelative(o + k * WORD_SIZE) {
      ParamOffset(slots, params, first, k);
      SlotIsPlaced(slots, P, first + k);
    }
    if params != [] { ParamOffset(slots, params, first, |params| - 1); }
    if n.bndg in escapes { SlotIsPlaced(slots, P, i); }
    forall h | first + |params| <= h <= |slots| ensures o + |params| * WORD_SIZE <= -Total(slots[h..]) {
      AfterParams(slots, params, first, h);
    }
  }

  lemma {:induction false} AfterParams(slots: seq<Slot>, params: seq<nat>, j: nat, h: nat)
    requires RunAt(slots, ParamSlots(params), j) && j + |params| <= h <= |slots|
    ensures -Total(slots[j..]) + |params| * WORD_SIZE <= -Total(slots[h..])
  {
    if params == [] {
      TotalFalls(slots, j, h);
    } else {
      var k := |params| - 1;
      ParamOffset(slots, params, j, k);
      TotalStep(slots, j + k);
      TotalFalls(slots, j + k + 1, h);
    }
  }

  /** The argument buffer of a jump or invoke lies in the frame, apart from the block of any
      continuation or with of the same function. */
  lemma {:induction false} BufferGeometry(g: Expr, n: Expr, j: Expr, escapes: set<nat>, P: Places, F: FrameSizes) returns (o: int, d: int)
    requires g.Function? && LaidOut(g, escapes, P, F) && SameFrame(g.body, n) && (n.Continuation? || n.With?)
    requires SameFrame(g.body, j) && (j.Jump? || j.Invoke?) && BufferFlag(j.target, j.args) == CONTAINS_WITH
    ensures BlockAt(n, escapes, P, o)
    ensures g.bndg in F && F[g.bndg] <= BlockStart(n, escapes, o) && o + |Formals(n)| * WORD_SIZE <= 0
    ensures j.temp in P && P[j.temp] == FrameRelative(d) && d % WORD_SIZE == 0
    ensures F[g.bndg] <= d && d + |j.args| * WORD_SIZE <= 0
    ensures d + |j.args| * WORD_SIZE <= BlockStart(n, escapes, o) || o + |Formals(n)| * WORD_SIZE <= d
  {
    RunsApart(g.body, n, j, escapes);
    hide SameFrame, FrameSlots, LaidOut, OwnRun, RunAt, BlockAt, BlockStart, Total, BufferFlag;
    var slots := FrameSlots(g.body, escapes);
    var i: nat, h: nat :| RunAt(slots, OwnRun(n, escapes), i) && RunAt(slots, OwnRun(j, escapes), h)
      && (i + |OwnRun(n, escapes)| <= h || h + |OwnRun(j, escapes)| <= i);
    o := BlockGeometry(g, n, escapes, P, F, i);
    d := SlotGeometry(g, j, escapes, P, F, h);
    if h + 1 <= i {
      TotalFalls(slots, h + 1, i);
    }
  }

  lemma {:induction false} SlotGeometry(g: Expr, j: Expr, escapes: set<nat>, P: Places, F: FrameSizes, h: nat) returns (d: int)
    requires g.Function? && LaidOut(g, escapes, P, F) && RunAt(FrameSlots(g.body, escapes), OwnRun(j, escapes), h)
    requires (j.Jump? || j.Invoke?) && BufferFlag(j.target, j.args) == CONTAINS_WITH
    ensures |OwnRun(j, escapes)| == 1 && h < |FrameSlots(g.body, escapes)|
    ensures j.temp in P && P[j.temp] == FrameRelative(d) && d % WORD_SIZE == 0
    ensures d == -Total(FrameSlots(g.body, escapes)[h..]) && d + |j.args| * WORD_SIZE <= -Total(FrameSlots(g.body, escapes)[h + 1..])
    ensures g.bndg in F && F[g.bndg] <= d && d + |j.args| * WORD_SIZE <= 0
  {
    var slots := FrameSlots(g.body, escapes);
    RunItem(slots, OwnRun(j, escapes), h, 0);
    hide FrameSlots, RunAt;
    d := SlotOffset(slots, h);
    SlotIsPlaced(slots, P, h);
    TotalStep(slots, h);
    SlotInFrame(slots, h);
  }

  lemma {:induction false} FunctionFacts(g: Expr, escapes: set<nat>, P: Places, F: FrameSizes)
    requires g.Function? && LaidOut(g, escapes, P, F)
    ensures SlotsPlaced(FrameSlots(g.body, escapes), P) && g.bndg in F && F[g.bndg] == -Total(FrameSlots(g.body, escapes))
  {}

  lemma {:induction false} SlotIsPlaced(slots: seq<Slot>, P: Places, i: nat)
    requires SlotsPlaced(slots, P) && i < |slots|
    ensures slots[i].bndg in P && P[slots[i].bndg] == FrameRelative(SlotOffset(slots, i))
  {}

  lemma {:induction false} RunBounds(slots: seq<Slot>, i: nat, first: nat)
    requires i <= first <= |slots| && first <= i + 1 && (first == i + 1 ==> slots[i].size == CONT_SIZE)
    ensures Total(slots[first..]) % WORD_SIZE == 0 && 0 <= Total(slots[first..])
    ensures Total(slots[i..]) <= Total(slots)
    ensures first == i + 1 ==> SlotOffset(slots, i) == -Total(slots[first..]) - CONT_SIZE
    ensures Total(slots[i..]) == Total(slots[first..]) + if first == i + 1 then CONT_SIZE else 0
  {
    assert slots[0..] == slots;
    TotalFalls(slots, 0, i);
    TotalFalls(slots, first, first);
    if first == i + 1 { TotalStep(slots, i); }
  }

  lemma {:induction false} RunItem(slots: seq<Slot>, run: seq<Slot>, i: nat, h: nat)
    requires RunAt(slots, run, i) && h < |run|
    ensures i + h < |slots| && slots[i + h] == run[h]
  {
    assert slots[i..i + |run|][h] == slots[i + h];
  }

  /** The k-th of a run of parameter slots that starts at index j. */
  lemma {:induction false} ParamOffset(slots: seq<Slot>, params: seq<nat>, j: nat, k: nat)
    requires RunAt(slots, ParamSlots(params), j) && k < |params|
    ensures j + k < |slots| && slots[j + k] == Slot(params[k], WORD_SIZE)
    ensures SlotOffset(slots, j + k) == -Total(slots[j..]) + k * WORD_SIZE
    ensures -Total(slots[j..]) + (k + 1) * WORD_SIZE <= 0
  {
    hide RunAt, Total, PadSize;
    forall h | j <= h <= j + k ensures h < |slots| && slots[h].size == WORD_SIZE {
      RunItem(slots, ParamSlots(params), j, h - j);
    }
    RunItem(slots, ParamSlots(params), j, k);
    WordsAreConsecutive(slots, j, k);
    SlotInFrame(slots, j + k);
  }

  /** Whether n has a buffer, the index of its first parameter's slot is `first`. */
  lemma {:induction false} OwnRunSplit(slots: seq<Slot>, n: Expr, escapes: set<nat>, i: nat) returns (first: nat)
    requires (n.Continuation? || n.With?) && RunAt(slots, OwnRun(n, escapes), i)
    ensures RunAt(slots, ParamSlots(Formals(n)), first) && first <= |slots|
    ensures first == (if n.bndg in escapes then i + 1 else i) && i + |OwnRun(n, escapes)| == first + |Formals(n)|
    ensures n.bndg in escapes ==> i < |slots| && slots[i] == Slot(n.bndg, CONT_SIZE)
  {
    var run, params := OwnRun(n, escapes), Formals(n);
    first := if n.bndg in escapes then i + 1 else i;
    if n.bndg in escapes {
      assert run == [Slot(n.bndg, CONT_SIZE)] + ParamSlots(params);
      assert slots[i + 1..i + 1 + |params|] == slots[i..i + |run|][1..];
      assert slots[i..i + |run|][0] == slots[i];
    } else {
      assert run == ParamSlots(params);
    }
  }

  function Ids(slots: seq<Slot>): set<nat> { set i | 0 <= i < |slots| :: slots[i].bndg }

  /** The bindings in e whose places are settled within e, rather than by the function around it. */
  function Decided(e: Expr, escapes: set<nat>): set<nat>
    decreases e, 1
  {
    match e
    case Literal(_) => {}
    case Symbol(_) => {}
    case Function(b, params, body) => {b} + SetOf(params) + Ids(FrameSlots(body, escapes)) + Decided(body, escapes)
    case Continuation(_, _, body, _) => Decided(body, escapes)
    case With(_, _, body, _) => Decided(body, escapes)
    case Storage(_, args) => DecidedAll(args, escapes)
    case Jump(target, args, temp) =>
      Decided(target, escapes) + DecidedAll(args, escapes) + (if BufferFlag(target, args) == CONTAINS_WITH then {} else {temp})
    case Invoke(target, args, temp) =>
      Decided(target, escapes) + DecidedAll(args, escapes) + (if BufferFlag(target, args) == CONTAINS_WITH then {} else {temp})
    case If(c, t, f) => Decided(c, escapes) + Decided(t, escapes) + Decided(f, escapes)
    case Constrain(body) => Decided(body, escapes)
  }

  function DecidedAll(es: seq<Expr>, escapes: set<nat>): set<nat>
    decreases es, 0
  {
    if es == [] then {} else Decided(es[0], escapes) + DecidedAll(es[1..], escapes)
  }

  /** The bindings whose places layout assigns within e: all of those but the functions themselves. */
  function Movable(e: Expr, escapes: set<nat>): set<nat>
    decreases e, 1
  {
    match e
    case Literal(_) => {}
    case Symbol(_) => {}
    case Function(b, params, body) => SetOf(params) + Ids(FrameSlots(body, escapes)) + Movable(body, escapes)
    case Continuation(_, _, body, _) => Movable(body, escapes)
    case With(_, _, body, _) => Movable(body, escapes)
    case Storage(_, args) => MovableAll(args, escapes)
    case Jump(target, args, temp) =>
      Movable(target, escapes) + MovableAll(args, escapes) + (if BufferFlag(target, args) == CONTAINS_WITH then {} else {temp})
    case Invoke(target, args, temp) =>
      Movable(target, escapes) + MovableAll(args, escapes) + (if BufferFlag(target, args) == CONTAINS_WITH then {} else {temp})
    case If(c, t, f) => Movable(c, escapes) + Movable(t, escapes) + Movable(f, escapes)
    case Constrain(body) => Movable(body, escapes)
  }

  function MovableAll(es: seq<Expr>, escapes: set<nat>): set<nat>
    decreases es, 0
  {
    if es == [] then {} else Movable(es[0], escapes) + MovableAll(es[1..], escapes)
  }

  /** The places of the code bindings are kept. */
  ghost predicate KeepsCode(code: set<nat>, P: Places, P': Places) {
    forall b :: b in code ==> (b in P <==> b in P') && (b in P ==> P'[b] == P[b])
  }

  lemma {:induction false} KeepsThen(code: set<nat>, P: Places, P1: Places, P2: Places)
    requires KeepsCode(code, P, P1) && KeepsCode(code, P1, P2)
    ensures KeepsCode(code, P, P2)
  {}

  lemma {:induction false} OnlyKeeps(code: set<nat>, bs: set<nat>, P: Places, F: FrameSizes, P': Places, F': FrameSizes)
    requires Only(bs, P, F, P', F') && code !! bs
    ensures KeepsCode(code, P, P')
  {}

  lemma {:induction false} MovableSnoc(es: seq<Expr>, k: nat, escapes: set<nat>)
    requires k < |es|
    ensures Movable(es[k], escapes) <= MovableAll(es, escapes)
    decreases k
  {
    hide Movable;
    if k > 0 {
      MovableSnoc(es[1..], k - 1, escapes);
    }
  }

  lemma {:induction false} IdsIn(slots: seq<Slot>, bs: set<nat>)
    requires SlotsIn(slots, bs)
    ensures Ids(slots) <= bs
  {}

  lemma {:induction false} IdsAppend(a: seq<Slot>, b: seq<Slot>)
    ensures Ids(a + b) == Ids(a) + Ids(b)
  {
    forall x | x in Ids(a + b) ensures x in Ids(a) + Ids(b) {
      var i :| 0 <= i < |a + b| && (a + b)[i].bndg == x;
      if i >= |a| { assert b[i - |a|].bndg == x; } else { assert a[i].bndg == x; }
    }
    forall x | x in Ids(a) + Ids(b) ensures x in Ids(a + b) {
      if x in Ids(a) {
        var i :| 0 <= i < |a| && a[i].bndg == x;
        assert (a + b)[i].bndg == x;
      } else {
        var i :| 0 <= i < |b| && b[i].bndg == x;
        assert (a + b)[|a| + i].bndg == x;
      }
    }
  }

  /** Layout settles in e only what e owns, and none of the slots it leaves to the function around it. */
  lemma {:induction false} DecidedApart(e: Expr, escapes: set<nat>)
    requires Unique(e)
    ensures Decided(e, escapes) <= Owned(e) && Ids(FrameSlots(e, escapes)) <= Owned(e)
    ensures Ids(FrameSlots(e, escapes)) !! Decided(e, escapes)
    decreases e, 1
  {
    SlotsDistinct(e, escapes);
    IdsIn(FrameSlots(e, escapes), Owned(e));
    match e
    case Literal(_) =>
    case Symbol(_) =>
    case Function(b, params, body) =>
      DecidedApart(body, escapes);
      assert Ids([]) == {};
    case Continuation(b, params, body, _) =>
      DecidedApart(body, escapes);
      ContinuationApart(FrameSlots(body, escapes), Owned(body), Decided(body, escapes), b, params, escapes);
    case With(b, param, body, _) =>
      DecidedApart(body, escapes);
      ContinuationApart(FrameSlots(body, escapes), Owned(body), Decided(body, escapes), b, [param], escapes);
    case Storage(b, args) =>
      DecidedApartAll(args, escapes);
      IdsAppend(FrameSlotsAll(args, escapes), [Slot(b, |args| * WORD_SIZE)]);
    case Jump(target, args, temp) => BufferApart(e, target, args, temp, escapes);
    case Invoke(target, args, temp) => BufferApart(e, target, args, temp, escapes);
    case If(c, t, f) =>
      DecidedApart(c, escapes);
      DecidedApart(t, escapes);
      DecidedApart(f, escapes);
      IdsAppend(FrameSlots(c, escapes), FrameSlots(t, escapes));
      IdsAppend(FrameSlots(c, escapes) + FrameSlots(t, escapes), FrameSlots(f, escapes));
    case Constrain(body) => DecidedApart(body, escapes);
  }

  lemma {:induction false} BufferApart(e: Expr, target: Expr, args: seq<Expr>, temp: nat, escapes: set<nat>)
    requires Unique(e) && (e == Jump(target, args, temp) || e == Invoke(target, args, temp))
    ensures Decided(e, escapes) <= Owned(e) && Ids(FrameSlots(e, escapes)) !! Decided(e, escapes)
    decreases e, 0
  {
    DecidedApart(target, escapes);
    DecidedApartAll(args, escapes);
    IdsAppend(FrameSlots(target, escapes), FrameSlotsAll(args, escapes));
    var tail := if BufferFlag(target, args) == CONTAINS_WITH then [Slot(temp, WORD_SIZE * |args|)] else [];
    IdsAppend(FrameSlots(target, escapes) + FrameSlotsAll(args, escapes), tail);
    hide Ids;
    BufferIds(temp, |args|);
  }

  lemma {:induction false} BufferIds(temp: nat, n: nat)
    ensures Ids([Slot(temp, WORD_SIZE * n)]) == {temp} && Ids([]) == {}
  {
    assert [Slot(temp, WORD_SIZE * n)][0].bndg == temp;
  }

  lemma {:induction false} ContinuationApart(slots: seq<Slot>, bs: set<nat>, ds: set<nat>, b: nat, params: seq<nat>, escapes: set<nat>)
    requires Ids(slots) <= bs && ds <= bs && Ids(slots) !! ds && SetOf(params) !! bs && b !in bs
    ensures Ids(slots + (if b in escapes then [Slot(b, CONT_SIZE)] else []) + ParamSlots(params)) !! ds
  {
    var mid := if b in escapes then [Slot(b, CONT_SIZE)] else [];
    IdsAppend(slots, mid);
    IdsAppend(slots + mid, ParamSlots(params));
    forall x | x in Ids(ParamSlots(params)) ensures x in SetOf(params) {}
  }

  lemma {:induction false} DecidedApartAll(es: seq<Expr>, escapes: set<nat>)
    requires UniqueAll(es)
    ensures DecidedAll(es, escapes) <= OwnedAll(es) && Ids(FrameSlotsAll(es, escapes)) <= OwnedAll(es)
    ensures Ids(FrameSlotsAll(es, escapes)) !! DecidedAll(es, escapes)
    decreases es, 0
  {
    SlotsDistinctAll(es, escapes);
    IdsIn(FrameSlotsAll(es, escapes), OwnedAll(es));
    if es != [] {
      DecidedApart(es[0], escapes);
      DecidedApartAll(es[1..], escapes);
      IdsAppend(FrameSlots(es[0], escapes), FrameSlotsAll(es[1..], escapes));
    }
  }

  ghost predicate AgreeOn(bs: set<nat>, P: Places, F: FrameSizes, P': Places, F': FrameSizes) {
    forall b :: b in bs ==> (b in P <==> b in P') && (b in P ==> P[b] == P'[b]) && (b in F <==> b in F') && (b in F ==> F[b] == F'[b])
  }

  /** A layout is not disturbed by later decisions about other bindings. */
  lemma {:induction false} LaidOutAgree(e: Expr, escapes: set<nat>, P: Places, F: FrameSizes, P': Places, F': FrameSizes)
    requires LaidOut(e, escapes, P, F) && AgreeOn(Decided(e, escapes), P, F, P', F')
    ensures LaidOut(e, escapes, P', F')
    decreases e, 1
  {
    match e
    case Literal(_) =>
    case Symbol(_) =>
    case Function(b, params, body) =>
      forall k | 0 <= k < |params| ensures params[k] in Decided(e, escapes) { assert params[k] in SetOf(params); }
      forall i | 0 <= i < |FrameSlots(body, escapes)| ensures FrameSlots(body, escapes)[i].bndg in Decided(e, escapes) {
        assert FrameSlots(body, escapes)[i].bndg in Ids(FrameSlots(body, escapes));
      }
      LaidOutAgree(body, escapes, P, F, P', F');
    case Continuation(_, _, body, _) => LaidOutAgree(body, escapes, P, F, P', F');
    case With(_, _, body, _) => LaidOutAgree(body, escapes, P, F, P', F');
    case Storage(_, args) => LaidOutAgreeAll(args, escapes, P, F, P', F');
    case Jump(target, args, temp) => LaidOutAgree(target, escapes, P, F, P', F'); LaidOutAgreeAll(args, escapes, P, F, P', F');
    case Invoke(target, args, temp) => LaidOutAgree(target, escapes, P, F, P', F'); LaidOutAgreeAll(args, escapes, P, F, P', F');
    case If(c, t, f) =>
      LaidOutAgree(c, escapes, P, F, P', F');
      LaidOutAgree(t, escapes, P, F, P', F');
      LaidOutAgree(f, escapes, P, F, P', F');
    case Constrain(body) => LaidOutAgree(body, escapes, P, F, P', F');
  }

  lemma {:induction false} LaidOutAgreeAll(es: seq<Expr>, escapes: set<nat>, P: Places, F: FrameSizes, P': Places, F': FrameSizes)
    requires LaidOutAll(es, escapes, P, F) && AgreeOn(DecidedAll(es, escapes), P, F, P', F')
    ensures LaidOutAll(es, escapes, P', F')
    decreases es, 0
  {
    if es != [] {
      LaidOutAgree(es[0], escapes, P, F, P', F');
      LaidOutAgreeAll(es[1..], escapes, P, F, P', F');
    }
  }

  ghost predicate Only(bs: set<nat>, P: Places, F: FrameSizes, P': Places, F': FrameSizes) {
    forall b :: b !in bs ==> (b in P <==> b in P') && (b in P ==> P[b] == P'[b]) && (b in F <==> b in F') && (b in F ==> F[b] == F'[b])
  }

  lemma {:induction false} OnlyThen(A: set<nat>, P: Places, F: FrameSizes, P1: Places, F1: FrameSizes, B: set<nat>, P2: Places, F2: FrameSizes)
    requires Only(A, P, F, P1, F1) && Only(B, P1, F1, P2, F2)
    ensures Only(A + B, P, F, P2, F2)
  {}

  /** What was laid out stays so while something that settles other bindings is laid out. */
  lemma {:induction false} StillLaidOut(e: Expr, escapes: set<nat>, P: Places, F: FrameSizes, B: set<nat>, P': Places, F': FrameSizes)
    requires LaidOut(e, escapes, P, F) && Only(B, P, F, P', F') && B !! Decided(e, escapes)
    ensures LaidOut(e, escapes, P', F')
  {
    LaidOutAgree(e, escapes, P, F, P', F');
  }

  lemma {:induction false} LastSlot(slots: seq<Slot>, i: nat)
    requires i < |slots|
    ensures SlotOffset(slots, i) == -Total(slots[i + 1..]) - PadSize(slots[i].size)
  {
    TotalStep(slots, i);
  }

  lemma {:induction false} LaidOutAllSnoc(es: seq<Expr>, k: nat, escapes: set<nat>, P: Places, F: FrameSizes)
    requires k < |es|
    ensures LaidOutAll(es[..k + 1], escapes, P, F) <==> LaidOutAll(es[..k], escapes, P, F) && LaidOut(es[k], escapes, P, F)
    ensures DecidedAll(es[..k + 1], escapes) == DecidedAll(es[..k], escapes) + Decided(es[k], escapes)
    ensures OwnedAll(es[..k + 1]) == OwnedAll(es[..k]) + Owned(es[k])
    ensures FrameSlotsAll(es[..k + 1], escapes) == FrameSlotsAll(es[..k], escapes) + FrameSlots(es[k], escapes)
    decreases k
  {
    hide LaidOut, Decided, Owned, FrameSlots;
    var tail := es[1..];
    if k == 0 {
      assert es[..1] == [es[0]] && es[..0] == [] && es[..1][1..] == [];
      assert LaidOutAll([], escapes, P, F);
    } else {
      assert es[..k + 1][1..] == tail[..k] && es[..k][1..] == tail[..k - 1] && es[k] == tail[k - 1];
      LaidOutAllSnoc(tail, k - 1, escapes, P, F);
    }
  }

  lemma {:induction false} UniqueAt(es: seq<Expr>, k: nat)
    requires k < |es| && UniqueAll(es)
    ensures Unique(es[k]) && UniqueAll(es[..k]) && OwnedAll(es[..k]) !! Owned(es[k])
    decreases k
  {
    hide Unique, Owned;
    var tail := es[1..];
    if k == 0 {
      assert es[..0] == [];
    } else {
      assert es[..k][1..] == tail[..k - 1] && es[k] == tail[k - 1];
      UniqueAt(tail, k - 1);
      OwnedPrefix(tail, k - 1);
    }
  }

  lemma {:induction false} OwnedPrefix(es: seq<Expr>, k: nat)
    requires k < |es|
    ensures OwnedAll(es[..k]) <= OwnedAll(es) && Owned(es[k]) <= OwnedAll(es)
    decreases k
  {
    hide Owned;
    if k > 0 {
      assert es[..k][1..] == es[1..][..k - 1];
      OwnedPrefix(es[1..], k - 1);
    }
  }

  lemma {:induction false} IfApart(n: Expr, escapes: set<nat>)
    requires n.If? && Unique(n)
    ensures Unique(n.condition) && Unique(n.consequent) && Unique(n.alternate)
    ensures Decided(n.condition, escapes) !! Decided(n.consequent, escapes)
    ensures Decided(n.condition, escapes) !! Decided(n.alternate, escapes)
    ensures Decided(n.consequent, escapes) !! Decided(n.alternate, escapes)
    ensures Decided(n, escapes) == Decided(n.condition, escapes) + Decided(n.consequent, escapes) + Decided(n.alternate, escapes)
    ensures Movable(n, escapes) == Movable(n.condition, escapes) + Movable(n.consequent, escapes) + Movable(n.alternate, escapes)
    ensures FrameSlots(n, escapes) == FrameSlots(n.condition, escapes) + FrameSlots(n.consequent, escapes) + FrameSlots(n.alternate, escapes)
  {
    DecidedApart(n.condition, escapes);
    DecidedApart(n.consequent, escapes);
    DecidedApart(n.alternate, escapes);
  }

  lemma {:induction false} FunctionApart(n: Expr, escapes: set<nat>)
    requires n.Function? && Unique(n)
    ensures Unique(n.body) && Distinct(n.params)
    ensures DistinctSlots(FrameSlots(n.body, escapes)) && Ids(FrameSlots(n.body, escapes)) <= Owned(n.body)
    ensures Ids(FrameSlots(n.body, escapes)) !! Decided(n.body, escapes) && Decided(n.body, escapes) <= Owned(n.body)
    ensures Decided(n, escapes) == Decided(n.body, escapes) + ({n.bndg} + SetOf(n.params) + Ids(FrameSlots(n.body, escapes)))
    ensures Movable(n, escapes) == SetOf(n.params) + Ids(FrameSlots(n.body, escapes)) + Movable(n.body, escapes)
    ensures FrameSlots(n, escapes) == []
  {
    SlotsDistinct(n.body, escapes);
    DecidedApart(n.body, escapes);
  }

  lemma {:induction false} BufferedApart(n: Expr, escapes: set<nat>)
    requires (n.Jump? || n.Invoke?) && Unique(n)
    ensures Unique(n.target) && UniqueAll(n.args)
    ensures Decided(n.target, escapes) !! DecidedAll(n.args, escapes)
    ensures var B := if BufferFlag(n.target, n.args) == CONTAINS_WITH then {} else {n.temp};
      && Movable(n, escapes) == Movable(n.target, escapes) + MovableAll(n.args, escapes) + B
      && B !! Decided(n.target, escapes) && B !! DecidedAll(n.args, escapes)
      && Decided(n, escapes) == Decided(n.target, escapes) + DecidedAll(n.args, escapes) + B
    ensures FrameSlots(n, escapes) == FrameSlots(n.target, escapes) + FrameSlotsAll(n.args, escapes) +
      (if BufferFlag(n.target, n.args) == CONTAINS_WITH then [Slot(n.temp, WORD_SIZE * |n.args|)] else [])
  {
    DecidedApart(n.target, escapes);
    DecidedApartAll(n.args, escapes);
  }

  lemma {:induction false} BufferedLaidOut(n: Expr, escapes: set<nat>, P: Places, F: FrameSizes)
    requires (n.Jump? || n.Invoke?) && LaidOut(n.target, escapes, P, F) && LaidOutAll(n.args, escapes, P, F)
    requires BufferPlaced(n.temp, BufferFlag(n.target, n.args), P)
    ensures LaidOut(n, escapes, P, F)
  {}

  lemma {:induction false} IfLaidOut(n: Expr, escapes: set<nat>, P: Places, F: FrameSizes)
    requires n.If? && LaidOut(n.condition, escapes, P, F) && LaidOut(n.consequent, escapes, P, F) && LaidOut(n.alternate, escapes, P, F)
    ensures LaidOut(n, escapes, P, F)
  {}

  /** The layout pass. A binding's type and offset are its entry in `places`; a function's current
      offset is its entry in `frames`. */
  class Layouter {
    const escapes: set<nat>
    ghost const code: set<nat>
    var places: Places
    var frames: FrameSizes

    /** `code` are the bindings of functions and entries, whose places are addresses already. */
    constructor (escapes: set<nat>, places: Places, ghost code: set<nat>)
      ensures this.escapes == escapes && this.places == places && this.code == code && frames == map[]
    {
      this.escapes, this.places, this.code, frames := escapes, places, code, map[];
    }

    method LayoutFrames(n: Expr, augs: seq<Slot>) returns (augs': seq<Slot>)
      requires Unique(n) && code !! Movable(n, escapes)
      modifies this
      ensures augs' == augs + FrameSlots(n, escapes)
      ensures LaidOut(n, escapes, places, frames)
      ensures Only(Decided(n, escapes), old(places), old(frames), places, frames)
      ensures KeepsCode(code, old(places), places)
      decreases n, 1
    {
      hide Only, KeepsCode;
      OnlySame(places, frames);
      KeepsSame(code, places);
      match n
      case Literal(_) => augs' := augs;
      case Symbol(_) => augs' := augs;
      case Function(_, _, _) =>
        LayoutFunction(n);
        augs' := augs;
      case Continuation(_, _, _, _) => augs' := LayoutContinuation(n, augs);
      case With(_, _, _, _) => augs' := LayoutContinuation(n, augs);
      case Storage(_, _) => augs' := LayoutStorage(n, augs);
      case Jump(_, _, _) => augs' := LayoutBuffered(n, augs);
      case Invoke(_, _, _) => augs' := LayoutBuffered(n, augs);
      case If(_, _, _) => augs' := LayoutIf(n, augs);
      case Constrain(body) => augs' := LayoutFrames(body, augs);
    }

    method LayoutContinuation(n: Expr, augs: seq<Slot>) returns (augs': seq<Slot>)
      requires Unique(n) && (n.Continuation? || n.With?) && code !! Movable(n, escapes)
      modifies this
      ensures augs' == augs + FrameSlots(n, escapes)
      ensures LaidOut(n, escapes, places, frames)
      ensures Only(Decided(n, escapes), old(places), old(frames), places, frames)
      ensures KeepsCode(code, old(places), places)
      decreases n, 0
    {
      hide Only, KeepsCode, ParamSlots, Owned;
      augs' := LayoutFrames(n.body, augs);
      augs' := AppendContinuation(n.bndg, Formals(n), augs');
    }

    method LayoutStorage(n: Expr, augs: seq<Slot>) returns (augs': seq<Slot>)
      requires Unique(n) && n.Storage? && code !! Movable(n, escapes)
      modifies this
      ensures augs' == augs + FrameSlots(n, escapes)
      ensures LaidOut(n, escapes, places, frames)
      ensures Only(Decided(n, escapes), old(places), old(frames), places, frames)
      ensures KeepsCode(code, old(places), places)
      decreases n, 0
    {
      hide Only, KeepsCode, Owned;
      augs' := LayoutArguments(n.args, augs);
      augs' := augs' + [Slot(n.bndg, |n.args| * WORD_SIZE)];
    }

    method LayoutIf(n: Expr, augs: seq<Slot>) returns (augs': seq<Slot>)
      requires Unique(n) && n.If? && code !! Movable(n, escapes)
      modifies this
      ensures augs' == augs + FrameSlots(n, escapes)
      ensures LaidOut(n, escapes, places, frames)
      ensures Only(Decided(n, escapes), old(places), old(frames), places, frames)
      ensures KeepsCode(code, old(places), places)
      decreases n, 0
    {
      hide Only, KeepsCode, Unique, Owned, Decided, LaidOut, FrameSlots, Movable;
      IfApart(n, escapes);
      augs' := LayoutFrames(n.condition, augs);
      ghost var P1, F1 := places, frames;
      augs' := LayoutFrames(n.consequent, augs');
      StillLaidOut(n.condition, escapes, P1, F1, Decided(n.consequent, escapes), places, frames);
      OnlyThen(Decided(n.condition, escapes), old(places), old(frames), P1, F1, Decided(n.consequent, escapes), places, frames);
      KeepsThen(code, old(places), P1, places);
      ghost var P2, F2 := places, frames;
      augs' := LayoutFrames(n.alternate, augs');
      StillLaidOut(n.condition, escapes, P2, F2, Decided(n.alternate, escapes), places, frames);
      StillLaidOut(n.consequent, escapes, P2, F2, Decided(n.alternate, escapes), places, frames);
      OnlyThen(Decided(n.condition, escapes) + Decided(n.consequent, escapes), old(places), old(frames), P2, F2, Decided(n.alternate, escapes), places, frames);
      KeepsThen(code, old(places), P2, places);
      IfLaidOut(n, escapes, places, frames);
    }

    method AppendContinuation(b: nat, params: seq<nat>, augs: seq<Slot>) returns (augs': seq<Slot>)
      ensures augs' == augs + (if b in escapes then [Slot(b, CONT_SIZE)] else []) + ParamSlots(params)
    {
      augs' := augs;
      if b in escapes {
        augs' := augs' + [Slot(b, CONT_SIZE)];
      }
      ghost var start := augs';
      for i := 0 to |params|
        invariant augs' == start + ParamSlots(params)[..i]
      {
        augs' := augs' + [Slot(params[i], WORD_SIZE)];
      }
    }

    method LayoutArguments(args: seq<Expr>, augs: seq<Slot>) returns (augs': seq<Slot>)
      requires UniqueAll(args) && code !! MovableAll(args, escapes)
      modifies this
      ensures augs' == augs + FrameSlotsAll(args, escapes)
      ensures LaidOutAll(args, escapes, places, frames)
      ensures Only(DecidedAll(args, escapes), old(places), old(frames), places, frames)
      ensures KeepsCode(code, old(places), places)
      decreases args, 0
    {
      hide Only, LaidOut, Unique, Decided, Owned, FrameSlots, Movable, MovableAll, KeepsCode;
      KeepsSame(code, places);
      OnlySame(places, frames);
      augs' := augs;
      for i := 0 to |args|
        invariant augs' == augs + FrameSlotsAll(args[..i], escapes)
        invariant LaidOutAll(args[..i], escapes, places, frames)
        invariant Only(DecidedAll(args[..i], escapes), old(places), old(frames), places, frames)
        invariant KeepsCode(code, old(places), places)
      {
        UniqueAt(args, i);
        MovableSnoc(args, i, escapes);
        DecidedApart(args[i], escapes);
        DecidedApartAll(args[..i], escapes);
        ghost var P, F := places, frames;
        augs' := LayoutFrames(args[i], augs');
        KeepsThen(code, old(places), P, places);
        StillLaidOutAll(args[..i], escapes, P, F, Decided(args[i], escapes), places, frames);
        OnlyThen(DecidedAll(args[..i], escapes), old(places), old(frames), P, F, Decided(args[i], escapes), places, frames);
        LaidOutAllSnoc(args, i, escapes, places, frames);
      }
      assert args[..|args|] == args;
    }

    method LayoutBuffered(n: Expr, augs: seq<Slot>) returns (augs': seq<Slot>)
      requires Unique(n) && (n.Jump? || n.Invoke?) && code !! Movable(n, escapes)
      modifies this
      ensures augs' == augs + FrameSlots(n, escapes)
      ensures LaidOut(n, escapes, places, frames)
      ensures Only(Decided(n, escapes), old(places), old(frames), places, frames)
      ensures KeepsCode(code, old(places), places)
      decreases n, 0
    {
      hide Only, KeepsCode, Unique, UniqueAll, Owned, OwnedAll, Decided, DecidedAll, LaidOut, LaidOutAll, FrameSlots, FrameSlotsAll, BufferPlaced, BufferFlag, CONTAINS_WITH, Movable, MovableAll;
      BufferedApart(n, escapes);
      augs' := LayoutFrames(n.target, augs);
      ghost var P1, F1 := places, frames;
      augs' := LayoutArguments(n.args, augs');
      StillLaidOut(n.target, escapes, P1, F1, DecidedAll(n.args, escapes), places, frames);
      OnlyThen(Decided(n.target, escapes), old(places), old(frames), P1, F1, DecidedAll(n.args, escapes), places, frames);
      ghost var P2, F2 := places, frames;
      KeepsThen(code, old(places), P1, P2);
      augs' := PlaceBuffer(n.temp, BufferFlag(n.target, n.args), |n.args|, augs');
      ghost var B := if BufferFlag(n.target, n.args) == CONTAINS_WITH then {} else {n.temp};
      StillLaidOut(n.target, escapes, P2, F2, B, places, frames);
      StillLaidOutAll(n.args, escapes, P2, F2, B, places, frames);
      BufferedLaidOut(n, escapes, places, frames);
      OnlyKeeps(code, B, P2, F2, places, frames);
      KeepsThen(code, old(places), P2, places);
      OnlyThen(Decided(n.target, escapes) + DecidedAll(n.args, escapes), old(places), old(frames), P2, F2, B, places, frames);
    }

    method PlaceBuffer(temp: nat, flag: nat, n: nat, augs: seq<Slot>) returns (augs': seq<Slot>)
      modifies this`places
      ensures augs' == augs + (if flag == CONTAINS_WITH then [Slot(temp, WORD_SIZE * n)] else [])
      ensures BufferPlaced(temp, flag, places)
      ensures Only(if flag == CONTAINS_WITH then {} else {temp}, old(places), frames, places, frames)
    {
      augs' := augs;
      if flag == CONTAINS_WITH {
        augs' := augs' + [Slot(temp, WORD_SIZE * n)];
      } else if flag == CONTAINS_JUMP {
        places := places[temp := NoPlace];
      } else if flag == CONTAINS_NONE {
        places := places[temp := TopRelative(0)];
      }
    }

    method LayoutFunction(n: Expr)
      requires n.Function? && Unique(n) && code !! Movable(n, escapes)
      modifies this
      ensures LaidOut(n, escapes, places, frames)
      ensures Only(Decided(n, escapes), old(places), old(frames), places, frames)
      ensures KeepsCode(code, old(places), places)
      decreases n, 0
    {
      hide Only, KeepsCode, Unique, Owned, Decided, LaidOut, FrameSlots, Movable, Total, SlotOffset, SlotsPlaced, ParamsPlaced, DistinctSlots, Distinct;
      FunctionApart(n, escapes);
      var own := LayoutFrames(n.body, []);
      assert own == FrameSlots(n.body, escapes);
      ghost var P1, F1 := places, frames;
      PlaceParameters(n.params);
      ghost var P2 := places;
      PlaceSlots(own);
      frames := frames[n.bndg := if own == [] then 0 else SlotOffset(own, 0)];
      FrameOffset(own);
      FunctionKeeps(code, n.params, own, old(places), P1, F1, P2, places);
      FunctionPlaced(n, escapes, P1, F1, P2, places, frames);
      OnlyThen(Decided(n.body, escapes), old(places), old(frames), P1, F1, {n.bndg} + SetOf(n.params) + Ids(own), places, frames);
    }

    method PlaceParameters(params: seq<nat>)
      requires Distinct(params)
      modifies this`places
      ensures ParamsPlaced(params, places)
      ensures Only(SetOf(params), old(places), frames, places, frames)
    {
      var offset := 2 * WORD_SIZE;
      for k := 0 to |params|
        invariant offset == 2 * WORD_SIZE + k * WORD_SIZE
        invariant forall j :: 0 <= j < k ==> params[j] in places && places[params[j]] == FrameRelative(2 * WORD_SIZE + j * WORD_SIZE)
        invariant Only(SetOf(params), old(places), frames, places, frames)
      {
        places := places[params[k] := FrameRelative(offset)];
        offset := offset + WORD_SIZE;
      }
    }

    /** Gives the slots their offsets, the last one first. */
    method PlaceSlots(own: seq<Slot>)
      requires DistinctSlots(own)
      modifies this`places
      ensures SlotsPlaced(own, places)
      ensures Only(Ids(own), old(places), frames, places, frames)
    {
      var offset := 0;
      var i: nat := |own|;
      while i > 0
        invariant i <= |own| && offset == -Total(own[i..])
        invariant forall j :: i <= j < |own| ==> own[j].bndg in places && places[own[j].bndg] == FrameRelative(SlotOffset(own, j))
        invariant Only(Ids(own), old(places), frames, places, frames)
      {
        i := i - 1;
        LastSlot(own, i);
        offset := offset - PadSize(own[i].size);
        assert own[i].bndg in Ids(own);
        places := places[own[i].bndg := FrameRelative(offset)];
      }
    }
  }

  lemma {:induction false} KeepsSame(code: set<nat>, P: Places)
    ensures KeepsCode(code, P, P)
  {}

  lemma {:induction false} OnlySame(P: Places, F: FrameSizes)
    ensures forall bs :: Only(bs, P, F, P, F)
  {}

  lemma {:induction false} StillLaidOutAll(es: seq<Expr>, escapes: set<nat>, P: Places, F: FrameSizes, B: set<nat>, P': Places, F': FrameSizes)
    requires LaidOutAll(es, escapes, P, F) && Only(B, P, F, P', F') && B !! DecidedAll(es, escapes)
    ensures LaidOutAll(es, escapes, P', F')
  {
    LaidOutAgreeAll(es, escapes, P, F, P', F');
  }

  lemma {:induction false} FrameOffset(own: seq<Slot>)
    ensures -Total(own) == if own == [] then 0 else SlotOffset(own, 0)
  {
    assert own[0..] == own;
  }

  lemma {:induction false} FunctionKeeps(code: set<nat>, params: seq<nat>, own: seq<Slot>, P0: Places, P1: Places, F: FrameSizes, P2: Places, P3: Places)
    requires KeepsCode(code, P0, P1) && Only(SetOf(params), P1, F, P2, F) && Only(Ids(own), P2, F, P3, F)
    requires code !! SetOf(params) && code !! Ids(own)
    ensures KeepsCode(code, P0, P3)
  {
    OnlyKeeps(code, SetOf(params), P1, F, P2, F);
    OnlyKeeps(code, Ids(own), P2, F, P3, F);
    hide Only, KeepsCode;
    KeepsThen(code, P0, P1, P2);
    KeepsThen(code, P0, P2, P3);
  }

  lemma {:induction false} FunctionPlaced(n: Expr, escapes: set<nat>, P1: Places, F1: FrameSizes, P2: Places, P3: Places, F3: FrameSizes)
    requires n.Function? && Unique(n) && LaidOut(n.body, escapes, P1, F1)
    requires Only(SetOf(n.params), P1, F1, P2, F1) && ParamsPlaced(n.params, P2)
    requires Only(Ids(FrameSlots(n.body, escapes)), P2, F1, P3, F1) && SlotsPlaced(FrameSlots(n.body, escapes), P3)
    requires F3 == F1[n.bndg := -Total(FrameSlots(n.body, escapes))]
    requires Ids(FrameSlots(n.body, escapes)) !! Decided(n.body, escapes) && Decided(n.body, escapes) <= Owned(n.body)
    requires Ids(FrameSlots(n.body, escapes)) <= Owned(n.body)
    ensures LaidOut(n, escapes, P3, F3)
    ensures Only({n.bndg} + SetOf(n.params) + Ids(FrameSlots(n.body, escapes)), P1, F1, P3, F3)
  {
    forall k | 0 <= k < |n.params| ensures n.params[k] in P3 && P3[n.params[k]] == P2[n.params[k]] {
      assert n.params[k] in SetOf(n.params);
    }
    LaidOutAgree(n.body, escapes, P1, F1, P3, F3);
  }
}
