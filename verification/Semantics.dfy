/** What jump-free expressions mean, independently of the code generated for them: literals,
    symbols, storage, if, invoke, constrain and references to functions. */
module Semantics {
  import opened Common
  import opened Syntax
  import opened Machine

  /** The surroundings of an evaluation: addresses of bindings, the functions of the program by
      address, what outside functions do, and the lowest address the stack may reach. */
  datatype World = World(
    env: Env, link: map<nat, int>, funs: map<int, Expr>,
    inside: int -> bool, outside: (int, seq<int>, Mem) -> Option<(int, Mem)>, limit: int)

  /** One activation: parameter bindings and their values, the frame's address and its size. */
  datatype Ctx = Ctx(params: seq<nat>, args: seq<int>, frame: int, size: int)
  {
    predicate Owns(a: int) { frame - size <= a < frame }
  }

  /** Where a call's frame lies when its stack arguments start at sp. */
  const FRAME_OVERHEAD := 8 * WORD_SIZE

  function Position(params: seq<nat>, b: nat): (k: nat)
    requires b in params
    ensures k < |params| && params[k] == b
  {
    if params[0] == b then 0 else 1 + Position(params[1..], b)
  }

  function AddressOf(W: World, c: Ctx, b: nat): Option<int> {
    match W.env.PlaceOf(b)
    case FrameRelative(o) => Some(Wrap(c.frame + o))
    case Absolute => if b in W.link then Some(Wrap(W.link[b])) else None
    case _ => None
  }

  /** An expression may write its own frame's slots and memory that already exists. */
  predicate Writable(c: Ctx, m: Mem, a: int) {
    Aligned(a) && 0 <= a < MODULUS && (a in m || c.Owns(a))
  }

  /** The value of e and the memory after it; None when evaluation runs out of fuel or stack, or
      has no defined result. m holds the memory that programs can name: statics, the heap, and the
      storage of live activations. */
  function Eval(W: World, fuel: nat, e: Expr, c: Ctx, sp: int, m: Mem): Option<(int, Mem)>
    decreases fuel, 1, e
  {
    match e
    case Literal(value) => Some((Wrap(value), m))
    case Symbol(b) =>
      if b in W.env.parameters then
        if b in c.params && |c.args| == |c.params| then Some((c.args[Position(c.params, b)], m)) else None
      else
        var a := AddressOf(W, c, b);
        if a.Some? then Some((a.value, m)) else None
    case Storage(b, args) =>
      var a := AddressOf(W, c, b);
      if a.None? then None else
      var r := EvalInto(W, fuel, args, c, a.value, sp, m);
      if r.Some? then Some((a.value, r.value)) else None
    case If(condition, consequent, alternate) =>
      var r := Eval(W, fuel, condition, c, sp, m);
      if r.None? then None
      else if r.value.0 != 0 then Eval(W, fuel, consequent, c, sp, r.value.1)
      else Eval(W, fuel, alternate, c, sp, r.value.1)
    case Function(b, _, _) =>
      var a := AddressOf(W, c, b);
      if a.Some? then Some((a.value, m)) else None
    case Invoke(target, args, _) =>
      var buffer := sp - WORD_SIZE * |args|;
      if buffer < W.limit then None else
      var r := EvalArgs(W, fuel, args, c, buffer, m);
      if r.None? then None else
      var f := Eval(W, fuel, target, c, buffer, r.value.1);
      if f.None? then None else
      Call(W, fuel, f.value.0, r.value.0, buffer + WORD_SIZE * (if |args| < 6 then |args| else 6), f.value.1)
    case Constrain(body) => Eval(W, fuel, body, c, sp, m)
    case _ => None
  }

  /** The arguments from left to right. */
  function EvalArgs(W: World, fuel: nat, args: seq<Expr>, c: Ctx, sp: int, m: Mem): (r: Option<(seq<int>, Mem)>)
    ensures r.Some? ==> |r.value.0| == |args|
    decreases fuel, 1, args
  {
    if args == [] then Some(([], m)) else
    var v := Eval(W, fuel, args[0], c, sp, m);
    if v.None? then None else
    var r := EvalArgs(W, fuel, args[1..], c, sp, v.value.1);
    if r.None? then None else Some(([v.value.0] + r.value.0, r.value.1))
  }

  /** Evaluates and stores the arguments into consecutive words from a. */
  function EvalInto(W: World, fuel: nat, args: seq<Expr>, c: Ctx, a: int, sp: int, m: Mem): Option<Mem>
    decreases fuel, 1, args
  {
    if args == [] then Some(m) else
    var v := Eval(W, fuel, args[0], c, sp, m);
    if v.None? || !Writable(c, v.value.1, a) then None else
    EvalInto(W, fuel, args[1..], c, a + WORD_SIZE, sp, v.value.1[a := v.value.0])
  }

  /** Memory restricted to the given addresses. */
  function Restrict(m: Mem, keys: set<int>): Mem {
    map a | a in m && a in keys :: m[a]
  }

  /** Calls the function at address f; the activation's storage disappears on return. */
  function Call(W: World, fuel: nat, f: int, vs: seq<int>, sp: int, m: Mem): Option<(int, Mem)>
    decreases fuel, 0
  {
    if f in W.funs && W.funs[f].Function? then
      var g := W.funs[f];
      var frame := sp - FRAME_OVERHEAD;
      var size := W.env.FrameSize(g.bndg);
      if fuel == 0 || |vs| != |g.params| || frame - size < W.limit then None else
      var r := Eval(W, fuel - 1, g.body, Ctx(g.params, vs, frame, size), frame - size, m);
      if r.None? then None else Some((r.value.0, Restrict(r.value.1, m.Keys)))
    else if W.inside(f) || sp - WORD_SIZE < W.limit then None
    else
      var r := W.outside(f, vs, m);
      if r.Some? && r.value.1.Keys == m.Keys then r else None
  }
}
