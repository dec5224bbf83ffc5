/** Linked expressions and the attributes that the analyses attach to their bindings
    (bootstrap/expressions.c). */
module Syntax {

  const WORD_SIZE := 8

  /** Bindings are named by numbers. Every invoke and jump owns the binding `temp` of its argument
      buffer; every continuation and with owns the binding `entry` of its first instruction. */
  datatype Expr =
    | Literal(value: int)
    | Symbol(bndg: nat)
    | Storage(bndg: nat, args: seq<Expr>)
    | If(condition: Expr, consequent: Expr, alternate: Expr)
    | Function(bndg: nat, params: seq<nat>, body: Expr)
    | Continuation(bndg: nat, params: seq<nat>, body: Expr, entry: nat)
    | With(bndg: nat, param: nat, body: Expr, entry: nat)
    | Invoke(target: Expr, args: seq<Expr>, temp: nat)
    | Jump(target: Expr, args: seq<Expr>, temp: nat)
    | Constrain(body: Expr)

  // ----- containment_analysis -----

  const CONTAINS_NONE := 0
  const CONTAINS_JUMP := 1
  const CONTAINS_WITH := 3

  /** Bitwise or on the three flags. */
  function Join(a: nat, b: nat): nat { if a < b then b else a }

  function Contains(e: Expr): nat
    decreases e, 1
  {
    match e
    case Constrain(body) => Contains(body)
    case If(c, t, f) =>
      if Contains(t) + Contains(f) == 1 then CONTAINS_WITH
      else Join(Contains(c), Join(Contains(t), Contains(f)))
    case With(_, _, _, _) => CONTAINS_WITH
    case Storage(_, args) => ContainsAny(args)
    case Jump(_, _, _) => CONTAINS_JUMP
    case Invoke(target, args, _) => Join(Contains(target), ContainsAny(args))
    case _ => CONTAINS_NONE
  }

  function ContainsAny(es: seq<Expr>): nat
    decreases es, 0
  {
    if es == [] then CONTAINS_NONE else Join(Contains(es[0]), ContainsAny(es[1..]))
  }

  /** The contains_flag of an invoke or jump with this target and these arguments. */
  function BufferFlag(target: Expr, args: seq<Expr>): nat {
    Join(Contains(target), ContainsAny(args))
  }

  // ----- attributes of bindings -----

  datatype Place =
    | Absolute
    | FrameRelative(offset: int)
    | TopRelative(offset: int)
    | NoPlace

  /** Where a short-circuited jump goes: the parameters and entry of its continuation. */
  datatype Circuit = Circuit(params: seq<nat>, entry: nat)

  datatype Env = Env(
    places: map<nat, Place>,      // type and offset of each binding
    parameters: set<nat>,         // bindings of function and continuation parameters
    frames: map<nat, int>,        // current offset of each function, by its binding
    escapes: set<nat>,            // bindings of escaping continuations and withs
    circuits: map<nat, Circuit>)  // short_circuit of each jump, by its buffer
  {
    function PlaceOf(b: nat): Place {
      if b in places then places[b] else NoPlace
    }

    function FrameSize(f: nat): int {
      if f in frames then -frames[f] else 0
    }
  }
}
