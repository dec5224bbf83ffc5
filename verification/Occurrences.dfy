/** What escape and containment analysis find, in terms of what stands where in an expression
    (escape_analysis and containment_analysis, bootstrap/analysis.c). */
module Occurrences {
  import opened Syntax
  import opened Escapes

  // ----- what escapes -----

  predicate Names(e: Expr, b: nat) {
    (e.Symbol? || e.Continuation?) && e.bndg == b
  }

  predicate NamesAny(es: seq<Expr>, b: nat) { exists i :: 0 <= i < |es| && Names(es[i], b) }

  /** p is e or stands anywhere in it. */
  ghost predicate Inside(e: Expr, p: Expr)
    decreases e, 1
  {
    e == p ||
    match e
    case Literal(_) => false
    case Symbol(_) => false
    case If(c, t, f) => Inside(c, p) || Inside(t, p) || Inside(f, p)
    case Function(_, _, body) => Inside(body, p)
    case Continuation(_, _, body, _) => Inside(body, p)
    case With(_, _, body, _) => Inside(body, p)
    case Storage(_, args) => InsideAny(args, p)
    case Jump(target, args, _) => Inside(target, p) || InsideAny(args, p)
    case Invoke(target, args, _) => Inside(target, p) || InsideAny(args, p)
    case Constrain(body) => Inside(body, p)
  }

  ghost predicate InsideAny(es: seq<Expr>, p: Expr)
    decreases es, 0
  {
    es != [] && (Inside(es[0], p) || InsideAny(es[1..], p))
  }

  /** A part of p other than the target of a jump names b. */
  predicate UsesAsValue(p: Expr, b: nat) {
    match p
    case Literal(_) => false
    case Symbol(_) => false
    case If(c, t, f) => Names(c, b) || Names(t, b) || Names(f, b)
    case Function(_, _, body) => Names(body, b)
    case Continuation(_, _, body, _) => Names(body, b)
    case With(_, _, body, _) => Names(body, b)
    case Storage(_, args) => NamesAny(args, b)
    case Jump(_, args, _) => NamesAny(args, b)
    case Invoke(target, args, _) => Names(target, b) || NamesAny(args, b)
    case Constrain(body) => Names(body, b)
  }

  ghost predicate UsedIn(e: Expr, b: nat) { exists p :: Inside(e, p) && UsesAsValue(p, b) }

  ghost predicate UsedInAny(es: seq<Expr>, b: nat) { exists p :: InsideAny(es, p) && UsesAsValue(p, b) }

  lemma {:induction false} UsedSplit(e: Expr, b: nat)
    ensures UsedIn(e, b) <==> (
      UsesAsValue(e, b) ||
      match e
      case Literal(_) => false
      case Symbol(_) => false
      case If(c, t, f) => UsedIn(c, b) || UsedIn(t, b) || UsedIn(f, b)
      case Function(_, _, body) => UsedIn(body, b)
      case Continuation(_, _, body, _) => UsedIn(body, b)
      case With(_, _, body, _) => UsedIn(body, b)
      case Storage(_, args) => UsedInAny(args, b)
      case Jump(target, args, _) => UsedIn(target, b) || UsedInAny(args, b)
      case Invoke(target, args, _) => UsedIn(target, b) || UsedInAny(args, b)
      case Constrain(body) => UsedIn(body, b))
  {
    assert Inside(e, e);
    hide UsesAsValue;
  }

  lemma {:induction false} UsedAnySplit(es: seq<Expr>, b: nat)
    ensures UsedInAny(es, b) <==> es != [] && (UsedIn(es[0], b) || UsedInAny(es[1..], b))
    ensures NamesAny(es, b) <==> es != [] && (Names(es[0], b) || NamesAny(es[1..], b))
  {
    if es != [] {
      assert forall i :: 0 < i < |es| ==> es[i] == es[1..][i - 1];
    }
    hide UsesAsValue, Names;
  }

  /** Exactly what escapes: a continuation or with that is named somewhere other than as a jump's target. */
  lemma {:induction false} EscapesExactly(e: Expr, escaping: bool, conts: Conts, b: nat)
    requires b in conts
    ensures b in EscapesOf(e, escaping, conts) <==> (escaping && Names(e, b)) || UsedIn(e, b)
    decreases e, 1
  {
    UsedSplit(e, b);
    hide UsedIn, UsedInAny;
    match e
    case Literal(_) =>
    case Symbol(_) =>
    case If(c, t, f) =>
      EscapesExactly(c, true, conts, b);
      EscapesExactly(t, true, conts, b);
      EscapesExactly(f, true, conts, b);
    case Function(_, _, body) => EscapesExactly(body, true, conts, b);
    case Continuation(_, _, body, _) => EscapesExactly(body, true, conts, b);
    case With(_, _, body, _) => EscapesExactly(body, true, conts, b);
    case Storage(_, args) => AllEscapeExactly(args, conts, b);
    case Jump(target, args, _) =>
      EscapesExactly(target, false, conts, b);
      AllEscapeExactly(args, conts, b);
    case Invoke(target, args, _) =>
      EscapesExactly(target, true, conts, b);
      AllEscapeExactly(args, conts, b);
    case Constrain(body) => EscapesExactly(body, true, conts, b);
  }

  lemma {:induction false} AllEscapeExactly(es: seq<Expr>, conts: Conts, b: nat)
    requires b in conts
    ensures b in EscapesOfAll(es, conts) <==> NamesAny(es, b) || UsedInAny(es, b)
    decreases es, 0
  {
    UsedAnySplit(es, b);
    hide UsedIn, UsedInAny, NamesAny;
    if es != [] {
      EscapesExactly(es[0], true, conts, b);
      AllEscapeExactly(es[1..], conts, b);
    }
  }

  // ----- what containment finds -----

  /** Evaluating e evaluates p, before control can leave for a jump: bodies of functions, continuations and
      withs, and the parts of a jump, do not count. */
  ghost predicate Evaluates(e: Expr, p: Expr)
    decreases e, 1
  {
    e == p ||
    match e
    case If(c, t, f) => Evaluates(c, p) || Evaluates(t, p) || Evaluates(f, p)
    case Storage(_, args) => EvaluatesAny(args, p)
    case Invoke(target, args, _) => Evaluates(target, p) || EvaluatesAny(args, p)
    case Constrain(body) => Evaluates(body, p)
    case _ => false
  }

  ghost predicate EvaluatesAny(es: seq<Expr>, p: Expr)
    decreases es, 0
  {
    es != [] && (Evaluates(es[0], p) || EvaluatesAny(es[1..], p))
  }

  ghost predicate MayJump(e: Expr) { exists p :: Evaluates(e, p) && p.Jump? }

  ghost predicate MayJumpAny(es: seq<Expr>) { exists p :: EvaluatesAny(es, p) && p.Jump? }

  /** Where control may come back in a way that the stack does not show: at a with, and where the two
      branches of an if join although only one of them may jump. */
  ghost predicate Joins(p: Expr) {
    p.With? || (p.If? && MayJump(p.consequent) != MayJump(p.alternate))
  }

  ghost predicate HasJoin(e: Expr) { exists p :: Evaluates(e, p) && Joins(p) }

  ghost predicate HasJoinAny(es: seq<Expr>) { exists p :: EvaluatesAny(es, p) && Joins(p) }

  /** The flag in words: a slot is needed exactly when a join is evaluated; otherwise the flag tells whether
      a jump may be. */
  ghost predicate FlagMeans(flag: nat, join: bool, jump: bool) {
    flag == if join then CONTAINS_WITH else if jump then CONTAINS_JUMP else CONTAINS_NONE
  }

  lemma {:induction false} IfSplit(e: Expr)
    requires e.If?
    ensures MayJump(e) <==> MayJump(e.condition) || MayJump(e.consequent) || MayJump(e.alternate)
    ensures HasJoin(e) <==> Joins(e) || HasJoin(e.condition) || HasJoin(e.consequent) || HasJoin(e.alternate)
  {
    assert Evaluates(e, e);
    hide Joins;
  }

  lemma {:induction false} PartsSplit(e: Expr)
    requires e.Storage? || e.Invoke? || e.Constrain?
    ensures e.Storage? ==> (MayJump(e) <==> MayJumpAny(e.args)) && (HasJoin(e) <==> HasJoinAny(e.args))
    ensures e.Invoke? ==> (MayJump(e) <==> MayJump(e.target) || MayJumpAny(e.args)) && (HasJoin(e) <==> HasJoin(e.target) || HasJoinAny(e.args))
    ensures e.Constrain? ==> (MayJump(e) <==> MayJump(e.body)) && (HasJoin(e) <==> HasJoin(e.body))
  {
    assert !Joins(e);
    hide Joins;
  }

  lemma {:induction false} AnySplit(es: seq<Expr>)
    ensures MayJumpAny(es) <==> es != [] && (MayJump(es[0]) || MayJumpAny(es[1..]))
    ensures HasJoinAny(es) <==> es != [] && (HasJoin(es[0]) || HasJoinAny(es[1..]))
  {
    hide Joins;
  }

  lemma {:induction false} Leaf(e: Expr)
    requires !e.If? && !e.Storage? && !e.Invoke? && !e.Constrain?
    ensures MayJump(e) == e.Jump? && HasJoin(e) == e.With?
  {
    assert Evaluates(e, e);
  }

  /** Exactly which expressions get which flag. */
  lemma {:induction false} ContainsExactly(e: Expr)
    ensures FlagMeans(Contains(e), HasJoin(e), MayJump(e))
    decreases e, 1
  {
    hide MayJump, HasJoin, MayJumpAny, HasJoinAny;
    match e
    case If(c, t, f) =>
      ContainsExactly(c);
      ContainsExactly(t);
      ContainsExactly(f);
      IfSplit(e);
    case Storage(_, args) =>
      ContainsAnyExactly(args);
      PartsSplit(e);
    case Invoke(target, args, _) =>
      ContainsExactly(target);
      ContainsAnyExactly(args);
      PartsSplit(e);
    case Constrain(body) =>
      ContainsExactly(body);
      PartsSplit(e);
    case _ => Leaf(e);
  }

  lemma {:induction false} ContainsAnyExactly(es: seq<Expr>)
    ensures FlagMeans(ContainsAny(es), HasJoinAny(es), MayJumpAny(es))
    decreases es, 0
  {
    hide MayJump, HasJoin, MayJumpAny, HasJoinAny;
    AnySplit(es);
    if es != [] {
      ContainsExactly(es[0]);
      ContainsAnyExactly(es[1..]);
    }
  }
}
