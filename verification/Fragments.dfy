/** Fragments: the s-expression terms shared by the reader, the macro expander and
    the type checker. A fragment is a logic variable, a non-empty token or a list. */
module Fragments {

  datatype Frag = Var(id: nat) | Tok(text: seq<char>) | Lst(items: seq<Frag>)

  /** A finite assignment of fragments to variables. */
  type Subst = map<nat, Frag>

  /** Simultaneous replacement of the variables that s assigns. */
  function Apply(s: Subst, f: Frag): Frag
    decreases f
  {
    match f
    case Var(v) => if v in s then s[v] else f
    case Tok(_) => f
    case Lst(items) => Lst(seq(|items|, i requires 0 <= i < |items| => Apply(s, items[i])))
  }

  predicate Occurs(v: nat, f: Frag)
    decreases f
  {
    match f
    case Var(w) => v == w
    case Tok(_) => false
    case Lst(items) => exists i :: 0 <= i < |items| && Occurs(v, items[i])
  }

  /** Every variable of f was allocated before `limit`. */
  predicate Below(f: Frag, limit: nat)
    decreases f
  {
    match f
    case Var(w) => w < limit
    case Tok(_) => true
    case Lst(items) => forall i :: 0 <= i < |items| ==> Below(items[i], limit)
  }

  ghost function SizeAll(items: seq<Frag>): (n: nat)
    decreases items, 1
  {
    if items == [] then 0 else Size(items[0]) + SizeAll(items[1..])
  }

  ghost function Size(f: Frag): (n: nat)
    ensures n >= 1
    decreases f, 0
  {
    match f
    case Var(_) => 1
    case Tok(_) => 1
    case Lst(items) => 1 + SizeAll(items)
  }

  lemma {:induction false} ItemIsSmaller(items: seq<Frag>, i: nat)
    requires i < |items|
    ensures Size(items[i]) <= SizeAll(items)
    ensures Size(items[i]) < Size(Lst(items))
  {
    if i > 0 {
      ItemIsSmaller(items[1..], i - 1);
    }
  }

  lemma {:induction false} BelowIsOccurs(f: Frag, limit: nat)
    ensures Below(f, limit) <==> forall v: nat :: Occurs(v, f) ==> v < limit
    decreases f
  {
    match f
    case Var(w) => assert Occurs(w, f);
    case Tok(_) =>
    case Lst(items) =>
      forall i | 0 <= i < |items|
        ensures Below(items[i], limit) <==> forall v: nat :: Occurs(v, items[i]) ==> v < limit
      {
        BelowIsOccurs(items[i], limit);
      }
      if Below(f, limit) {
      } else {
        var i :| 0 <= i < |items| && !Below(items[i], limit);
        var v: nat :| Occurs(v, items[i]) && v >= limit;
        assert Occurs(v, f);
      }
  }

  /** A substitution that moves none of the variables of f leaves f alone. */
  lemma {:induction false} ApplyUntouched(s: Subst, f: Frag)
    requires forall v :: Occurs(v, f) ==> v !in s
    ensures Apply(s, f) == f
    decreases f
  {
    match f
    case Var(w) => assert Occurs(w, f);
    case Tok(_) =>
    case Lst(items) =>
      forall i | 0 <= i < |items| ensures Apply(s, items[i]) == items[i] {
        forall v | Occurs(v, items[i]) ensures v !in s { assert Occurs(v, f); }
        ApplyUntouched(s, items[i]);
      }
      assert Apply(s, f).items == items;
  }

  /** Substitutions that agree on the variables of f agree on f. */
  lemma {:induction false} ApplyAgree(s: Subst, t: Subst, f: Frag)
    requires forall v :: Occurs(v, f) ==> Apply(s, Var(v)) == Apply(t, Var(v))
    ensures Apply(s, f) == Apply(t, f)
    decreases f
  {
    match f
    case Var(w) => assert Occurs(w, f);
    case Tok(_) =>
    case Lst(items) =>
      forall i | 0 <= i < |items| ensures Apply(s, items[i]) == Apply(t, items[i]) {
        forall v | Occurs(v, items[i]) ensures Apply(s, Var(v)) == Apply(t, Var(v)) { assert Occurs(v, f); }
        ApplyAgree(s, t, items[i]);
      }
      assert Apply(s, f).items == Apply(t, f).items;
  }

  /** If t absorbs s on every variable of f, it absorbs s on f. */
  lemma {:induction false} ApplyAbsorb(s: Subst, t: Subst, f: Frag)
    requires forall v :: Occurs(v, f) ==> Apply(t, Apply(s, Var(v))) == Apply(t, Var(v))
    ensures Apply(t, Apply(s, f)) == Apply(t, f)
    decreases f
  {
    match f
    case Var(w) => assert Occurs(w, f);
    case Tok(_) =>
    case Lst(items) =>
      forall i | 0 <= i < |items| ensures Apply(t, Apply(s, items[i])) == Apply(t, items[i]) {
        forall v | Occurs(v, items[i]) ensures Apply(t, Apply(s, Var(v))) == Apply(t, Var(v)) { assert Occurs(v, f); }
        ApplyAbsorb(s, t, items[i]);
      }
      assert Apply(t, Apply(s, f)).items == Apply(t, f).items;
  }

  /** The variables of a substituted fragment come from the images of its variables. */
  lemma {:induction false} OccursApply(s: Subst, v: nat, f: Frag)
    ensures Occurs(v, Apply(s, f)) <==> exists w :: Occurs(w, f) && Occurs(v, Apply(s, Var(w)))
    decreases f
  {
    match f
    case Var(w) =>
      assert Occurs(w, f);
    case Tok(_) =>
    case Lst(items) =>
      forall i | 0 <= i < |items|
        ensures Occurs(v, Apply(s, items[i])) <==> exists w :: Occurs(w, items[i]) && Occurs(v, Apply(s, Var(w)))
      {
        OccursApply(s, v, items[i]);
      }
      var a := Apply(s, f);
      if Occurs(v, a) {
        var i :| 0 <= i < |a.items| && Occurs(v, a.items[i]);
        var w :| Occurs(w, items[i]) && Occurs(v, Apply(s, Var(w)));
        assert Occurs(w, f);
      }
      if w :| Occurs(w, f) && Occurs(v, Apply(s, Var(w))) {
        var i :| 0 <= i < |items| && Occurs(w, items[i]);
        assert Occurs(v, a.items[i]);
      }
  }

  lemma {:induction false} ApplyBelow(s: Subst, f: Frag, limit: nat)
    requires forall w: nat :: Occurs(w, f) ==> Below(Apply(s, Var(w)), limit)
    ensures Below(Apply(s, f), limit)
    decreases f
  {
    match f
    case Var(w) => assert Occurs(w, f);
    case Tok(_) =>
    case Lst(items) =>
      forall i | 0 <= i < |items| ensures Below(Apply(s, items[i]), limit) {
        forall w: nat | Occurs(w, items[i]) ensures Below(Apply(s, Var(w)), limit) { assert Occurs(w, f); }
        ApplyBelow(s, items[i], limit);
      }
  }
}
