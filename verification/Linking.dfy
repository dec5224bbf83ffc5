/** Scoping: link_symbols with persistent lists (bootstrap/analysis.c) and with hash tables that
    push and pop (src/analysis.l2) both resolve every symbol to its innermost visible binder. */
module Linking {
  import opened Common
  import opened HashTable
  import Syntax
  import Frames
  import Escapes

  /** The empty name stands for a binding that no source text can mention. */
  datatype Binding = Binding(id: nat, name: string)

  /** Expressions before linking; a symbol occurrence is known by its number. */
  datatype Term =
    | Lit(value: int)
    | Sym(id: nat, name: string)
    | Cond(condition: Term, consequent: Term, alternate: Term)
    | Fun(ref: Binding, params: seq<Binding>, body: Term)
    | Cont(ref: Binding, params: seq<Binding>, body: Term, entry: nat)
    | With(ref: Binding, param: Binding, body: Term, entry: nat)
    | Sto(ref: Binding, args: seq<Term>)
    | Inv(target: Term, args: seq<Term>, temp: nat)
    | Jmp(target: Term, args: seq<Term>, temp: nat)
    | Constrained(body: Term)

  // ----- what linking means -----

  /** The innermost visible binding of every name. */
  type Scope = map<string, Binding>

  function Bind(m: Scope, b: Binding): Scope {
    if b.name == "" then m else m[b.name := b]
  }

  function BindAll(m: Scope, bs: seq<Binding>): Scope {
    if bs == [] then m else Bind(BindAll(m, bs[..|bs| - 1]), bs[|bs| - 1])
  }

  /** The bindings given to symbols so far, the undefined names met, and the next fresh number. */
  datatype Links = Links(of: map<nat, Binding>, undefined: Scope, next: nat)

  function LinkSymbol(id: nat, name: string, S: Scope, D: Scope, st: Links): Links {
    if id in st.of then st
    else if name in D then st.(of := st.of[id := D[name]])
    else if name in S then st.(of := st.of[id := S[name]])
    else if name in st.undefined then st.(of := st.of[id := st.undefined[name]])
    else
      var b := Binding(st.next, name);
      Links(st.of[id := b], Bind(st.undefined, b), st.next + 1)
  }

  /** Functions hide the frames around them and add themselves to what is static; everything else
      adds to the frame it is in, or to what is static outside functions. */
  function Link(e: Term, isStatic: bool, S: Scope, D: Scope, st: Links): Links
    decreases e, 1
  {
    match e
    case Lit(_) => st
    case Sym(id, name) => LinkSymbol(id, name, S, D, st)
    case Cond(c, t, f) => Link(f, isStatic, S, D, Link(t, isStatic, S, D, Link(c, isStatic, S, D, st)))
    case Fun(ref, params, body) => Link(body, false, Bind(S, ref), BindAll(map[], params), st)
    case Cont(ref, params, body, _) =>
      if isStatic then Link(body, true, BindAll(Bind(S, ref), params), D, st)
      else Link(body, false, S, BindAll(Bind(D, ref), params), st)
    case With(ref, param, body, _) =>
      if isStatic then Link(body, true, BindAll(Bind(S, ref), [param]), D, st)
      else Link(body, false, S, BindAll(Bind(D, ref), [param]), st)
    case Sto(ref, args) =>
      if isStatic then LinkAll(args, true, Bind(S, ref), D, st) else LinkAll(args, false, S, Bind(D, ref), st)
    case Inv(target, args, _) => LinkAll(args, isStatic, S, D, Link(target, isStatic, S, D, st))
    case Jmp(target, args, _) => LinkAll(args, isStatic, S, D, Link(target, isStatic, S, D, st))
    case Constrained(body) => Link(body, isStatic, S, D, st)
  }

  function LinkAll(es: seq<Term>, isStatic: bool, S: Scope, D: Scope, st: Links): Links
    decreases es, 0
  {
    if es == [] then st else LinkAll(es[1..], isStatic, S, D, Link(es[0], isStatic, S, D, st))
  }

  lemma {:induction false} LinkAllSnoc(es: seq<Term>, k: nat, isStatic: bool, S: Scope, D: Scope, st: Links)
    requires k < |es|
    ensures LinkAll(es[..k + 1], isStatic, S, D, st) == Link(es[k], isStatic, S, D, LinkAll(es[..k], isStatic, S, D, st))
    decreases k
  {
    hide Link;
    var tail, st' := es[1..], Link(es[0], isStatic, S, D, st);
    if k == 0 {
      assert es[..1] == [es[0]] && es[..1][1..] == [] && es[..0] == [];
      assert LinkAll([], isStatic, S, D, st') == st';
    } else {
      assert es[..k + 1][1..] == tail[..k] && es[..k][1..] == tail[..k - 1] && es[k] == tail[k - 1];
      LinkAllSnoc(tail, k - 1, isStatic, S, D, st');
    }
  }

  // ----- with lists -----

  /** The first binding of each name in a list. */
  function ListScope(bs: seq<Binding>): Scope {
    if bs == [] then map[] else Bind(ListScope(bs[1..]), bs[0])
  }

  class ListLinker {
    var of: map<nat, Binding>
    var undefined: seq<Binding>
    var next: nat

    constructor ()
      ensures of == map[] && undefined == [] && next == 0
    {
      of, undefined, next := map[], [], 0;
    }

    function Linked(): Links
      reads this
    {
      Links(of, ListScope(undefined), next)
    }

    method AssignBinding(id: nat, name: string, bindings: seq<Binding>) returns (ok: bool)
      modifies this`of
      ensures ok == (name in ListScope(bindings))
      ensures of == if ok then old(of)[id := ListScope(bindings)[name]] else old(of)
    {
      var rest := bindings;
      while rest != []
        invariant name in ListScope(bindings) <==> name in ListScope(rest)
        invariant name in ListScope(bindings) ==> ListScope(bindings)[name] == ListScope(rest)[name]
        invariant of == old(of)
        decreases rest
      {
        if rest[0].name != "" && name != "" && rest[0].name == name {
          of := of[id := rest[0]];
          return true;
        }
        rest := rest[1..];
      }
      return false;
    }

    method LinkSymbols(s: Term, isStatic: bool, statics: seq<Binding>, dynamic: seq<Binding>)
      modifies this
      ensures Linked() == Link(s, isStatic, ListScope(statics), ListScope(dynamic), old(Linked()))
      decreases s, 1
    {
      match s
      case Lit(_) =>
      case Sym(id, name) => LinkOne(id, name, statics, dynamic);
      case Cond(c, t, f) =>
        LinkSymbols(c, isStatic, statics, dynamic);
        LinkSymbols(t, isStatic, statics, dynamic);
        LinkSymbols(f, isStatic, statics, dynamic);
      case Fun(ref, params, body) =>
        var frame := PrependAll(params, []);
        LinkSymbols(body, false, [ref] + statics, frame);
      case Cont(ref, params, body, _) =>
        var frame := PrependAll(params, [ref] + if isStatic then statics else dynamic);
        LinkSymbols(body, isStatic, if isStatic then frame else statics, if isStatic then dynamic else frame);
      case With(ref, param, body, _) =>
        var frame := PrependAll([param], [ref] + if isStatic then statics else dynamic);
        LinkSymbols(body, isStatic, if isStatic then frame else statics, if isStatic then dynamic else frame);
      case Sto(ref, args) =>
        var frame := [ref] + if isStatic then statics else dynamic;
        LinkArguments(args, isStatic, if isStatic then frame else statics, if isStatic then dynamic else frame);
      case Inv(target, args, _) =>
        LinkSymbols(target, isStatic, statics, dynamic);
        LinkArguments(args, isStatic, statics, dynamic);
      case Jmp(target, args, _) =>
        LinkSymbols(target, isStatic, statics, dynamic);
        LinkArguments(args, isStatic, statics, dynamic);
      case Constrained(body) => LinkSymbols(body, isStatic, statics, dynamic);
    }

    method LinkOne(id: nat, name: string, statics: seq<Binding>, dynamic: seq<Binding>)
      modifies this
      ensures Linked() == LinkSymbol(id, name, ListScope(statics), ListScope(dynamic), old(Linked()))
    {
      if id in of { return; }
      var done := AssignBinding(id, name, dynamic);
      if !done { done := AssignBinding(id, name, statics); }
      if !done { done := AssignBinding(id, name, undefined); }
      if !done {
        var b := Binding(next, name);
        of, undefined, next := of[id := b], [b] + undefined, next + 1;
      }
    }

    method PrependAll(bs: seq<Binding>, onto: seq<Binding>) returns (all: seq<Binding>)
      ensures ListScope(all) == BindAll(ListScope(onto), bs)
    {
      all := onto;
      for i := 0 to |bs|
        invariant ListScope(all) == BindAll(ListScope(onto), bs[..i])
      {
        assert bs[..i + 1][..i] == bs[..i];
        all := [bs[i]] + all;
      }
      assert bs[..|bs|] == bs;
    }

    method LinkArguments(args: seq<Term>, isStatic: bool, statics: seq<Binding>, dynamic: seq<Binding>)
      modifies this
      ensures Linked() == LinkAll(args, isStatic, ListScope(statics), ListScope(dynamic), old(Linked()))
      decreases args, 0
    {
      for i := 0 to |args|
        invariant Linked() == LinkAll(args[..i], isStatic, ListScope(statics), ListScope(dynamic), old(Linked()))
      {
        LinkAllSnoc(args, i, isStatic, ListScope(statics), ListScope(dynamic), old(Linked()));
        LinkSymbols(args[i], isStatic, statics, dynamic);
      }
      assert args[..|args|] == args;
    }
  }

  // ----- with hash tables -----

  type Table = HashTable<string, Binding>
  type View = imap<string, seq<Binding>>

  /** The top of every name's stack is its innermost visible binding. */
  ghost predicate Shows(view: View, m: Scope) {
    forall n: string :: n in view && (n != "" ==>
      (n in m <==> view[n] != []) && (n in m ==> view[n][0] == m[n]))
  }

  /** Symbols in source text have names; the parameter of a with has none. */
  predicate Named(e: Term)
    decreases e, 1
  {
    match e
    case Lit(_) => true
    case Sym(_, name) => name != ""
    case Cond(c, t, f) => Named(c) && Named(t) && Named(f)
    case Fun(_, _, body) => Named(body)
    case Cont(_, _, body, _) => Named(body)
    case With(_, param, body, _) => param.name == "" && Named(body)
    case Sto(_, args) => NamedAll(args)
    case Inv(target, args, _) => Named(target) && NamedAll(args)
    case Jmp(target, args, _) => Named(target) && NamedAll(args)
    case Constrained(body) => Named(body)
  }

  predicate NamedAll(es: seq<Term>)
    decreases es, 0
  {
    es == [] || (Named(es[0]) && NamedAll(es[1..]))
  }

  lemma {:induction false} NamedAt(es: seq<Term>, i: nat)
    requires NamedAll(es) && i < |es|
    ensures Named(es[i])
    decreases i
  {
    if i > 0 {
      NamedAt(es[1..], i - 1);
    }
  }

  ghost function Pushed(view: View, bs: seq<Binding>): View
    requires forall n: string :: n in view
    ensures forall n: string :: n in Pushed(view, bs)
  {
    if bs == [] then view else
    var below := Pushed(view, bs[..|bs| - 1]);
    var b := bs[|bs| - 1];
    below[b.name := [b] + below[b.name]]
  }

  lemma {:induction false} PushedShows(view: View, m: Scope, bs: seq<Binding>)
    requires Shows(view, m)
    ensures Shows(Pushed(view, bs), BindAll(m, bs))
  {
    if bs != [] {
      PushedShows(view, m, bs[..|bs| - 1]);
    }
  }

  function Times(bs: seq<Binding>, n: string): nat {
    if bs == [] then 0 else Times(bs[..|bs| - 1], n) + (if bs[|bs| - 1].name == n then 1 else 0)
  }

  function Drop<T>(s: seq<T>, k: nat): seq<T> {
    if k <= |s| then s[k..] else []
  }

  ghost function Popped(view: View, bs: seq<Binding>): View
    requires forall n: string :: n in view
    ensures forall n: string :: n in Popped(view, bs)
  {
    if bs == [] then view else
    var above, name := Popped(view, bs[..|bs| - 1]), bs[|bs| - 1].name;
    above[name := if above[name] == [] then [] else above[name][1..]]
  }

  lemma {:induction false} PoppedDrops(view: View, bs: seq<Binding>, n: string)
    requires forall n: string :: n in view
    ensures Popped(view, bs)[n] == Drop(view[n], Times(bs, n))
  {
    if bs != [] {
      PoppedDrops(view, bs[..|bs| - 1], n);
    }
  }

  lemma {:induction false} PushedStacks(view: View, bs: seq<Binding>, n: string)
    requires forall n: string :: n in view
    ensures Drop(Pushed(view, bs)[n], Times(bs, n)) == view[n] && |Pushed(view, bs)[n]| == Times(bs, n) + |view[n]|
  {
    if bs != [] {
      PushedStacks(view, bs[..|bs| - 1], n);
    }
  }

  /** Popping every name as often as it was pushed uncovers what was there before. */
  lemma {:induction false} PushedThenPopped(view: View, bs: seq<Binding>)
    requires forall n: string :: n in view
    ensures Popped(Pushed(view, bs), bs) == view
  {
    forall n: string ensures Popped(Pushed(view, bs), bs)[n] == view[n] {
      PoppedDrops(Pushed(view, bs), bs, n);
      PushedStacks(view, bs, n);
    }
  }

  /** The objects of a table that may be absent. */
  ghost function Foot(t: HashTable?<string, Binding>): set<object>
    reads t
  {
    if t == null then {} else t.Repr
  }

  ghost predicate Sound(t: Table)
    reads t, t.Repr
  {
    t in t.Repr && t.Valid()
  }

  ghost predicate Tables(undefined: Table, statics: Table, dynamic: HashTable?<string, Binding>)
    reads undefined, undefined.Repr, statics, statics.Repr, dynamic, Foot(dynamic)
  {
    && Sound(undefined) && Sound(statics) && (dynamic != null ==> Sound(dynamic))
    && undefined.Repr !! statics.Repr && undefined.Repr !! Foot(dynamic) && statics.Repr !! Foot(dynamic)
  }

  class TableLinker {
    const hash: string -> nat
    var of: map<nat, Binding>
    var next: nat
    ghost var scope: Scope

    constructor (hash: string -> nat)
      ensures this.hash == hash && of == map[] && next == 0 && scope == map[]
    {
      this.hash, of, next, scope := hash, map[], 0, map[];
    }

    ghost function Linked(): Links
      reads this
    {
      Links(of, scope, next)
    }

    method AssignBinding(id: nat, name: string, bindings: Table, ghost m: Scope) returns (ok: bool)
      requires Sound(bindings) && Shows(bindings.view, m) && name != ""
      modifies this`of
      ensures ok == (name in m) && of == if ok then old(of)[id := m[name]] else old(of)
    {
      var b := bindings.Contains(name);
      ok := b.Some?;
      if ok {
        of := of[id := b.value];
      }
    }

    /** ht-put for each binding. */
    lemma {:induction false} AllNames(t: Table)
      requires Sound(t)
      ensures forall n: string :: n in t.view
    {}

    method PutOne(b: Binding, t: Table)
      requires Sound(t)
      modifies t.Repr
      ensures Sound(t) && fresh(t.Repr - old(t.Repr))
      ensures (forall n: string :: n in old(t.view)) && t.view == old(t.view)[b.name := [b] + old(t.view)[b.name]]
    {
      t.Put(b.name, b);
    }

    method PutAll(bs: seq<Binding>, t: Table)
      requires Sound(t)
      modifies t.Repr
      ensures Sound(t) && fresh(t.Repr - old(t.Repr)) && t.view == Pushed(old(t.view), bs)
    {
      AllNames(t);
      hide Table.Valid;
      for i := 0 to |bs|
        invariant Sound(t) && fresh(t.Repr - old(t.Repr)) && t.view == Pushed(old(t.view), bs[..i])
      {
        assert bs[..i + 1][..i] == bs[..i];
        PutOne(bs[i], t);
      }
      assert bs[..|bs|] == bs;
    }

    /** ht-remove for each binding. */
    method RemoveAll(bs: seq<Binding>, t: Table)
      requires Sound(t)
      modifies t.Repr
      ensures Sound(t) && t.Repr == old(t.Repr)
      ensures t.view == Popped(old(t.view), bs)
    {
      for i := 0 to |bs|
        invariant Sound(t) && t.Repr == old(t.Repr)
        invariant t.view == Popped(old(t.view), bs[..i])
      {
        assert bs[..i + 1][..i] == bs[..i];
        t.Remove(bs[i].name);
      }
      assert bs[..|bs|] == bs;
    }

    method LinkSymbols(s: Term, isStatic: bool, undefined: Table, statics: Table, dynamic: HashTable?<string, Binding>, ghost S: Scope, ghost D: Scope)
      requires Named(s) && Tables(undefined, statics, dynamic) && this !in undefined.Repr + statics.Repr + Foot(dynamic)
      requires (dynamic == null) == isStatic && (isStatic ==> D == map[])
      requires Shows(undefined.view, scope) && Shows(statics.view, S) && (dynamic != null ==> Shows(dynamic.view, D))
      modifies this, undefined.Repr, statics.Repr, Foot(dynamic)
      ensures Tables(undefined, statics, dynamic) && this !in undefined.Repr + statics.Repr + Foot(dynamic)
      ensures fresh(undefined.Repr - old(undefined.Repr)) && fresh(statics.Repr - old(statics.Repr)) && fresh(Foot(dynamic) - old(Foot(dynamic)))
      ensures statics.view == old(statics.view) && (dynamic != null ==> dynamic.view == old(dynamic.view))
      ensures Linked() == Link(s, isStatic, S, D, old(Linked())) && Shows(undefined.view, scope)
      decreases s, 2
    {
      hide Table.Valid, Shows;
      match s
      case Lit(_) =>
      case Sym(id, name) => LinkOne(id, name, undefined, statics, dynamic, S, D);
      case Cond(_, _, _) => LinkCond(s, isStatic, undefined, statics, dynamic, S, D);
      case Fun(_, _, _) => LinkFunction(s, undefined, statics, dynamic, S, D);
      case Cont(ref, params, _, _) => LinkBody(s, ref, params, isStatic, undefined, statics, dynamic, S, D);
      case With(ref, param, _, _) => LinkBody(s, ref, [param], isStatic, undefined, statics, dynamic, S, D);
      case Sto(_, _) => LinkStorage(s, isStatic, undefined, statics, dynamic, S, D);
      case Inv(target, args, _) => LinkCall(s, target, args, isStatic, undefined, statics, dynamic, S, D);
      case Jmp(target, args, _) => LinkCall(s, target, args, isStatic, undefined, statics, dynamic, S, D);
      case Constrained(body) => LinkSymbols(body, isStatic, undefined, statics, dynamic, S, D);
    }

    method LinkCond(s: Term, isStatic: bool, undefined: Table, statics: Table, dynamic: HashTable?<string, Binding>, ghost S: Scope, ghost D: Scope)
      requires s.Cond? && Named(s)
      requires (dynamic == null) == isStatic && (isStatic ==> D == map[])
      requires Tables(undefined, statics, dynamic) && this !in undefined.Repr + statics.Repr + Foot(dynamic)
      requires Shows(undefined.view, scope) && Shows(statics.view, S) && (dynamic != null ==> Shows(dynamic.view, D))
      modifies this, undefined.Repr, statics.Repr, Foot(dynamic)
      ensures Tables(undefined, statics, dynamic) && this !in undefined.Repr + statics.Repr + Foot(dynamic)
      ensures fresh(undefined.Repr - old(undefined.Repr)) && fresh(statics.Repr - old(statics.Repr)) && fresh(Foot(dynamic) - old(Foot(dynamic)))
      ensures statics.view == old(statics.view) && (dynamic != null ==> dynamic.view == old(dynamic.view))
      ensures Linked() == Link(s, isStatic, S, D, old(Linked())) && Shows(undefined.view, scope)
      decreases s, 1
    {
      hide Table.Valid, Shows;
      LinkSymbols(s.condition, isStatic, undefined, statics, dynamic, S, D);
      LinkSymbols(s.consequent, isStatic, undefined, statics, dynamic, S, D);
      LinkSymbols(s.alternate, isStatic, undefined, statics, dynamic, S, D);
    }

    method LinkCall(s: Term, target: Term, args: seq<Term>, isStatic: bool, undefined: Table, statics: Table, dynamic: HashTable?<string, Binding>, ghost S: Scope, ghost D: Scope)
      requires (s.Inv? || s.Jmp?) && target == s.target && args == s.args && Named(s)
      requires (dynamic == null) == isStatic && (isStatic ==> D == map[])
      requires Tables(undefined, statics, dynamic) && this !in undefined.Repr + statics.Repr + Foot(dynamic)
      requires Shows(undefined.view, scope) && Shows(statics.view, S) && (dynamic != null ==> Shows(dynamic.view, D))
      modifies this, undefined.Repr, statics.Repr, Foot(dynamic)
      ensures Tables(undefined, statics, dynamic) && this !in undefined.Repr + statics.Repr + Foot(dynamic)
      ensures fresh(undefined.Repr - old(undefined.Repr)) && fresh(statics.Repr - old(statics.Repr)) && fresh(Foot(dynamic) - old(Foot(dynamic)))
      ensures statics.view == old(statics.view) && (dynamic != null ==> dynamic.view == old(dynamic.view))
      ensures Linked() == Link(s, isStatic, S, D, old(Linked())) && Shows(undefined.view, scope)
      decreases s, 1
    {
      hide Table.Valid, Shows;
      LinkSymbols(target, isStatic, undefined, statics, dynamic, S, D);
      LinkArguments(args, isStatic, undefined, statics, dynamic, S, D);
    }

    /** The frame first, then what is static, then the undefined names met before. */
    method AssignAny(id: nat, name: string, undefined: Table, statics: Table, dynamic: HashTable?<string, Binding>, ghost S: Scope, ghost D: Scope) returns (done: bool)
      requires name != "" && (dynamic == null ==> D == map[])
      requires Tables(undefined, statics, dynamic) && this !in undefined.Repr + statics.Repr + Foot(dynamic)
      requires Shows(undefined.view, scope) && Shows(statics.view, S) && (dynamic != null ==> Shows(dynamic.view, D))
      modifies this`of
      ensures done == (name in D || name in S || name in scope)
      ensures of == if name in D then old(of)[id := D[name]] else if name in S then old(of)[id := S[name]]
        else if name in scope then old(of)[id := scope[name]] else old(of)
    {
      hide Table.Valid, Shows;
      done := false;
      if dynamic != null { done := AssignBinding(id, name, dynamic, D); }
      if !done { done := AssignBinding(id, name, statics, S); }
      if !done { done := AssignBinding(id, name, undefined, scope); }
    }

    method LinkOne(id: nat, name: string, undefined: Table, statics: Table, dynamic: HashTable?<string, Binding>, ghost S: Scope, ghost D: Scope)
      requires name != "" && (dynamic == null ==> D == map[])
      requires Tables(undefined, statics, dynamic) && this !in undefined.Repr + statics.Repr + Foot(dynamic)
      requires Shows(undefined.view, scope) && Shows(statics.view, S) && (dynamic != null ==> Shows(dynamic.view, D))
      modifies this, undefined.Repr, statics.Repr, Foot(dynamic)
      ensures Tables(undefined, statics, dynamic) && this !in undefined.Repr + statics.Repr + Foot(dynamic)
      ensures fresh(undefined.Repr - old(undefined.Repr)) && fresh(statics.Repr - old(statics.Repr)) && fresh(Foot(dynamic) - old(Foot(dynamic)))
      ensures statics.view == old(statics.view) && (dynamic != null ==> dynamic.view == old(dynamic.view))
      ensures Linked() == LinkSymbol(id, name, S, D, old(Linked())) && Shows(undefined.view, scope)
    {
      hide Table.Valid, Shows, Pushed, BindAll, Bind;
      if id in of { return; }
      var done := AssignAny(id, name, undefined, statics, dynamic, S, D);
      if !done {
        var b := MakeUndefined(name, undefined);
        of := of[id := b];
      }
    }

    /** A new binding for a name that nothing visible has. */
    method MakeUndefined(name: string, undefined: Table) returns (b: Binding)
      requires Sound(undefined) && this !in undefined.Repr && Shows(undefined.view, scope) && name != ""
      modifies this`next, this`scope, undefined.Repr
      ensures Sound(undefined) && fresh(undefined.Repr - old(undefined.Repr)) && Shows(undefined.view, scope)
      ensures b == Binding(old(next), name) && next == old(next) + 1 && scope == Bind(old(scope), b)
    {
      hide Table.Valid, Shows, Pushed, BindAll, Bind;
      b := Binding(next, name);
      PushedShows(undefined.view, scope, [b]);
      BindOne(scope, b);
      PutAll([b], undefined);
      next, scope := next + 1, Bind(scope, b);
    }

    method LinkArguments(args: seq<Term>, isStatic: bool, undefined: Table, statics: Table, dynamic: HashTable?<string, Binding>, ghost S: Scope, ghost D: Scope)
      requires NamedAll(args)
      requires (dynamic == null) == isStatic && (isStatic ==> D == map[])
      requires Tables(undefined, statics, dynamic) && this !in undefined.Repr + statics.Repr + Foot(dynamic)
      requires Shows(undefined.view, scope) && Shows(statics.view, S) && (dynamic != null ==> Shows(dynamic.view, D))
      modifies this, undefined.Repr, statics.Repr, Foot(dynamic)
      ensures Tables(undefined, statics, dynamic) && this !in undefined.Repr + statics.Repr + Foot(dynamic)
      ensures fresh(undefined.Repr - old(undefined.Repr)) && fresh(statics.Repr - old(statics.Repr)) && fresh(Foot(dynamic) - old(Foot(dynamic)))
      ensures statics.view == old(statics.view) && (dynamic != null ==> dynamic.view == old(dynamic.view))
      ensures Linked() == LinkAll(args, isStatic, S, D, old(Linked())) && Shows(undefined.view, scope)
      decreases args, 0
    {
      hide Table.Valid, Shows, Link;
      for i := 0 to |args|
        invariant Tables(undefined, statics, dynamic) && this !in undefined.Repr + statics.Repr + Foot(dynamic)
        invariant fresh(undefined.Repr - old(undefined.Repr)) && fresh(statics.Repr - old(statics.Repr)) && fresh(Foot(dynamic) - old(Foot(dynamic)))
        invariant statics.view == old(statics.view) && (dynamic != null ==> dynamic.view == old(dynamic.view))
        invariant Linked() == LinkAll(args[..i], isStatic, S, D, old(Linked())) && Shows(undefined.view, scope)
      {
        LinkAllSnoc(args, i, isStatic, S, D, old(Linked()));
        NamedAt(args, i);
        LinkSymbols(args[i], isStatic, undefined, statics, dynamic, S, D);
      }
      assert args[..|args|] == args;
    }

    /** A reference and its parameters become visible. */
    method Enter(ref: Binding, params: seq<Binding>, t: Table, ghost m: Scope)
      requires Sound(t) && Shows(t.view, m)
      modifies t.Repr
      ensures Sound(t) && fresh(t.Repr - old(t.Repr))
      ensures t.view == Pushed(Pushed(old(t.view), [ref]), params) && Shows(t.view, BindAll(Bind(m, ref), params))
    {
      hide Table.Valid, Shows;
      ShowsAll(t.view, m);
      PushedShows(t.view, m, [ref]);
      BindOne(m, ref);
      PushedShows(Pushed(t.view, [ref]), Bind(m, ref), params);
      PutAll([ref], t);
      PutAll(params, t);
    }

    /** They are taken away again. */
    method Exit(ref: Binding, params: seq<Binding>, t: Table, ghost was: View)
      requires Sound(t) && (forall n: string :: n in was) && t.view == Pushed(Pushed(was, [ref]), params)
      modifies t.Repr
      ensures Sound(t) && t.Repr == old(t.Repr) && t.view == was
    {
      hide Table.Valid;
      PushedThenPopped(was, [ref]);
      PushedThenPopped(Pushed(was, [ref]), params);
      RemoveAll(params, t);
      RemoveAll([ref], t);
    }

    method LinkBody(s: Term, ref: Binding, params: seq<Binding>, isStatic: bool, undefined: Table, statics: Table, dynamic: HashTable?<string, Binding>, ghost S: Scope, ghost D: Scope)
      requires Named(s) && ((s.Cont? && ref == s.ref && params == s.params) || (s.With? && ref == s.ref && params == [s.param]))
      requires (dynamic == null) == isStatic && (isStatic ==> D == map[])
      requires Tables(undefined, statics, dynamic) && this !in undefined.Repr + statics.Repr + Foot(dynamic)
      requires Shows(undefined.view, scope) && Shows(statics.view, S) && (dynamic != null ==> Shows(dynamic.view, D))
      modifies this, undefined.Repr, statics.Repr, Foot(dynamic)
      ensures Tables(undefined, statics, dynamic) && this !in undefined.Repr + statics.Repr + Foot(dynamic)
      ensures fresh(undefined.Repr - old(undefined.Repr)) && fresh(statics.Repr - old(statics.Repr)) && fresh(Foot(dynamic) - old(Foot(dynamic)))
      ensures statics.view == old(statics.view) && (dynamic != null ==> dynamic.view == old(dynamic.view))
      ensures Linked() == Link(s, isStatic, S, D, old(Linked())) && Shows(undefined.view, scope)
      decreases s, 1
    {
      hide Table.Valid, Shows, Link, Pushed, BindAll, Bind, Named, LinkAll;
      NamedBody(s);
      LinkOfBody(s, ref, params, isStatic, S, D, Linked());
      if isStatic {
        ghost var was := statics.view;
        ShowsAll(was, S);
        Enter(ref, params, statics, S);
        LinkSymbols(s.body, true, undefined, statics, dynamic, BindAll(Bind(S, ref), params), D);
        Exit(ref, params, statics, was);
      } else {
        ghost var was := dynamic.view;
        ShowsAll(was, D);
        Enter(ref, params, dynamic, D);
        LinkSymbols(s.body, false, undefined, statics, dynamic, S, BindAll(Bind(D, ref), params));
        Exit(ref, params, dynamic, was);
      }
    }

    method LinkStorage(s: Term, isStatic: bool, undefined: Table, statics: Table, dynamic: HashTable?<string, Binding>, ghost S: Scope, ghost D: Scope)
      requires s.Sto? && Named(s)
      requires (dynamic == null) == isStatic && (isStatic ==> D == map[])
      requires Tables(undefined, statics, dynamic) && this !in undefined.Repr + statics.Repr + Foot(dynamic)
      requires Shows(undefined.view, scope) && Shows(statics.view, S) && (dynamic != null ==> Shows(dynamic.view, D))
      modifies this, undefined.Repr, statics.Repr, Foot(dynamic)
      ensures Tables(undefined, statics, dynamic) && this !in undefined.Repr + statics.Repr + Foot(dynamic)
      ensures fresh(undefined.Repr - old(undefined.Repr)) && fresh(statics.Repr - old(statics.Repr)) && fresh(Foot(dynamic) - old(Foot(dynamic)))
      ensures statics.view == old(statics.view) && (dynamic != null ==> dynamic.view == old(dynamic.view))
      ensures Linked() == Link(s, isStatic, S, D, old(Linked())) && Shows(undefined.view, scope)
      decreases s, 1
    {
      hide Table.Valid, Shows;
      if isStatic {
        ghost var was := statics.view;
        ShowsAll(was, S);
        Enter(s.ref, [], statics, S);
        LinkArguments(s.args, true, undefined, statics, dynamic, Bind(S, s.ref), D);
        Exit(s.ref, [], statics, was);
      } else {
        ghost var was := dynamic.view;
        ShowsAll(was, D);
        Enter(s.ref, [], dynamic, D);
        LinkArguments(s.args, false, undefined, statics, dynamic, S, Bind(D, s.ref));
        Exit(s.ref, [], dynamic, was);
      }
    }

    /** A new table that shows the parameters. */
    method NewFrame(params: seq<Binding>) returns (frame: Table)
      ensures Sound(frame) && fresh(frame.Repr) && Shows(frame.view, BindAll(map[], params))
    {
      hide Table.Valid, Shows, Pushed, BindAll;
      frame := new HashTable<string, Binding>(hash);
      InOwnRepr(frame);
      EmptyShows(frame.view);
      PushedShows(frame.view, map[], params);
      PutAll(params, frame);
    }

    /** The function's own name is static in its body, and its frame is a new table. */
    method LinkFunction(s: Term, undefined: Table, statics: Table, dynamic: HashTable?<string, Binding>, ghost S: Scope, ghost D: Scope)
      requires s.Fun? && Named(s)
      requires Tables(undefined, statics, dynamic) && this !in undefined.Repr + statics.Repr + Foot(dynamic)
      requires Shows(undefined.view, scope) && Shows(statics.view, S) && (dynamic != null ==> Shows(dynamic.view, D))
      modifies this, undefined.Repr, statics.Repr, Foot(dynamic)
      ensures Tables(undefined, statics, dynamic) && this !in undefined.Repr + statics.Repr + Foot(dynamic)
      ensures fresh(undefined.Repr - old(undefined.Repr)) && fresh(statics.Repr - old(statics.Repr)) && fresh(Foot(dynamic) - old(Foot(dynamic)))
      ensures statics.view == old(statics.view) && (dynamic != null ==> dynamic.view == old(dynamic.view))
      ensures Linked() == Link(s, false, S, D, old(Linked())) && Shows(undefined.view, scope)
      decreases s, 1
    {
      hide Table.Valid, Shows, Link;
      ghost var was := statics.view;
      ShowsAll(was, S);
      LinkOfFunction(s, S, D, Linked());
      Enter(s.ref, [], statics, S);
      var frame := NewFrame(s.params);
      LinkSymbols(s.body, false, undefined, statics, frame, Bind(S, s.ref), BindAll(map[], s.params));
      Exit(s.ref, [], statics, was);
    }
  }

  lemma {:induction false} EmptyShows(view: View)
    requires forall n: string :: n in view && view[n] == []
    ensures Shows(view, map[])
  {}

  lemma {:induction false} ShowsAll(view: View, m: Scope)
    requires Shows(view, m)
    ensures forall n: string :: n in view
  {}

  lemma {:induction false} LinkOfFunction(s: Term, S: Scope, D: Scope, st: Links)
    requires s.Fun?
    ensures forall isStatic :: Link(s, isStatic, S, D, st) == Link(s.body, false, Bind(S, s.ref), BindAll(map[], s.params), st)
    ensures BindAll(Bind(S, s.ref), []) == Bind(S, s.ref)
  {}

  lemma {:induction false} BindOne(m: Scope, b: Binding)
    ensures BindAll(m, [b]) == Bind(m, b)
  {
    assert [b][..0] == [];
  }

  lemma {:induction false} NamedBody(s: Term)
    requires Named(s) && (s.Cont? || s.With?)
    ensures Named(s.body)
  {}

  lemma {:induction false} LinkOfBody(s: Term, ref: Binding, params: seq<Binding>, isStatic: bool, S: Scope, D: Scope, st: Links)
    requires (s.Cont? && ref == s.ref && params == s.params) || (s.With? && ref == s.ref && params == [s.param])
    ensures Link(s, isStatic, S, D, st) ==
      if isStatic then Link(s.body, true, BindAll(Bind(S, ref), params), D, st)
      else Link(s.body, false, S, BindAll(Bind(D, ref), params), st)
  {}

  lemma {:induction false} InOwnRepr(t: Table)
    requires t.Valid()
    ensures t in t.Repr
  {}

  // ----- both ways agree -----

  /** Linking a program both ways: the same symbols get the same bindings. */
  method LinkBothWays(exprs: seq<Term>, globals: seq<Binding>, hash: string -> nat) returns (lists: ListLinker, tables: TableLinker)
    requires NamedAll(exprs)
    ensures lists.of == tables.of && lists.next == tables.next
    ensures lists.Linked() == LinkAll(exprs, true, BindAll(map[], globals), map[], Links(map[], map[], 0))
    ensures SymsOnceAll(exprs) ==> AllInnermost(exprs, AsBound(globals), Links(map[], map[], 0), lists.Linked())
  {
    hide AllInnermost, SymsOnceAll, AsBound, Link, LinkAll, Pushed, Bind, BindAll, Named, Table.Valid;
    lists := new ListLinker();
    var statics := lists.PrependAll(globals, []);
    lists.LinkArguments(exprs, true, statics, []);
    tables := new TableLinker(hash);
    var undefined := new HashTable<string, Binding>(hash);
    InOwnRepr(undefined);
    var table := new HashTable<string, Binding>(hash);
    InOwnRepr(table);
    EmptyShows(undefined.view);
    EmptyShows(table.view);
    PushedShows(table.view, map[], globals);
    tables.PutAll(globals, table);
    tables.LinkArguments(exprs, true, undefined, table, null, BindAll(map[], globals), map[]);
    if SymsOnceAll(exprs) {
      ProgramIsInnermost(exprs, globals, Links(map[], map[], 0));
    }
  }

  // ----- linked symbols are in scope -----

  function Ids(bs: seq<Binding>): seq<nat> { seq(|bs|, i requires 0 <= i < |bs| => bs[i].id) }

  /** The linked expression, as the passes after linking see it. */
  function Resolved(e: Term, of: map<nat, Binding>): Syntax.Expr
    decreases e, 1
  {
    match e
    case Lit(value) => Syntax.Literal(value)
    case Sym(id, _) => Syntax.Symbol(if id in of then of[id].id else 0)
    case Cond(c, t, f) => Syntax.If(Resolved(c, of), Resolved(t, of), Resolved(f, of))
    case Fun(ref, params, body) => Syntax.Function(ref.id, Ids(params), Resolved(body, of))
    case Cont(ref, params, body, entry) => Syntax.Continuation(ref.id, Ids(params), Resolved(body, of), entry)
    case With(ref, param, body, entry) => Syntax.With(ref.id, param.id, Resolved(body, of), entry)
    case Sto(ref, args) => Syntax.Storage(ref.id, ResolvedAll(args, of))
    case Inv(target, args, temp) => Syntax.Invoke(Resolved(target, of), ResolvedAll(args, of), temp)
    case Jmp(target, args, temp) => Syntax.Jump(Resolved(target, of), ResolvedAll(args, of), temp)
    case Constrained(body) => Syntax.Constrain(Resolved(body, of))
  }

  function ResolvedAll(es: seq<Term>, of: map<nat, Binding>): seq<Syntax.Expr>
    decreases es, 0
  {
    if es == [] then [] else [Resolved(es[0], of)] + ResolvedAll(es[1..], of)
  }

  /** The symbol occurrences of e. */
  function Syms(e: Term): set<nat>
    decreases e, 1
  {
    match e
    case Lit(_) => {}
    case Sym(id, _) => {id}
    case Cond(c, t, f) => Syms(c) + Syms(t) + Syms(f)
    case Fun(_, _, body) => Syms(body)
    case Cont(_, _, body, _) => Syms(body)
    case With(_, _, body, _) => Syms(body)
    case Sto(_, args) => SymsAll(args)
    case Inv(target, args, _) => Syms(target) + SymsAll(args)
    case Jmp(target, args, _) => Syms(target) + SymsAll(args)
    case Constrained(body) => Syms(body)
  }

  function SymsAll(es: seq<Term>): set<nat>
    decreases es, 0
  {
    if es == [] then {} else Syms(es[0]) + SymsAll(es[1..])
  }

  /** Every symbol occurrence is an expression of its own. */
  predicate SymsOnce(e: Term)
    decreases e, 1
  {
    match e
    case Cond(c, t, f) =>
      SymsOnce(c) && SymsOnce(t) && SymsOnce(f) && Syms(c) !! Syms(t) && Syms(c) !! Syms(f) && Syms(t) !! Syms(f)
    case Fun(_, _, body) => SymsOnce(body)
    case Cont(_, _, body, _) => SymsOnce(body)
    case With(_, _, body, _) => SymsOnce(body)
    case Sto(_, args) => SymsOnceAll(args)
    case Inv(target, args, _) => SymsOnce(target) && SymsOnceAll(args) && Syms(target) !! SymsAll(args)
    case Jmp(target, args, _) => SymsOnce(target) && SymsOnceAll(args) && Syms(target) !! SymsAll(args)
    case Constrained(body) => SymsOnce(body)
    case _ => true
  }

  predicate SymsOnceAll(es: seq<Term>)
    decreases es, 0
  {
    es == [] || (SymsOnce(es[0]) && SymsOnceAll(es[1..]) && Syms(es[0]) !! SymsAll(es[1..]))
  }

  /** What is outside every function in e: the bindings of its static continuations and storage. */
  function StaticIds(e: Term): set<nat>
    decreases e, 1
  {
    match e
    case Cond(c, t, f) => StaticIds(c) + StaticIds(t) + StaticIds(f)
    case Cont(ref, params, body, _) => {ref.id} + Frames.SetOf(Ids(params)) + StaticIds(body)
    case With(ref, param, body, _) => {ref.id, param.id} + StaticIds(body)
    case Sto(ref, args) => {ref.id} + StaticIdsAll(args)
    case Inv(target, args, _) => StaticIds(target) + StaticIdsAll(args)
    case Jmp(target, args, _) => StaticIds(target) + StaticIdsAll(args)
    case Constrained(body) => StaticIds(body)
    case _ => {}
  }

  function StaticIdsAll(es: seq<Term>): set<nat>
    decreases es, 0
  {
    if es == [] then {} else StaticIds(es[0]) + StaticIdsAll(es[1..])
  }

  ghost predicate Covers(bs: set<nat>, m: Scope) {
    forall n :: n in m ==> m[n].id in bs
  }

  lemma {:induction false} BindAllCovered(m: Scope, params: seq<Binding>, bs: set<nat>)
    requires Covers(bs, m)
    ensures Covers(bs + Frames.SetOf(Ids(params)), BindAll(m, params))
  {
    if params != [] {
      var front := params[..|params| - 1];
      BindAllCovered(m, front, bs);
      assert Ids(params)[|params| - 1] == params[|params| - 1].id;
      assert forall i :: 0 <= i < |front| ==> Ids(front)[i] == Ids(params)[i];
    }
  }

  ghost predicate Later(a: Links, b: Links) {
    && (forall id :: id in a.of ==> id in b.of && b.of[id] == a.of[id])
    && (forall n :: n in a.undefined ==> n in b.undefined && b.undefined[n] == a.undefined[n])
  }

  /** Linking gave bindings to exactly these symbols and changed none it found. Names that became
      undefined got new bindings of that name. */
  ghost predicate Grown(a: Links, b: Links, syms: set<nat>) {
    && Later(a, b) && b.of.Keys == a.of.Keys + syms && a.next <= b.next
    && forall n :: n in b.undefined && n !in a.undefined ==> b.undefined[n].name == n && a.next <= b.undefined[n].id < b.next
  }

  lemma {:induction false} GrownThen(a: Links, b: Links, c: Links, p: set<nat>, q: set<nat>)
    requires Grown(a, b, p) && Grown(b, c, q)
    ensures Grown(a, c, p + q)
  {}

  lemma {:induction false} SymbolGrows(id: nat, name: string, S: Scope, D: Scope, st: Links)
    ensures Grown(st, LinkSymbol(id, name, S, D, st), {id})
  {}

  lemma {:induction false} LinkGrows(e: Term, isStatic: bool, S: Scope, D: Scope, st: Links)
    ensures Grown(st, Link(e, isStatic, S, D, st), Syms(e))
    decreases e, 1
  {
    hide Bind, BindAll, LinkSymbol, Grown;
    match e
    case Lit(_) => assert Grown(st, st, {}) by { NothingGrown(st); }
    case Sym(id, name) => SymbolGrows(id, name, S, D, st);
    case Cond(c, t, f) =>
      var s1 := Link(c, isStatic, S, D, st);
      var s2 := Link(t, isStatic, S, D, s1);
      LinkGrows(c, isStatic, S, D, st);
      LinkGrows(t, isStatic, S, D, s1);
      LinkGrows(f, isStatic, S, D, s2);
      GrownThen(st, s1, s2, Syms(c), Syms(t));
      GrownThen(st, s2, Link(f, isStatic, S, D, s2), Syms(c) + Syms(t), Syms(f));
    case Fun(ref, params, body) => LinkGrows(body, false, Bind(S, ref), BindAll(map[], params), st);
    case Cont(ref, params, body, _) =>
      LinkGrows(body, true, BindAll(Bind(S, ref), params), D, st);
      LinkGrows(body, false, S, BindAll(Bind(D, ref), params), st);
    case With(ref, param, body, _) =>
      LinkGrows(body, true, BindAll(Bind(S, ref), [param]), D, st);
      LinkGrows(body, false, S, BindAll(Bind(D, ref), [param]), st);
    case Sto(ref, args) =>
      LinkGrowsAll(args, true, Bind(S, ref), D, st);
      LinkGrowsAll(args, false, S, Bind(D, ref), st);
    case Inv(target, args, _) => CallGrows(e, target, args, isStatic, S, D, st);
    case Jmp(target, args, _) => CallGrows(e, target, args, isStatic, S, D, st);
    case Constrained(body) => LinkGrows(body, isStatic, S, D, st);
  }

  lemma {:induction false} NothingGrown(st: Links)
    ensures Grown(st, st, {})
  {}

  lemma {:induction false} CallGrows(e: Term, target: Term, args: seq<Term>, isStatic: bool, S: Scope, D: Scope, st: Links)
    requires (e.Inv? || e.Jmp?) && target == e.target && args == e.args
    ensures Grown(st, LinkAll(args, isStatic, S, D, Link(target, isStatic, S, D, st)), Syms(target) + SymsAll(args))
    decreases e, 0
  {
    hide Link, LinkAll, Grown;
    var s1 := Link(target, isStatic, S, D, st);
    LinkGrows(target, isStatic, S, D, st);
    LinkGrowsAll(args, isStatic, S, D, s1);
    GrownThen(st, s1, LinkAll(args, isStatic, S, D, s1), Syms(target), SymsAll(args));
  }

  lemma {:induction false} LinkGrowsAll(es: seq<Term>, isStatic: bool, S: Scope, D: Scope, st: Links)
    ensures Grown(st, LinkAll(es, isStatic, S, D, st), SymsAll(es))
    decreases es, 0
  {
    hide Link, Grown;
    if es != [] {
      var s1 := Link(es[0], isStatic, S, D, st);
      LinkGrows(es[0], isStatic, S, D, st);
      LinkGrowsAll(es[1..], isStatic, S, D, s1);
      GrownThen(st, s1, LinkAll(es[1..], isStatic, S, D, s1), Syms(es[0]), SymsAll(es[1..]));
    } else {
      NothingGrown(st);
    }
  }

  /** Linking makes every symbol name something that is visible where it stands: what escape
      analysis, layout and code generation rely on. */
  lemma {:induction false} LinkedIsScoped(e: Term, isStatic: bool, S: Scope, D: Scope, st: Links, last: Links, dyn: set<nat>, stat: set<nat>)
    requires Named(e) && SymsOnce(e) && Syms(e) !! st.of.Keys && Later(Link(e, isStatic, S, D, st), last)
    requires Covers(dyn, D) && Covers(stat, S) && Covers(stat, last.undefined) && (isStatic ==> StaticIds(e) <= stat)
    ensures Escapes.Scoped(Resolved(e, last.of), dyn, stat)
    decreases e, 1
  {
    hide Covers, Later;
    match e
    case Lit(_) =>
    case Sym(id, name) => SymbolIsScoped(id, name, S, D, st, last, dyn, stat);
    case Cond(c, t, f) =>
      var s1 := Link(c, isStatic, S, D, st);
      var s2 := Link(t, isStatic, S, D, s1);
      LinkGrows(c, isStatic, S, D, st);
      LinkGrows(t, isStatic, S, D, s1);
      LinkGrows(f, isStatic, S, D, s2);
      LaterThen(s1, s2, Link(f, isStatic, S, D, s2));
      LaterThen(s1, Link(f, isStatic, S, D, s2), last);
      LaterThen(s2, Link(f, isStatic, S, D, s2), last);
      LinkedIsScoped(c, isStatic, S, D, st, last, dyn, stat);
      LinkedIsScoped(t, isStatic, S, D, s1, last, dyn, stat);
      LinkedIsScoped(f, isStatic, S, D, s2, last, dyn, stat);
    case Fun(ref, params, body) =>
      CoversBind(S, ref, stat);
      NothingCovered({});
      BindAllCovered(map[], params, {});
      CoversMore(last.undefined, stat, stat + {ref.id});
      LinkedIsScoped(body, false, Bind(S, ref), BindAll(map[], params), st, last, {} + Frames.SetOf(Ids(params)), stat + {ref.id});
      assert {} + Frames.SetOf(Ids(params)) == Frames.SetOf(Ids(params));
    case Cont(ref, params, body, _) => BodyIsScoped(e, ref, params, isStatic, S, D, st, last, dyn, stat);
    case With(ref, param, body, _) => BodyIsScoped(e, ref, [param], isStatic, S, D, st, last, dyn, stat);
    case Sto(ref, args) => StorageIsScoped(e, isStatic, S, D, st, last, dyn, stat);
    case Inv(target, args, _) => CallIsScoped(e, target, args, isStatic, S, D, st, last, dyn, stat);
    case Jmp(target, args, _) => CallIsScoped(e, target, args, isStatic, S, D, st, last, dyn, stat);
    case Constrained(body) => LinkedIsScoped(body, isStatic, S, D, st, last, dyn, stat);
  }

  lemma {:induction false} LaterThen(a: Links, b: Links, c: Links)
    requires Later(a, b) && Later(b, c)
    ensures Later(a, c)
  {}

  lemma {:induction false} NothingCovered(bs: set<nat>)
    ensures Covers(bs, map[])
  {}

  lemma {:induction false} CoversMore(m: Scope, bs: set<nat>, cs: set<nat>)
    requires Covers(bs, m) && bs <= cs
    ensures Covers(cs, m)
  {}

  lemma {:induction false} CoversBind(m: Scope, b: Binding, bs: set<nat>)
    requires Covers(bs, m)
    ensures Covers(bs + {b.id}, Bind(m, b))
  {}

  lemma {:induction false} SymbolIsScoped(id: nat, name: string, S: Scope, D: Scope, st: Links, last: Links, dyn: set<nat>, stat: set<nat>)
    requires name != "" && id !in st.of && Later(LinkSymbol(id, name, S, D, st), last)
    requires Covers(dyn, D) && Covers(stat, S) && Covers(stat, last.undefined)
    ensures id in last.of && (last.of[id].id in dyn || last.of[id].id in stat)
  {
    var after := LinkSymbol(id, name, S, D, st);
    if name !in D && name !in S {
      assert name in after.undefined && after.of[id] == after.undefined[name];
    }
  }

  lemma {:induction false} CallIsScoped(e: Term, target: Term, args: seq<Term>, isStatic: bool, S: Scope, D: Scope, st: Links, last: Links, dyn: set<nat>, stat: set<nat>)
    requires (e.Inv? || e.Jmp?) && target == e.target && args == e.args
    requires Named(e) && SymsOnce(e) && Syms(e) !! st.of.Keys && Later(Link(e, isStatic, S, D, st), last)
    requires Covers(dyn, D) && Covers(stat, S) && Covers(stat, last.undefined) && (isStatic ==> StaticIds(e) <= stat)
    ensures Escapes.Scoped(Resolved(e, last.of), dyn, stat)
    decreases e, 0
  {
    hide Covers, Later;
    var s1 := Link(target, isStatic, S, D, st);
    LinkGrows(target, isStatic, S, D, st);
    LinkGrowsAll(args, isStatic, S, D, s1);
    LaterThen(s1, LinkAll(args, isStatic, S, D, s1), last);
    LinkedIsScoped(target, isStatic, S, D, st, last, dyn, stat);
    LinkedAreScoped(args, isStatic, S, D, s1, last, dyn, stat);
  }

  lemma {:induction false} StorageIsScoped(e: Term, isStatic: bool, S: Scope, D: Scope, st: Links, last: Links, dyn: set<nat>, stat: set<nat>)
    requires e.Sto? && Named(e) && SymsOnce(e) && Syms(e) !! st.of.Keys && Later(Link(e, isStatic, S, D, st), last)
    requires Covers(dyn, D) && Covers(stat, S) && Covers(stat, last.undefined) && (isStatic ==> StaticIds(e) <= stat)
    ensures Escapes.Scoped(Resolved(e, last.of), dyn, stat)
    decreases e, 0
  {
    hide Covers, Later, Bind;
    var b := e.ref;
    CoversMore(D, dyn, dyn + {b.id});
    CoversBind(D, b, dyn);
    CoversBind(S, b, stat);
    if isStatic {
      assert stat + {b.id} == stat;
      LinkedAreScoped(e.args, true, Bind(S, b), D, st, last, dyn + {b.id}, stat);
    } else {
      LinkedAreScoped(e.args, false, S, Bind(D, b), st, last, dyn + {b.id}, stat);
    }
  }

  lemma {:induction false} BodyIsScoped(e: Term, ref: Binding, params: seq<Binding>, isStatic: bool, S: Scope, D: Scope, st: Links, last: Links, dyn: set<nat>, stat: set<nat>)
    requires (e.Cont? && ref == e.ref && params == e.params) || (e.With? && ref == e.ref && params == [e.param])
    requires Named(e) && SymsOnce(e) && Syms(e) !! st.of.Keys && Later(Link(e, isStatic, S, D, st), last)
    requires Covers(dyn, D) && Covers(stat, S) && Covers(stat, last.undefined) && (isStatic ==> StaticIds(e) <= stat)
    ensures Escapes.Scoped(Resolved(e, last.of), dyn, stat)
    decreases e, 0
  {
    hide Covers, Later, Bind;
    var P := Frames.SetOf(Ids(params));
    CoversBind(D, ref, dyn);
    CoversBind(S, ref, stat);
    if isStatic {
      BindAllCovered(Bind(S, ref), params, stat + {ref.id});
      if |params| == 1 { OneId(params); }
      assert stat + {ref.id} + P == stat;
      CoversMore(D, dyn, dyn + {ref.id});
      CoversMore(D, dyn, dyn + {ref.id} + P);
      LinkedIsScoped(e.body, true, BindAll(Bind(S, ref), params), D, st, last, if e.With? then dyn + {ref.id} else dyn + {ref.id} + P, stat);
    } else if e.With? {
      NamelessIsInvisible(Bind(D, ref), e.param);
      LinkedIsScoped(e.body, false, S, BindAll(Bind(D, ref), params), st, last, dyn + {ref.id}, stat);
    } else {
      BindAllCovered(Bind(D, ref), params, dyn + {ref.id});
      LinkedIsScoped(e.body, false, S, BindAll(Bind(D, ref), params), st, last, dyn + {ref.id} + P, stat);
    }
  }

  lemma {:induction false} OneId(params: seq<Binding>)
    requires |params| == 1
    ensures Frames.SetOf(Ids(params)) == {params[0].id}
  {
    assert Ids(params) == [params[0].id];
  }

  lemma {:induction false} NamelessIsInvisible(m: Scope, b: Binding)
    requires b.name == ""
    ensures BindAll(m, [b]) == m
  {
    BindOne(m, b);
  }

  lemma {:induction false} LinkedAreScoped(es: seq<Term>, isStatic: bool, S: Scope, D: Scope, st: Links, last: Links, dyn: set<nat>, stat: set<nat>)
    requires NamedAll(es) && SymsOnceAll(es) && SymsAll(es) !! st.of.Keys && Later(LinkAll(es, isStatic, S, D, st), last)
    requires Covers(dyn, D) && Covers(stat, S) && Covers(stat, last.undefined) && (isStatic ==> StaticIdsAll(es) <= stat)
    ensures Escapes.ScopedAll(ResolvedAll(es, last.of), dyn, stat)
    decreases es, 0
  {
    hide Covers, Later;
    if es != [] {
      var s1 := Link(es[0], isStatic, S, D, st);
      LinkGrows(es[0], isStatic, S, D, st);
      LinkGrowsAll(es[1..], isStatic, S, D, s1);
      LaterThen(s1, LinkAll(es[1..], isStatic, S, D, s1), last);
      LinkedIsScoped(es[0], isStatic, S, D, st, last, dyn, stat);
      LinkedAreScoped(es[1..], isStatic, S, D, s1, last, dyn, stat);
      assert ResolvedAll(es, last.of)[1..] == ResolvedAll(es[1..], last.of);
    }
  }

  // ----- occurrences and the binders around them -----

  /** Going inwards, a binder becomes visible or the body of a function begins. */
  datatype Mark = Bound(b: Binding) | Entered(b: Binding)

  function AsBound(bs: seq<Binding>): seq<Mark> {
    seq(|bs|, i requires 0 <= i < |bs| => Bound(bs[i]))
  }

  /** What e puts around its parts. */
  function MarksOf(e: Term): seq<Mark> {
    match e
    case Fun(ref, params, _) => [Entered(ref)] + AsBound(params)
    case Cont(ref, params, _, _) => [Bound(ref)] + AsBound(params)
    case With(ref, param, _, _) => [Bound(ref)] + AsBound([param])
    case Sto(ref, _) => [Bound(ref)]
    case _ => []
  }

  predicate StartsWith(around: seq<Mark>, marks: seq<Mark>) {
    |marks| <= |around| && around[..|marks|] == marks
  }

  /** Symbol number id with this name stands in e, with these marks around it, the outermost first. */
  ghost predicate OccursIn(e: Term, id: nat, name: string, around: seq<Mark>)
    decreases e, 1
  {
    match e
    case Lit(_) => false
    case Sym(i, n) => id == i && name == n && around == []
    case Cond(c, t, f) => OccursIn(c, id, name, around) || OccursIn(t, id, name, around) || OccursIn(f, id, name, around)
    case Fun(_, _, body) => StartsWith(around, MarksOf(e)) && OccursIn(body, id, name, around[|MarksOf(e)|..])
    case Cont(_, _, body, _) => StartsWith(around, MarksOf(e)) && OccursIn(body, id, name, around[|MarksOf(e)|..])
    case With(_, _, body, _) => StartsWith(around, MarksOf(e)) && OccursIn(body, id, name, around[|MarksOf(e)|..])
    case Sto(_, args) => StartsWith(around, MarksOf(e)) && OccursInAny(args, id, name, around[|MarksOf(e)|..])
    case Inv(target, args, _) => OccursIn(target, id, name, around) || OccursInAny(args, id, name, around)
    case Jmp(target, args, _) => OccursIn(target, id, name, around) || OccursInAny(args, id, name, around)
    case Constrained(body) => OccursIn(body, id, name, around)
  }

  ghost predicate OccursInAny(es: seq<Term>, id: nat, name: string, around: seq<Mark>)
    decreases es, 0
  {
    es != [] && (OccursIn(es[0], id, name, around) || OccursInAny(es[1..], id, name, around))
  }

  predicate HasFunction(P: seq<Mark>) { exists i :: 0 <= i < |P| && P[i].Entered? }

  /** The i-th mark is a binder between the nearest function around the occurrence and the occurrence. */
  predicate InFrame(P: seq<Mark>, i: int) {
    && 0 <= i < |P| && P[i].Bound?
    && (exists j :: 0 <= j < i && P[j].Entered?) && (forall j :: i < j < |P| ==> P[j].Bound?)
  }

  /** The i-th mark is a binder outside every function, or the name of a function. */
  predicate IsStatic(P: seq<Mark>, i: int) {
    0 <= i < |P| && (P[i].Entered? || forall j :: 0 <= j < i ==> P[j].Bound?)
  }

  /** The last binder of the name in the frame. */
  ghost predicate LastInFrame(P: seq<Mark>, name: string, i: int) {
    InFrame(P, i) && P[i].b.name == name && forall j :: i < j < |P| && InFrame(P, j) ==> P[j].b.name != name
  }

  ghost predicate LastStatic(P: seq<Mark>, name: string, i: int) {
    IsStatic(P, i) && P[i].b.name == name && forall j :: i < j < |P| && IsStatic(P, j) ==> P[j].b.name != name
  }

  ghost predicate NamedInFrame(P: seq<Mark>, name: string) { exists i :: InFrame(P, i) && P[i].b.name == name }

  ghost predicate NamedStatic(P: seq<Mark>, name: string) { exists i :: IsStatic(P, i) && P[i].b.name == name }

  /** b is the innermost visible binding of the name inside the marks P: the last in the frame, failing
      that the last static one, failing that the one made for the undefined name. */
  ghost predicate Innermost(P: seq<Mark>, name: string, b: Binding, undefined: Scope) {
    if NamedInFrame(P, name) then exists i :: LastInFrame(P, name, i) && b == P[i].b
    else if NamedStatic(P, name) then exists i :: LastStatic(P, name, i) && b == P[i].b
    else name in undefined && b == undefined[name]
  }

  /** Every symbol that was not linked before is linked to its innermost visible binding. */
  ghost predicate AllInnermost(es: seq<Term>, P: seq<Mark>, st: Links, last: Links) {
    forall id, name, around :: OccursInAny(es, id, name, around) && id !in st.of && name != "" ==>
      id in last.of && Innermost(P + around, name, last.of[id], last.undefined)
  }

  // ----- scopes are what the marks make visible -----

  ghost predicate FrameAgrees(P: seq<Mark>, D: Scope) {
    forall name: string :: name != "" ==>
      (name in D <==> NamedInFrame(P, name)) && (name in D ==> exists i :: LastInFrame(P, name, i) && D[name] == P[i].b)
  }

  ghost predicate StaticAgrees(P: seq<Mark>, S: Scope) {
    forall name: string :: name != "" ==>
      (name in S <==> NamedStatic(P, name)) && (name in S ==> exists i :: LastStatic(P, name, i) && S[name] == P[i].b)
  }

  ghost predicate ScopesAgree(P: seq<Mark>, isStatic: bool, S: Scope, D: Scope) {
    (isStatic <==> !HasFunction(P)) && FrameAgrees(P, D) && StaticAgrees(P, S)
  }

  lemma {:induction false} NoMarks()
    ensures ScopesAgree([], true, map[], map[])
  {}

  lemma {:induction false} FrameSnoc(P: seq<Mark>, m: Mark, i: int)
    requires 0 <= i < |P|
    ensures InFrame(P + [m], i) <==> InFrame(P, i) && m.Bound?
    ensures IsStatic(P + [m], i) <==> IsStatic(P, i)
  {
    var Q := P + [m];
    assert forall j :: 0 <= j < |P| ==> Q[j] == P[j];
    assert Q[|P|] == m;
  }

  lemma {:induction false} LastMark(P: seq<Mark>, m: Mark)
    ensures InFrame(P + [m], |P|) <==> m.Bound? && HasFunction(P)
    ensures IsStatic(P + [m], |P|) <==> m.Entered? || !HasFunction(P)
    ensures HasFunction(P + [m]) <==> HasFunction(P) || m.Entered?
  {
    var Q := P + [m];
    assert forall j :: 0 <= j < |P| ==> Q[j] == P[j];
    assert Q[|P|] == m;
  }

  lemma {:induction false} FrameBinds(P: seq<Mark>, D: Scope, b: Binding)
    requires HasFunction(P) && FrameAgrees(P, D)
    ensures FrameAgrees(P + [Bound(b)], Bind(D, b))
  {
    var m := Bound(b);
    LastMark(P, m);
    forall i | 0 <= i < |P| ensures InFrame(P + [m], i) <==> InFrame(P, i) { FrameSnoc(P, m, i); }
    hide InFrame, HasFunction;
    forall name: string | name != ""
      ensures (name in Bind(D, b) <==> NamedInFrame(P + [m], name)) &&
        (name in Bind(D, b) ==> exists i :: LastInFrame(P + [m], name, i) && Bind(D, b)[name] == (P + [m])[i].b)
    {
      OneMoreInFrame(P, m, name);
    }
  }

  lemma {:induction false} OneMoreInFrame(P: seq<Mark>, m: Mark, name: string)
    requires InFrame(P + [m], |P|) && forall i :: 0 <= i < |P| ==> (InFrame(P + [m], i) <==> InFrame(P, i))
    ensures NamedInFrame(P + [m], name) <==> NamedInFrame(P, name) || m.b.name == name
    ensures m.b.name == name ==> LastInFrame(P + [m], name, |P|)
    ensures m.b.name != name ==> forall i :: LastInFrame(P, name, i) ==> LastInFrame(P + [m], name, i) && (P + [m])[i] == P[i]
  {
    FrameIndex(P);
    FrameIndex(P + [m]);
    hide InFrame;
    assert (P + [m])[|P|] == m && forall i :: 0 <= i < |P| ==> (P + [m])[i] == P[i];
    if NamedInFrame(P, name) {
      var i :| InFrame(P, i) && P[i].b.name == name;
      assert InFrame(P + [m], i);
    }
  }

  lemma {:induction false} FrameIndex(P: seq<Mark>)
    ensures forall i :: InFrame(P, i) || IsStatic(P, i) ==> 0 <= i < |P|
  {}

  lemma {:induction false} OneMoreStatic(P: seq<Mark>, m: Mark, name: string)
    requires IsStatic(P + [m], |P|) && forall i :: 0 <= i < |P| ==> (IsStatic(P + [m], i) <==> IsStatic(P, i))
    ensures NamedStatic(P + [m], name) <==> NamedStatic(P, name) || m.b.name == name
    ensures m.b.name == name ==> LastStatic(P + [m], name, |P|)
    ensures m.b.name != name ==> forall i :: LastStatic(P, name, i) ==> LastStatic(P + [m], name, i) && (P + [m])[i] == P[i]
  {
    FrameIndex(P);
    FrameIndex(P + [m]);
    hide IsStatic;
    assert (P + [m])[|P|] == m && forall i :: 0 <= i < |P| ==> (P + [m])[i] == P[i];
    if NamedStatic(P, name) {
      var i :| IsStatic(P, i) && P[i].b.name == name;
      assert IsStatic(P + [m], i);
    }
  }

  lemma {:induction false} StaticBinds(P: seq<Mark>, S: Scope, m: Mark)
    requires (m.Entered? || !HasFunction(P)) && StaticAgrees(P, S)
    ensures StaticAgrees(P + [m], Bind(S, m.b))
  {
    LastMark(P, m);
    forall i | 0 <= i < |P| ensures IsStatic(P + [m], i) <==> IsStatic(P, i) { FrameSnoc(P, m, i); }
    hide IsStatic, HasFunction;
    forall name: string | name != ""
      ensures (name in Bind(S, m.b) <==> NamedStatic(P + [m], name)) &&
        (name in Bind(S, m.b) ==> exists i :: LastStatic(P + [m], name, i) && Bind(S, m.b)[name] == (P + [m])[i].b)
    {
      OneMoreStatic(P, m, name);
    }
  }

  /** A binder in a frame leaves what is static alone. */
  lemma {:induction false} StaticStays(P: seq<Mark>, S: Scope, b: Binding)
    requires HasFunction(P) && StaticAgrees(P, S)
    ensures StaticAgrees(P + [Bound(b)], S)
  {
    var Q := P + [Bound(b)];
    LastMark(P, Bound(b));
    forall i | 0 <= i < |P| ensures IsStatic(Q, i) <==> IsStatic(P, i) { FrameSnoc(P, Bound(b), i); }
    FrameIndex(P);
    FrameIndex(Q);
    hide IsStatic, HasFunction;
    assert forall i :: IsStatic(Q, i) ==> i != |P|;
    assert forall i :: 0 <= i < |P| ==> Q[i] == P[i];
    forall name: string ensures NamedStatic(Q, name) <==> NamedStatic(P, name) {
      if NamedStatic(P, name) {
        var i :| IsStatic(P, i) && P[i].b.name == name;
        assert IsStatic(Q, i);
      }
    }
    forall name: string, i | LastStatic(P, name, i) ensures LastStatic(Q, name, i) && Q[i] == P[i] {}
  }

  /** Nothing is in the frame outside functions and where a function begins. */
  lemma {:induction false} EmptyFrame(P: seq<Mark>, m: Mark)
    requires m.Entered? || !HasFunction(P)
    ensures FrameAgrees(P + [m], map[])
  {
    LastMark(P, m);
    forall i ensures !InFrame(P + [m], i) {
      if 0 <= i < |P| {
        FrameSnoc(P, m, i);
        assert InFrame(P, i) ==> HasFunction(P);
      }
    }
  }

  /** A binder of a continuation, with or storage. */
  lemma {:induction false} BoundAgrees(P: seq<Mark>, isStatic: bool, S: Scope, D: Scope, b: Binding)
    requires ScopesAgree(P, isStatic, S, D)
    ensures isStatic ==> ScopesAgree(P + [Bound(b)], true, Bind(S, b), D)
    ensures !isStatic ==> ScopesAgree(P + [Bound(b)], false, S, Bind(D, b))
  {
    LastMark(P, Bound(b));
    hide StaticAgrees, HasFunction;
    if isStatic {
      StaticBinds(P, S, Bound(b));
      NoFrame(P, D);
      EmptyFrame(P, Bound(b));
      SameFrame(P + [Bound(b)], D);
    } else {
      StaticStays(P, S, b);
      FrameBinds(P, D, b);
    }
  }

  /** Outside functions no name is in the frame. */
  lemma {:induction false} NoFrame(P: seq<Mark>, D: Scope)
    requires !HasFunction(P) && FrameAgrees(P, D)
    ensures forall name :: name in D ==> name == ""
  {
    forall name | name in D ensures name == "" || NamedInFrame(P, name) {}
    assert forall i :: !InFrame(P, i);
  }

  lemma {:induction false} SameFrame(P: seq<Mark>, D: Scope)
    requires FrameAgrees(P, map[]) && forall name :: name in D ==> name == ""
    ensures FrameAgrees(P, D)
  {}

  lemma {:induction false} AllBoundAgree(P: seq<Mark>, isStatic: bool, S: Scope, D: Scope, bs: seq<Binding>)
    requires ScopesAgree(P, isStatic, S, D)
    ensures isStatic ==> ScopesAgree(P + AsBound(bs), true, BindAll(S, bs), D)
    ensures !isStatic ==> ScopesAgree(P + AsBound(bs), false, S, BindAll(D, bs))
    decreases |bs|
  {
    hide ScopesAgree;
    if bs == [] {
      assert P + AsBound(bs) == P;
    } else {
      var front, b := bs[..|bs| - 1], bs[|bs| - 1];
      AllBoundAgree(P, isStatic, S, D, front);
      BoundAgrees(P + AsBound(front), isStatic, if isStatic then BindAll(S, front) else S, if isStatic then D else BindAll(D, front), b);
      assert P + AsBound(front) + [Bound(b)] == P + AsBound(bs);
    }
  }

  /** A function begins. */
  lemma {:induction false} EnteredAgrees(P: seq<Mark>, isStatic: bool, S: Scope, D: Scope, ref: Binding)
    requires ScopesAgree(P, isStatic, S, D)
    ensures ScopesAgree(P + [Entered(ref)], false, Bind(S, ref), map[])
  {
    LastMark(P, Entered(ref));
    StaticBinds(P, S, Entered(ref));
    EmptyFrame(P, Entered(ref));
  }

  // ----- linking finds the innermost binding -----

  /** Linking e turned st into last, and symbol id is linked to its innermost binding. */
  ghost predicate Found(P: seq<Mark>, id: nat, name: string, last: Links) {
    id in last.of && Innermost(P, name, last.of[id], last.undefined)
  }

  lemma {:induction false} StillFound(P: seq<Mark>, id: nat, name: string, a: Links, b: Links)
    requires Found(P, id, name, a) && Later(a, b)
    ensures Found(P, id, name, b)
  {
    hide NamedInFrame, NamedStatic, LastInFrame, LastStatic;
  }

  lemma {:induction false} SymbolFound(id: nat, name: string, isStatic: bool, S: Scope, D: Scope, st: Links, P: seq<Mark>)
    requires ScopesAgree(P, isStatic, S, D) && name != "" && id !in st.of
    ensures Found(P, id, name, LinkSymbol(id, name, S, D, st))
  {
    hide NamedInFrame, NamedStatic, LastInFrame, LastStatic, HasFunction;
  }

  lemma {:induction false} OccursIsSym(e: Term, id: nat, name: string, around: seq<Mark>)
    requires OccursIn(e, id, name, around)
    ensures id in Syms(e)
    decreases e, 1
  {
    match e
    case Sym(_, _) =>
    case Cond(c, t, f) =>
      if OccursIn(c, id, name, around) { OccursIsSym(c, id, name, around); }
      else if OccursIn(t, id, name, around) { OccursIsSym(t, id, name, around); }
      else { OccursIsSym(f, id, name, around); }
    case Fun(_, _, body) => OccursIsSym(body, id, name, around[|MarksOf(e)|..]);
    case Cont(_, _, body, _) => OccursIsSym(body, id, name, around[|MarksOf(e)|..]);
    case With(_, _, body, _) => OccursIsSym(body, id, name, around[|MarksOf(e)|..]);
    case Sto(_, args) => OccursAreSyms(args, id, name, around[|MarksOf(e)|..]);
    case Inv(target, args, _) =>
      if OccursIn(target, id, name, around) { OccursIsSym(target, id, name, around); } else { OccursAreSyms(args, id, name, around); }
    case Jmp(target, args, _) =>
      if OccursIn(target, id, name, around) { OccursIsSym(target, id, name, around); } else { OccursAreSyms(args, id, name, around); }
    case Constrained(body) => OccursIsSym(body, id, name, around);
  }

  lemma {:induction false} OccursAreSyms(es: seq<Term>, id: nat, name: string, around: seq<Mark>)
    requires OccursInAny(es, id, name, around)
    ensures id in SymsAll(es)
    decreases es, 0
  {
    if OccursIn(es[0], id, name, around) { OccursIsSym(es[0], id, name, around); } else { OccursAreSyms(es[1..], id, name, around); }
  }

  /** Every occurrence gets its innermost visible binding. */
  lemma {:induction false} LinkFinds(e: Term, isStatic: bool, S: Scope, D: Scope, st: Links, P: seq<Mark>, id: nat, name: string, around: seq<Mark>)
    requires OccursIn(e, id, name, around) && ScopesAgree(P, isStatic, S, D) && SymsOnce(e) && name != "" && id !in st.of
    ensures Found(P + around, id, name, Link(e, isStatic, S, D, st))
    decreases e, 2
  {
    hide ScopesAgree, Found, LinkSymbol, Bind, BindAll, Later;
    match e
    case Sym(_, _) =>
      assert P + around == P;
      SymbolFound(id, name, isStatic, S, D, st, P);
    case Cond(_, _, _) => CondFinds(e, isStatic, S, D, st, P, id, name, around);
    case Fun(ref, params, body) =>
      EnteredAgrees(P, isStatic, S, D, ref);
      AllBoundAgree(P + [Entered(ref)], false, Bind(S, ref), map[], params);
      Around(P, MarksOf(e), [Entered(ref)], AsBound(params), around);
      LinkFinds(body, false, Bind(S, ref), BindAll(map[], params), st, P + MarksOf(e), id, name, around[|MarksOf(e)|..]);
    case Cont(ref, params, _, _) => BodyFinds(e, ref, params, isStatic, S, D, st, P, id, name, around);
    case With(ref, param, _, _) => BodyFinds(e, ref, [param], isStatic, S, D, st, P, id, name, around);
    case Sto(ref, args) =>
      BoundAgrees(P, isStatic, S, D, ref);
      Around(P, MarksOf(e), [Bound(ref)], [], around);
      if isStatic {
        LinkFindsAny(args, true, Bind(S, ref), D, st, P + MarksOf(e), id, name, around[1..]);
      } else {
        LinkFindsAny(args, false, S, Bind(D, ref), st, P + MarksOf(e), id, name, around[1..]);
      }
    case Inv(_, _, _) => CallFinds(e, isStatic, S, D, st, P, id, name, around);
    case Jmp(_, _, _) => CallFinds(e, isStatic, S, D, st, P, id, name, around);
    case Constrained(body) => LinkFinds(body, isStatic, S, D, st, P, id, name, around);
  }

  lemma {:induction false} Around(P: seq<Mark>, marks: seq<Mark>, a: seq<Mark>, b: seq<Mark>, around: seq<Mark>)
    requires StartsWith(around, marks) && marks == a + b
    ensures P + a + b == P + marks && P + marks + around[|marks|..] == P + around
  {
    assert around == marks + around[|marks|..];
  }

  lemma {:induction false} BodyFinds(e: Term, ref: Binding, params: seq<Binding>, isStatic: bool, S: Scope, D: Scope, st: Links, P: seq<Mark>, id: nat, name: string, around: seq<Mark>)
    requires (e.Cont? && ref == e.ref && params == e.params) || (e.With? && ref == e.ref && params == [e.param])
    requires OccursIn(e, id, name, around) && ScopesAgree(P, isStatic, S, D) && SymsOnce(e) && name != "" && id !in st.of
    ensures Found(P + around, id, name, Link(e, isStatic, S, D, st))
    decreases e, 1
  {
    LinkOfBody(e, ref, params, isStatic, S, D, st);
    hide ScopesAgree, Found, Bind, BindAll, Link;
    BoundAgrees(P, isStatic, S, D, ref);
    AllBoundAgree(P + [Bound(ref)], isStatic, if isStatic then Bind(S, ref) else S, if isStatic then D else Bind(D, ref), params);
    Around(P, MarksOf(e), [Bound(ref)], AsBound(params), around);
    if isStatic {
      LinkFinds(e.body, true, BindAll(Bind(S, ref), params), D, st, P + MarksOf(e), id, name, around[|MarksOf(e)|..]);
    } else {
      LinkFinds(e.body, false, S, BindAll(Bind(D, ref), params), st, P + MarksOf(e), id, name, around[|MarksOf(e)|..]);
    }
  }

  lemma {:induction false} CondFinds(e: Term, isStatic: bool, S: Scope, D: Scope, st: Links, P: seq<Mark>, id: nat, name: string, around: seq<Mark>)
    requires e.Cond? && OccursIn(e, id, name, around) && ScopesAgree(P, isStatic, S, D) && SymsOnce(e) && name != "" && id !in st.of
    ensures Found(P + around, id, name, Link(e, isStatic, S, D, st))
    decreases e, 1
  {
    hide ScopesAgree, Found, Later;
    var s1 := Link(e.condition, isStatic, S, D, st);
    var s2 := Link(e.consequent, isStatic, S, D, s1);
    var s3 := Link(e.alternate, isStatic, S, D, s2);
    LinkGrows(e.condition, isStatic, S, D, st);
    LinkGrows(e.consequent, isStatic, S, D, s1);
    LinkGrows(e.alternate, isStatic, S, D, s2);
    if OccursIn(e.condition, id, name, around) {
      LinkFinds(e.condition, isStatic, S, D, st, P, id, name, around);
      StillFound(P + around, id, name, s1, s2);
      StillFound(P + around, id, name, s2, s3);
    } else if OccursIn(e.consequent, id, name, around) {
      OccursIsSym(e.consequent, id, name, around);
      LinkFinds(e.consequent, isStatic, S, D, s1, P, id, name, around);
      StillFound(P + around, id, name, s2, s3);
    } else {
      OccursIsSym(e.alternate, id, name, around);
      LinkFinds(e.alternate, isStatic, S, D, s2, P, id, name, around);
    }
  }

  lemma {:induction false} CallFinds(e: Term, isStatic: bool, S: Scope, D: Scope, st: Links, P: seq<Mark>, id: nat, name: string, around: seq<Mark>)
    requires (e.Inv? || e.Jmp?) && OccursIn(e, id, name, around) && ScopesAgree(P, isStatic, S, D) && SymsOnce(e) && name != "" && id !in st.of
    ensures Found(P + around, id, name, Link(e, isStatic, S, D, st))
    decreases e, 1
  {
    hide ScopesAgree, Found, Later;
    var s1 := Link(e.target, isStatic, S, D, st);
    LinkGrows(e.target, isStatic, S, D, st);
    LinkGrowsAll(e.args, isStatic, S, D, s1);
    if OccursIn(e.target, id, name, around) {
      LinkFinds(e.target, isStatic, S, D, st, P, id, name, around);
      StillFound(P + around, id, name, s1, LinkAll(e.args, isStatic, S, D, s1));
    } else {
      OccursAreSyms(e.args, id, name, around);
      LinkFindsAny(e.args, isStatic, S, D, s1, P, id, name, around);
    }
  }

  lemma {:induction false} LinkFindsAny(es: seq<Term>, isStatic: bool, S: Scope, D: Scope, st: Links, P: seq<Mark>, id: nat, name: string, around: seq<Mark>)
    requires OccursInAny(es, id, name, around) && ScopesAgree(P, isStatic, S, D) && SymsOnceAll(es) && name != "" && id !in st.of
    ensures Found(P + around, id, name, LinkAll(es, isStatic, S, D, st))
    decreases es, 0
  {
    hide ScopesAgree, Found, Link, Later;
    var s1 := Link(es[0], isStatic, S, D, st);
    LinkGrows(es[0], isStatic, S, D, st);
    LinkGrowsAll(es[1..], isStatic, S, D, s1);
    if OccursIn(es[0], id, name, around) {
      LinkFinds(es[0], isStatic, S, D, st, P, id, name, around);
      StillFound(P + around, id, name, s1, LinkAll(es[1..], isStatic, S, D, s1));
    } else {
      OccursAreSyms(es[1..], id, name, around);
      LinkFindsAny(es[1..], isStatic, S, D, s1, P, id, name, around);
    }
  }

  /** A program linked from scratch, with these bindings global. */
  lemma {:induction false} ProgramIsInnermost(es: seq<Term>, globals: seq<Binding>, st: Links)
    requires SymsOnceAll(es)
    ensures AllInnermost(es, AsBound(globals), st, LinkAll(es, true, BindAll(map[], globals), map[], st))
  {
    NoMarks();
    hide ScopesAgree, Innermost, LinkAll, BindAll, OccursInAny, SymsOnceAll;
    AllBoundAgree([], true, map[], map[], globals);
    assert [] + AsBound(globals) == AsBound(globals);
    forall id, name, around | OccursInAny(es, id, name, around) && id !in st.of && name != ""
      ensures Found(AsBound(globals) + around, id, name, LinkAll(es, true, BindAll(map[], globals), map[], st))
    {
      LinkFindsAny(es, true, BindAll(map[], globals), map[], st, AsBound(globals), id, name, around);
    }
  }
}
