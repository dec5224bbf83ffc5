/** The reader and the canonical printer of fragments (bootstrap/lexer.c). */
module Reader {
  import opened Common
  import opened Fragments

  predicate IsSpace(c: char) {
    c == ' ' || c == '\U{0C}' || c == '\n' || c == '\r' || c == '\t' || c == '\U{0B}'
  }

  predicate IsDelimiter(c: char) {
    c == '(' || c == ')' || c == '{' || c == '}' || c == '[' || c == ']' || c == ':' || c == ';'
  }

  predicate IsOpening(c: char) { c == '(' || c == '{' || c == '[' }

  predicate InToken(c: char) { !IsSpace(c) && !IsDelimiter(c) }

  /** The character table: control characters have no entry of their own. */
  function Character(c: char): char {
    if '!' <= c <= '~' && !IsDelimiter(c) then c else '\0'
  }

  function Closing(c: char): char
    requires IsOpening(c)
  {
    if c == '(' then ')' else if c == '{' then '}' else ']'
  }

  /** What an opening bracket puts in front of the list. */
  function Heads(c: char): seq<Frag> {
    if c == '{' then [Tok("jump")] else if c == '[' then [Tok("invoke")] else []
  }

  // ----- what reading means -----

  /** A fragment and the text after it, or the offending character and the text from it on. */
  datatype Result = Ok(value: Frag, rest: string) | Err(character: char, rest: string)

  datatype Results = Oks(values: seq<Frag>, rest: string) | Errs(character: char, rest: string)

  function Skip(s: string): (r: string)
    ensures |r| <= |s| && (r != [] ==> !IsSpace(r[0]))
  {
    if s != [] && IsSpace(s[0]) then Skip(s[1..]) else s
  }

  function TokenLength(s: string): (n: nat)
    ensures n <= |s| && (forall i :: 0 <= i < n ==> InToken(s[i])) && (n < |s| ==> !InToken(s[n]))
  {
    if s != [] && InToken(s[0]) then 1 + TokenLength(s[1..]) else 0
  }

  function Characters(s: string): (r: string)
    ensures |r| == |s| && forall i :: 0 <= i < |s| ==> r[i] == Character(s[i])
  {
    if s == [] then [] else [Character(s[0])] + Characters(s[1..])
  }

  /** No variables, and tokens that are not empty and spelled with the character table. */
  predicate Readable(f: Frag)
    decreases f
  {
    match f
    case Var(_) => false
    case Tok(text) => text != [] && forall i :: 0 <= i < |text| ==> InToken(text[i]) && Character(text[i]) == text[i]
    case Lst(items) => forall i :: 0 <= i < |items| ==> Readable(items[i])
  }

  predicate ReadableAll(fs: seq<Frag>) {
    forall i :: 0 <= i < |fs| ==> Readable(fs[i])
  }

  function Token(s: string): (r: Result)
    ensures r.Ok? ==> |r.rest| < |s| && Readable(r.value)
  {
    if s == [] then Err('\0', s)
    else if !InToken(s[0]) then Err(s[0], s)
    else Ok(Tok(Characters(s[..TokenLength(s)])), s[TokenLength(s)..])
  }

  function List(s: string): (r: Result)
    ensures r.Ok? ==> |r.rest| < |s| && Readable(r.value)
    decreases |s|, 0
  {
    if s == [] then Err('\0', s)
    else if !IsOpening(s[0]) then Err(s[0], s)
    else
      match Items(s[1..], Closing(s[0]))
      case Oks(values, rest) => Ok(Lst(Heads(s[0]) + values), rest)
      case Errs(c, rest) => Err(c, rest)
  }

  /** The fragments up to a closing bracket. */
  function Items(s: string, closing: char): (r: Results)
    ensures r.Oks? ==> |r.rest| < |s| && ReadableAll(r.values)
    decreases |s|, 4
  {
    var t := Skip(s);
    if t != [] && t[0] == closing then Oks([], t[1..]) else
    match Fragment(t)
    case Err(c, rest) => Errs(c, rest)
    case Ok(f, rest) =>
      match Items(rest, closing)
      case Errs(c, rest') => Errs(c, rest')
      case Oks(fs, rest') => Oks([f] + fs, rest')
  }

  function Fragment1(s: string): (r: Result)
    ensures r.Ok? ==> |r.rest| < |s| && Readable(r.value)
    decreases |s|, 1
  {
    if s == [] then Err('\0', s) else if IsOpening(s[0]) then List(s) else Token(s)
  }

  /** The operands that follow, each after a semicolon. */
  function MoreFragment1(s: string): (r: Results)
    ensures r.Oks? ==> |r.rest| <= |s| && ReadableAll(r.values)
    decreases |s|, 0
  {
    var t := Skip(s);
    if t == [] || t[0] != ';' then Oks([], t) else
    match Fragment1(Skip(t[1..]))
    case Err(c, rest) => Errs(c, rest)
    case Ok(f, rest) =>
      match MoreFragment1(rest)
      case Errs(c, rest') => Errs(c, rest')
      case Oks(fs, rest') => Oks([f] + fs, rest')
  }

  /** One operand stands for itself, several for a list. */
  function Joined(f: Frag, fs: seq<Frag>): Frag {
    if fs == [] then f else Lst([f] + fs)
  }

  function Fragment2(s: string): (r: Result)
    ensures r.Ok? ==> |r.rest| < |s| && Readable(r.value)
    decreases |s|, 2
  {
    match Fragment1(s)
    case Err(c, rest) => Err(c, rest)
    case Ok(f, rest) =>
      match MoreFragment1(rest)
      case Errs(c, rest') => Err(c, rest')
      case Oks(fs, rest') => Ok(Joined(f, fs), rest')
  }

  /** The operands that follow, each after a colon. */
  function MoreFragment2(s: string): (r: Results)
    ensures r.Oks? ==> |r.rest| <= |s| && ReadableAll(r.values)
    decreases |s|, 0
  {
    var t := Skip(s);
    if t == [] || t[0] != ':' then Oks([], t) else
    match Fragment2(Skip(t[1..]))
    case Err(c, rest) => Errs(c, rest)
    case Ok(f, rest) =>
      match MoreFragment2(rest)
      case Errs(c, rest') => Errs(c, rest')
      case Oks(fs, rest') => Oks([f] + fs, rest')
  }

  /** Reading consumes something and yields a fragment that the printer can reproduce. */
  function Fragment(s: string): (r: Result)
    ensures r.Ok? ==> |r.rest| < |s| && Readable(r.value)
    decreases |s|, 3
  {
    match Fragment2(s)
    case Err(c, rest) => Err(c, rest)
    case Ok(f, rest) =>
      match MoreFragment2(rest)
      case Errs(c, rest') => Err(c, rest')
      case Oks(fs, rest') => Ok(Joined(f, fs), rest')
  }

  // ----- the reader -----

  datatype Outcome = Got(value: Frag) | Thrown(character: char, position: nat)

  datatype Outcomes = GotAll(values: seq<Frag>) | ThrownFrom(character: char, position: nat)

  /** The table has an entry for every character of the text. */
  predicate Ascii(s: string) {
    forall i :: 0 <= i < |s| ==> s[i] < '\U{80}'
  }

  class Reader {
    const src: string
    var pos: nat

    constructor (src: string)
      ensures this.src == src && pos == 0
    {
      this.src, pos := src, 0;
    }

    ghost function Rest(): string
      reads this
      requires pos <= |src|
    {
      src[pos..]
    }

    ghost predicate Valid()
      reads this
    {
      pos <= |src| && Ascii(src)
    }

    ghost predicate Shows(r: Result, o: Outcome)
      reads this
      requires pos <= |src|
    {
      match r
      case Ok(f, rest) => o == Got(f) && Rest() == rest
      case Err(c, rest) => |rest| <= |src| && o == Thrown(c, |src| - |rest|)
    }

    ghost predicate ShowsAll(r: Results, o: Outcomes)
      reads this
      requires pos <= |src|
    {
      match r
      case Oks(fs, rest) => o == GotAll(fs) && Rest() == rest
      case Errs(c, rest) => |rest| <= |src| && o == ThrownFrom(c, |src| - |rest|)
    }

    method ReadWhitespace() returns (remaining: nat)
      requires Valid()
      modifies this
      ensures Valid() && Rest() == Skip(old(Rest())) && remaining == |Rest()|
    {
      while pos < |src| && IsSpace(src[pos])
        invariant Valid() && Skip(Rest()) == Skip(old(Rest()))
        decreases |src| - pos
      {
        assert Rest()[1..] == src[pos + 1..];
        pos := pos + 1;
      }
      remaining := |src| - pos;
    }

    method ReadToken() returns (o: Outcome)
      requires Valid()
      modifies this
      ensures Valid() && Shows(Token(old(Rest())), o)
    {
      if |src| == pos {
        return Thrown('\0', pos);
      }
      var c := src[pos];
      if !InToken(c) {
        return Thrown(c, pos);
      }
      var l := TokenFrom(c);
      return Got(Tok(l));
    }

    /** The characters from the first one to the end of the token. */
    method TokenFrom(first: char) returns (l: string)
      requires Valid() && pos < |src| && first == src[pos] && InToken(first)
      modifies this
      ensures Valid() && Token(old(Rest())) == Ok(Tok(l), Rest())
    {
      hide Characters, Token, InToken, Ascii;
      ghost var start := pos;
      var c := first;
      l := [];
      pos := pos + 1;
      NoCharacters();
      while true
        invariant start < pos <= |src| && c == src[pos - 1] && Ascii(src)
        invariant l == Characters(src[start..pos - 1])
        invariant forall i :: start <= i < pos ==> InToken(src[i])
        decreases |src| - pos
      {
        l := l + [Character(c)];
        CharactersSnoc(src[start..pos - 1], c);
        assert src[start..pos] == src[start..pos - 1] + [c];
        if pos == |src| {
          TokenOf(src, start, pos);
          return;
        }
        c := src[pos];
        pos := pos + 1;
        if !InToken(c) {
          break;
        }
      }
      pos := pos - 1;
      TokenOf(src, start, pos);
    }

    method ReadList() returns (o: Outcome)
      requires Valid()
      modifies this
      ensures Valid() && Shows(List(old(Rest())), o)
      decreases |src| - pos, 1
    {
      if |src| == pos {
        return Thrown('\0', pos);
      }
      var c := src[pos];
      if !IsOpening(c) {
        return Thrown(c, pos);
      }
      pos := pos + 1;
      var sexprs := ReadItems(Closing(c));
      match sexprs
      case GotAll(values) => o := Got(Lst(Heads(c) + values));
      case ThrownFrom(d, position) => o := Thrown(d, position);
    }

    method ReadItems(closing: char) returns (o: Outcomes)
      requires Valid()
      modifies this
      ensures Valid() && ShowsAll(Items(old(Rest()), closing), o)
      decreases |src| - pos, 6
    {
      hide Fragment, Items, Readable, Ascii, Skip;
      ghost var start := Rest();
      var sexprs := [];
      NoneBefore(Items(start, closing));
      while true
        invariant Valid() && |Rest()| <= |start|
        invariant Items(start, closing) == Before(sexprs, Items(Rest(), closing))
        decreases |src| - pos
      {
        UnfoldItems(Rest(), closing);
        var remaining := ReadWhitespace();
        if remaining != 0 && src[pos] == closing {
          pos := pos + 1;
          break;
        }
        var next := ReadFragment();
        if next.Thrown? {
          return ThrownFrom(next.character, next.position);
        }
        BeforeSnoc(sexprs, next.value, Items(Rest(), closing));
        sexprs := sexprs + [next.value];
      }
      o := GotAll(sexprs);
    }

    method ReadFragment1() returns (o: Outcome)
      requires Valid()
      modifies this
      ensures Valid() && Shows(Fragment1(old(Rest())), o)
      decreases |src| - pos, 2
    {
      if pos == |src| {
        return Thrown('\0', pos);
      }
      if IsOpening(src[pos]) {
        o := ReadList();
      } else {
        o := ReadToken();
      }
    }

    method ReadFragment2() returns (o: Outcome)
      requires Valid()
      modifies this
      ensures Valid() && Shows(Fragment2(old(Rest())), o)
      decreases |src| - pos, 3
    {
      hide Fragment1, MoreFragment1, Readable, Ascii, Skip;
      var head := ReadFragment1();
      if head.Thrown? {
        return head;
      }
      ghost var after := Rest();
      var sexprs := [];
      NoneBefore(MoreFragment1(after));
      while true
        invariant Valid() && |Rest()| <= |after|
        invariant MoreFragment1(after) == Before(sexprs, MoreFragment1(Rest()))
        decreases |src| - pos
      {
        UnfoldMore1(Rest());
        var remaining := ReadWhitespace();
        if remaining == 0 {
          break;
        }
        var c := src[pos];
        if c != ';' {
          break;
        }
        pos := pos + 1;
        remaining := ReadWhitespace();
        var next := ReadFragment1();
        if next.Thrown? {
          return next;
        }
        BeforeSnoc(sexprs, next.value, MoreFragment1(Rest()));
        sexprs := sexprs + [next.value];
      }
      assert sexprs + [] == sexprs;
      o := Got(Joined(head.value, sexprs));
    }

    method ReadFragment() returns (o: Outcome)
      requires Valid()
      modifies this
      ensures Valid() && Shows(Fragment(old(Rest())), o)
      decreases |src| - pos, 4
    {
      hide Fragment2, MoreFragment2, Readable, Ascii, Skip;
      var head := ReadFragment2();
      if head.Thrown? {
        return head;
      }
      ghost var after := Rest();
      var sexprs := [];
      NoneBefore(MoreFragment2(after));
      while true
        invariant Valid() && |Rest()| <= |after|
        invariant MoreFragment2(after) == Before(sexprs, MoreFragment2(Rest()))
        decreases |src| - pos
      {
        UnfoldMore2(Rest());
        var remaining := ReadWhitespace();
        if remaining == 0 {
          break;
        }
        var c := src[pos];
        if c != ':' {
          break;
        }
        pos := pos + 1;
        remaining := ReadWhitespace();
        var next := ReadFragment2();
        if next.Thrown? {
          return next;
        }
        BeforeSnoc(sexprs, next.value, MoreFragment2(Rest()));
        sexprs := sexprs + [next.value];
      }
      assert sexprs + [] == sexprs;
      o := Got(Joined(head.value, sexprs));
    }
  }

  /** Fragments read before the rest. */
  function Before(fs: seq<Frag>, r: Results): Results {
    match r
    case Oks(values, rest) => Oks(fs + values, rest)
    case Errs(_, _) => r
  }

  lemma {:induction false} NoneBefore(r: Results)
    ensures Before([], r) == r
  {}

  lemma {:induction false} BeforeSnoc(fs: seq<Frag>, f: Frag, r: Results)
    ensures Before(fs + [f], r) == Before(fs, Before([f], r))
  {
    if r.Oks? {
      assert fs + [f] + r.values == fs + ([f] + r.values);
    }
  }

  /** A fragment and then whatever the rest of the text holds. */
  function AfterOne(r: Result, more: string -> Results): Results {
    match r
    case Err(c, rest) => Errs(c, rest)
    case Ok(f, rest) => Before([f], more(rest))
  }

  lemma {:induction false} UnfoldItems(s: string, closing: char)
    ensures var t := Skip(s);
      && (t != [] && t[0] == closing ==> Items(s, closing) == Oks([], t[1..]))
      && (!(t != [] && t[0] == closing) ==>
        Items(s, closing) == AfterOne(Fragment(t), rest => Items(rest, closing)))
  {}

  lemma {:induction false} UnfoldMore1(s: string)
    ensures var t := Skip(s);
      && (t == [] || t[0] != ';' ==> MoreFragment1(s) == Oks([], t))
      && (t != [] && t[0] == ';' ==>
        MoreFragment1(s) == AfterOne(Fragment1(Skip(t[1..])), rest => MoreFragment1(rest)))
  {}

  lemma {:induction false} UnfoldMore2(s: string)
    ensures var t := Skip(s);
      && (t == [] || t[0] != ':' ==> MoreFragment2(s) == Oks([], t))
      && (t != [] && t[0] == ':' ==>
        MoreFragment2(s) == AfterOne(Fragment2(Skip(t[1..])), rest => MoreFragment2(rest)))
  {}

  lemma {:induction false} NoCharacters()
    ensures Characters([]) == []
  {}

  lemma {:induction false} CharactersSnoc(s: string, c: char)
    ensures Characters(s + [c]) == Characters(s) + [Character(c)]
  {}

  lemma {:induction false} TokenOf(src: string, start: nat, end: nat)
    requires start < end <= |src| && (forall i :: start <= i < end ==> InToken(src[i])) && (end < |src| ==> !InToken(src[end]))
    ensures Token(src[start..]) == Ok(Tok(Characters(src[start..end])), src[end..])
  {
    TokenIs(src[start..], end - start);
    assert src[start..][..end - start] == src[start..end];
    assert src[start..][end - start..] == src[end..];
  }

  lemma {:induction false} TokenIs(s: string, n: nat)
    requires n <= |s| && (forall i :: 0 <= i < n ==> InToken(s[i])) && (n < |s| ==> !InToken(s[n]))
    ensures TokenLength(s) == n
  {}

  // ----- the printer -----

  function Decimal(n: nat): string {
    if n < 10 then [('0' as int + n) as char] else Decimal(n / 10) + [('0' as int + n % 10) as char]
  }

  /** A variable prints as a part of its address. */
  function Print(f: Frag): string
    decreases f, 1
  {
    match f
    case Var(id) => "!" + Decimal(id % 8192)
    case Tok(text) => text
    case Lst(items) => "(" + PrintItems(items) + ")"
  }

  function PrintItems(items: seq<Frag>): string
    decreases items, 0
  {
    if items == [] then "" else Print(items[0]) + " " + PrintItems(items[1..])
  }

  class Printer {
    var out: string

    constructor ()
      ensures out == ""
    {
      out := "";
    }

    method PrintFragment(d: Frag)
      modifies this
      ensures out == old(out) + Print(d)
      decreases d
    {
      match d
      case Var(id) =>
        out := out + "!";
        out := out + Decimal(id % 8192);
      case Tok(text) =>
        for i := 0 to |text|
          invariant out == old(out) + text[..i]
        {
          out := out + [text[i]];
        }
        assert text[..|text|] == text;
      case Lst(items) =>
        out := out + "(";
        for i := 0 to |items|
          invariant out == old(out) + "(" + PrintItems(items[..i])
        {
          PrintItemsSnoc(items, i);
          PrintFragment(items[i]);
          out := out + " ";
        }
        assert items[..|items|] == items;
        out := out + ")";
    }
  }

  lemma {:induction false} PrintItemsSnoc(items: seq<Frag>, k: nat)
    requires k < |items|
    ensures PrintItems(items[..k + 1]) == PrintItems(items[..k]) + Print(items[k]) + " "
    decreases k
  {
    hide Print;
    if k == 0 {
      assert items[..1] == [items[0]] && items[..1][1..] == [];
    } else {
      assert items[..k + 1][1..] == items[1..][..k] && items[..k][1..] == items[1..][..k - 1];
      PrintItemsSnoc(items[1..], k - 1);
    }
  }

  // ----- reading what was printed -----

  /** The text after a fragment does not continue it. */
  predicate Calm(s: string) {
    Skip(s) == [] || (Skip(s)[0] != ':' && Skip(s)[0] != ';')
  }

  predicate Ends(s: string) { s == [] || !InToken(s[0]) }

  /** A printed fragment starts with a bracket or a token character. */
  lemma {:induction false} PrintStarts(f: Frag)
    requires Readable(f)
    ensures Print(f) != [] && (if f.Tok? then InToken(Print(f)[0]) else Print(f)[0] == '(')
  {}

  lemma {:induction false} TokenRoundTrip(f: Frag, post: string)
    requires f.Tok? && Readable(f) && Ends(post)
    ensures Fragment1(Print(f) + post) == Ok(f, post)
  {
    var s := f.text + post;
    PrintStarts(f);
    TokenIs(s, |f.text|);
    assert s[..|f.text|] == f.text && s[|f.text|..] == post && s[0] == f.text[0];
    SpelledOut(f.text);
  }

  lemma {:induction false} SpelledOut(text: string)
    requires forall i :: 0 <= i < |text| ==> Character(text[i]) == text[i]
    ensures Characters(text) == text
  {}

  /** Reading a printed operand gives it back and stops right after it. */
  lemma {:induction false} Fragment1RoundTrip(f: Frag, post: string)
    requires Readable(f) && Ends(post)
    ensures Fragment1(Print(f) + post) == Ok(f, post)
    decreases f, 2
  {
    match f
    case Var(_) =>
    case Tok(_) => TokenRoundTrip(f, post);
    case Lst(items) =>
      var s := Print(f) + post;
      var inner := PrintItems(items) + (")" + post);
      assert s[1..] == inner && s[0] == '(';
      ItemsRoundTrip(items, ')', post);
      assert Heads('(') + items == items;
  }

  lemma {:induction false} ItemsRoundTrip(items: seq<Frag>, closing: char, post: string)
    requires ReadableAll(items) && (closing == ')' || closing == '}' || closing == ']')
    ensures Items(PrintItems(items) + ([closing] + post), closing) == Oks(items, post)
    decreases items, 1
  {
    var s := PrintItems(items) + ([closing] + post);
    hide Print, Readable, Fragment;
    if items == [] {
      assert s == [closing] + post && s[1..] == post;
      NoSkip(s);
    } else {
      var more := PrintItems(items[1..]) + ([closing] + post);
      assert s == Print(items[0]) + (" " + more);
      PrintStarts(items[0]);
      assert s[0] == Print(items[0])[0];
      NoSkip(s);
      StartsCalmly(items[1..], closing, post);
      SkipSpace(more);
      FragmentRoundTrip(items[0], " " + more);
      ItemsRoundTrip(items[1..], closing, post);
      assert [items[0]] + items[1..] == items;
    }
  }

  lemma {:induction false} NoSkip(s: string)
    requires s != [] && !IsSpace(s[0])
    ensures Skip(s) == s
  {}

  lemma {:induction false} SkipSpace(s: string)
    requires s != [] && !IsSpace(s[0])
    ensures Skip(" " + s) == s
  {
    assert (" " + s)[1..] == s;
  }

  lemma {:induction false} StartsCalmly(items: seq<Frag>, closing: char, post: string)
    requires ReadableAll(items) && (closing == ')' || closing == '}' || closing == ']')
    ensures var s := PrintItems(items) + ([closing] + post);
      s != [] && !IsSpace(s[0]) && s[0] != ':' && s[0] != ';'
  {
    hide Print, Readable;
    if items != [] {
      PrintStarts(items[0]);
      assert (PrintItems(items) + ([closing] + post))[0] == Print(items[0])[0];
    }
  }

  /** Reading the printed form of a readable fragment gives that fragment back. */
  lemma {:induction false} FragmentRoundTrip(f: Frag, post: string)
    requires Readable(f) && Ends(post) && Calm(post)
    ensures Fragment(Print(f) + post) == Ok(f, Skip(post))
    decreases f, 3
  {
    Fragment1RoundTrip(f, post);
    hide Print, Readable, Fragment1, MoreFragment1, MoreFragment2, Skip;
    SkipTwice(post);
    UnfoldMore1(post);
    UnfoldMore2(Skip(post));
    assert Fragment2(Print(f) + post) == Ok(f, Skip(post));
  }

  lemma {:induction false} SkipTwice(s: string)
    ensures Skip(Skip(s)) == Skip(s)
  {
    if Skip(s) != [] {
      NoSkip(Skip(s));
    }
  }

  /** Exactly the readable fragments survive printing and reading. */
  lemma {:induction false} PrintThenRead(f: Frag)
    ensures Fragment(Print(f)) == Ok(f, "") <==> Readable(f)
  {
    if Readable(f) {
      FragmentRoundTrip(f, "");
      assert Print(f) + "" == Print(f);
    }
  }

  /** Distinct readable fragments print differently. */
  lemma {:induction false} PrintIsInjective(f: Frag, g: Frag)
    requires Readable(f) && Readable(g) && Print(f) == Print(g)
    ensures f == g
  {
    PrintThenRead(f);
    PrintThenRead(g);
  }

  /** Whatever text a fragment was read from, its printed form reads as the same fragment. */
  lemma {:induction false} ReadPrintRead(s: string)
    requires Fragment(s).Ok?
    ensures Fragment(Print(Fragment(s).value)) == Ok(Fragment(s).value, "")
  {
    PrintThenRead(Fragment(s).value);
  }

  // ----- brackets and infix lists -----

  /** Braces make a jump and square brackets an invoke, whatever follows; round brackets a plain list. */
  lemma {:induction false} BracketsRead(items: seq<Frag>, post: string)
    requires ReadableAll(items)
    ensures Fragment1("{" + PrintItems(items) + "}" + post) == Ok(Lst([Tok("jump")] + items), post)
    ensures Fragment1("[" + PrintItems(items) + "]" + post) == Ok(Lst([Tok("invoke")] + items), post)
    ensures Fragment1("(" + PrintItems(items) + ")" + post) == Ok(Lst(items), post)
  {
    BracketReads(items, "{", "}", post);
    BracketReads(items, "[", "]", post);
    BracketReads(items, "(", ")", post);
    assert [] + items == items;
  }

  lemma {:induction false} BracketReads(items: seq<Frag>, opening: string, closing: string, post: string)
    requires ReadableAll(items) && |opening| == |closing| == 1 && IsOpening(opening[0]) && closing[0] == Closing(opening[0])
    ensures Fragment1(opening + PrintItems(items) + closing + post) == Ok(Lst(Heads(opening[0]) + items), post)
  {
    hide PrintItems, Items, ReadableAll;
    var s := opening + PrintItems(items) + closing + post;
    assert s[0] == opening[0] && s[1..] == PrintItems(items) + ([closing[0]] + post);
    ItemsRoundTrip(items, closing[0], post);
  }

  predicate Spaces(s: string) { forall i :: 0 <= i < |s| ==> IsSpace(s[i]) }

  /** The character c with any white space around it. */
  ghost predicate Separates(sep: string, c: char) {
    exists a, b :: Spaces(a) && Spaces(b) && sep == a + [c] + b
  }

  /** The operands' printed forms with sep between them. */
  function JoinText(fs: seq<Frag>, sep: string): string
    requires fs != []
  {
    if |fs| == 1 then Print(fs[0]) else Print(fs[0]) + (sep + JoinText(fs[1..], sep))
  }

  /** One operand is itself, several are the list of them. */
  function Listed(fs: seq<Frag>): Frag
    requires fs != []
  {
    if |fs| == 1 then fs[0] else Lst(fs)
  }

  predicate NotNext(s: string, c: char) { Skip(s) == [] || Skip(s)[0] != c }

  lemma {:induction false} SkipSpaces(a: string, s: string)
    requires Spaces(a) && (s == [] || !IsSpace(s[0]))
    ensures Skip(a + s) == s
    decreases |a|
  {
    if a == [] {
      assert a + s == s;
    } else {
      assert (a + s)[1..] == a[1..] + s;
      SkipSpaces(a[1..], s);
    }
  }

  /** What the reader sees of a separator. */
  lemma {:induction false} SeparatorRead(sep: string, c: char, s: string)
    requires Separates(sep, c) && !InToken(c) && !IsSpace(c) && s != [] && !IsSpace(s[0])
    ensures Ends(sep + s) && Skip(sep + s) != [] && Skip(sep + s)[0] == c && Skip(Skip(sep + s)[1..]) == s
  {
    var a, b :| Spaces(a) && Spaces(b) && sep == a + [c] + b;
    assert sep + s == a + ([c] + (b + s));
    SkipSpaces(a, [c] + (b + s));
    SkipSpaces(b, s);
    assert ([c] + (b + s))[1..] == b + s;
  }

  lemma {:induction false} JoinStarts(fs: seq<Frag>, sep: string, post: string)
    requires fs != [] && ReadableAll(fs)
    ensures JoinText(fs, sep) + post != [] && !IsSpace((JoinText(fs, sep) + post)[0])
  {
    PrintStarts(fs[0]);
    assert (JoinText(fs, sep) + post)[0] == Print(fs[0])[0];
  }

  /** The operand read first and the text after it. */
  lemma {:induction false} FirstOperand(fs: seq<Frag>, sep: string, post: string) returns (rest: string)
    requires fs != [] && ReadableAll(fs) && Separates(sep, ';') && Ends(post)
    ensures rest == if |fs| == 1 then post else sep + (JoinText(fs[1..], sep) + post)
    ensures Fragment1(JoinText(fs, sep) + post) == Ok(fs[0], rest)
  {
    hide Fragment1, Print, Separates;
    if |fs| == 1 {
      rest := post;
    } else {
      rest := sep + (JoinText(fs[1..], sep) + post);
      JoinStarts(fs[1..], sep, post);
      SeparatorRead(sep, ';', JoinText(fs[1..], sep) + post);
      assert JoinText(fs, sep) + post == Print(fs[0]) + rest;
    }
    Fragment1RoundTrip(fs[0], rest);
  }

  lemma {:induction false} MoreOperands(fs: seq<Frag>, sep: string, post: string)
    requires fs != [] && ReadableAll(fs) && Separates(sep, ';') && Ends(post) && NotNext(post, ';')
    ensures MoreFragment1(sep + (JoinText(fs, sep) + post)) == Oks(fs, Skip(post))
    decreases |fs|
  {
    hide Fragment1, JoinText, Separates, Skip, Ends, MoreFragment1, Readable;
    var s := JoinText(fs, sep) + post;
    JoinStarts(fs, sep, post);
    SeparatorRead(sep, ';', s);
    UnfoldMore1(sep + s);
    var rest := FirstOperand(fs, sep, post);
    if |fs| == 1 {
      UnfoldMore1(post);
      assert [fs[0]] + [] == fs;
    } else {
      MoreOperands(fs[1..], sep, post);
      assert [fs[0]] + fs[1..] == fs;
    }
  }

  /** Operands joined by semicolons read as the list of the operands in order. */
  lemma {:induction false} SemicolonsRead(fs: seq<Frag>, sep: string, post: string)
    requires fs != [] && ReadableAll(fs) && Separates(sep, ';') && Ends(post) && NotNext(post, ';')
    ensures Fragment2(JoinText(fs, sep) + post) == Ok(Listed(fs), Skip(post))
  {
    hide Fragment1, JoinText, Separates, Skip, Ends, MoreFragment1, Readable;
    var rest := FirstOperand(fs, sep, post);
    if |fs| == 1 {
      UnfoldMore1(post);
    } else {
      MoreOperands(fs[1..], sep, post);
      assert [fs[0]] + fs[1..] == fs;
    }
  }

  /** Groups of operands, with semi between the operands of a group and colon between groups. */
  function JoinGroups(gs: seq<seq<Frag>>, semi: string, colon: string): string
    requires gs != [] && forall i :: 0 <= i < |gs| ==> gs[i] != []
  {
    if |gs| == 1 then JoinText(gs[0], semi) else JoinText(gs[0], semi) + (colon + JoinGroups(gs[1..], semi, colon))
  }

  function ListedAll(gs: seq<seq<Frag>>): seq<Frag>
    requires forall i :: 0 <= i < |gs| ==> gs[i] != []
  {
    seq(|gs|, i requires 0 <= i < |gs| => Listed(gs[i]))
  }

  ghost predicate ReadableGroups(gs: seq<seq<Frag>>) {
    forall i :: 0 <= i < |gs| ==> gs[i] != [] && ReadableAll(gs[i])
  }

  lemma {:induction false} GroupsStart(gs: seq<seq<Frag>>, semi: string, colon: string, post: string)
    requires gs != [] && ReadableGroups(gs)
    ensures JoinGroups(gs, semi, colon) + post != [] && !IsSpace((JoinGroups(gs, semi, colon) + post)[0])
  {
    JoinStarts(gs[0], semi, "");
    assert JoinText(gs[0], semi) + "" == JoinText(gs[0], semi);
    assert (JoinGroups(gs, semi, colon) + post)[0] == JoinText(gs[0], semi)[0];
  }

  lemma {:induction false} FirstGroup(gs: seq<seq<Frag>>, semi: string, colon: string, post: string) returns (rest: string)
    requires gs != [] && ReadableGroups(gs) && Separates(semi, ';') && Separates(colon, ':') && Ends(post) && Calm(post)
    ensures rest == if |gs| == 1 then post else colon + (JoinGroups(gs[1..], semi, colon) + post)
    ensures Fragment2(JoinGroups(gs, semi, colon) + post) == Ok(Listed(gs[0]), Skip(rest))
  {
    hide Fragment2, JoinText, Separates, Readable;
    if |gs| == 1 {
      rest := post;
    } else {
      rest := colon + (JoinGroups(gs[1..], semi, colon) + post);
      GroupsStart(gs[1..], semi, colon, post);
      SeparatorRead(colon, ':', JoinGroups(gs[1..], semi, colon) + post);
      assert JoinGroups(gs, semi, colon) + post == JoinText(gs[0], semi) + rest;
    }
    SemicolonsRead(gs[0], semi, rest);
  }

  lemma {:induction false} MoreGroups(gs: seq<seq<Frag>>, semi: string, colon: string, post: string)
    requires gs != [] && ReadableGroups(gs) && Separates(semi, ';') && Separates(colon, ':') && Ends(post) && Calm(post)
    ensures MoreFragment2(Skip(colon + (JoinGroups(gs, semi, colon) + post))) == Oks(ListedAll(gs), Skip(post))
    decreases |gs|
  {
    hide Fragment2, JoinGroups, Separates, Skip, Ends, MoreFragment2, ReadableAll, Listed;
    var s := JoinGroups(gs, semi, colon) + post;
    GroupsStart(gs, semi, colon, post);
    SeparatorRead(colon, ':', s);
    SkipTwice(colon + s);
    UnfoldMore2(Skip(colon + s));
    var rest := FirstGroup(gs, semi, colon, post);
    if |gs| == 1 {
      SkipTwice(post);
      UnfoldMore2(Skip(post));
      assert [Listed(gs[0])] + [] == ListedAll(gs);
    } else {
      MoreGroups(gs[1..], semi, colon, post);
      assert [Listed(gs[0])] + ListedAll(gs[1..]) == ListedAll(gs);
    }
  }

  /** Groups joined by colons read as the list of the groups in order, and the operands of each group,
      joined by semicolons, as its list: semicolons bind tighter. */
  lemma {:induction false} ColonsRead(gs: seq<seq<Frag>>, semi: string, colon: string, post: string)
    requires gs != [] && ReadableGroups(gs) && Separates(semi, ';') && Separates(colon, ':') && Ends(post) && Calm(post)
    ensures Fragment(JoinGroups(gs, semi, colon) + post) == Ok(Listed(ListedAll(gs)), Skip(post))
  {
    hide Fragment2, JoinGroups, Separates, Skip, Ends, MoreFragment2, ReadableAll;
    var rest := FirstGroup(gs, semi, colon, post);
    if |gs| == 1 {
      SkipTwice(post);
      UnfoldMore2(Skip(post));
      assert ListedAll(gs) == [Listed(gs[0])];
    } else {
      MoreGroups(gs[1..], semi, colon, post);
      assert ListedAll(gs) == [Listed(gs[0])] + ListedAll(gs[1..]);
    }
  }
}
