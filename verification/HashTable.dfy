/** The hash table of the L2 compiler (src/hash-table.l2): an array of chains of nodes that keeps,
    for every key, a stack of values. */
module HashTable {
  import opened Common

  const INITIAL_BUCKET_COUNT := 2
  const RESIZE_FACTOR := 2
  const LOAD_FACTOR_NUM := 3
  const LOAD_FACTOR_DEN := 4

  /** A list cell that holds an association. */
  class Node<K, V> {
    const key: K
    const value: V
    var next: Node?<K, V>

    constructor (key: K, value: V, next: Node?<K, V>)
      ensures this.key == key && this.value == value && this.next == next
    {
      this.key, this.value, this.next := key, value, next;
    }
  }

  /** The values that a chain holds under a key, the newest first. */
  ghost function Values<K, V>(chain: seq<Node<K, V>>, key: K): seq<V> {
    if chain == [] then []
    else (if chain[0].key == key then [chain[0].value] else []) + Values(chain[1..], key)
  }

  lemma {:induction false} ValuesCons<K, V>(n: Node<K, V>, chain: seq<Node<K, V>>, key: K)
    ensures Values([n] + chain, key) == (if n.key == key then [n.value] else []) + Values(chain, key)
  {
    assert ([n] + chain)[1..] == chain;
  }

  lemma {:induction false} ValuesAppend<K, V>(a: seq<Node<K, V>>, b: seq<Node<K, V>>, key: K)
    ensures Values(a + b, key) == Values(a, key) + Values(b, key)
  {
    if a == [] {
      assert a + b == b;
      assert Values(a, key) == [];
    } else {
      ValuesCons(a[0], a[1..], key);
      ValuesCons(a[0], a[1..] + b, key);
      hide Values;
      assert a == [a[0]] + a[1..];
      assert a + b == [a[0]] + (a[1..] + b);
      ValuesAppend(a[1..], b, key);
    }
  }

  lemma {:induction false} ValuesElsewhere<K, V>(chain: seq<Node<K, V>>, key: K)
    requires forall n :: n in chain ==> n.key != key
    ensures Values(chain, key) == []
  {
    if chain != [] {
      ValuesElsewhere(chain[1..], key);
    }
  }

  function At<K, V>(chain: seq<Node<K, V>>, i: nat): Node?<K, V> {
    if i < |chain| then chain[i] else null
  }

  /** The chain is what a walk from head visits. */
  ghost predicate Chained<K, V>(head: Node?<K, V>, chain: seq<Node<K, V>>)
    reads chain
  {
    head == At(chain, 0) && forall j :: 0 <= j < |chain| ==> chain[j].next == At(chain, j + 1)
  }

  ghost function Nodes<K, V>(chains: seq<seq<Node<K, V>>>): set<Node<K, V>> {
    set i, j | 0 <= i < |chains| && 0 <= j < |chains[i]| :: chains[i][j]
  }

  ghost function Count<K, V>(chains: seq<seq<Node<K, V>>>): nat {
    if chains == [] then 0 else |chains[0]| + Count(chains[1..])
  }

  lemma {:induction false} CountUpdate<K, V>(chains: seq<seq<Node<K, V>>>, i: nat, chain: seq<Node<K, V>>)
    requires i < |chains|
    ensures Count(chains[i := chain]) == Count(chains) - |chains[i]| + |chain|
  {
    if i == 0 {
      assert chains[0 := chain][1..] == chains[1..];
    } else {
      assert chains[i := chain][1..] == chains[1..][i - 1 := chain];
      CountUpdate(chains[1..], i - 1, chain);
    }
  }

  lemma {:induction false} CountEmpty<K, V>(chains: seq<seq<Node<K, V>>>)
    requires forall i :: 0 <= i < |chains| ==> chains[i] == []
    ensures Count(chains) == 0
  {
    if chains != [] {
      CountEmpty(chains[1..]);
    }
  }

  lemma {:induction false} CountPrefix<K, V>(chains: seq<seq<Node<K, V>>>, i: nat)
    requires i < |chains|
    ensures Count(chains[..i + 1]) == Count(chains[..i]) + |chains[i]|
  {
    if i > 0 {
      assert chains[..i + 1][1..] == chains[1..][..i];
      assert chains[..i][1..] == chains[1..][..i - 1];
      CountPrefix(chains[1..], i - 1);
    } else {
      assert chains[..1][1..] == [];
    }
  }

  /** The chains hang off the buckets; each node is in the chain of its key's hash. */
  ghost predicate Hung<K, V>(buckets: array<Node?<K, V>>, chains: seq<seq<Node<K, V>>>, hash: K -> nat)
    reads buckets, Nodes(chains)
  {
    && buckets.Length == |chains| > 0
    && (forall i :: 0 <= i < |chains| ==> Chained(buckets[i], chains[i]))
    && Sorted(chains, hash)
  }

  ghost predicate Sorted<K, V>(chains: seq<seq<Node<K, V>>>, hash: K -> nat) {
    && |chains| > 0
    && (forall i :: 0 <= i < |chains| ==> Distinct(chains[i]))
    && (forall i, j :: 0 <= i < |chains| && 0 <= j < |chains[i]| ==> hash(chains[i][j].key) % |chains| == i)
  }

  /** The stack of values of every key. */
  ghost function View<K(!new), V>(chains: seq<seq<Node<K, V>>>, hash: K -> nat): imap<K, seq<V>>
    requires |chains| > 0
  {
    imap k: K :: Values(chains[hash(k) % |chains|], k)
  }

  class HashTable<K(==, !new), V> {
    const hash: K -> nat
    var buckets: array<Node?<K, V>>
    var count: nat
    ghost var chains: seq<seq<Node<K, V>>>
    ghost var view: imap<K, seq<V>>
    ghost var Repr: set<object>

    ghost predicate Valid()
      reads this, Repr
    {
      && this in Repr && buckets in Repr && Nodes(chains) <= Repr
      && Hung(buckets, chains, hash) && count == Count(chains) && view == View(chains, hash)
      && buckets.Length >= INITIAL_BUCKET_COUNT
      && count * LOAD_FACTOR_DEN <= buckets.Length * LOAD_FACTOR_NUM
    }

    constructor (hash: K -> nat)
      ensures Valid() && fresh(Repr) && this.hash == hash
      ensures forall k :: k in view && view[k] == []
    {
      this.hash := hash;
      buckets := new Node?<K, V>[INITIAL_BUCKET_COUNT](_ => null);
      count := 0;
      chains := [[], []];
      new;
      Repr := {this, buckets};
      view := View(chains, hash);
      CountEmpty(chains);
    }

    /** The first node under the key, the node before it, and how far down the chain it is. */
    method Find(key: K) returns (prev: Node?<K, V>, node: Node?<K, V>, ghost i: nat)
      requires Valid()
      ensures var chain := chains[hash(key) % |chains|];
        && i <= |chain| && node == At(chain, i) && prev == (if i == 0 then null else chain[i - 1])
        && Values(chain, key) == Values(chain[i..], key) && (node != null ==> node.key == key)
    {
      hide Values, View, Sorted, Count, Nodes;
      ghost var chain := chains[hash(key) % |chains|];
      prev, node, i := null, buckets[hash(key) % buckets.Length], 0;
      assert Chained(node, chain);
      while node != null && node.key != key
        invariant i <= |chain| && node == At(chain, i) && prev == (if i == 0 then null else chain[i - 1])
        invariant Values(chain, key) == Values(chain[i..], key)
        decreases |chain| - i
      {
        ValuesStep(chain, i, key);
        prev := node;
        node := node.next;
        i := i + 1;
      }
    }

    /** ht-contains. */
    method Contains(key: K) returns (r: Option<V>)
      requires Valid()
      ensures key in view && r == if view[key] == [] then None else Some(view[key][0])
    {
      var prev, node, i := Find(key);
      r := if node == null then None else Some(node.value);
    }

    /** ht-remove: the newest value under the key is gone; everything else stays. */
    method Remove(key: K)
      requires Valid()
      modifies this, buckets, Nodes(chains)
      ensures Valid() && Repr == old(Repr)
      ensures view == old(view)[key := if old(view)[key] == [] then [] else old(view)[key][1..]]
    {
      hide Values, View, Sorted, Count, Nodes, Hung;
      HungFacts(buckets, chains, hash);
      var idx := hash(key) % buckets.Length;
      ghost var chain := chains[idx];
      ViewAt(chains, hash, key);
      var prev, node, i := Find(key);
      if node == null {
        assert chain[i..] == [];
        assert Values(chain, key) == [] by { NoValues<K, V>(key); }
        return;
      }
      RemovedView(chains, hash, idx, i);
      Forget(prev, node, idx, i);
    }

    /** A node is gone from its chain. */
    method Forget(prev: Node?<K, V>, node: Node<K, V>, idx: nat, ghost i: nat)
      requires Valid() && idx < |chains| && i < |chains[idx]| && node == chains[idx][i]
      requires prev == if i == 0 then null else chains[idx][i - 1]
      modifies this, buckets, Nodes(chains)
      ensures Valid() && Repr == old(Repr) && view == old(View(chains[idx := Without(chains[idx], i)], hash))
    {
      hide Values, View, Sorted, Count, Nodes, Hung;
      HungFacts(buckets, chains, hash);
      RemovedNodes(chains, hash, idx, i);
      Unlink(prev, node, idx, i);
      count := count - 1;
      view := View(chains, hash);
    }

    /** Takes the node out of its chain. */
    method Unlink(prev: Node?<K, V>, node: Node<K, V>, idx: nat, ghost i: nat)
      requires Hung(buckets, chains, hash) && idx < |chains| && i < |chains[idx]| && node == chains[idx][i]
      requires prev == if i == 0 then null else chains[idx][i - 1]
      requires Sorted(chains[idx := Without(chains[idx], i)], hash)
      modifies this`chains, buckets, Nodes(chains)
      ensures chains == old(chains)[idx := Without(old(chains)[idx], i)] && Hung(buckets, chains, hash)
    {
      hide Sorted, Nodes;
      Apart(chains, hash);
      if prev == null {
        buckets[idx] := node.next;
      } else {
        InNodes(chains, idx, i - 1);
        prev.next := node.next;
      }
      chains := chains[idx := Without(chains[idx], i)];
      forall h | 0 <= h < |chains| ensures Chained(buckets[h], chains[h]) {
        if h != idx {
          assert old(Chained(buckets[h], chains[h]));
        }
      }
    }

    /** ht-put: the value is on top of the key's stack; everything else stays. */
    method Put(key: K, value: V)
      requires Valid()
      modifies this, buckets, Nodes(chains)
      ensures Valid() && fresh(Repr - old(Repr))
      ensures view == old(view)[key := [value] + old(view)[key]]
    {
      hide Values, View, Sorted, Count, Nodes;
      var idx := hash(key) % buckets.Length;
      var node := new Node(key, value, buckets[idx]);
      PutView(chains, hash, idx, node);
      PutNodes(chains, hash, idx, node);
      assert old(Chained(buckets[idx], chains[idx]));
      buckets[idx] := node;
      chains := chains[idx := [node] + chains[idx]];
      forall h | 0 <= h < |chains| ensures Chained(buckets[h], chains[h]) {
        assert old(Chained(buckets[h], chains[h]));
      }
      count := count + 1;
      Repr := Repr + {node};
      view := View(chains, hash);
      Resize();
    }

    /** Twice the buckets when there are too many elements for them. */
    method Resize()
      requires this in Repr && buckets in Repr && Nodes(chains) <= Repr
      requires Hung(buckets, chains, hash) && count == Count(chains) && view == View(chains, hash)
      requires buckets.Length >= INITIAL_BUCKET_COUNT
      requires (count - 1) * LOAD_FACTOR_DEN <= buckets.Length * LOAD_FACTOR_NUM
      modifies this, Nodes(chains)
      ensures Valid() && fresh(Repr - old(Repr)) && view == old(view)
    {
      hide Values, View, Sorted, Count, Nodes;
      if count * LOAD_FACTOR_DEN > buckets.Length * LOAD_FACTOR_NUM {
        var newCount := buckets.Length * RESIZE_FACTOR;
        var newValues := new Node?<K, V>[newCount](_ => null);
        ghost var moved := MoveAll(newValues);
        buckets := newValues;
        chains := moved;
        Repr := Repr + {newValues};
      }
    }

    /** Every node moves to the new buckets, in the order of the old ones. */
    method MoveAll(newValues: array<Node?<K, V>>) returns (ghost moved: seq<seq<Node<K, V>>>)
      requires Hung(buckets, chains, hash) && newValues != buckets && newValues.Length > 0
      requires forall i :: 0 <= i < newValues.Length ==> newValues[i] == null
      modifies newValues, Nodes(chains)
      ensures |moved| == newValues.Length && Hung(newValues, moved, hash)
      ensures Nodes(moved) <= Nodes(chains) && Count(moved) == Count(chains) && View(moved, hash) == View(chains, hash)
    {
      hide Values, View, Sorted, Count, Nodes, Behind;
      moved := seq(newValues.Length, _ => []);
      NothingMoved(moved, chains, hash);
      for i := 0 to buckets.Length
        invariant Hung(newValues, moved, hash) && Extends(Nothing(newValues.Length), moved, Flat(chains[..i]), hash)
        invariant Behind(moved, chains, i, 0)
        invariant forall h :: i <= h < |chains| ==> Chained(buckets[h], chains[h])
      {
        ghost var was := moved;
        moved := MoveBucket(newValues, moved, i);
        ExtendsThen(Nothing(newValues.Length), was, moved, Flat(chains[..i]), chains[i], hash);
        FlatSnoc(chains, i);
      }
      assert chains[..buckets.Length] == chains;
      AllMoved(chains, moved, hash);
    }

    /** append-list: the node goes to the end of a bucket. */
    method Append(newValues: array<Node?<K, V>>, ghost moved: seq<seq<Node<K, V>>>, idx: nat, node: Node<K, V>)
      requires newValues.Length == |moved| && idx < |moved| && node.next == null
      requires Chained(newValues[idx], moved[idx]) && node !in moved[idx]
      modifies newValues, moved[idx]
      ensures Chained(newValues[idx], moved[idx] + [node])
      ensures forall h :: 0 <= h < |moved| && h != idx ==> newValues[h] == old(newValues[h])
    {
      ghost var chain := moved[idx];
      if newValues[idx] == null {
        newValues[idx] := node;
      } else {
        var cell, j := newValues[idx], 0;
        while cell.next != null
          invariant 0 <= j < |chain| && cell == chain[j]
          decreases |chain| - j
        {
          cell, j := cell.next, j + 1;
        }
        assert cell in chain && j == |chain| - 1;
        NoRepeatsChained(newValues[idx], chain);
        cell.next := node;
      }
    }

    /** The j-th node of the i-th old bucket moves to the end of its new bucket. */
    method MoveNode(newValues: array<Node?<K, V>>, ghost moved: seq<seq<Node<K, V>>>, node: Node<K, V>, ghost i: nat, ghost j: nat) returns (ghost moved': seq<seq<Node<K, V>>>)
      requires i < |chains| && j < |chains[i]| && node == chains[i][j] && Sorted(chains, hash)
      requires Hung(newValues, moved, hash) && Behind(moved, chains, i, j)
      modifies newValues, node, Nodes(moved)
      ensures Hung(newValues, moved', hash) && Extends(moved, moved', [node], hash) && Behind(moved', chains, i, j + 1)
    {
      hide Values, View, Count, Behind, Sorted, Extends, Nodes;
      var idx := hash(node.key) % newValues.Length;
      MovedHere(moved, chains, hash, i, j, idx);
      NodesOf(moved);
      Apart(moved, hash);
      node.next := null;
      forall h | 0 <= h < |moved| ensures Chained(newValues[h], moved[h]) {
        assert old(Chained(newValues[h], moved[h]));
      }
      label before: Append(newValues, moved, idx, node);
      moved' := moved[idx := moved[idx] + [node]];
      forall h | 0 <= h < |moved'| ensures Chained(newValues[h], moved'[h]) {
        if h != idx {
          assert old@before(Chained(newValues[h], moved[h]));
        }
      }
    }

    /** The nodes of one old bucket move, each to the end of its new bucket. */
    method MoveBucket(newValues: array<Node?<K, V>>, ghost moved: seq<seq<Node<K, V>>>, i: nat) returns (ghost moved': seq<seq<Node<K, V>>>)
      requires i < |chains| == buckets.Length && Sorted(chains, hash) && newValues != buckets
      requires Hung(newValues, moved, hash) && Behind(moved, chains, i, 0)
      requires forall h :: i <= h < |chains| ==> Chained(buckets[h], chains[h])
      modifies newValues, Nodes(chains)
      ensures Hung(newValues, moved', hash) && Extends(moved, moved', chains[i], hash)
      ensures Behind(moved', chains, i + 1, 0)
      ensures forall h :: i < h < |chains| ==> Chained(buckets[h], chains[h])
    {
      hide Values, View, Sorted, Count, Nodes, Behind, Extends, Hung;
      var node := buckets[i];
      moved' := moved;
      ghost var j := 0;
      assert chains[i][0..] == chains[i] && chains[i][..0] == [];
      assert Chained(buckets[i], chains[i]);
      assert |moved| > 0 by { HungSome(newValues, moved, hash); }
      ExtendsNone(moved, hash);
      while node != null
        invariant j <= |chains[i]| && node == At(chains[i], j)
        invariant forall c :: j <= c < |chains[i]| ==> chains[i][c].next == At(chains[i], c + 1)
        invariant Hung(newValues, moved', hash) && Extends(moved, moved', chains[i][..j], hash)
        invariant Behind(moved', chains, i, j)
        invariant forall h :: i < h < |chains| ==> Chained(buckets[h], chains[h])
        decreases |chains[i]| - j
      {
        var next := node.next;
        ghost var was := moved';
        RestApart(moved', chains, hash, i, j);
        label before: moved' := MoveNode(newValues, moved', node, i, j);
        forall h | i < h < |chains| ensures Chained(buckets[h], chains[h]) {
          assert old@before(Chained(buckets[h], chains[h]));
        }
        ExtendsThen(moved, was, moved', chains[i][..j], [node], hash);
        assert chains[i][..j + 1] == chains[i][..j] + [node];
        node := next;
        j := j + 1;
      }
      assert chains[i][..j] == chains[i];
      BehindNext(moved', chains, i);
    }
  }

  lemma {:induction false} HungSome<K, V>(buckets: array<Node?<K, V>>, chains: seq<seq<Node<K, V>>>, hash: K -> nat)
    requires Hung(buckets, chains, hash)
    ensures |chains| > 0
  {}

  lemma {:induction false} NodesOf<K, V>(chains: seq<seq<Node<K, V>>>)
    ensures forall i, n :: 0 <= i < |chains| && n in chains[i] ==> n in Nodes(chains)
  {}

  /** A chain ends, so it does not come back to a node. */
  lemma {:induction false} NoRepeatsChained<K, V>(head: Node?<K, V>, chain: seq<Node<K, V>>)
    requires Chained(head, chain) && chain != []
    ensures forall j :: 0 <= j < |chain| - 1 ==> chain[j] != chain[|chain| - 1]
  {}

  lemma {:induction false} RestApart<K, V>(moved: seq<seq<Node<K, V>>>, chains: seq<seq<Node<K, V>>>, hash: K -> nat, i: nat, j: nat)
    requires Sorted(chains, hash) && Behind(moved, chains, i, j) && i < |chains| && j < |chains[i]|
    ensures Nodes(moved) <= Nodes(chains) && chains[i][j] in Nodes(chains)
    ensures forall c :: j < c < |chains[i]| ==> chains[i][c] !in Nodes(moved) && chains[i][c] != chains[i][j]
    ensures forall h, n :: i < h < |chains| && n in chains[h] ==> n !in Nodes(moved) && n != chains[i][j]
  {
    Apart(chains, hash);
    hide Sorted;
    forall n | n in Nodes(moved) ensures Before(n, chains, i, j) && n in Nodes(chains) {}
  }

  lemma {:induction false} NotBefore<K, V>(chains: seq<seq<Node<K, V>>>, hash: K -> nat, i: nat, j: nat)
    requires Sorted(chains, hash) && i < |chains| && j < |chains[i]|
    ensures !Before(chains[i][j], chains, i, j)
  {
    Apart(chains, hash);
    hide Sorted;
  }

  lemma {:induction false} MovedHere<K(!new), V>(moved: seq<seq<Node<K, V>>>, chains: seq<seq<Node<K, V>>>, hash: K -> nat, i: nat, j: nat, idx: nat)
    requires Sorted(chains, hash) && Sorted(moved, hash) && Behind(moved, chains, i, j) && i < |chains| && j < |chains[i]|
    requires idx == hash(chains[i][j].key) % |moved|
    ensures chains[i][j] !in Nodes(moved)
    ensures var moved' := moved[idx := moved[idx] + [chains[i][j]]];
      Sorted(moved', hash) && Extends(moved, moved', [chains[i][j]], hash) && Behind(moved', chains, i, j + 1)
  {
    var node := chains[i][j];
    var moved' := moved[idx := moved[idx] + [node]];
    NotBefore(chains, hash, i, j);
    assert node !in Nodes(moved);
    SnocSorted(moved, hash, idx, node);
    CountUpdate(moved, idx, moved[idx] + [node]);
    forall k: K ensures Values(moved'[hash(k) % |moved'|], k) == Values(moved[hash(k) % |moved|], k) + Values([node], k) {
      SnocValues(moved, hash, idx, node, k);
    }
    forall n | n in Nodes(moved') ensures Before(n, chains, i, j + 1) {
      if n in Nodes(moved) {
        assert Before(n, chains, i, j);
      }
    }
  }

  lemma {:induction false} SnocSorted<K, V>(moved: seq<seq<Node<K, V>>>, hash: K -> nat, idx: nat, node: Node<K, V>)
    requires Sorted(moved, hash) && idx == hash(node.key) % |moved| && node !in Nodes(moved)
    ensures var moved' := moved[idx := moved[idx] + [node]]; Sorted(moved', hash) && Nodes(moved') == Nodes(moved) + {node}
  {
    var moved' := moved[idx := moved[idx] + [node]];
    forall n ensures n in Nodes(moved') <==> n in Nodes(moved) + {node} {
      if n in Nodes(moved) {
        var h, c :| 0 <= h < |moved| && 0 <= c < |moved[h]| && moved[h][c] == n;
        assert moved'[h][c] == n;
      }
      assert moved'[idx][|moved[idx]|] == node;
    }
  }

  lemma {:induction false} SnocValues<K, V>(moved: seq<seq<Node<K, V>>>, hash: K -> nat, idx: nat, node: Node<K, V>, k: K)
    requires |moved| > 0 && idx == hash(node.key) % |moved|
    ensures Values(moved[idx := moved[idx] + [node]][hash(k) % |moved|], k) == Values(moved[hash(k) % |moved|], k) + Values([node], k)
  {
    ValuesAppend(moved[idx], [node], k);
    assert Values([node], k) == if node.key == k then [node.value] else [];
  }

  lemma {:induction false} HungFacts<K, V>(buckets: array<Node?<K, V>>, chains: seq<seq<Node<K, V>>>, hash: K -> nat)
    requires Hung(buckets, chains, hash)
    ensures buckets.Length == |chains| > 0 && Sorted(chains, hash)
  {}

  lemma {:induction false} NoValues<K, V>(key: K)
    ensures Values<K, V>([], key) == []
  {}

  lemma {:induction false} ViewAt<K(!new), V>(chains: seq<seq<Node<K, V>>>, hash: K -> nat, key: K)
    requires |chains| > 0
    ensures key in View(chains, hash) && View(chains, hash)[key] == Values(chains[hash(key) % |chains|], key)
  {}

  lemma {:induction false} ValuesStep<K, V>(chain: seq<Node<K, V>>, i: nat, key: K)
    requires i < |chain|
    ensures Values(chain[i..], key) == (if chain[i].key == key then [chain[i].value] else []) + Values(chain[i + 1..], key)
  {
    assert chain[i..][1..] == chain[i + 1..];
  }

  function Without<T>(s: seq<T>, i: nat): seq<T>
    requires i < |s|
  {
    s[..i] + s[i + 1..]
  }

  lemma {:induction false} InNodes<K, V>(chains: seq<seq<Node<K, V>>>, i: nat, j: nat)
    requires i < |chains| && j < |chains[i]|
    ensures chains[i][j] in Nodes(chains)
  {}

  /** A node is in one chain only. */
  lemma {:induction false} Apart<K, V>(chains: seq<seq<Node<K, V>>>, hash: K -> nat)
    requires Sorted(chains, hash)
    ensures forall i, j, h, k :: 0 <= i < |chains| && 0 <= h < |chains| && 0 <= j < |chains[i]| && 0 <= k < |chains[h]| ==>
      chains[i][j] == chains[h][k] ==> i == h && j == k
  {}

  lemma {:induction false} RemovedNodes<K, V>(chains: seq<seq<Node<K, V>>>, hash: K -> nat, idx: nat, i: nat)
    requires Sorted(chains, hash) && idx < |chains| && i < |chains[idx]|
    ensures var after := chains[idx := Without(chains[idx], i)];
      Sorted(after, hash) && Nodes(after) <= Nodes(chains) && Count(after) == Count(chains) - 1
  {
    CountUpdate(chains, idx, Without(chains[idx], i));
    var after := chains[idx := Without(chains[idx], i)];
    assert forall n :: n in Nodes(after) ==> n in Nodes(chains);
  }

  lemma {:induction false} RemovedView<K(!new), V>(chains: seq<seq<Node<K, V>>>, hash: K -> nat, idx: nat, i: nat)
    requires Sorted(chains, hash) && idx < |chains| && i < |chains[idx]|
    requires Values(chains[idx], chains[idx][i].key) == Values(chains[idx][i..], chains[idx][i].key)
    ensures var key := chains[idx][i].key; var view := View(chains, hash); var after := View(chains[idx := Without(chains[idx], i)], hash);
      view[key] != [] && after == view[key := view[key][1..]]
  {
    var chain, key := chains[idx], chains[idx][i].key;
    forall k: K ensures View(chains[idx := Without(chain, i)], hash)[k] ==
      if k == key then View(chains, hash)[k][1..] else View(chains, hash)[k]
    {
      if hash(k) % |chains| == idx {
        assert chain == chain[..i] + chain[i..];
        ValuesAppend(chain[..i], chain[i..], k);
        ValuesAppend(chain[..i], chain[i + 1..], k);
        ValuesStep(chain, i, k);
      }
    }
    ValuesStep(chain, i, key);
  }

  lemma {:induction false} PutNodes<K, V>(chains: seq<seq<Node<K, V>>>, hash: K -> nat, idx: nat, node: Node<K, V>)
    requires Sorted(chains, hash) && idx == hash(node.key) % |chains| && node !in Nodes(chains)
    ensures var after := chains[idx := [node] + chains[idx]];
      Sorted(after, hash) && Nodes(after) == Nodes(chains) + {node} && Count(after) == Count(chains) + 1
  {
    var after := chains[idx := [node] + chains[idx]];
    CountUpdate(chains, idx, [node] + chains[idx]);
    forall n ensures n in Nodes(after) <==> n in Nodes(chains) + {node} {
      if n in Nodes(chains) {
        var i, j :| 0 <= i < |chains| && 0 <= j < |chains[i]| && chains[i][j] == n;
        assert after[i][if i == idx then j + 1 else j] == n;
      }
      assert after[idx][0] == node;
    }
  }

  lemma {:induction false} PutValues<K, V>(chains: seq<seq<Node<K, V>>>, hash: K -> nat, idx: nat, node: Node<K, V>, k: K)
    requires |chains| > 0 && idx == hash(node.key) % |chains|
    ensures Values(chains[idx := [node] + chains[idx]][hash(k) % |chains|], k) ==
      (if k == node.key then [node.value] else []) + Values(chains[hash(k) % |chains|], k)
  {
    ValuesAppend([node], chains[idx], k);
    assert Values([node], k) == if node.key == k then [node.value] else [];
  }

  lemma {:induction false} PutView<K(!new), V>(chains: seq<seq<Node<K, V>>>, hash: K -> nat, idx: nat, node: Node<K, V>)
    requires |chains| > 0 && idx == hash(node.key) % |chains|
    ensures node.key in View(chains, hash)
    ensures View(chains[idx := [node] + chains[idx]], hash) == View(chains, hash)[node.key := [node.value] + View(chains, hash)[node.key]]
  {
    hide Values;
    var after := chains[idx := [node] + chains[idx]];
    var added := View(chains, hash)[node.key := [node.value] + View(chains, hash)[node.key]];
    forall k: K ensures View(after, hash)[k] == added[k] {
      PutValues(chains, hash, idx, node, k);
    }
  }

  // ----- moving nodes -----

  ghost function Flat<K, V>(chains: seq<seq<Node<K, V>>>): seq<Node<K, V>> {
    if chains == [] then [] else chains[0] + Flat(chains[1..])
  }

  lemma {:induction false} FlatSnoc<K, V>(chains: seq<seq<Node<K, V>>>, i: nat)
    requires i < |chains|
    ensures Flat(chains[..i + 1]) == Flat(chains[..i]) + chains[i]
  {
    if i == 0 {
      assert chains[..1][1..] == [] && chains[..0] == [];
    } else {
      assert chains[..i + 1][1..] == chains[1..][..i] && chains[..i][1..] == chains[1..][..i - 1];
      FlatSnoc(chains[1..], i - 1);
    }
  }

  ghost function Nothing<K, V>(n: nat): seq<seq<Node<K, V>>> { seq(n, _ => []) }

  /** The chains grew by these nodes, in this order under every key. */
  ghost predicate Extends<K(!new), V>(a: seq<seq<Node<K, V>>>, b: seq<seq<Node<K, V>>>, part: seq<Node<K, V>>, hash: K -> nat) {
    && |a| == |b| > 0 && Count(b) == Count(a) + |part|
    && forall k: K :: Values(b[hash(k) % |b|], k) == Values(a[hash(k) % |a|], k) + Values(part, k)
  }

  lemma {:induction false} ExtendsNone<K(!new), V>(a: seq<seq<Node<K, V>>>, hash: K -> nat)
    requires |a| > 0
    ensures Extends(a, a, [], hash)
  {}

  lemma {:induction false} ExtendsThen<K(!new), V>(a: seq<seq<Node<K, V>>>, b: seq<seq<Node<K, V>>>, c: seq<seq<Node<K, V>>>, p: seq<Node<K, V>>, q: seq<Node<K, V>>, hash: K -> nat)
    requires Extends(a, b, p, hash) && Extends(b, c, q, hash)
    ensures Extends(a, c, p + q, hash)
  {
    forall k: K ensures Values(c[hash(k) % |c|], k) == Values(a[hash(k) % |a|], k) + Values(p + q, k) {
      ValuesAppend(p, q, k);
    }
  }

  /** Moved nodes come before the j-th node of the i-th old bucket. */
  ghost predicate Behind<K, V>(moved: seq<seq<Node<K, V>>>, chains: seq<seq<Node<K, V>>>, i: nat, j: nat) {
    forall n :: n in Nodes(moved) ==> Before(n, chains, i, j)
  }

  ghost predicate Before<K, V>(n: Node<K, V>, chains: seq<seq<Node<K, V>>>, i: nat, j: nat) {
    exists h, c :: 0 <= h < |chains| && 0 <= c < |chains[h]| && chains[h][c] == n && (h < i || (h == i && c < j))
  }

  lemma {:induction false} BehindNext<K, V>(moved: seq<seq<Node<K, V>>>, chains: seq<seq<Node<K, V>>>, i: nat)
    requires i < |chains| && Behind(moved, chains, i, |chains[i]|)
    ensures Behind(moved, chains, i + 1, 0)
  {
    forall n | n in Nodes(moved) ensures Before(n, chains, i + 1, 0) {
      assert Before(n, chains, i, |chains[i]|);
    }
  }

  lemma {:induction false} NothingMoved<K(!new), V>(moved: seq<seq<Node<K, V>>>, chains: seq<seq<Node<K, V>>>, hash: K -> nat)
    requires |moved| > 0 && moved == Nothing(|moved|)
    ensures Extends(Nothing(|moved|), moved, Flat(chains[..0]), hash) && Behind(moved, chains, 0, 0)
    ensures Sorted(moved, hash) && Nodes(moved) == {}
  {}

  /** Under its own key a sorted table's bucket holds all there is. */
  lemma {:induction false} FlatValues<K, V>(chains: seq<seq<Node<K, V>>>, hash: K -> nat, i: nat, k: K)
    requires Sorted(chains, hash) && i <= |chains|
    ensures Values(Flat(chains[..i]), k) == if hash(k) % |chains| < i then Values(chains[hash(k) % |chains|], k) else []
    decreases i
  {
    if i > 0 {
      FlatValues(chains, hash, i - 1, k);
      FlatSnoc(chains, i - 1);
      ValuesAppend(Flat(chains[..i - 1]), chains[i - 1], k);
      if hash(k) % |chains| != i - 1 {
        ValuesElsewhere(chains[i - 1], k);
      }
    }
  }

  lemma {:induction false} AllMoved<K(!new), V>(chains: seq<seq<Node<K, V>>>, moved: seq<seq<Node<K, V>>>, hash: K -> nat)
    requires Sorted(chains, hash) && |moved| > 0 && Extends(Nothing(|moved|), moved, Flat(chains), hash)
    requires Behind(moved, chains, |chains|, 0)
    ensures Nodes(moved) <= Nodes(chains) && Count(moved) == Count(chains) && View(moved, hash) == View(chains, hash)
  {
    forall k: K ensures Values(moved[hash(k) % |moved|], k) == Values(chains[hash(k) % |chains|], k) {
      FlatValues(chains, hash, |chains|, k);
      assert chains[..|chains|] == chains;
      assert Nothing<K, V>(|moved|)[hash(k) % |moved|] == [];
    }
    CountEmpty<K, V>(Nothing(|moved|));
    FlatCount(chains);
    forall n | n in Nodes(moved) ensures n in Nodes(chains) {
      assert Before(n, chains, |chains|, 0);
    }
  }

  lemma {:induction false} FlatCount<K, V>(chains: seq<seq<Node<K, V>>>)
    ensures |Flat(chains)| == Count(chains)
  {
    if chains != [] {
      FlatCount(chains[1..]);
    }
  }
}
