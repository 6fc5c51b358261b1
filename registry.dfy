/**
 * The subscription registry: a trie keyed by path component. Each node maps a component to a
 * child node and keeps the callbacks registered exactly at its own path; the empty component
 * is the wildcard key. The source keeps the callbacks under the node's own "." key, which no
 * component can collide with because components never contain a dot.
 */
module Registry {
  import opened Base

  datatype Node = Node(children: map<string, Node>, callbacks: seq<CallbackId>)

  /** The node `{ ".": [] }` that the source creates for a missing component. */
  const Leaf: Node := Node(map[], [])

  /** isSubscriptionTreeNodeEmpty: no child and no callback. */
  predicate IsEmpty(n: Node) {
    n.children == map[] && n.callbacks == []
  }

  /** The child under a component, or a fresh empty node where there is none. */
  function Child(n: Node, c: string): Node {
    if c in n.children then n.children[c] else Leaf
  }

  /** The node a pattern path leads to; an empty node where the trie has no such path. */
  function Subtree(n: Node, path: seq<string>): Node
    decreases |path|
  {
    if path == [] then n else Subtree(Child(n, path[0]), path[1..])
  }

  /** The callbacks registered under exactly this pattern path. */
  function Lookup(n: Node, path: seq<string>): seq<CallbackId> {
    Subtree(n, path).callbacks
  }

  /** The callback is registered somewhere in the trie. */
  predicate Holds(n: Node, cb: CallbackId) {
    cb in n.callbacks || exists k :: k in n.children && Holds(n.children[k], cb)
  }

  /** No node below the root is empty: the trie leaks no nodes. */
  predicate NoEmptyBelow(n: Node) {
    forall k :: k in n.children ==> !IsEmpty(n.children[k]) && NoEmptyBelow(n.children[k])
  }

  predicate Distinct(s: seq<CallbackId>) {
    forall i, j :: 0 <= i < j < |s| ==> s[i] != s[j]
  }

  /** deferredSubscribe: walks the path, creating missing nodes, and appends the callback at its end. */
  function Insert(n: Node, path: seq<string>, cb: CallbackId): Node
    decreases |path|
  {
    if path == [] then n.(callbacks := n.callbacks + [cb])
    else n.(children := n.children[path[0] := Insert(Child(n, path[0]), path[1..], cb)])
  }

  /**
   * The side effect of searchEstablishedSubscriberByPathAndCallback: the walk along the path
   * creates every missing node, even when nothing is registered afterwards.
   */
  function Materialize(n: Node, path: seq<string>): Node
    decreases |path|
  {
    if path == [] then n
    else n.(children := n.children[path[0] := Materialize(Child(n, path[0]), path[1..])])
  }

  /** The callback list with every occurrence of one callback spliced out, order kept. */
  function Without(s: seq<CallbackId>, cb: CallbackId): (r: seq<CallbackId>)
    ensures forall x :: x in r <==> x in s && x != cb
    ensures |r| <= |s|
  {
    if s == [] then [] else (if s[0] == cb then [] else [s[0]]) + Without(s[1..], cb)
  }

  /**
   * removeSubscriberFromSubscriptionTree: removes the callback from every child first, deletes
   * each child that has become empty, then splices the callback out of this node's own list.
   */
  function Remove(n: Node, cb: CallbackId): Node {
    Node(map k | k in n.children && !IsEmpty(Remove(n.children[k], cb)) :: Remove(n.children[k], cb),
         Without(n.callbacks, cb))
  }

  /** The backward splice loop over one callback list. */
  method SpliceOut(s: seq<CallbackId>, cb: CallbackId) returns (r: seq<CallbackId>)
    ensures r == Without(s, cb)
  {
    r := s;
    var j := |s|;
    while j > 0
      invariant 0 <= j <= |s|
      invariant r == s[..j] + Without(s[j..], cb)
    {
      j := j - 1;
      SpliceStep(s, r, j, cb);
      if r[j] == cb {
        r := r[..j] + r[j + 1..];
      }
    }
  }

  /** One step of the backward splice loop: position j is spliced out exactly when it holds the callback. */
  lemma SpliceStep(s: seq<CallbackId>, r: seq<CallbackId>, j: nat, cb: CallbackId)
    requires j < |s| && r == s[..j + 1] + Without(s[j + 1..], cb)
    ensures j < |r| && r[j] == s[j]
    ensures s[j] == cb ==> r[..j] + r[j + 1..] == s[..j] + Without(s[j..], cb)
    ensures s[j] != cb ==> r == s[..j] + Without(s[j..], cb)
  {
  }

  /** removeSubscriberFromSubscriptionTree, key by key, deleting every child that has become empty. */
  method RemoveSubscriber(n: Node, cb: CallbackId) returns (r: Node)
    ensures r == Remove(n, cb)
    decreases n
  {
    var children := n.children;
    var todo := n.children.Keys;
    while todo != {}
      invariant todo <= n.children.Keys
      invariant forall k :: k in children <==> k in n.children && (k in todo || !IsEmpty(Remove(n.children[k], cb)))
      invariant forall k :: k in children ==> children[k] == if k in todo then n.children[k] else Remove(n.children[k], cb)
      decreases todo
    {
      var k :| k in todo;
      var child := RemoveSubscriber(n.children[k], cb);
      if IsEmpty(child) {
        children := children - {k};
      } else {
        children := children[k := child];
      }
      todo := todo - {k};
    }
    PrunedChildren(n, cb, children);
    var callbacks := SpliceOut(n.callbacks, cb);
    r := Node(children, callbacks);
  }

  /** The children the removal loop keeps are the children of `Remove`. */
  lemma PrunedChildren(n: Node, cb: CallbackId, children: map<string, Node>)
    requires forall k :: k in children <==> k in n.children && !IsEmpty(Remove(n.children[k], cb))
    requires forall k :: k in children ==> children[k] == Remove(n.children[k], cb)
    ensures Remove(n, cb).children == children
  {
  }

  /** countNumberOfEstablishedSubscribers: every registered callback, at every depth. */
  ghost function Count(n: Node): nat
    decreases n, 1
  {
    |n.callbacks| + CountIn(n, n.children.Keys)
  }

  ghost function CountIn(n: Node, ks: set<string>): nat
    requires ks <= n.children.Keys
    decreases n, 0, ks
  {
    if ks == {} then 0 else var k :| k in ks; Count(n.children[k]) + CountIn(n, ks - {k})
  }

  /** The recursive count, with a loop over the keys of each node as in the source. */
  method CountEstablished(n: Node) returns (count: nat)
    ensures count == Count(n)
    decreases n
  {
    count := |n.callbacks|;
    var todo := n.children.Keys;
    while todo != {}
      invariant todo <= n.children.Keys
      invariant count + CountIn(n, todo) == Count(n)
      decreases todo
    {
      var k :| k in todo;
      var c := CountEstablished(n.children[k]);
      CountInPick(n, todo, k);
      count := count + c;
      todo := todo - {k};
    }
  }

  // ---------------------------------------------------------------------------------------
  // Lookups through the operations

  lemma {:induction false} LeafSubtree(path: seq<string>)
    ensures Subtree(Leaf, path) == Leaf
    decreases |path|
  {
    if path != [] {
      LeafSubtree(path[1..]);
    }
  }

  /** Inserting adds the callback at the end of exactly one pattern's list and nowhere else. */
  lemma {:induction false} InsertLookup(n: Node, path: seq<string>, cb: CallbackId, q: seq<string>)
    ensures Lookup(Insert(n, path, cb), q) == if q == path then Lookup(n, q) + [cb] else Lookup(n, q)
    decreases |path|
  {
    var m := Insert(n, path, cb);
    if path == [] {
      if q != [] {
        assert Child(m, q[0]) == Child(n, q[0]);
      }
    } else if q != [] {
      if q[0] == path[0] {
        InsertLookup(Child(n, path[0]), path[1..], cb, q[1..]);
        assert q == path <==> q[1..] == path[1..] by {
          if q[1..] == path[1..] {
            assert q == [q[0]] + q[1..] && path == [path[0]] + path[1..];
          }
        }
      } else {
        assert Child(m, q[0]) == Child(n, q[0]);
      }
    }
  }

  /** Creating the nodes along a path changes no pattern's callbacks. */
  lemma {:induction false} MaterializeLookup(n: Node, path: seq<string>, q: seq<string>)
    ensures Lookup(Materialize(n, path), q) == Lookup(n, q)
    decreases |path|
  {
    var m := Materialize(n, path);
    if path != [] && q != [] {
      if q[0] == path[0] {
        MaterializeLookup(Child(n, path[0]), path[1..], q[1..]);
      } else {
        assert Child(m, q[0]) == Child(n, q[0]);
      }
    }
  }

  /** Removing splices the callback out of every pattern's list and changes nothing else. */
  /** Looking a path up twice creates nothing the first walk did not. */
  lemma {:induction false} MaterializeIdempotent(n: Node, path: seq<string>)
    ensures Materialize(Materialize(n, path), path) == Materialize(n, path)
    decreases |path|
  {
    if path != [] {
      var m := Materialize(n, path);
      assert Child(m, path[0]) == Materialize(Child(n, path[0]), path[1..]);
      MaterializeIdempotent(Child(n, path[0]), path[1..]);
    }
  }

  lemma {:induction false} RemoveLookup(n: Node, cb: CallbackId, q: seq<string>)
    ensures Lookup(Remove(n, cb), q) == Without(Lookup(n, q), cb)
    decreases |q|
  {
    if q != [] {
      var m := Remove(n, cb);
      if q[0] in n.children {
        var rc := Remove(n.children[q[0]], cb);
        RemoveLookup(n.children[q[0]], cb, q[1..]);
        if IsEmpty(rc) {
          assert rc == Leaf;
          LeafSubtree(q[1..]);
          assert Child(m, q[0]) == Leaf;
        }
      } else {
        LeafSubtree(q[1..]);
      }
    }
  }

  lemma {:induction false} WithoutAbsent(s: seq<CallbackId>, cb: CallbackId)
    requires cb !in s
    ensures Without(s, cb) == s
  {
    if s != [] {
      WithoutAbsent(s[1..], cb);
      assert s == [s[0]] + s[1..];
    }
  }

  lemma {:induction false} WithoutDistinct(s: seq<CallbackId>, cb: CallbackId)
    requires Distinct(s)
    ensures Distinct(Without(s, cb))
  {
    if s != [] {
      var r := Without(s[1..], cb);
      assert Distinct(s[1..]) by {
        forall i, j | 0 <= i < j < |s[1..]| ensures s[1..][i] != s[1..][j] {
          assert s[1..][i] == s[i + 1] && s[1..][j] == s[j + 1];
        }
      }
      WithoutDistinct(s[1..], cb);
      if s[0] != cb {
        assert s[0] !in s[1..];
        assert s[0] !in r;
        forall i, j | 0 <= i < j < |[s[0]] + r| ensures ([s[0]] + r)[i] != ([s[0]] + r)[j] {
          if i > 0 {
            assert ([s[0]] + r)[i] == r[i - 1] && ([s[0]] + r)[j] == r[j - 1];
          } else {
            assert ([s[0]] + r)[j] in r;
          }
        }
      } else {
        assert Without(s, cb) == r;
      }
    }
  }

  /** A callback found under some pattern is registered in the trie. */
  lemma {:induction false} LookupHolds(n: Node, path: seq<string>, cb: CallbackId)
    requires cb in Lookup(n, path)
    ensures Holds(n, cb)
    decreases |path|
  {
    if path != [] {
      if path[0] in n.children {
        LookupHolds(n.children[path[0]], path[1..], cb);
      } else {
        LeafSubtree(path[1..]);
      }
    }
  }

  // ---------------------------------------------------------------------------------------
  // Removal: pruning and idempotence

  /** After a removal no node below the root is empty. */
  lemma {:induction false} RemovePrunes(n: Node, cb: CallbackId)
    ensures NoEmptyBelow(Remove(n, cb))
  {
    forall k | k in n.children {
      RemovePrunes(n.children[k], cb);
    }
  }

  lemma HeldNotEmpty(n: Node, cb: CallbackId)
    requires Holds(n, cb)
    ensures !IsEmpty(n)
  {
  }

  /** A callback is registered after removing `cb` exactly when it was before and is not `cb`. */
  lemma {:induction false} HoldsRemove(n: Node, cb: CallbackId, x: CallbackId)
    ensures Holds(Remove(n, cb), x) <==> Holds(n, x) && x != cb
  {
    var m := Remove(n, cb);
    forall k | k in n.children {
      HoldsRemove(n.children[k], cb, x);
    }
    if Holds(m, x) && x !in m.callbacks {
      var k :| k in m.children && Holds(m.children[k], x);
      assert Holds(n.children[k], x);
    }
    if Holds(n, x) && x != cb && x !in n.callbacks {
      var k :| k in n.children && Holds(n.children[k], x);
      HeldNotEmpty(Remove(n.children[k], cb), x);
      assert k in m.children;
    }
  }

  /** Removing a callback that is nowhere in a pruned trie changes nothing. */
  lemma {:induction false} RemoveAbsent(n: Node, cb: CallbackId)
    requires NoEmptyBelow(n) && !Holds(n, cb)
    ensures Remove(n, cb) == n
  {
    var m := Remove(n, cb);
    forall k | k in n.children
      ensures k in m.children && m.children[k] == n.children[k]
    {
      RemoveAbsent(n.children[k], cb);
    }
    assert m.children == n.children;
    WithoutAbsent(n.callbacks, cb);
  }

  /** unsubscribe is idempotent on the trie: a second removal of the same callback is a no-op. */
  lemma RemoveIdempotent(n: Node, cb: CallbackId)
    ensures Remove(Remove(n, cb), cb) == Remove(n, cb)
  {
    RemovePrunes(n, cb);
    HoldsRemove(n, cb, cb);
    RemoveAbsent(Remove(n, cb), cb);
  }

  /** A pruned trie that holds no callback at all has no node left below its root. */
  lemma {:induction false} NoResidue(n: Node)
    requires NoEmptyBelow(n)
    requires forall x :: !Holds(n, x)
    ensures n.children == map[]
  {
    if n.children != map[] {
      var k :| k in n.children;
      var c := n.children[k];
      if c.callbacks != [] {
        assert Holds(c, c.callbacks[0]);
        assert Holds(n, c.callbacks[0]);
      } else {
        forall x ensures !Holds(c, x) {
          if Holds(c, x) {
            assert Holds(n, x);
          }
        }
        NoResidue(c);
      }
    }
  }

  // ---------------------------------------------------------------------------------------
  // Counting

  /** The sum over the children does not depend on the order in which the keys are taken. */
  lemma {:induction false} CountInPick(n: Node, ks: set<string>, k: string)
    requires ks <= n.children.Keys && k in ks
    ensures CountIn(n, ks) == Count(n.children[k]) + CountIn(n, ks - {k})
    decreases |ks|
  {
    var j :| j in ks && CountIn(n, ks) == Count(n.children[j]) + CountIn(n, ks - {j});
    if j != k {
      CountInPick(n, ks - {j}, k);
      CountInPick(n, ks - {k}, j);
      assert ks - {j} - {k} == ks - {k} - {j};
    }
  }

  lemma {:induction false} CountInSame(n1: Node, n2: Node, ks: set<string>)
    requires ks <= n1.children.Keys && ks <= n2.children.Keys
    requires forall k :: k in ks ==> n1.children[k] == n2.children[k]
    ensures CountIn(n1, ks) == CountIn(n2, ks)
    decreases |ks|
  {
    if ks != {} {
      var j :| j in ks && CountIn(n1, ks) == Count(n1.children[j]) + CountIn(n1, ks - {j});
      CountInPick(n2, ks, j);
      CountInSame(n1, n2, ks - {j});
    }
  }

  /** Replacing one child changes the count by the difference between the two subtrees. */
  lemma CountUpdate(n: Node, k: string, c: Node)
    ensures Count(n.(children := n.children[k := c])) + Count(Child(n, k)) == Count(n) + Count(c)
  {
    var m := n.(children := n.children[k := c]);
    CountInPick(m, m.children.Keys, k);
    assert m.children.Keys - {k} == n.children.Keys - {k};
    CountInSame(m, n, n.children.Keys - {k});
    if k in n.children {
      CountInPick(n, n.children.Keys, k);
    } else {
      assert n.children.Keys - {k} == n.children.Keys;
    }
  }

  lemma CountCallbacks(n: Node, s: seq<CallbackId>)
    ensures Count(n.(callbacks := s)) == Count(n) - |n.callbacks| + |s|
  {
    CountInSame(n.(callbacks := s), n, n.children.Keys);
  }

  /** Each insertion registers exactly one more callback. */
  lemma {:induction false} CountInsert(n: Node, path: seq<string>, cb: CallbackId)
    ensures Count(Insert(n, path, cb)) == Count(n) + 1
    decreases |path|
  {
    if path == [] {
      CountCallbacks(n, n.callbacks + [cb]);
    } else {
      CountInsert(Child(n, path[0]), path[1..], cb);
      CountUpdate(n, path[0], Insert(Child(n, path[0]), path[1..], cb));
    }
  }

  /** Creating nodes along a path registers nothing. */
  lemma {:induction false} CountMaterialize(n: Node, path: seq<string>)
    ensures Count(Materialize(n, path)) == Count(n)
    decreases |path|
  {
    if path != [] {
      CountMaterialize(Child(n, path[0]), path[1..]);
      CountUpdate(n, path[0], Materialize(Child(n, path[0]), path[1..]));
    }
  }

  /** A registered callback is counted. */
  lemma {:induction false} HeldIsCounted(n: Node, cb: CallbackId)
    requires Holds(n, cb)
    ensures Count(n) > 0
  {
    if cb !in n.callbacks {
      var k :| k in n.children && Holds(n.children[k], cb);
      HeldIsCounted(n.children[k], cb);
      CountInPick(n, n.children.Keys, k);
    }
  }

  lemma {:induction false} CountInZero(n: Node, ks: set<string>)
    requires ks <= n.children.Keys
    requires forall k :: k in ks ==> Count(n.children[k]) == 0
    ensures CountIn(n, ks) == 0
    decreases |ks|
  {
    if ks != {} {
      var j :| j in ks && CountIn(n, ks) == Count(n.children[j]) + CountIn(n, ks - {j});
      CountInZero(n, ks - {j});
    }
  }

  lemma {:induction false} NothingHeldCountsZero(n: Node)
    requires forall x :: !Holds(n, x)
    ensures Count(n) == 0
  {
    forall k | k in n.children ensures Count(n.children[k]) == 0 {
      forall x ensures !Holds(n.children[k], x) {
        if Holds(n.children[k], x) {
          assert Holds(n, x);
        }
      }
      NothingHeldCountsZero(n.children[k]);
    }
    CountInZero(n, n.children.Keys);
    if n.callbacks != [] {
      assert Holds(n, n.callbacks[0]);
    }
  }

  /** The count is zero exactly when no callback is registered anywhere. */
  lemma CountZero(n: Node)
    ensures Count(n) == 0 ==> forall x: CallbackId :: !Holds(n, x)
    ensures (forall x: CallbackId :: !Holds(n, x)) ==> Count(n) == 0
  {
    if exists x :: Holds(n, x) {
      var x :| Holds(n, x);
      HeldIsCounted(n, x);
    } else {
      NothingHeldCountsZero(n);
    }
  }
}
