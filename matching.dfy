/**
 * Wildcard matching as deliverEvent performs it: breadth-first over the trie, one level per
 * component of the event path. At each level every frontier node contributes its child under
 * the component and then its child under the wildcard key "", and every callback of every node
 * of the new frontier is invoked before the next component is taken.
 *
 * The functions without "Pattern" in their name follow the source's node lists. The functions
 * with it carry, for every frontier node, the pattern path that leads to it, so that each
 * invocation can be attributed to the subscription (pattern, callback) it serves.
 */
module Matching {
  import opened Base
  import opened Registry
  import Paths

  /** The children one frontier node contributes for a component: the exact one, then the wildcard one. */
  function Selected(n: Node, c: string): seq<Node> {
    (if c in n.children then [n.children[c]] else []) + (if "" in n.children then [n.children[""]] else [])
  }

  /** One level of the breadth-first walk: the next frontier, in the order the source builds it. */
  function Step(front: seq<Node>, c: string): seq<Node> {
    if front == [] then [] else Step(front[..|front| - 1], c) + Selected(front[|front| - 1], c)
  }

  /** The frontier after the walk has consumed the whole path; the root for the empty path. */
  function Frontier(root: Node, path: seq<string>): seq<Node> {
    if path == [] then [root] else Step(Frontier(root, path[..|path| - 1]), path[|path| - 1])
  }

  /** The callbacks of the frontier nodes, node by node. */
  function Gathered(front: seq<Node>): seq<CallbackId> {
    if front == [] then [] else Gathered(front[..|front| - 1]) + front[|front| - 1].callbacks
  }

  /** Every callback deliverEvent invokes for an event path, in invocation order. */
  function Matched(root: Node, path: seq<string>): seq<CallbackId> {
    if path == [] then [] else Matched(root, path[..|path| - 1]) + Gathered(Frontier(root, path))
  }

  /**
   * The subscription pattern P matches the event path N: P is not longer than N, is not empty
   * (the source never fires the root), and agrees with N wherever it is not the wildcard "".
   */
  predicate Matches(p: seq<string>, n: seq<string>) {
    0 < |p| <= |n| && forall i :: 0 <= i < |p| ==> p[i] == "" || p[i] == n[i]
  }

  // ---------------------------------------------------------------------------------------
  // The same walk, with the pattern path of every frontier node

  function SelectedPatterns(root: Node, p: seq<string>, c: string): seq<seq<string>> {
    var n := Subtree(root, p);
    (if c in n.children then [p + [c]] else []) + (if "" in n.children then [p + [""]] else [])
  }

  function PatternStep(root: Node, front: seq<seq<string>>, c: string): seq<seq<string>> {
    if front == [] then []
    else PatternStep(root, front[..|front| - 1], c) + SelectedPatterns(root, front[|front| - 1], c)
  }

  /** The pattern paths of the frontier nodes. */
  function Reached(root: Node, path: seq<string>): seq<seq<string>> {
    if path == [] then [[]] else PatternStep(root, Reached(root, path[..|path| - 1]), path[|path| - 1])
  }

  function Pairs(p: seq<string>, cbs: seq<CallbackId>): seq<(seq<string>, CallbackId)> {
    if cbs == [] then [] else Pairs(p, cbs[..|cbs| - 1]) + [(p, cbs[|cbs| - 1])]
  }

  function Attributed(root: Node, front: seq<seq<string>>): seq<(seq<string>, CallbackId)> {
    if front == [] then []
    else Attributed(root, front[..|front| - 1]) + Pairs(front[|front| - 1], Lookup(root, front[|front| - 1]))
  }

  /** Every invocation of a delivery, labelled with the pattern of the subscription it serves. */
  function MatchedPatterns(root: Node, path: seq<string>): seq<(seq<string>, CallbackId)> {
    if path == [] then []
    else MatchedPatterns(root, path[..|path| - 1]) + Attributed(root, Reached(root, path))
  }

  function Subtrees(root: Node, ps: seq<seq<string>>): seq<Node> {
    if ps == [] then [] else Subtrees(root, ps[..|ps| - 1]) + [Subtree(root, ps[|ps| - 1])]
  }

  function Callbacks(labelled: seq<(seq<string>, CallbackId)>): seq<CallbackId> {
    if labelled == [] then [] else Callbacks(labelled[..|labelled| - 1]) + [labelled[|labelled| - 1].1]
  }

  /** The pattern path of a node that the trie holds. */
  predicate Present(root: Node, p: seq<string>) {
    p == [] || (Present(root, p[..|p| - 1]) && p[|p| - 1] in Subtree(root, p[..|p| - 1]).children)
  }

  predicate Fits(p: seq<string>, n: seq<string>) {
    |p| == |n| && forall i :: 0 <= i < |p| ==> p[i] == "" || p[i] == n[i]
  }

  // ---------------------------------------------------------------------------------------
  // The labelled walk is the source's walk

  lemma {:induction false} SubtreeSnoc(root: Node, p: seq<string>, c: string)
    ensures Subtree(root, p + [c]) == Child(Subtree(root, p), c)
    decreases |p|
  {
    if p == [] {
      assert [] + [c] == [c];
    } else {
      assert (p + [c])[1..] == p[1..] + [c];
      SubtreeSnoc(Child(root, p[0]), p[1..], c);
    }
  }

  lemma {:induction false} SubtreesAppend(root: Node, a: seq<seq<string>>, b: seq<seq<string>>)
    ensures Subtrees(root, a + b) == Subtrees(root, a) + Subtrees(root, b)
    decreases |b|
  {
    if b != [] {
      assert (a + b)[..|a + b| - 1] == a + b[..|b| - 1];
      SubtreesAppend(root, a, b[..|b| - 1]);
    } else {
      assert a + b == a;
    }
  }

  lemma {:induction false} CallbacksAppend(a: seq<(seq<string>, CallbackId)>, b: seq<(seq<string>, CallbackId)>)
    ensures Callbacks(a + b) == Callbacks(a) + Callbacks(b)
    decreases |b|
  {
    if b != [] {
      assert (a + b)[..|a + b| - 1] == a + b[..|b| - 1];
      CallbacksAppend(a, b[..|b| - 1]);
    } else {
      assert a + b == a;
    }
  }

  lemma {:induction false} GatheredAppend(a: seq<Node>, b: seq<Node>)
    ensures Gathered(a + b) == Gathered(a) + Gathered(b)
    decreases |b|
  {
    if b != [] {
      assert (a + b)[..|a + b| - 1] == a + b[..|b| - 1];
      GatheredAppend(a, b[..|b| - 1]);
    } else {
      assert a + b == a;
    }
  }

  lemma {:induction false} PairsCallbacks(p: seq<string>, cbs: seq<CallbackId>)
    ensures Callbacks(Pairs(p, cbs)) == cbs
    decreases |cbs|
  {
    if cbs != [] {
      PairsCallbacks(p, cbs[..|cbs| - 1]);
      assert cbs == cbs[..|cbs| - 1] + [cbs[|cbs| - 1]];
    }
  }

  lemma {:induction false} StepErased(root: Node, front: seq<seq<string>>, c: string)
    ensures Step(Subtrees(root, front), c) == Subtrees(root, PatternStep(root, front, c))
    decreases |front|
  {
    if front != [] {
      var init, p := front[..|front| - 1], front[|front| - 1];
      StepErased(root, init, c);
      var n := Subtree(root, p);
      SubtreeSnoc(root, p, c);
      SubtreeSnoc(root, p, "");
      var sel := SelectedPatterns(root, p, c);
      assert Subtrees(root, sel) == Selected(n, c) by {
        var a := if c in n.children then [p + [c]] else [];
        var b := if "" in n.children then [p + [""]] else [];
        SubtreesAppend(root, a, b);
        assert Subtrees(root, a) == (if c in n.children then [n.children[c]] else []);
        assert Subtrees(root, b) == (if "" in n.children then [n.children[""]] else []);
      }
      SubtreesAppend(root, PatternStep(root, init, c), sel);
      assert Subtrees(root, front) == Subtrees(root, init) + [n];
    }
  }

  /** The source's frontier holds exactly the nodes at the reached pattern paths. */
  lemma {:induction false} FrontierErased(root: Node, path: seq<string>)
    ensures Frontier(root, path) == Subtrees(root, Reached(root, path))
    decreases |path|
  {
    if path == [] {
      assert Subtrees(root, [[]]) == Subtrees(root, []) + [Subtree(root, [])];
    } else {
      FrontierErased(root, path[..|path| - 1]);
      StepErased(root, Reached(root, path[..|path| - 1]), path[|path| - 1]);
    }
  }

  lemma {:induction false} GatheredErased(root: Node, front: seq<seq<string>>)
    ensures Gathered(Subtrees(root, front)) == Callbacks(Attributed(root, front))
    decreases |front|
  {
    if front != [] {
      var init, p := front[..|front| - 1], front[|front| - 1];
      GatheredErased(root, init);
      CallbacksAppend(Attributed(root, init), Pairs(p, Lookup(root, p)));
      PairsCallbacks(p, Lookup(root, p));
      GatheredAppend(Subtrees(root, init), [Subtree(root, p)]);
      assert Gathered([Subtree(root, p)]) == Lookup(root, p);
    }
  }

  /** Forgetting the patterns of the labelled invocations gives the source's invocations. */
  lemma {:induction false} MatchedErased(root: Node, path: seq<string>)
    ensures Matched(root, path) == Callbacks(MatchedPatterns(root, path))
    decreases |path|
  {
    if path != [] {
      MatchedErased(root, path[..|path| - 1]);
      FrontierErased(root, path);
      GatheredErased(root, Reached(root, path));
      CallbacksAppend(MatchedPatterns(root, path[..|path| - 1]), Attributed(root, Reached(root, path)));
    }
  }

  // ---------------------------------------------------------------------------------------
  // Counting the labelled invocations

  lemma {:induction false} AbsentSubtree(root: Node, p: seq<string>)
    requires !Present(root, p)
    ensures Subtree(root, p) == Leaf
    decreases |p|
  {
    var init, c := p[..|p| - 1], p[|p| - 1];
    assert p == init + [c];
    SubtreeSnoc(root, init, c);
    if !Present(root, init) {
      AbsentSubtree(root, init);
    }
  }

  /** The pattern q is a trie path one step below a frontier pattern, along c or the wildcard. */
  predicate Extends(root: Node, q: seq<string>, c: string) {
    |q| > 0 && (q[|q| - 1] == c || q[|q| - 1] == "") && q[|q| - 1] in Subtree(root, q[..|q| - 1]).children
  }

  lemma SelectedCount(root: Node, p: seq<string>, c: string, q: seq<string>)
    requires c != ""
    ensures multiset(SelectedPatterns(root, p, c))[q] == if Extends(root, q, c) && q[..|q| - 1] == p then 1 else 0
  {
    var n := Subtree(root, p);
    var a: seq<seq<string>> := if c in n.children then [p + [c]] else [];
    var b: seq<seq<string>> := if "" in n.children then [p + [""]] else [];
    CountConcat(a, b, q);
    assert (p + [c])[..|p|] == p && (p + [""])[..|p|] == p;
    if |q| > 0 && q[..|q| - 1] == p {
      assert q == p + [q[|q| - 1]];
    } else {
      assert q != p + [c] && q != p + [""];
    }
  }

  lemma {:induction false} PatternStepCount(root: Node, front: seq<seq<string>>, c: string, q: seq<string>)
    requires c != ""
    ensures multiset(PatternStep(root, front, c))[q] == if Extends(root, q, c) then multiset(front)[q[..|q| - 1]] else 0
    decreases |front|
  {
    if front != [] {
      var init, p := front[..|front| - 1], front[|front| - 1];
      PatternStepCount(root, init, c, q);
      SelectedCount(root, p, c, q);
      CountConcat(PatternStep(root, init, c), SelectedPatterns(root, p, c), q);
      if |q| > 0 {
        CountSnoc(front, q[..|q| - 1]);
      }
    }
  }

  /**
   * After k components, the frontier holds every trie path of length k that fits the first k
   * components of the event path, each exactly once.
   */
  lemma {:induction false} ReachedCount(root: Node, path: seq<string>, q: seq<string>)
    requires Paths.NoEmptyComponent(path)
    ensures multiset(Reached(root, path))[q] == if Fits(q, path) && Present(root, q) then 1 else 0
    decreases |path|
  {
    if path == [] {
      if q != [] {
        assert q !in multiset(Reached(root, path));
      }
    } else {
      var init, c := path[..|path| - 1], path[|path| - 1];
      assert c == path[|path| - 1];
      assert Paths.NoEmptyComponent(init);
      PatternStepCount(root, Reached(root, init), c, q);
      if |q| > 0 {
        ReachedCount(root, init, q[..|q| - 1]);
        FitsSnoc(q, path);
      }
    }
  }

  /** A pattern fits a path iff its front fits the path's front and its last component fits the last one. */
  lemma FitsSnoc(q: seq<string>, path: seq<string>)
    requires |q| > 0 && |path| > 0
    ensures Fits(q, path) <==> Fits(q[..|q| - 1], path[..|path| - 1]) && (q[|q| - 1] == path[|path| - 1] || q[|q| - 1] == "")
  {
  }

  lemma {:induction false} PairsCount(p: seq<string>, cbs: seq<CallbackId>, q: seq<string>, cb: CallbackId)
    ensures multiset(Pairs(p, cbs))[(q, cb)] == if q == p then multiset(cbs)[cb] else 0
    decreases |cbs|
  {
    if cbs != [] {
      PairsCount(p, cbs[..|cbs| - 1], q, cb);
      assert cbs == cbs[..|cbs| - 1] + [cbs[|cbs| - 1]];
    }
  }

  /** m copies of k, written out so that the counting lemmas stay linear. */
  function Times(m: nat, k: nat): nat {
    if m == 0 then 0 else Times(m - 1, k) + k
  }

  lemma CountConcat<T>(a: seq<T>, b: seq<T>, x: T)
    ensures multiset(a + b)[x] == multiset(a)[x] + multiset(b)[x]
  {
  }

  lemma CountSnoc<T>(s: seq<T>, x: T)
    requires |s| > 0
    ensures multiset(s)[x] == multiset(s[..|s| - 1])[x] + if s[|s| - 1] == x then 1 else 0
  {
    assert s == s[..|s| - 1] + [s[|s| - 1]];
    CountConcat(s[..|s| - 1], [s[|s| - 1]], x);
  }

  lemma {:induction false} AttributedCount(root: Node, front: seq<seq<string>>, q: seq<string>, cb: CallbackId)
    ensures multiset(Attributed(root, front))[(q, cb)] == Times(multiset(front)[q], multiset(Lookup(root, q))[cb])
    decreases |front|
  {
    if front != [] {
      var init, p := front[..|front| - 1], front[|front| - 1];
      AttributedCount(root, init, q, cb);
      PairsCount(p, Lookup(root, p), q, cb);
      CountSnoc(front, q);
      CountConcat(Attributed(root, init), Pairs(p, Lookup(root, p)), (q, cb));
    }
  }

  lemma {:induction false} MatchedPatternsCount(root: Node, path: seq<string>, q: seq<string>, cb: CallbackId)
    requires Paths.NoEmptyComponent(path)
    ensures multiset(MatchedPatterns(root, path))[(q, cb)]
         == if Matches(q, path) then multiset(Lookup(root, q))[cb] else 0
    decreases |path|
  {
    if path != [] {
      var init := path[..|path| - 1];
      assert Paths.NoEmptyComponent(init);
      MatchedPatternsCount(root, init, q, cb);
      AttributedCount(root, Reached(root, path), q, cb);
      ReachedCount(root, path, q);
      if Fits(q, path) && !Present(root, q) {
        AbsentSubtree(root, q);
      }
      assert Matches(q, path) <==> Matches(q, init) || (|q| > 0 && Fits(q, path)) by {
        if Matches(q, init) {
          forall i | 0 <= i < |q| ensures q[i] == "" || q[i] == path[i] {
            assert path[i] == init[i];
          }
        }
        if Matches(q, path) && |q| < |path| {
          forall i | 0 <= i < |q| ensures q[i] == "" || q[i] == init[i] {
            assert path[i] == init[i];
          }
        }
      }
    }
  }

  lemma DistinctCount(s: seq<CallbackId>, x: CallbackId)
    requires Distinct(s)
    ensures multiset(s)[x] == if x in s then 1 else 0
  {
    if x in s {
      var i :| 0 <= i < |s| && s[i] == x;
      assert s == s[..i] + [x] + s[i + 1..];
      assert x !in s[..i] && x !in s[i + 1..] by {
        forall j | 0 <= j < |s| && j != i ensures s[j] != x { }
      }
    }
  }

  /**
   * Wildcard matching: for a valid event path N and a subscription (P, cb) whose pattern list
   * holds no duplicates, one delivery invokes cb on behalf of P exactly once when P matches N,
   * and never otherwise: not when P is longer than N, and not when P differs from N at a
   * position that is not the wildcard.
   */
  lemma MatchedExactlyOnce(root: Node, path: seq<string>, p: seq<string>, cb: CallbackId)
    requires Paths.NoEmptyComponent(path)
    requires Distinct(Lookup(root, p))
    ensures multiset(MatchedPatterns(root, path))[(p, cb)]
         == if Matches(p, path) && cb in Lookup(root, p) then 1 else 0
  {
    MatchedPatternsCount(root, path, p, cb);
    DistinctCount(Lookup(root, p), cb);
  }

  // ---------------------------------------------------------------------------------------
  // Only registered callbacks are invoked

  lemma {:induction false} GatheredHolds(root: Node, front: seq<seq<string>>, cb: CallbackId)
    requires cb in Gathered(Subtrees(root, front))
    ensures Holds(root, cb)
    decreases |front|
  {
    var init, p := front[..|front| - 1], front[|front| - 1];
    GatheredAppend(Subtrees(root, init), [Subtree(root, p)]);
    assert Gathered([Subtree(root, p)]) == Lookup(root, p);
    if cb in Lookup(root, p) {
      LookupHolds(root, p, cb);
    } else {
      GatheredHolds(root, init, cb);
    }
  }

  /** A delivery invokes no callback that the trie does not hold. */
  lemma {:induction false} MatchedHolds(root: Node, path: seq<string>, cb: CallbackId)
    requires cb in Matched(root, path)
    ensures Holds(root, cb)
    decreases |path|
  {
    if cb in Matched(root, path[..|path| - 1]) {
      MatchedHolds(root, path[..|path| - 1], cb);
    } else {
      FrontierErased(root, path);
      GatheredHolds(root, Reached(root, path), cb);
    }
  }
}
