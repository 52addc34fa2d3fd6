/** The bookmark forest and its twin, the forest of listbox items (src/bookmarks/dialogs.c).  A node
    stands for a bookmark together with its listbox item. */
module Bookmarks {
  import opened Basics

  type Node = nat

  /** Where a list of bookmarks is: in a folder, or at the top. */
  type Place = Option<Node>

  /** `lists` are the lists of bookmarks, `boxes` those of listbox items; `movable` are the marked
      nodes, without the one that must be avoided. */
  datatype Forest = Forest(nodes: set<Node>, folders: set<Node>, root: map<Node, Place>, lists: map<Place, seq<Node>>,
                           boxes: map<Place, seq<Node>>, depth: map<Node, nat>, movable: set<Node>)

  // ---- lists

  function Without(l: seq<Node>, m: set<Node>): (r: seq<Node>)
    ensures forall n :: n in r <==> n in l && n !in m
    ensures |r| <= |l|
  {
    if l == [] then [] else (if l[0] in m then [] else [l[0]]) + Without(l[1..], m)
  }

  /** The list from a node on. */
  function From(l: seq<Node>, x: Node): (r: seq<Node>)
    ensures |r| <= |l|
    ensures r != [] ==> r[0] == x
    ensures r != [] <==> x in l
    ensures forall n :: n in r ==> n in l
  {
    if l == [] || l[0] == x then l else From(l[1..], x)
  }

  /** add_at_pos. */
  function InsertAfter(l: seq<Node>, d: Node, x: Node): (r: seq<Node>)
    ensures forall n :: n in r <==> n in l || (d in l && n == x)
  {
    if l == [] then [] else if l[0] == d then [d, x] + l[1..] else [l[0]] + InsertAfter(l[1..], d, x)
  }

  lemma {:induction false} WithoutTwice(l: seq<Node>, a: set<Node>, b: set<Node>)
    ensures Without(Without(l, a), b) == Without(l, a + b)
  {
    if l != [] {
      WithoutTwice(l[1..], a, b);
      if l[0] !in a {
        var w := [l[0]] + Without(l[1..], a);
        assert w[1..] == Without(l[1..], a);
      } else {
        assert [] + Without(l[1..], a) == Without(l[1..], a);
      }
    }
  }

  lemma {:induction false} WithoutNone(l: seq<Node>)
    ensures Without(l, {}) == l
  {
    if l != [] { WithoutNone(l[1..]); }
  }

  lemma {:induction false} WithoutNoDup(l: seq<Node>, m: set<Node>)
    requires NoDup(l)
    ensures NoDup(Without(l, m))
  {
    if l != [] {
      assert NoDup(l[1..]);
      WithoutNoDup(l[1..], m);
      assert l[0] !in l[1..];
    }
  }

  lemma {:induction false} InsertedNoDup(l: seq<Node>, d: Node, x: Node)
    requires NoDup(l) && x !in l
    ensures NoDup(InsertAfter(l, d, x))
  {
    if l != [] {
      assert NoDup(l[1..]) && l[0] !in l[1..];
      if l[0] == d {
        assert forall i :: 2 <= i < |l| + 1 ==> ([d, x] + l[1..])[i] == l[i - 1];
      } else {
        InsertedNoDup(l[1..], d, x);
      }
    }
  }

  lemma {:induction false} InsertedWithout(l: seq<Node>, d: Node, x: Node, m: set<Node>)
    requires x in m
    ensures Without(InsertAfter(l, d, x), m) == Without(l, m)
  {
    if l != [] {
      var r := InsertAfter(l, d, x);
      if l[0] == d {
        assert r[1..] == [x] + l[1..] && r[1..][1..] == l[1..];
      } else {
        assert r[1..] == InsertAfter(l[1..], d, x);
        InsertedWithout(l[1..], d, x, m);
      }
    }
  }

  lemma FirstWithout(l: seq<Node>, x: Node, m: set<Node>)
    requires x in m
    ensures Without([x] + l, m) == Without(l, m)
  {
    assert ([x] + l)[1..] == l;
  }

  lemma {:induction false} FromWithout(l: seq<Node>, x: Node, m: set<Node>)
    requires x !in m
    ensures Without(From(l, x), m) == From(Without(l, m), x)
  {
    if l != [] && l[0] != x {
      FromWithout(l[1..], x, m);
      var w := Without(l[1..], m);
      if l[0] !in m {
        assert ([l[0]] + w)[1..] == w;
      } else {
        assert [] + w == w;
      }
    }
  }

  /** Lists that differ only in moved nodes have the other nodes in the same order. */
  lemma OrderStays(l: seq<Node>, r: seq<Node>, m: set<Node>, x: Node, y: Node)
    requires Without(l, m) == Without(r, m) && x !in m && y !in m && y in From(l, x)
    ensures y in From(r, x)
  {
    FromWithout(l, x, m);
    FromWithout(r, x, m);
    assert y in Without(From(l, x), m);
  }

  // ---- forests

  predicate IsPlace(s: Forest, p: Place) { p.None? || p.value in s.nodes }

  function DepthIn(s: Forest, p: Place): nat {
    if p.Some? && p.value in s.depth then s.depth[p.value] + 1 else 0
  }

  /** Every node is in the list of its root and in no other, once; only folders have children; and
      the listbox items are shaped like the bookmarks. */
  ghost predicate Linked(s: Forest) {
    && s.root.Keys == s.nodes && s.depth.Keys == s.nodes && s.folders <= s.nodes && s.movable <= s.nodes
    && (forall p :: p in s.lists <==> IsPlace(s, p))
    && (forall n :: n in s.nodes && s.root[n].Some? ==> s.root[n].value in s.folders)
    && (forall p, n :: p in s.lists ==> (n in s.lists[p] <==> n in s.nodes && s.root[n] == p))
    && (forall p :: p in s.lists ==> NoDup(s.lists[p]))
    && s.boxes == s.lists
  }

  /** Every node is one level below its root, so that no node is below itself. */
  ghost predicate Leveled(s: Forest) {
    && s.root.Keys == s.nodes && s.depth.Keys == s.nodes
    && forall n :: n in s.nodes ==>
         (s.root[n].Some? ==> s.root[n].value in s.nodes) && s.depth[n] == DepthIn(s, s.root[n])
  }

  ghost predicate Consistent(s: Forest) { Linked(s) && Leveled(s) }

  ghost predicate Under(s: Forest, n: Node, p: Node)
    requires Leveled(s) && n in s.nodes
    decreases s.depth[n]
  {
    s.root[n].Some? && (s.root[n].value == p || Under(s, s.root[n].value, p))
  }

  ghost predicate Within(s: Forest, n: Node, p: Place)
    requires Leveled(s) && n in s.nodes
  {
    p.Some? ==> Under(s, n, p.value)
  }

  /** No movable node is between `n` and the list at `p`, which holds an ancestor of `n` or `n`. */
  ghost predicate Exposed(s: Forest, n: Node, p: Place)
    requires Leveled(s) && n in s.nodes
    decreases s.depth[n]
  {
    s.root[n] == p || (s.root[n].Some? && s.root[n].value !in s.movable && Exposed(s, s.root[n].value, p))
  }

  /** The node of the list at `p` that `n` is, or is below. */
  ghost function Branch(s: Forest, n: Node, p: Place): (b: Node)
    requires Leveled(s) && n in s.nodes && Exposed(s, n, p)
    ensures b in s.nodes && s.root[b] == p
    ensures b != n ==> b !in s.movable && Under(s, n, b) && Exposed(s, n, Some(b))
    decreases s.depth[n]
  {
    if s.root[n] == p then n
    else
      var r := s.root[n].value;
      var b := Branch(s, r, p);
      b
  }

  /** Neither the node nor any of its ancestors can be moved. */
  ghost predicate Settled(s: Forest, n: Node)
    requires Leveled(s) && n in s.nodes
  {
    n !in s.movable && Exposed(s, n, None)
  }

  lemma {:induction false} UnderDeeper(s: Forest, n: Node, p: Node)
    requires Leveled(s) && n in s.nodes && Under(s, n, p)
    ensures p in s.nodes && s.depth[p] < s.depth[n]
    decreases s.depth[n]
  {
    if s.root[n].value != p { UnderDeeper(s, s.root[n].value, p); }
  }

  lemma {:induction false} UnderTrans(s: Forest, n: Node, m: Node, p: Node)
    requires Leveled(s) && n in s.nodes && m in s.nodes && Under(s, n, m) && Under(s, m, p)
    ensures Under(s, n, p)
    decreases s.depth[n]
  {
    if s.root[n].value != m { UnderTrans(s, s.root[n].value, m, p); }
  }

  lemma {:induction false} UnderFolder(s: Forest, n: Node, p: Node)
    requires Consistent(s) && n in s.nodes && Under(s, n, p)
    ensures p in s.folders
    decreases s.depth[n]
  {
    if s.root[n].value != p { UnderFolder(s, s.root[n].value, p); }
  }

  lemma {:induction false} SettledAbove(s: Forest, n: Node, x: Node)
    requires Leveled(s) && n in s.nodes && Settled(s, n) && x in s.movable
    ensures n != x && !Under(s, n, x)
    decreases s.depth[n]
  {
    if s.root[n].Some? { SettledAbove(s, s.root[n].value, x); }
  }

  // ---- the depth of a forest

  ghost function Chain(s: Forest, n: Node): (c: set<Node>)
    requires Leveled(s) && n in s.nodes
    ensures c <= s.nodes
    ensures forall m :: m in c ==> s.depth[m] <= s.depth[n]
    decreases s.depth[n]
  {
    {n} + if s.root[n].Some? then Chain(s, s.root[n].value) else {}
  }

  lemma {:induction false} ChainSize(s: Forest, n: Node)
    requires Leveled(s) && n in s.nodes
    ensures |Chain(s, n)| == s.depth[n] + 1
    decreases s.depth[n]
  {
    if s.root[n].Some? {
      ChainSize(s, s.root[n].value);
      assert n !in Chain(s, s.root[n].value);
    }
  }

  lemma {:induction false} SubsetSize(a: set<Node>, b: set<Node>)
    requires a <= b
    ensures |a| <= |b|
    decreases |a|
  {
    if a != {} {
      var x :| x in a;
      SubsetSize(a - {x}, b - {x});
    }
  }

  /** No forest is deeper than it has nodes. */
  lemma DepthBounded(s: Forest, n: Node)
    requires Leveled(s) && n in s.nodes
    ensures s.depth[n] < |s.nodes|
  {
    ChainSize(s, n);
    SubsetSize(Chain(s, n), s.nodes);
  }
}
