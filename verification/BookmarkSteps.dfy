/** What moving bookmarks does to the forest. */
module BookmarkSteps {
  import opened Basics
  import opened Bookmarks

  // ---- one move

  /** Where the moved bookmarks go: into `dest`, or where `dest` is. */
  function Target(s: Forest, dest: Node, asChild: bool): Place
    requires dest in s.root
  {
    if asChild then Some(dest) else s.root[dest]
  }

  function Relisted(lists: map<Place, seq<Node>>, from: Place, to: Place, x: Node, dest: Node,
                    asChild: bool): map<Place, seq<Node>>
    requires from in lists && to in lists
  {
    var cut := lists[from := Without(lists[from], {x})];
    cut[to := if asChild then [x] + cut[to] else InsertAfter(cut[to], dest, x)]
  }

  /** A marked node put into or after `dest`, but for the depths. */
  ghost function Placed(s: Forest, x: Node, dest: Node, asChild: bool): Forest
    requires Linked(s) && x in s.nodes && dest in s.nodes && (asChild ==> dest in s.folders)
  {
    LinkedPlace(s, x);
    LinkedPlace(s, dest);
    var to := Target(s, dest, asChild);
    var lists := Relisted(s.lists, s.root[x], to, x, dest, asChild);
    s.(root := s.root[x := to], lists := lists, boxes := lists, movable := s.movable - {x})
  }

  lemma LinkedPlace(s: Forest, n: Node)
    requires Linked(s) && n in s.nodes
    ensures s.root[n] in s.lists && n in s.lists[s.root[n]]
    ensures Some(n) in s.lists
  {
    if s.root[n].Some? { assert s.root[n].value in s.folders; }
  }

  ghost predicate CanMove(s: Forest, x: Node, dest: Node, asChild: bool) {
    && Consistent(s) && x in s.movable && dest in s.nodes && Settled(s, dest)
    && (asChild ==> dest in s.folders)
  }

  lemma {:induction false} RelistedMembers(lists: map<Place, seq<Node>>, from: Place, to: Place, x: Node, dest: Node,
                                           asChild: bool, p: Place)
    requires from in lists && to in lists && p in lists && x != dest
    requires !asChild ==> dest in lists[to]
    requires forall q :: q in lists ==> (x in lists[q] <==> q == from) && NoDup(lists[q])
    ensures var r := Relisted(lists, from, to, x, dest, asChild);
            && r.Keys == lists.Keys && NoDup(r[p])
            && forall n :: n in r[p] <==> if n == x then p == to else n in lists[p]
  {
    var cut := lists[from := Without(lists[from], {x})];
    WithoutNoDup(lists[from], {x});
    assert x !in cut[to] && NoDup(cut[to]);
    if asChild {
      var l := [x] + cut[to];
      assert forall i :: 0 < i < |l| ==> l[i] == cut[to][i - 1];
    } else {
      InsertedNoDup(cut[to], dest, x);
    }
  }

  lemma TargetPlace(s: Forest, x: Node, dest: Node, asChild: bool)
    requires CanMove(s, x, dest, asChild)
    ensures x != dest && s.root[x] in s.lists && Target(s, dest, asChild) in s.lists
    ensures !asChild ==> dest in s.lists[Target(s, dest, asChild)]
    ensures Target(s, dest, asChild).Some? ==> Target(s, dest, asChild).value in s.folders
    ensures var to := Target(s, dest, asChild); to.Some? ==> to.value != x && !Under(s, to.value, x)
  {
    SettledAbove(s, dest, x);
    if s.root[x].Some? { assert s.root[x].value in s.folders; }
    if s.root[dest].Some? { assert s.root[dest].value in s.folders; }
  }

  lemma PlacedMembers(s: Forest, x: Node, dest: Node, asChild: bool, p: Place)
    requires CanMove(s, x, dest, asChild) && p in s.lists
    ensures var r := Placed(s, x, dest, asChild);
            && r.lists.Keys == s.lists.Keys && r.boxes == r.lists && NoDup(r.lists[p])
            && forall n :: n in r.lists[p] <==> if n == x then p == Target(s, dest, asChild) else n in s.lists[p]
  {
    hide Under, Exposed, Relisted, Without, InsertAfter, Leveled;
    TargetPlace(s, x, dest, asChild);
    LinkedPlace(s, x);
    var to := Target(s, dest, asChild);
    forall q | q in s.lists ensures (x in s.lists[q] <==> q == s.root[x]) && NoDup(s.lists[q]) {}
    RelistedMembers(s.lists, s.root[x], to, x, dest, asChild, p);
  }

  lemma PlacedLinked(s: Forest, x: Node, dest: Node, asChild: bool)
    requires CanMove(s, x, dest, asChild)
    ensures Linked(Placed(s, x, dest, asChild))
  {
    hide Under, Exposed, Relisted, Without, InsertAfter, Leveled, NoDup, Linked, IsPlace;
    RootsInside(s);
    TargetPlace(s, x, dest, asChild);
    LinkedPlace(s, x);
    var to := Target(s, dest, asChild);
    var r := Placed(s, x, dest, asChild);
    PlacedMembers(s, x, dest, asChild, s.root[x]);
    forall p | p in r.lists
      ensures IsPlace(s, p) && NoDup(r.lists[p])
      ensures forall n :: n in r.lists[p] <==> n in r.nodes && r.root[n] == p
    {
      PlacedMembers(s, x, dest, asChild, p);
      ListsAre(s, p);
    }
    forall p | IsPlace(s, p) ensures p in r.lists { PlaceListed(s, p); }
    RootsAreFolders(s);
    LinkedWhen(s, r);
  }

  lemma LinkedWhen(s: Forest, r: Forest)
    requires r.nodes == s.nodes
    requires r.root.Keys == r.nodes && r.depth.Keys == r.nodes && r.folders <= r.nodes && r.movable <= r.nodes
    requires r.boxes == r.lists && forall p :: p in r.lists <==> IsPlace(s, p)
    requires forall n :: n in r.nodes && r.root[n].Some? ==> r.root[n].value in r.folders
    requires forall p :: p in r.lists ==>
      NoDup(r.lists[p]) && forall n :: n in r.lists[p] <==> n in r.nodes && r.root[n] == p
    ensures Linked(r)
  {
  }

  lemma PlaceListed(s: Forest, p: Place)
    requires Linked(s) && IsPlace(s, p)
    ensures p in s.lists
  {
  }

  lemma ListsAre(s: Forest, p: Place)
    requires Linked(s) && p in s.lists
    ensures IsPlace(s, p) && forall n :: n in s.lists[p] <==> n in s.nodes && s.root[n] == p
  {
  }

  lemma RootsAreFolders(s: Forest)
    requires Linked(s)
    ensures forall n :: n in s.nodes && s.root[n].Some? ==> s.root[n].value in s.folders
  {
  }

  /** The depths after `x` has come to depth `d` with everything below it. */
  ghost function Shifted(s: Forest, x: Node, d: nat): (r: map<Node, nat>)
    requires Leveled(s) && x in s.nodes
    ensures r.Keys == s.nodes
  {
    map n | n in s.nodes ::
      if n == x then d
      else if Under(s, n, x) then ShiftedDepth(s, x, d, n)
      else s.depth[n]
  }

  ghost function ShiftedDepth(s: Forest, x: Node, d: nat, n: Node): nat
    requires Leveled(s) && x in s.nodes && n in s.nodes && Under(s, n, x)
  {
    UnderDeeper(s, n, x);
    d + s.depth[n] - s.depth[x]
  }

  /** The place is not in or below the node. */
  ghost predicate Outside(s: Forest, to: Place, x: Node)
    requires Leveled(s)
  {
    to.Some? ==> to.value in s.nodes && to.value != x && !Under(s, to.value, x)
  }

  lemma PlacedLeveled(s: Forest, x: Node, dest: Node, asChild: bool)
    requires Consistent(s) && x in s.nodes && dest in s.nodes && (asChild ==> dest in s.folders)
    requires Outside(s, Target(s, dest, asChild), x)
    ensures var to := Target(s, dest, asChild);
            Leveled(Placed(s, x, dest, asChild).(depth := Shifted(s, x, DepthIn(s, to))))
  {
    hide Exposed, Relisted, Linked;
    assert Linked(s);
    RootsInside(s);
    var to := Target(s, dest, asChild);
    var depth := Shifted(s, x, DepthIn(s, to));
    var r := Placed(s, x, dest, asChild).(depth := depth);
    forall n | n in s.nodes
      ensures r.root[n].Some? ==> r.root[n].value in s.nodes
      ensures depth[n] == DepthIn(r, r.root[n])
    {
      if n == x {
      } else if s.root[n].Some? {
        var m := s.root[n].value;
        assert Under(s, n, x) <==> m == x || Under(s, m, x);
      }
    }
  }

  /** Moving a node, marked or not, leaves a forest exactly if its new place is not in or below it. */
  lemma PlacedForest(s: Forest, x: Node, dest: Node, asChild: bool)
    requires Consistent(s) && x in s.nodes && dest in s.nodes && x != dest && (asChild ==> dest in s.folders)
    ensures (exists depth: map<Node, nat> :: Leveled(Placed(s, x, dest, asChild).(depth := depth)))
            <==> Outside(s, Target(s, dest, asChild), x)
  {
    hide Exposed, Relisted, Shifted, Leveled;
    var to := Target(s, dest, asChild);
    var r := Placed(s, x, dest, asChild);
    LinkedPlace(s, dest);
    RootsAreFolders(s);
    RootsInside(s);
    if Outside(s, to, x) {
      PlacedLeveled(s, x, dest, asChild);
    } else {
      forall depth: map<Node, nat> ensures !Leveled(r.(depth := depth)) {
        if Leveled(r.(depth := depth)) { NoRoomBelow(s, r.(depth := depth), x, to); }
      }
    }
  }

  /** A node that is put into itself, or below itself, has no level. */
  lemma NoRoomBelow(s: Forest, r: Forest, x: Node, to: Place)
    requires Leveled(s) && Leveled(r) && r.nodes == s.nodes && x in s.nodes && r.root == s.root[x := to]
    ensures Outside(s, to, x)
  {
    if to.Some? && to.value in s.nodes && Under(s, to.value, x) { DeeperStays(s, r, x, to.value); }
  }

  lemma {:induction false} DeeperStays(s: Forest, r: Forest, x: Node, n: Node)
    requires Leveled(s) && Leveled(r) && r.nodes == s.nodes && n in s.nodes && x in s.nodes && Under(s, n, x)
    requires forall m :: m in s.nodes && m != x ==> r.root[m] == s.root[m]
    ensures n != x && r.depth[n] > r.depth[x]
    decreases s.depth[n]
  {
    UnderDeeper(s, n, x);
    if s.root[n] != Some(x) { DeeperStays(s, r, x, s.root[n].value); }
  }

  lemma RootsInside(s: Forest)
    requires Linked(s)
    ensures s.root.Keys == s.nodes && s.depth.Keys == s.nodes && s.movable <= s.nodes && s.folders <= s.nodes
    ensures s.lists.Keys == s.boxes.Keys && s.boxes == s.lists
  {
  }

  // ---- many moves

  /** The nodes that have been moved. */
  function Moved(s: Forest, r: Forest): set<Node> { s.movable - r.movable }

  /** From `s` to `r` only movable nodes that were at or below the list at `p` have been moved, each
      once and directly to `target`; all others stayed where they were, in their order. */
  ghost predicate Moves(s: Forest, r: Forest, p: Place, target: Place) {
    && Consistent(s) && Consistent(r)
    && r.nodes == s.nodes && r.folders == s.folders && r.movable <= s.movable
    && (forall n :: n in Moved(s, r) ==> r.root[n] == target && Within(s, n, p))
    && (forall n :: n in s.nodes && n !in Moved(s, r) ==> r.root[n] == s.root[n])
    && (forall q :: q in s.lists ==>
         q in r.lists && Without(r.lists[q], Moved(s, r)) == Without(s.lists[q], Moved(s, r)))
  }

  /** All movable nodes at or below the list at `p` have been moved that were not inside of another
      one. */
  ghost predicate AllMoved(s: Forest, r: Forest, p: Place)
    requires Leveled(s) && s.movable <= s.nodes
  {
    forall n :: n in s.movable && Exposed(s, n, p) ==> n !in r.movable
  }

  lemma NoMoves(s: Forest, p: Place, target: Place)
    requires Consistent(s)
    ensures Moves(s, s, p, target)
  {
  }

  lemma {:induction false} WithinBefore(s: Forest, r: Forest, p: Place, target: Place, n: Node, q: Node)
    requires Moves(s, r, p, target) && n in s.nodes
    requires q in s.nodes && Under(r, n, q) && Within(s, q, p)
    ensures Within(s, n, p)
    decreases r.depth[n]
  {
    hide Linked, Without;
    if n !in Moved(s, r) {
      if r.root[n].value != q { WithinBefore(s, r, p, target, r.root[n].value, q); }
      WithinStep(s, n, p);
    }
  }

  /** What is in a folder that is within a place, is. */
  lemma WithinStep(s: Forest, n: Node, p: Place)
    requires Leveled(s) && n in s.nodes && s.root[n].Some? && Within(s, s.root[n].value, p)
    ensures Within(s, n, p)
  {
  }

  /** A chain of nodes that cannot be moved stays. */
  lemma {:induction false} ExposedStays(s: Forest, r: Forest, p: Place, target: Place, n: Node, q: Place)
    requires Moves(s, r, p, target) && n in s.nodes && n !in Moved(s, r) && Exposed(s, n, q)
    ensures Exposed(r, n, q)
    decreases s.depth[n]
  {
    hide Linked, Without, Within;
    if s.root[n] != q { ExposedStays(s, r, p, target, s.root[n].value, q); }
  }

  lemma SettledStays(s: Forest, r: Forest, p: Place, target: Place, n: Node)
    requires Moves(s, r, p, target) && n in s.nodes && Settled(s, n)
    ensures Settled(r, n) && r.root[n] == s.root[n]
  {
    hide Linked, Leveled, Without, Within, Exposed;
    ExposedStays(s, r, p, target, n, None);
  }

  lemma MovesLists(s: Forest, r: Forest, t: Forest, q: Place, a: set<Node>, b: set<Node>)
    requires q in s.lists && q in r.lists && q in t.lists
    requires Without(r.lists[q], a) == Without(s.lists[q], a) && Without(t.lists[q], b) == Without(r.lists[q], b)
    ensures Without(t.lists[q], a + b) == Without(s.lists[q], a + b)
  {
    WithoutTwice(t.lists[q], b, a);
    WithoutTwice(r.lists[q], b, a);
    WithoutTwice(r.lists[q], a, b);
    WithoutTwice(s.lists[q], a, b);
    assert a + b == b + a;
  }

  /** Moves below a node of the list at `p`, after moves at or below it. */
  lemma MovesThen(s: Forest, r: Forest, t: Forest, p: Place, target: Place, q: Place)
    requires Moves(s, r, p, target) && Moves(r, t, q, target)
    requires q == p || (q.Some? && q.value in s.nodes && Within(s, q.value, p))
    ensures Moves(s, t, p, target)
    ensures Moved(s, t) == Moved(s, r) + Moved(r, t)
  {
    hide Without, Under, Linked, Leveled;
    assert Moved(s, t) == Moved(s, r) + Moved(r, t);
    MovesLinks(s, r, t, p, q, target);
    forall n | n in Moved(r, t) ensures Within(s, n, p) {
      if q.Some? {
        assert Under(r, n, q.value);
        if q == p { WithinSame(s, r, p, target, n); } else { WithinBefore(s, r, p, target, n, q.value); }
      }
    }
    forall l | l in s.lists
      ensures l in t.lists && Without(t.lists[l], Moved(s, t)) == Without(s.lists[l], Moved(s, t))
    {
      MovesLists(s, r, t, l, Moved(s, r), Moved(r, t));
    }
  }

  lemma MovesLinks(s: Forest, r: Forest, t: Forest, p: Place, q: Place, target: Place)
    requires Moves(s, r, p, target) && Moves(r, t, q, target)
    ensures t.nodes == s.nodes && t.folders == s.folders && t.movable <= s.movable
    ensures forall n :: n in Moved(r, t) ==> n in s.movable && t.root[n] == target
    ensures forall n :: n in Moved(s, r) ==> n !in Moved(r, t) && t.root[n] == target
    ensures forall n :: n in s.nodes && n !in Moved(s, r) && n !in Moved(r, t) ==> t.root[n] == s.root[n]
    ensures s.lists.Keys == r.lists.Keys == t.lists.Keys
    ensures s.movable <= s.nodes && s.root.Keys == s.nodes
  {
    hide Without, Under;
  }

  lemma {:induction false} WithinSame(s: Forest, r: Forest, p: Place, target: Place, n: Node)
    requires Moves(s, r, p, target) && n in s.nodes && p.Some? && Under(r, n, p.value)
    ensures Within(s, n, p)
    decreases r.depth[n]
  {
    hide Linked, Without;
    if n !in Moved(s, r) {
      if r.root[n].value != p.value {
        WithinSame(s, r, p, target, r.root[n].value);
        WithinStep(s, n, p);
      }
    }
  }

  /** Nothing else moves when nothing has been moved. */
  lemma NothingMoved(s: Forest, r: Forest, p: Place, target: Place)
    requires Moves(s, r, p, target) && r.movable == s.movable
    ensures r.lists == s.lists && r.root == s.root
  {
    assert Moved(s, r) == {};
    forall q | q in s.lists ensures q in r.lists && r.lists[q] == s.lists[q] {
      WithoutNone(s.lists[q]);
      WithoutNone(r.lists[q]);
    }
    assert r.lists.Keys == s.lists.Keys;
  }

  /** Moving one node of the list at `p`. */
  lemma PlacedMoves(s: Forest, x: Node, dest: Node, asChild: bool, p: Place)
    requires CanMove(s, x, dest, asChild) && s.root[x] == p
    ensures var to := Target(s, dest, asChild);
            var r := Placed(s, x, dest, asChild).(depth := Shifted(s, x, DepthIn(s, to)));
            Moves(s, r, p, to) && Settled(r, x) && Moved(s, r) == {x}
  {
    hide Exposed, Under, Shifted, Leveled, Linked, Relisted, Without;
    RootsInside(s);
    TargetPlace(s, x, dest, asChild);
    var to := Target(s, dest, asChild);
    PlacedLinked(s, x, dest, asChild);
    PlacedLeveled(s, x, dest, asChild);
    var placed := Placed(s, x, dest, asChild);
    var r := placed.(depth := Shifted(s, x, DepthIn(s, to)));
    SameLinks(placed, r);
    assert Moved(s, r) == {x};
    RootWithin(s, x, p);
    forall q | q in s.lists ensures q in r.lists && Without(r.lists[q], {x}) == Without(s.lists[q], {x}) {
      RelistedWithout(s.lists, s.root[x], to, x, dest, asChild, q);
    }
    assert Moves(s, r, p, to);
    PlacedSettled(s, r, x, dest, asChild, p);
  }

  lemma RootWithin(s: Forest, x: Node, p: Place)
    requires Leveled(s) && x in s.nodes && s.root[x] == p
    ensures Within(s, x, p)
  {
  }

  /** Depths and marks do not matter for the links. */
  lemma SameLinks(s: Forest, r: Forest)
    requires Linked(s) && r.nodes == s.nodes && r.folders == s.folders && r.root == s.root && r.lists == s.lists
    requires r.boxes == s.boxes
    requires r.depth.Keys == s.nodes && r.movable <= s.nodes
    ensures Linked(r)
  {
    hide Linked, NoDup, IsPlace;
    RootsInside(s);
    RootsAreFolders(s);
    forall p | p in s.lists
      ensures IsPlace(s, p) && NoDup(s.lists[p]) && forall n :: n in s.lists[p] <==> n in s.nodes && s.root[n] == p
    {
      ListsAre(s, p);
      ListNoDup(s, p);
    }
    forall p | IsPlace(s, p) ensures p in s.lists { PlaceListed(s, p); }
    LinkedWhen(s, r);
  }

  lemma RelistedWithout(lists: map<Place, seq<Node>>, from: Place, to: Place, x: Node, dest: Node, asChild: bool,
                        q: Place)
    requires from in lists && to in lists && q in lists
    ensures var r := Relisted(lists, from, to, x, dest, asChild); q in r && Without(r[q], {x}) == Without(lists[q], {x})
  {
    var cut := lists[from := Without(lists[from], {x})];
    WithoutTwice(lists[from], {x}, {x});
    assert {x} + {x} == {x};
    if q == to {
      if asChild { FirstWithout(cut[to], x, {x}); } else { InsertedWithout(cut[to], dest, x, {x}); }
    }
  }

  lemma PlacedSettled(s: Forest, r: Forest, x: Node, dest: Node, asChild: bool, p: Place)
    requires CanMove(s, x, dest, asChild)
    requires Moves(s, r, p, Target(s, dest, asChild)) && Moved(s, r) == {x}
    ensures Settled(r, x)
  {
    hide Without, Within, Settled, Exposed;
    SettledStays(s, r, p, Target(s, dest, asChild), dest);
    assert x in Moved(s, r);
    SettledBeside(r, x, dest);
  }

  lemma SettledBeside(r: Forest, x: Node, dest: Node)
    requires Leveled(r) && x in r.nodes && dest in r.nodes && Settled(r, dest)
    requires x !in r.movable && (r.root[x] == Some(dest) || r.root[x] == r.root[dest])
    ensures Settled(r, x)
  {
  }

  // ---- the traversal of a list that changes

  function Following(l: seq<Node>, x: Node): Place {
    var f := From(l, x);
    if |f| > 1 then Some(f[1]) else None
  }

  /** The part of a list that is still to be visited. */
  function Rest(l: seq<Node>, x: Place): (r: seq<Node>)
    ensures |r| <= |l|
  {
    if x.Some? then From(l, x.value) else []
  }

  lemma {:induction false} FromFollowing(l: seq<Node>, x: Node, y: Node)
    requires NoDup(l) && x in l
    ensures Following(l, x).Some? ==> Following(l, x).value in l && Following(l, x).value != x
    ensures |Rest(l, Following(l, x))| < |From(l, x)|
    ensures y in From(l, x) && y != x ==> y in Rest(l, Following(l, x))
  {
    if l[0] == x {
      assert l == [l[0]] + l[1..];
      if |l| > 1 { assert l[1..][0] == l[1] && From(l, l[1]) == l[1..]; }
    } else {
      FromFollowing(l[1..], x, y);
      assert l[0] !in l[1..];
    }
  }

  /** What one turn of the loop does, with `x` the node that is visited: only `x` or nodes below it
      are moved, and all that can be reached there. */
  ghost predicate Visited(s: Forest, r: Forest, x: Node)
    requires Leveled(s) && s.movable <= s.nodes && x in s.nodes
  {
    && (forall n :: n in Moved(s, r) ==> n == x || Under(s, n, x))
    && x !in r.movable
    && (x !in s.movable ==> AllMoved(s, r, Some(x)))
  }

  lemma SiblingStays(s: Forest, r: Forest, p: Place, target: Place, x: Node, y: Node)
    requires Moves(s, r, p, target) && x in s.nodes && Visited(s, r, x)
    requires y in s.nodes && y != x && s.root[x] == p && s.root[y] == p
    ensures y !in Moved(s, r) && y in r.nodes && r.root[y] == p
  {
    hide Linked, Without, Within;
    if Under(s, y, x) { UnderDeeper(s, y, x); }
  }

  /** The nodes that are still to be moved are at or below nodes still to be visited. */
  ghost predicate Pending(s: Forest, r: Forest, p: Place, rest: seq<Node>)
    requires Leveled(s) && s.movable <= s.nodes
  {
    forall n :: n in s.movable && n in r.movable && Exposed(s, n, p) ==> Branch(s, n, p) in rest
  }

  lemma PendingFirst(s: Forest, p: Place)
    requires Consistent(s) && IsPlace(s, p)
    ensures p in s.lists && Pending(s, s, p, s.lists[p])
  {
    hide Exposed, Branch;
  }

  lemma PendingStep(s: Forest, r: Forest, t: Forest, p: Place, target: Place, x: Node)
    requires Moves(s, r, p, target) && Moves(r, t, p, target)
    requires p in r.lists && p in t.lists
    requires x in r.nodes && r.root[x] == p && Visited(r, t, x)
    requires Pending(s, r, p, From(r.lists[p], x))
    ensures Pending(s, t, p, Rest(t.lists[p], Following(r.lists[p], x)))
  {
    hide Moves, Consistent, Linked, Leveled, Exposed, Branch, Visited;
    MovesParts(s, r, p, target);
    MovesParts(r, t, p, target);
    forall n | n in s.movable && n in t.movable && Exposed(s, n, p)
      ensures Branch(s, n, p) in Rest(t.lists[p], Following(r.lists[p], x))
    {
      assert n in r.movable;
      PendingNode(s, r, t, p, target, x, n);
    }
  }

  lemma MovesParts(s: Forest, r: Forest, p: Place, target: Place)
    requires Moves(s, r, p, target)
    ensures Consistent(s) && Consistent(r) && Leveled(s) && Leveled(r) && Linked(s) && Linked(r)
    ensures r.nodes == s.nodes && r.movable <= s.movable && s.movable <= s.nodes && s.lists.Keys == r.lists.Keys
  {
    hide Without, Within, NoDup;
  }

  lemma PendingNode(s: Forest, r: Forest, t: Forest, p: Place, target: Place, x: Node, n: Node)
    requires Moves(s, r, p, target) && Moves(r, t, p, target)
    requires p in r.lists && p in t.lists
    requires x in r.nodes && r.root[x] == p && Visited(r, t, x)
    requires n in s.movable && n in r.movable && n in t.movable && Exposed(s, n, p)
    requires Branch(s, n, p) in From(r.lists[p], x)
    ensures Branch(s, n, p) in Rest(t.lists[p], Following(r.lists[p], x))
  {
    hide Moves, Leveled, Linked, Exposed, Branch, Without, Consistent;
    MovesParts(s, r, p, target);
    MovesParts(r, t, p, target);
    var b := Branch(s, n, p);
    BranchIsLater(s, r, t, p, target, x, n);
    ListsAre(r, p);
    ListNoDup(r, p);
    FromFollowing(r.lists[p], x, b);
    var next := Following(r.lists[p], x).value;
    SiblingStays(r, t, p, target, x, b);
    SiblingStays(r, t, p, target, x, next);
    SameOrder(r, t, p, target, p);
    OrderStays(r.lists[p], t.lists[p], Moved(r, t), next, b);
  }

  lemma ListNoDup(s: Forest, p: Place)
    requires Linked(s) && p in s.lists
    ensures NoDup(s.lists[p])
  {
  }

  lemma SameOrder(s: Forest, r: Forest, p: Place, target: Place, q: Place)
    requires Moves(s, r, p, target) && q in s.lists
    ensures q in r.lists && Without(r.lists[q], Moved(s, r)) == Without(s.lists[q], Moved(s, r))
  {
  }

  /** A node that is still to be moved is not at or below the node just visited. */
  lemma BranchIsLater(s: Forest, r: Forest, t: Forest, p: Place, target: Place, x: Node, n: Node)
    requires Moves(s, r, p, target) && Moves(r, t, p, target)
    requires x in r.nodes && Visited(r, t, x)
    requires n in s.movable && n in r.movable && n in t.movable && Exposed(s, n, p)
    ensures Branch(s, n, p) != x
  {
    hide Linked, Leveled, Without, Within, Exposed;
    MovesParts(s, r, p, target);
    MovesParts(r, t, p, target);
    if Branch(s, n, p) == x && n != x {
      ExposedStays(s, r, p, target, n, Some(x));
    }
  }

  // ---- what moving comes to

  lemma {:induction false} ExposedWhen(s: Forest, n: Node)
    requires Leveled(s) && n in s.nodes && forall a :: a in s.movable ==> !Under(s, n, a)
    ensures Exposed(s, n, None)
    decreases s.depth[n]
  {
    if s.root[n].Some? { ExposedWhen(s, s.root[n].value); }
  }

  /** After all bookmarks have been gone through: there are the same bookmarks, each once and at the
      right depth; every marked one that was not inside of another marked one is now directly where
      the target is and no longer marked; and whatever was not marked is in the folder it was in. */
  lemma MovedAll(s: Forest, r: Forest, target: Place, n: Node)
    requires Moves(s, r, None, target) && AllMoved(s, r, None) && n in s.nodes
    ensures r.nodes == s.nodes && r.root[n] in r.lists && n in r.lists[r.root[n]] && r.boxes == r.lists
    ensures r.depth[n] == DepthIn(r, r.root[n])
    ensures n in s.movable && (forall a :: a in s.movable ==> !Under(s, n, a)) ==>
            n !in r.movable && r.root[n] == target
    ensures n !in s.movable ==> n !in r.movable && r.root[n] == s.root[n]
    ensures r.root[n] != s.root[n] ==> r.root[n] == target && n in s.movable && n !in r.movable
  {
    hide Exposed, Under, Without;
    MovesParts(s, r, None, target);
    LinkedPlace(r, n);
    if n in s.movable && forall a :: a in s.movable ==> !Under(s, n, a) {
      ExposedWhen(s, n);
      assert n in Moved(s, r);
    }
  }
}
