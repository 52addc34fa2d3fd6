/** Which marked folders are moved as a whole: those that are moved to where the traversal has already
    been, or does not come. */
module BookmarkWhole {
  import opened Basics
  import opened Bookmarks
  import opened BookmarkSteps
  import opened BookmarkOrder

  /** Going through the list at `p`, the destination `d` is not ahead of `f`: it is elsewhere, before
      `f`, or above it. */
  ghost predicate Passed(s: Forest, f: Node, d: Node, p: Place)
    requires Consistent(s) && f in s.nodes && d in s.nodes
    decreases |s.nodes| - DepthIn(s, p)
  {
    && Exposed(s, f, p) && p in s.lists
    && (Exposed(s, d, p) ==>
          var bf, bd := Branch(s, f, p), Branch(s, d, p);
          DepthBounded(s, bf);
          if bf == bd then bf != f && (bd == d || Passed(s, f, d, Some(bf))) else bf in From(s.lists[p], bd))
  }

  /** A marked node `n` below a marked folder `f` with nothing marked above it, where the place at which
      bookmarks are put is not ahead of the folder and does not come to be ahead of it. */
  ghost predicate Keeps(s: Forest, f: Node, n: Node, dest: Node, asChild: bool, p: Place)
    requires Consistent(s)
  {
    && f in s.movable && n in s.movable && f in s.nodes && n in s.nodes && dest in s.nodes
    && Exposed(s, f, None) && Under(s, n, f) && Passed(s, f, dest, p) && Resting(s, f, dest, asChild, p)
  }

  ghost predicate Resting(s: Forest, f: Node, dest: Node, asChild: bool, p: Place)
    requires Consistent(s) && f in s.nodes && dest in s.nodes
  {
    asChild || !Under(s, f, dest) || (p in s.lists && !MovesOn(s, dest, p, s.lists[p]))
  }

  ghost predicate Kept(s: Forest, r: Forest, dest: Node, asChild: bool, p: Place)
    requires Consistent(s)
  {
    forall f, n :: Keeps(s, f, n, dest, asChild, p) ==> n in r.movable
  }

  predicate IsBehind(l: seq<Node>, dest: Node, asChild: bool, y: Node) { asChild || (y != dest && y in From(l, dest)) }

  /** What was behind the place where bookmarks are put is behind all that was put there. */
  ghost predicate Close(s: Forest, r: Forest, dest: Node, asChild: bool, target: Place) {
    target in r.lists &&
    var l := r.lists[target];
    forall m, y :: m in Moved(s, r) && y in l && y !in Moved(s, r) && IsBehind(l, dest, asChild, y) ==> y in From(l, m)
  }

  // ---- lists

  lemma {:induction false} InsertedClose(l: seq<Node>, d: Node, x: Node, y: Node)
    requires NoDup(l) && x !in l && d in l && y != d && y != x && y in From(InsertAfter(l, d, x), d)
    ensures y in From(InsertAfter(l, d, x), x)
  {
    hide NoDup, InsertAfter;
    InsertedFirst(l, d, x);
    InsertedNoDup(l, d, x);
    if l[0] != d {
      FromTail(l, d, d);
      FromTail(InsertAfter(l, d, x), d, d);
      FromTail(InsertAfter(l, d, x), x, x);
      InsertedClose(l[1..], d, x, y);
    }
  }

  lemma InsertedFirst(l: seq<Node>, d: Node, x: Node)
    requires d in l
    ensures var r := InsertAfter(l, d, x);
            if l[0] == d then r == [d, x] + l[1..] && From(r, x) == (if d == x then r else r[1..]) && From(r, d) == r
            else r[0] == l[0] && r[1..] == InsertAfter(l[1..], d, x)
  {
  }

  lemma {:induction false} FromTotal(l: seq<Node>, x: Node, y: Node)
    requires x in l && y in l
    ensures x in From(l, y) || y in From(l, x)
  {
    if l[0] != x && l[0] != y { FromTotal(l[1..], x, y); }
  }

  // ---- chains that stay

  /** Nothing movable is above a node that is exposed at the top, whatever is above it. */
  lemma {:induction false} AboveSettled(s: Forest, n: Node, p: Node)
    requires Leveled(s) && n in s.nodes && Exposed(s, n, None) && Under(s, n, p)
    ensures p in s.nodes && Settled(s, p)
    decreases s.depth[n]
  {
    if s.root[n] != Some(p) { AboveSettled(s, s.root[n].value, p); }
  }

  /** What is above such a node, if it stays, was above it. */
  lemma {:induction false} UnderBack(s: Forest, r: Forest, p: Place, target: Place, n: Node, a: Node)
    requires Moves(s, r, p, target) && n in s.nodes && n !in Moved(s, r) && Exposed(s, n, None)
    ensures Under(r, n, a) <==> Under(s, n, a)
    decreases s.depth[n]
  {
    hide Linked, Without, Within;
    if s.root[n].Some? { UnderBack(s, r, p, target, s.root[n].value, a); }
  }

  lemma {:induction false} BranchBack(s: Forest, r: Forest, p: Place, target: Place, n: Node, q: Place)
    requires Moves(s, r, p, target) && n in s.nodes && n !in Moved(s, r) && Exposed(s, n, None)
    ensures Exposed(r, n, q) <==> Exposed(s, n, q)
    ensures Exposed(s, n, q) ==> Branch(r, n, q) == Branch(s, n, q) && Branch(s, n, q) !in Moved(s, r)
    decreases s.depth[n]
  {
    hide Linked, Without, Within;
    if s.root[n] != q && s.root[n].Some? { BranchBack(s, r, p, target, s.root[n].value, q); }
  }

  lemma {:induction false} SettledExposed(s: Forest, n: Node, x: Node, p: Place)
    requires Leveled(s) && n in s.nodes && x in s.nodes && Exposed(s, n, None) && Under(s, n, x) && s.root[x] == p
    ensures Exposed(s, n, p)
    decreases s.depth[n]
  {
    if s.root[n] != Some(x) { SettledExposed(s, s.root[n].value, x, p); }
  }

  /** A node above `n`, where `f` is above `n` too: above `f`, `f`, or below it. */
  lemma {:induction false} ChainSplit(s: Forest, n: Node, f: Node, x: Node)
    requires Leveled(s) && n in s.nodes && x in s.nodes && Under(s, n, f) && (n == x || Under(s, n, x))
    ensures f in s.nodes
    ensures f == x || Under(s, f, x) || !Outside(s, s.root[x], f)
    decreases s.depth[n]
  {
    UnderDeeper(s, n, f);
    if n != x && s.root[n] != Some(f) {
      if s.root[n] != Some(x) { ChainSplit(s, s.root[n].value, f, x); } else { ChainSplit(s, x, f, x); }
    }
  }

  // ---- the destination

  lemma {:induction false} PassedStays(s: Forest, r: Forest, p: Place, target: Place, f: Node, d: Node, q: Place)
    requires Moves(s, r, p, target) && f in s.nodes && d in s.nodes && f !in Moved(s, r) && Exposed(s, f, None)
    requires Settled(s, d)
    requires Passed(s, f, d, q)
    ensures Passed(r, f, d, q)
    decreases |s.nodes| - DepthIn(s, q)
  {
    hide Linked, Without, Within, Exposed, Branch, From;
    BranchBack(s, r, p, target, f, q);
    BranchBack(s, r, p, target, d, q);
    SameOrder(s, r, p, target, q);
    if Exposed(s, d, q) {
      var bf, bd := Branch(s, f, q), Branch(s, d, q);
      DepthBounded(s, bf);
      if bf == bd {
        if bd != d { PassedStays(s, r, p, target, f, d, Some(bf)); }
      } else {
        OrderStays(s.lists[q], r.lists[q], Moved(s, r), bd, bf);
      }
    }
  }

  /** A bookmark that has been put at the destination is not ahead either. */
  lemma {:induction false} PassedBeside(s: Forest, r: Forest, f: Node, d: Node, asChild: bool, e: Node, q: Place)
    requires Consistent(r) && f in r.nodes && d in r.nodes && e in r.nodes && Moved(s, r) == {e} && f != e && f != d
    requires Settled(r, d) && !Under(r, f, e) && (asChild || !Under(r, f, d) || !Exposed(r, d, q))
    requires r.root[e] == (if asChild then Some(d) else r.root[d]) && Close(s, r, d, asChild, r.root[e])
    requires Passed(r, f, d, q)
    ensures Passed(r, f, e, q)
    decreases |r.nodes| - DepthIn(r, q)
  {
    hide Linked, From, Under, Close, Passed, Settled, Exposed, Branch;
    PassedExposed(r, f, d, q);
    var bf := Branch(r, f, q);
    DepthBounded(r, bf);
    if Exposed(r, e, q) {
      if r.root[e] == q {
        RootExposed(r, e, q);
        if !asChild { RootExposed(r, d, q); }
        PutBefore(s, r, f, d, asChild, e, q);
      } else {
        DestBranch(r, e, d, asChild, q, r.root[e]);
        if bf == Branch(r, d, q) {
          if bf == d { NotInItself(r, f, d); }
          PassedBeside(s, r, f, d, asChild, e, Some(bf));
          BranchNot(r, f, e, q);
        }
      }
    }
    PassedWhen(r, f, e, q);
  }

  /** What has been put directly in the list is before the branch of a folder that is passed. */
  lemma PutBefore(s: Forest, r: Forest, f: Node, d: Node, asChild: bool, e: Node, q: Place)
    requires Consistent(r) && f in r.nodes && d in r.nodes && e in r.nodes && Moved(s, r) == {e} && f != e && f != d
    requires !Under(r, f, e) && (asChild || !Under(r, f, d)) && r.root[e] == q
    requires q == (if asChild then Some(d) else r.root[d]) && Close(s, r, d, asChild, q) && Passed(r, f, d, q)
    ensures Branch(r, f, q) != e && Branch(r, f, q) in From(r.lists[q], e)
  {
    hide Linked, From;
    var bf := Branch(r, f, q);
    ListsAre(r, q);
    if !asChild { assert Branch(r, d, q) == d && bf != d; }
    assert e in Moved(s, r) && bf !in Moved(s, r) && IsBehind(r.lists[q], d, asChild, bf);
  }

  lemma BranchNot(r: Forest, f: Node, e: Node, q: Place)
    requires Consistent(r) && f in r.nodes && Exposed(r, f, q) && f != e && !Under(r, f, e)
    ensures Branch(r, f, q) != e
  {
  }

  lemma PassedWhen(s: Forest, f: Node, d: Node, p: Place)
    requires Consistent(s) && f in s.nodes && d in s.nodes && Exposed(s, f, p) && p in s.lists
    requires Exposed(s, d, p) ==>
      var bf, bd := Branch(s, f, p), Branch(s, d, p);
      if bf == bd then bf != f && (bd == d || Passed(s, f, d, Some(bf))) else bf in From(s.lists[p], bd)
    ensures Passed(s, f, d, p)
  {
  }

  /** A destination is not in its own list. */
  lemma NotInItself(r: Forest, f: Node, d: Node)
    requires Consistent(r) && f in r.nodes && d in r.nodes && Exposed(r, f, Some(d))
    ensures Passed(r, f, d, Some(d))
  {
    if Exposed(r, d, Some(d)) { ExposedDepth(r, d, Some(d)); }
    LinkedPlace(r, d);
  }

  // ---- what stays

  /** The state of a marked node in a marked folder: the folder is still ahead and the destination is
      not; or the folder has been moved to where the traversal of the list does not come, and the list
      is not in it. */
  ghost predicate Staying(r: Forest, f: Node, n: Node, dest: Node, asChild: bool, p: Place, rest: seq<Node>)
    requires Consistent(r)
  {
    && n in r.movable
    && (KeepsAhead(r, f, n, dest, asChild, p, rest)
        || (&& f in r.nodes && n in r.nodes && Settled(r, f) && Under(r, n, f) && AwayFrom(r, f, p)
            && !(Exposed(r, f, p) && Branch(r, f, p) in rest)))
  }

  ghost predicate KeepsAhead(r: Forest, f: Node, n: Node, dest: Node, asChild: bool, p: Place, rest: seq<Node>)
    requires Consistent(r)
  {
    Keeps(r, f, n, dest, asChild, p) && Branch(r, f, p) in rest
  }

  /** The list is not in the folder, and nothing above it can be moved. */
  ghost predicate AwayFrom(r: Forest, f: Node, p: Place)
    requires Leveled(r)
  {
    p.Some? ==> p.value in r.nodes && Settled(r, p.value) && Outside(r, p, f)
  }

  lemma AwayStays(r: Forest, t: Forest, p: Place, target: Place, f: Node)
    requires Moves(r, t, p, target) && AwayFrom(r, f, p)
    ensures AwayFrom(t, f, p)
  {
    hide Linked, Without, Within, Exposed;
    if p.Some? {
      SettledStays(r, t, p, target, p.value);
      UnderBack(r, t, p, target, p.value, f);
    }
  }

  /** The list a folder is ahead in is not in the folder. */
  lemma AheadIsAway(r: Forest, f: Node, p: Place)
    requires Consistent(r) && f in r.nodes && Exposed(r, f, None) && Exposed(r, f, p)
    ensures AwayFrom(r, f, p)
  {
    hide Linked;
    if p.Some? {
      ExposedIsUnder(r, f, p.value);
      AboveSettled(r, f, p.value);
      UnderDeeper(r, f, p.value);
      if Under(r, p.value, f) { UnderDeeper(r, p.value, f); }
    }
  }

  /** A node in a folder is not moved by a turn that visits neither the folder nor what is above it. */
  lemma NotReached(r: Forest, t: Forest, p: Place, target: Place, x: Node, f: Node, n: Node)
    requires Moves(r, t, p, target) && x in r.nodes && r.root[x] == p && Visited(r, t, x)
    requires f in r.nodes && n in r.nodes && Under(r, n, f) && AwayFrom(r, f, p) && f != x && !Under(r, f, x)
    ensures Under(t, n, f) && (n in r.movable ==> n in t.movable)
  {
    hide Linked, Without, Within, Exposed;
    MovesParts(r, t, p, target);
    forall m | m in Moved(r, t) ensures m in r.nodes && !Under(r, m, f) {
      if Under(r, m, f) { ChainSplit(r, m, f, x); }
    }
    UnderKept(r, t, p, target, f, n);
  }

  /** Where nothing is moved out of a folder, what is below it stays below it. */
  lemma {:induction false} UnderKept(r: Forest, t: Forest, p: Place, target: Place, f: Node, n: Node)
    requires Moves(r, t, p, target) && n in r.nodes && Under(r, n, f)
    requires forall m :: m in Moved(r, t) ==> m in r.nodes && !Under(r, m, f)
    ensures Under(t, n, f) && n !in Moved(r, t)
    decreases r.depth[n]
  {
    hide Linked, Without, Within;
    if r.root[n] != Some(f) { UnderKept(r, t, p, target, f, r.root[n].value); }
  }

  /** Something ahead after a turn was ahead before it, and is not what was visited. */
  lemma AheadBack(r: Forest, t: Forest, p: Place, target: Place, x: Node, b: Node)
    requires Moves(r, t, p, target) && p in r.lists && x in r.lists[p] && x in r.nodes && r.root[x] == p
    requires Visited(r, t, x)
    requires p in t.lists && b in Rest(t.lists[p], Following(r.lists[p], x)) && b in r.nodes && b !in Moved(r, t)
    ensures b != x && b in From(r.lists[p], x)
  {
    hide Linked, Without, Within, From, Leveled, Exposed, NoDup;
    NextIs(r, t, p, target, x);
    var next := Following(r.lists[p], x).value;
    SameOrder(r, t, p, target, p);
    OrderStays(t.lists[p], r.lists[p], Moved(r, t), next, b);
    ListNoDup(r, p);
    FromFrom(r.lists[p], x, next, b);
    if b == x { FromBoth(r.lists[p], x, next); }
  }

  /** The node that is visited next. */
  lemma NextIs(r: Forest, t: Forest, p: Place, target: Place, x: Node)
    requires Moves(r, t, p, target) && p in r.lists && x in r.lists[p] && x in r.nodes && r.root[x] == p
    requires Visited(r, t, x)
    requires Following(r.lists[p], x).Some?
    ensures p in t.lists
    ensures var next := Following(r.lists[p], x).value;
            && next != x && next in From(r.lists[p], x) && next in t.lists[p] && next !in Moved(r, t)
  {
    hide Linked, Without, Within, Leveled, Exposed;
    MovesParts(r, t, p, target);
    ListsAre(r, p);
    ListNoDup(r, p);
    FromFollowing(r.lists[p], x, x);
    var next := Following(r.lists[p], x).value;
    FollowingAhead(r.lists[p], x);
    SiblingStays(r, t, p, target, x, next);
    ListsAre(t, p);
  }

  lemma {:induction false} FollowingAhead(l: seq<Node>, x: Node)
    requires Following(l, x).Some?
    ensures Following(l, x).value in From(l, x)
  {
    var f := From(l, x);
    assert f[1] in f;
  }

  /** A folder that has been moved away is still away after a turn. */
  lemma AwayStep(r: Forest, t: Forest, p: Place, target: Place, x: Node, f: Node, n: Node)
    requires Moves(r, t, p, target) && p in r.lists && p in t.lists && x in r.lists[p] && x in r.nodes
    requires r.root[x] == p && Visited(r, t, x)
    requires f in r.nodes && n in r.nodes && n in r.movable && Settled(r, f) && Under(r, n, f) && AwayFrom(r, f, p)
    requires !(Exposed(r, f, p) && Branch(r, f, p) in From(r.lists[p], x))
    ensures n in t.movable && Settled(t, f) && Under(t, n, f) && AwayFrom(t, f, p)
    ensures !(Exposed(t, f, p) && Branch(t, f, p) in Rest(t.lists[p], Following(r.lists[p], x)))
  {
    hide Linked, Without, Within, From, Visited, NoDup, Exposed, Branch;
    MovesParts(r, t, p, target);
    if f == x || Under(r, f, x) {
      if f != x { SettledExposed(r, f, x, p); } else { RootExposed(r, x, p); }
      BranchUnder(r, f, x, p);
      FromSelf(r.lists[p], x);
    }
    NotReached(r, t, p, target, x, f, n);
    AwayStays(r, t, p, target, f);
    SettledStays(r, t, p, target, f);
    BranchBack(r, t, p, target, f, p);
    if Exposed(t, f, p) && Branch(t, f, p) in Rest(t.lists[p], Following(r.lists[p], x)) {
      AheadBack(r, t, p, target, x, Branch(t, f, p));
    }
  }

  lemma RootExposed(s: Forest, x: Node, p: Place)
    requires Leveled(s) && x in s.nodes && s.root[x] == p
    ensures Exposed(s, x, p) && Branch(s, x, p) == x
  {
  }

  lemma FromSelf(l: seq<Node>, x: Node)
    requires x in l
    ensures x in From(l, x)
  {
  }

  /** A turn as the loop makes it, with `e` the destination after it. */
  ghost predicate IsTurn(r: Forest, t: Forest, p: Place, target: Place, x: Node, d: Node, asChild: bool, e: Node,
                         eAsChild: bool) {
    && Moves(r, t, p, target) && p in r.lists && p in t.lists && x in r.lists[p] && x in r.nodes && r.root[x] == p
    && Visited(r, t, x)
    && (x in r.movable ==> Moved(r, t) == {x}) && (x !in r.movable ==> Kept(r, t, d, asChild, Some(x)))
    && d in r.nodes && Settled(r, d) && d !in Moved(r, t) && target == (if asChild then Some(d) else r.root[d])
    && Close(r, t, d, asChild, target) && e in t.nodes
    && (if x in r.movable then e == x && e != d && !eAsChild else e == d && eAsChild == asChild)
  }

  lemma StillKept(r: Forest, t: Forest, p: Place, target: Place, x: Node, d: Node, asChild: bool, e: Node,
                  eAsChild: bool, f: Node, n: Node)
    requires IsTurn(r, t, p, target, x, d, asChild, e, eAsChild)
    requires Keeps(r, f, n, d, asChild, p) && Branch(r, f, p) in From(r.lists[p], x) && f in t.movable
    ensures n in t.movable && Keeps(t, f, n, e, eAsChild, p)
    ensures Branch(t, f, p) in Rest(t.lists[p], Following(r.lists[p], x))
  {
    hide Linked, Without, Within, From, NoDup, Exposed, Branch, Kept, Close;
    MovesParts(r, t, p, target);
    NoMoves(r, p, target);
    PassedExposed(r, f, d, p);
    PendingNode(r, r, t, p, target, x, f);
    BranchStays(r, t, p, target, f, p);
    AheadIsAway(r, f, p);
    if f == x || Under(r, f, x) {
      BranchUnder(r, f, x, p);
      BranchIsLater(r, r, t, p, target, x, f);
    }
    NotReached(r, t, p, target, x, f, n);
    ExposedStays(r, t, p, target, f, None);
    SettledStays(r, t, p, target, d);
    PassedStays(r, t, p, target, f, d, p);
    UnderBack(r, t, p, target, f, d);
    if e != d {
      UnderBack(r, t, p, target, f, x);
      BranchBack(r, t, p, target, d, p);
      if !asChild && Under(r, f, d) && Exposed(r, d, p) { MovedInFront(r, d, p, x, f); }
      PassedBeside(r, t, f, d, asChild, x, p);
    } else {
      StillResting(r, t, p, target, f, d, asChild, p);
    }
  }

  /** A bookmark directly in the list before the branch of the destination makes the destination move
      on. */
  lemma MovedInFront(r: Forest, d: Node, p: Place, x: Node, f: Node)
    requires Consistent(r) && d in r.nodes && f in r.nodes && p in r.lists && x in r.lists[p] && x in r.movable
    requires Under(r, f, d) && Exposed(r, f, p) && Exposed(r, d, p) && Branch(r, f, p) in From(r.lists[p], x)
    ensures MovesOn(r, d, p, r.lists[p])
  {
    hide Linked, From, Exposed, Branch, Under;
    UnderExposed(r, f, d, p);
    assert Fronted(r, Branch(r, d, p), p, r.lists[p]);
    MovesOnWhen(r, d, p, r.lists[p]);
  }

  lemma StillResting(r: Forest, t: Forest, p: Place, target: Place, f: Node, d: Node, asChild: bool, q: Place)
    requires Moves(r, t, p, target) && f in r.nodes && d in r.nodes && Settled(r, d) && Resting(r, f, d, asChild, q)
    requires Under(t, f, d) ==> Under(r, f, d)
    ensures Resting(t, f, d, asChild, q)
  {
    hide Linked, Without, Within, Under, MovesOn, Settled;
    MovesParts(r, t, p, target);
    if q in t.lists && MovesOn(t, d, q, t.lists[q]) { MovesOnBack(r, t, p, target, d, q); }
  }

  /** A destination that moves on did so before other bookmarks were moved. */
  lemma {:induction false} MovesOnBack(r: Forest, t: Forest, p: Place, target: Place, d: Node, q: Place)
    requires Moves(r, t, p, target) && d in r.nodes && Settled(r, d) && q in t.lists && MovesOn(t, d, q, t.lists[q])
    ensures q in r.lists && MovesOn(r, d, q, r.lists[q])
    decreases |t.nodes| - DepthIn(t, q)
  {
    hide Linked, Without, Within, Exposed, Branch, From, Under;
    MovesParts(r, t, p, target);
    MovesOnExposed(t, d, q, t.lists[q]);
    BranchBack(r, t, p, target, d, q);
    SameOrder(r, t, p, target, q);
    var b := Branch(t, d, q);
    DepthBounded(t, b);
    if Fronted(t, b, q, t.lists[q]) {
      var y :| y in t.movable && y in t.lists[q] && b in From(t.lists[q], y);
      StaysInList(r, t, p, target, q, y);
      OrderStays(t.lists[q], r.lists[q], Moved(r, t), y, b);
      assert y in r.movable && y in r.lists[q];
    } else {
      MovesOnBack(r, t, p, target, d, Some(b));
    }
    MovesOnWhen(r, d, q, r.lists[q]);
  }

  lemma PassedExposed(s: Forest, f: Node, d: Node, p: Place)
    requires Consistent(s) && f in s.nodes && d in s.nodes && Passed(s, f, d, p)
    ensures Exposed(s, f, p) && p in s.lists
    ensures Exposed(s, d, p) ==>
      var bf, bd := Branch(s, f, p), Branch(s, d, p);
      if bf == bd then bf != f && (bd == d || Passed(s, f, d, Some(bf))) else bf in From(s.lists[p], bd)
  {
  }

  /** The call for a folder above `f` is one where the destination is not ahead of `f` either. */
  lemma PassedInside(r: Forest, f: Node, d: Node, p: Place, x: Node)
    requires Consistent(r) && f in r.nodes && d in r.nodes && x in r.nodes && r.root[x] == p && Passed(r, f, d, p)
    requires Branch(r, f, p) == x && f != x
    ensures Passed(r, f, d, Some(x))
  {
    hide Linked, From;
    PassedExposed(r, f, d, p);
    RootExposed(r, x, p);
    LinkedPlace(r, x);
    if Exposed(r, d, Some(x)) {
      ExposedThrough(r, d, x, p);
      ExposedDepth(r, d, Some(x));
    }
  }

  /** The same for moving on. */
  lemma RestingInside(r: Forest, f: Node, d: Node, asChild: bool, p: Place, x: Node)
    requires Consistent(r) && f in r.nodes && d in r.nodes && x in r.nodes && r.root[x] == p && x !in r.movable
    requires p in r.lists
    requires Resting(r, f, d, asChild, p)
    ensures Resting(r, f, d, asChild, Some(x))
  {
    hide Linked, From, Under, Exposed, Branch;
    LinkedPlace(r, x);
    if MovesOn(r, d, Some(x), r.lists[Some(x)]) { MovesOnAbove(r, d, x, p); }
  }

  /** What moves on inside of a folder moves on. */
  lemma MovesOnAbove(r: Forest, d: Node, x: Node, p: Place)
    requires Consistent(r) && d in r.nodes && x in r.nodes && r.root[x] == p && x !in r.movable && p in r.lists
    requires Some(x) in r.lists && MovesOn(r, d, Some(x), r.lists[Some(x)])
    ensures MovesOn(r, d, p, r.lists[p])
  {
    hide Linked, From, Under, Fronted;
    MovesOnExposed(r, d, Some(x), r.lists[Some(x)]);
    RootExposed(r, x, p);
    ExposedThrough(r, d, x, p);
    ExposedDepth(r, d, Some(x));
    MovesOnWhen(r, d, p, r.lists[p]);
  }

  lemma NotMovedInside(r: Forest, t: Forest, x: Node, d: Node, asChild: bool, f: Node, m: Node)
    requires Consistent(r) && f in r.nodes && d in r.nodes && f in r.movable
    requires m in r.movable && m in r.nodes && Under(r, m, f)
    requires f == x ==> Moved(r, t) == {x}
    requires f != x ==> Exposed(r, f, None) && Passed(r, f, d, Some(x)) && Resting(r, f, d, asChild, Some(x))
    requires f != x ==> Kept(r, t, d, asChild, Some(x))
    ensures m in t.movable
  {
    hide Linked, Leveled, Exposed, Passed, Resting, Under;
    if f == x {
      UnderDeeper(r, m, f);
      assert m !in Moved(r, t);
    } else {
      assert Keeps(r, f, m, d, asChild, Some(x));
    }
  }

  /** The folder is moved in this turn, and what is in it is not. */
  lemma MovedWith(r: Forest, t: Forest, p: Place, target: Place, x: Node, d: Node, asChild: bool, e: Node,
                  eAsChild: bool, f: Node, n: Node)
    requires IsTurn(r, t, p, target, x, d, asChild, e, eAsChild)
    requires Keeps(r, f, n, d, asChild, p) && f !in t.movable
    ensures n in t.movable && Under(t, n, f) && (f == x || Under(r, f, x)) && Branch(r, f, p) == x
  {
    hide Linked, Without, Within, From, NoDup, Exposed, Branch, Close, Passed, MovesOn, Resting, Kept;
    MovesParts(r, t, p, target);
    PassedExposed(r, f, d, p);
    assert f in Moved(r, t) && (f == x || Under(r, f, x));
    BranchUnder(r, f, x, p);
    if f != x {
      PassedInside(r, f, d, p, x);
      RestingInside(r, f, d, asChild, p, x);
    }
    forall m | m in r.movable && m in r.nodes && Under(r, m, f) ensures m in t.movable {
      NotMovedInside(r, t, x, d, asChild, f, m);
    }
    UnderKept(r, t, p, target, f, n);
  }

  /** What is put at the destination is not ahead, if the destination was not. */
  lemma PutBehind(r: Forest, t: Forest, p: Place, target: Place, x: Node, d: Node, asChild: bool, e: Node,
                  eAsChild: bool, f: Node)
    requires IsTurn(r, t, p, target, x, d, asChild, e, eAsChild) && f in Moved(r, t) && f in t.nodes
    requires f in r.nodes && f != d && Passed(r, f, d, p) && Branch(r, f, p) == x
    requires Exposed(t, f, p)
    ensures Branch(t, f, p) !in Rest(t.lists[p], Following(r.lists[p], x))
  {
    hide Linked, Without, Within, From, NoDup, Kept, Visited, Close;
    var b, rest := Branch(t, f, p), Rest(t.lists[p], Following(r.lists[p], x));
    if b in rest {
      MovesParts(r, t, p, target);
      PassedExposed(r, f, d, p);
      assert t.root[f] == target;
      if target == p {
        PutInList(r, t, p, target, x, d, asChild, e, eAsChild, f);
      } else {
        SettledStays(r, t, p, target, d);
        DestBranch(t, f, d, asChild, p, target);
        BranchBack(r, t, p, target, d, p);
        AheadBack(r, t, p, target, x, b);
        ListNoDup(r, p);
        FromBoth(r.lists[p], x, b);
      }
    }
  }

  /** Where something is put elsewhere than directly in the list, it is in the branch of the
      destination. */
  lemma DestBranch(t: Forest, f: Node, d: Node, asChild: bool, p: Place, target: Place)
    requires Consistent(t) && f in t.nodes && d in t.nodes && Settled(t, d) && Exposed(t, f, p) && target != p
    requires t.root[f] == target && target == (if asChild then Some(d) else t.root[d])
    ensures Exposed(t, d, p) && Branch(t, d, p) == Branch(t, f, p)
  {
    hide Linked;
  }

  lemma PutInList(r: Forest, t: Forest, p: Place, target: Place, x: Node, d: Node, asChild: bool, e: Node,
                  eAsChild: bool, f: Node)
    requires IsTurn(r, t, p, target, x, d, asChild, e, eAsChild) && f in Moved(r, t) && target == p
    requires f in r.nodes && Passed(r, f, d, p) && Branch(r, f, p) == x && f != d
    ensures f !in Rest(t.lists[p], Following(r.lists[p], x))
  {
    hide Linked, Without, Within, From, NoDup, Kept, Exposed, Branch, Visited, Settled;
    var next := Following(r.lists[p], x);
    if next.Some? && f in From(t.lists[p], next.value) {
      NextIs(r, t, p, target, x);
      NextBehind(r, t, p, target, x, d, asChild, e, eAsChild, f);
      ListNoDup(t, p);
      FromBoth(t.lists[p], next.value, f);
    }
  }

  lemma NextBehind(r: Forest, t: Forest, p: Place, target: Place, x: Node, d: Node, asChild: bool, e: Node,
                   eAsChild: bool, f: Node)
    requires IsTurn(r, t, p, target, x, d, asChild, e, eAsChild) && f in Moved(r, t) && target == p
    requires f in r.nodes && Passed(r, f, d, p) && Branch(r, f, p) == x && f != d
    requires Following(r.lists[p], x).Some?
    ensures Following(r.lists[p], x).value in From(t.lists[p], f)
  {
    hide Linked, Without, Within, From, NoDup, Kept, Visited, Settled;
    var next := Following(r.lists[p], x).value;
    NextIs(r, t, p, target, x);
    MovesParts(r, t, p, target);
    if !asChild {
      PassedExposed(r, f, d, p);
      RootExposed(r, d, p);
      ListNoDup(r, p);
      FromSelf(r.lists[p], x);
      FromFrom(r.lists[p], d, x, next);
      if next == d { FromBoth(r.lists[p], x, d); }
      SameOrder(r, t, p, target, p);
      OrderStays(r.lists[p], t.lists[p], Moved(r, t), d, next);
    }
    assert IsBehind(t.lists[p], d, asChild, next);
  }

  lemma NowAway(r: Forest, t: Forest, p: Place, target: Place, x: Node, d: Node, asChild: bool, e: Node,
                eAsChild: bool, f: Node, n: Node)
    requires IsTurn(r, t, p, target, x, d, asChild, e, eAsChild)
    requires Keeps(r, f, n, d, asChild, p) && f !in t.movable
    ensures n in t.movable && Settled(t, f) && Under(t, n, f) && AwayFrom(t, f, p)
    ensures !(Exposed(t, f, p) && Branch(t, f, p) in Rest(t.lists[p], Following(r.lists[p], x)))
  {
    hide Linked, Without, Within, From, NoDup, Exposed, Branch, Kept, MovesOn, Close, Visited, Passed;
    MovesParts(r, t, p, target);
    PassedExposed(r, f, d, p);
    MovedWith(r, t, p, target, x, d, asChild, e, eAsChild, f, n);
    AheadIsAway(r, f, p);
    AwayStays(r, t, p, target, f);
    assert f in Moved(r, t);
    SettledStays(r, t, p, target, d);
    PutSettled(t, f, d, asChild);
    if Exposed(t, f, p) { PutBehind(r, t, p, target, x, d, asChild, e, eAsChild, f); }
  }

  lemma PutSettled(t: Forest, f: Node, d: Node, asChild: bool)
    requires Leveled(t) && f in t.nodes && d in t.nodes && f !in t.movable && Settled(t, d)
    requires t.root[f] == (if asChild then Some(d) else t.root[d])
    ensures Settled(t, f)
  {
  }

  /** What a turn leaves of the state of a marked node in a marked folder. */
  lemma StayingStep(r: Forest, t: Forest, p: Place, target: Place, x: Node, d: Node, asChild: bool, e: Node,
                    eAsChild: bool, f: Node, n: Node)
    requires IsTurn(r, t, p, target, x, d, asChild, e, eAsChild) && Consistent(r) && Consistent(t)
    requires Staying(r, f, n, d, asChild, p, From(r.lists[p], x))
    ensures Staying(t, f, n, e, eAsChild, p, Rest(t.lists[p], Following(r.lists[p], x)))
  {
    hide Linked, Leveled, Without, Within, From, NoDup, Exposed, Branch, Kept, Close, Visited, Passed, Keeps, Settled,
         Moves, AwayFrom;
    if KeepsAhead(r, f, n, d, asChild, p, From(r.lists[p], x)) {
      KeepsNodes(r, t, f, n, d, asChild, p, target);
      if f in t.movable {
        StillKept(r, t, p, target, x, d, asChild, e, eAsChild, f, n);
      } else {
        NowAway(r, t, p, target, x, d, asChild, e, eAsChild, f, n);
      }
    } else {
      MovesParts(r, t, p, target);
      AwayStep(r, t, p, target, x, f, n);
    }
  }

  lemma KeepsNodes(r: Forest, t: Forest, f: Node, n: Node, d: Node, asChild: bool, p: Place, target: Place)
    requires Consistent(r) && Moves(r, t, p, target) && Keeps(r, f, n, d, asChild, p)
    ensures f in t.nodes && n in t.nodes
  {
    hide Linked, Without, Within, Exposed, Passed, Under;
  }

  /** The state of every marked node in a marked folder. */
  ghost predicate AllStaying(s: Forest, r: Forest, dest0: Node, asChild0: bool, dest: Node, asChild: bool, p: Place,
                             rest: seq<Node>)
    requires Consistent(s) && Consistent(r)
  {
    forall f, n :: Keeps(s, f, n, dest0, asChild0, p) ==> Staying(r, f, n, dest, asChild, p, rest)
  }

  lemma StayingFirst(s: Forest, dest: Node, asChild: bool, p: Place)
    requires Consistent(s) && p in s.lists
    ensures AllStaying(s, s, dest, asChild, dest, asChild, p, s.lists[p])
  {
    hide Passed, Without, From, Leveled, Exposed;
    forall f, n | Keeps(s, f, n, dest, asChild, p) ensures Staying(s, f, n, dest, asChild, p, s.lists[p]) {
      PassedExposed(s, f, dest, p);
      assert Branch(s, f, p) in s.lists[p];
    }
  }

  lemma AllStayingStep(s: Forest, r: Forest, t: Forest, p: Place, target: Place, x: Node, dest0: Node, asChild0: bool,
                       d: Node, asChild: bool, e: Node, eAsChild: bool)
    requires Consistent(s) && Consistent(r) && Consistent(t)
    requires IsTurn(r, t, p, target, x, d, asChild, e, eAsChild)
    requires AllStaying(s, r, dest0, asChild0, d, asChild, p, From(r.lists[p], x))
    ensures AllStaying(s, t, dest0, asChild0, e, eAsChild, p, Rest(t.lists[p], Following(r.lists[p], x)))
  {
    hide Linked, Leveled, From, Keeps, Staying, Moves, Visited, Kept, Close, Settled;
    forall f, n | Keeps(s, f, n, dest0, asChild0, p)
      ensures Staying(t, f, n, e, eAsChild, p, Rest(t.lists[p], Following(r.lists[p], x)))
    {
      StayingStep(r, t, p, target, x, d, asChild, e, eAsChild, f, n);
    }
  }

  lemma StayingDone(s: Forest, r: Forest, dest0: Node, asChild0: bool, dest: Node, asChild: bool, p: Place)
    requires Consistent(s) && Consistent(r) && AllStaying(s, r, dest0, asChild0, dest, asChild, p, [])
    ensures Kept(s, r, dest0, asChild0, p)
  {
    hide Keeps, Exposed, Branch, Leveled, Linked;
  }

  /** What is put at the destination after other bookmarks were is close behind them. */
  lemma CloseStep(s: Forest, r: Forest, t: Forest, p: Place, target: Place, dest0: Node, asChild0: bool, dest: Node,
                  asChild: bool)
    requires Moves(s, r, p, target) && Moves(r, t, p, target) && dest0 !in s.movable && target in s.lists
    requires Close(s, r, dest0, asChild0, target) && Close(r, t, dest, asChild, target)
    requires (dest == dest0 && asChild == asChild0) || (dest in Moved(s, r) && !asChild)
    ensures Close(s, t, dest0, asChild0, target)
  {
    hide Linked, Without, Within, From, Leveled, NoDup;
    MovesParts(s, r, p, target);
    MovesParts(r, t, p, target);
    SameOrder(r, t, p, target, target);
    var l, k := r.lists[target], t.lists[target];
    forall m, y | m in Moved(s, t) && y in k && y !in Moved(s, t) && IsBehind(k, dest0, asChild0, y)
      ensures y in From(k, m)
    {
      StaysInList(r, t, p, target, target, y);
      if !asChild0 { OrderStays(k, l, Moved(r, t), dest0, y); }
      assert IsBehind(l, dest0, asChild0, y);
      if m in Moved(s, r) {
        OrderStays(l, k, Moved(r, t), m, y);
      } else if dest != dest0 || asChild != asChild0 {
        assert y in From(l, dest);
        OrderStays(l, k, Moved(r, t), dest, y);
        assert IsBehind(k, dest, asChild, y);
      }
    }
  }

  lemma StaysInList(r: Forest, t: Forest, p: Place, target: Place, q: Place, y: Node)
    requires Moves(r, t, p, target) && q in r.lists && q in t.lists && y in t.lists[q] && y !in Moved(r, t)
    ensures y in r.lists[q]
  {
    hide Without, Within, Leveled;
    ListsAre(t, q);
    ListsAre(r, q);
  }

  lemma NothingClose(s: Forest, dest: Node, asChild: bool, target: Place)
    requires target in s.lists
    ensures Close(s, s, dest, asChild, target)
  {
  }

  lemma PlacedClose(s: Forest, x: Node, dest: Node, asChild: bool, r: Forest)
    requires CanMove(s, x, dest, asChild) && r == Placed(s, x, dest, asChild).(depth := r.depth)
    ensures Close(s, r, dest, asChild, Target(s, dest, asChild)) && Moved(s, r) == {x}
  {
    hide Linked, Leveled, Without, From, Exposed, Under, InsertAfter, NoDup;
    RootsInside(s);
    var target := Target(s, dest, asChild);
    TargetPlace(s, x, dest, asChild);
    LinkedPlace(s, x);
    var cut := s.lists[s.root[x] := Without(s.lists[s.root[x]], {x})];
    CutList(s, x, target);
    if !asChild {
      TargetStays(s.lists, s.root[x], target, x, dest);
      forall y |
        y in InsertAfter(cut[target], dest, x) && y != x && IsBehind(InsertAfter(cut[target], dest, x), dest, false, y)
        ensures y in From(InsertAfter(cut[target], dest, x), x)
      {
        InsertedClose(cut[target], dest, x, y);
      }
    } else {
      FirstAll(x, cut[target]);
    }
  }

  lemma CutList(s: Forest, x: Node, p: Place)
    requires Linked(s) && x in s.nodes && s.root[x] in s.lists && p in s.lists
    ensures var l := s.lists[s.root[x] := Without(s.lists[s.root[x]], {x})][p]; NoDup(l) && x !in l
  {
    WithoutNoDup(s.lists[s.root[x]], {x});
  }

  lemma FirstAll(x: Node, l: seq<Node>)
    ensures From([x] + l, x) == [x] + l
  {
  }

  // ---- what it comes to

  /** Everything below the folder is where it was. */
  ghost predicate Whole(s: Forest, r: Forest, f: Node)
    requires Leveled(s) && s.nodes <= r.root.Keys
  {
    forall m :: m in s.nodes && Under(s, m, f) ==> r.root[m] == s.root[m]
  }

  /** A marked bookmark stands directly in a list on the way from the top to `d`, before the branch of
      `d`. */
  ghost predicate InFront(s: Forest, d: Node)
    requires Consistent(s) && d in s.nodes
  {
    exists y :: y in s.movable && Exposed(s, d, s.root[y]) && s.root[y] in s.lists
                && Branch(s, d, s.root[y]) in From(s.lists[s.root[y]], y)
  }

  /** A marked folder with nothing marked above it is moved as a whole exactly if nothing in it is
      marked; or the selected bookmark does not come after it, and bookmarks are not put behind a
      folder around it that another marked bookmark comes before. */
  lemma MovedWhole(s: Forest, r: Forest, dest: Node, asChild: bool, f: Node)
    requires Consistent(s) && dest in s.nodes && Settled(s, dest) && Moves(s, r, None, Target(s, dest, asChild))
    requires AllMoved(s, r, None) && Emptied(s, r, dest, asChild, None) && Kept(s, r, dest, asChild, None)
    requires f in s.movable && f in s.nodes && Exposed(s, f, None)
    ensures r.root[f] == Target(s, dest, asChild)
    ensures Whole(s, r, f) <==>
      (exists n :: n in s.movable && n in s.nodes && Under(s, n, f)) ==>
        !Later(s, f, dest, None) && !(!asChild && Under(s, f, dest) && InFront(s, dest))
  {
    hide Linked, Leveled, Without, Within, From, Exposed, Branch, Later, Passed, Under, Settled, InFront, MovesOn,
         Emptied, Kept;
    RootsInside(s);
    MovesParts(s, r, None, Target(s, dest, asChild));
    assert f in Moved(s, r);
    TopListed(s);
    MovesOnIsInFront(s, dest);
    if exists n :: n in s.movable && n in s.nodes && Under(s, n, f) {
      var n :| n in s.movable && n in s.nodes && Under(s, n, f);
      if ComesAgain(s, f, dest, asChild, None, s.lists[None]) {
        ComesApart(s, r, dest, asChild, f, n);
      } else {
        StaysWhole(s, r, dest, asChild, f);
      }
    } else {
      NoneInside(s, r, Target(s, dest, asChild), f);
    }
  }

  /** A marked node below a folder is topmost there, or below one that is. */
  lemma {:induction false} TopmostBelow(s: Forest, f: Node, n: Node) returns (m: Node)
    requires Leveled(s) && s.movable <= s.nodes && n in s.movable && Under(s, n, f)
    ensures m in s.movable && m in s.nodes && Exposed(s, m, Some(f))
    decreases s.depth[n]
  {
    if Exposed(s, n, Some(f)) {
      m := n;
    } else {
      m := MovableAbove(s, f, n);
      UnderDeeper(s, n, m);
      m := TopmostBelow(s, f, m);
    }
  }

  lemma {:induction false} MovableAbove(s: Forest, f: Node, n: Node) returns (m: Node)
    requires Leveled(s) && n in s.nodes && Under(s, n, f) && !Exposed(s, n, Some(f))
    ensures m in s.movable && m in s.nodes && Under(s, m, f) && Under(s, n, m)
    decreases s.depth[n]
  {
    m := s.root[n].value;
    if m !in s.movable {
      m := MovableAbove(s, f, m);
    }
  }

  lemma ComesApart(s: Forest, r: Forest, dest: Node, asChild: bool, f: Node, n: Node)
    requires Consistent(s) && dest in s.nodes && Settled(s, dest) && Moves(s, r, None, Target(s, dest, asChild))
    requires AllMoved(s, r, None) && Emptied(s, r, dest, asChild, None) && None in s.lists
    requires f in s.movable && f in s.nodes && ComesAgain(s, f, dest, asChild, None, s.lists[None])
    requires n in s.movable && n in s.nodes && Under(s, n, f)
    ensures s.nodes <= r.root.Keys && !Whole(s, r, f)
  {
    hide Linked, Without, Within, From, Exposed, Branch, Later, MovesOn, Emptied, ComesAgain, AllMoved;
    RootsInside(s);
    var target := Target(s, dest, asChild);
    var m := TopmostBelow(s, f, n);
    MarkedInsideComesOut(s, r, target, dest, asChild, f, m);
    SettledAbove(s, dest, f);
    if s.root[m] == target { RootBelow(s, m, f); }
  }

  /** The root of a node below a folder is the folder or below it. */
  lemma RootBelow(s: Forest, m: Node, f: Node)
    requires Leveled(s) && m in s.nodes && Under(s, m, f)
    ensures s.root[m].Some? && s.root[m].value in s.nodes && (s.root[m].value == f || Under(s, s.root[m].value, f))
  {
  }

  lemma StaysWhole(s: Forest, r: Forest, dest: Node, asChild: bool, f: Node)
    requires Consistent(s) && dest in s.nodes && Settled(s, dest) && Moves(s, r, None, Target(s, dest, asChild))
    requires Kept(s, r, dest, asChild, None) && None in s.lists
    requires f in s.movable && f in s.nodes && Exposed(s, f, None)
    requires !ComesAgain(s, f, dest, asChild, None, s.lists[None])
    ensures s.nodes <= r.root.Keys && Whole(s, r, f)
  {
    hide Linked, Without, Within, From, Exposed, Branch, Later, Passed, Under, MovesOn, Settled, Leveled;
    RootsInside(s);
    MovesParts(s, r, None, Target(s, dest, asChild));
    RootsInside(r);
    NotLater(s, f, dest, None);
    forall m | m in s.nodes && Under(s, m, f) ensures r.root[m] == s.root[m] {
      if m in s.movable { assert Keeps(s, f, m, dest, asChild, None); }
    }
  }

  lemma NoneInside(s: Forest, r: Forest, target: Place, f: Node)
    requires Moves(s, r, None, target) && forall n :: n in s.movable && n in s.nodes ==> !Under(s, n, f)
    ensures s.nodes <= r.root.Keys && Whole(s, r, f)
  {
    hide Without, Within, Under;
  }

  lemma MovesOnIsInFront(s: Forest, d: Node)
    requires Consistent(s) && d in s.nodes && Settled(s, d) && None in s.lists
    ensures MovesOn(s, d, None, s.lists[None]) <==> InFront(s, d)
  {
    hide Linked, From, Under, MovesOn, Exposed, Branch;
    RootsInside(s);
    if MovesOn(s, d, None, s.lists[None]) { FoundInFront(s, d, None); }
    if InFront(s, d) {
      var y :| y in s.movable && Exposed(s, d, s.root[y]) && s.root[y] in s.lists
               && Branch(s, d, s.root[y]) in From(s.lists[s.root[y]], y);
      assert Fronted(s, Branch(s, d, s.root[y]), s.root[y], s.lists[s.root[y]]);
      MovesOnWhen(s, d, s.root[y], s.lists[s.root[y]]);
      MovesOnUp(s, d, s.root[y]);
    }
  }

  lemma {:induction false} FoundInFront(s: Forest, d: Node, q: Place)
    requires Consistent(s) && d in s.nodes && q in s.lists && MovesOn(s, d, q, s.lists[q])
    ensures InFront(s, d)
    decreases |s.nodes| - DepthIn(s, q)
  {
    hide Linked, From, Under, Exposed, Branch;
    MovesOnExposed(s, d, q, s.lists[q]);
    var b := Branch(s, d, q);
    DepthBounded(s, b);
    if Fronted(s, b, q, s.lists[q]) {
      var y :| y in s.movable && y in s.lists[q] && b in From(s.lists[q], y);
      ListsAre(s, q);
    } else {
      FoundInFront(s, d, Some(b));
    }
  }

  lemma {:induction false} MovesOnUp(s: Forest, d: Node, q: Place)
    requires Consistent(s) && d in s.nodes && Settled(s, d) && q in s.lists && MovesOn(s, d, q, s.lists[q])
    ensures None in s.lists && MovesOn(s, d, None, s.lists[None])
    decreases DepthIn(s, q)
  {
    hide Linked, From, MovesOn, Fronted, Branch;
    TopListed(s);
    if q.Some? {
      var c := q.value;
      MovesOnExposed(s, d, q, s.lists[q]);
      ExposedDepth(s, d, q);
      ExposedIsUnder(s, d, c);
      AboveSettled(s, d, c);
      LinkedPlace(s, c);
      MovesOnAbove(s, d, c, s.root[c]);
      MovesOnUp(s, d, s.root[c]);
    }
  }

  lemma TopListed(s: Forest)
    requires Linked(s)
    ensures None in s.lists
  {
  }

  /** A destination that is not later is not ahead. */
  lemma {:induction false} NotLater(s: Forest, f: Node, d: Node, p: Place)
    requires Consistent(s) && f in s.nodes && d in s.nodes && f in s.movable && Settled(s, d)
    requires Exposed(s, f, p) && p in s.lists && !Later(s, f, d, p)
    ensures Passed(s, f, d, p)
    decreases |s.nodes| - DepthIn(s, p)
  {
    hide Linked, From;
    if Exposed(s, d, p) {
      var bf, bd := Branch(s, f, p), Branch(s, d, p);
      DepthBounded(s, bf);
      LinkedPlace(s, bf);
      if bf == bd {
        SettledAbove(s, d, f);
        if bd != d { NotLater(s, f, d, Some(bf)); }
      } else {
        ListsAre(s, p);
        FromTotal(s.lists[p], bf, bd);
      }
    }
  }
}
