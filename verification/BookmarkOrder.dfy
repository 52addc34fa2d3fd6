/** Which marked bookmarks inside of a marked folder are moved out of it: moving the folder behind the
    place where the traversal is makes it come to the folder again. */
module BookmarkOrder {
  import opened Basics
  import opened Bookmarks
  import opened BookmarkSteps

  // ---- order

  /** Going through the list at `p` and the folders in it, `d` comes after `f` and everything below
      `f`.  Nothing movable is above either of them. */
  ghost predicate Later(s: Forest, f: Node, d: Node, p: Place)
    requires Consistent(s) && f in s.nodes && d in s.nodes
    decreases |s.nodes| - DepthIn(s, p)
  {
    && Exposed(s, f, p) && Exposed(s, d, p) && p in s.lists
    && var bf, bd := Branch(s, f, p), Branch(s, d, p);
       DepthBounded(s, bf);
       if bf == bd then bf != f && bd != d && Later(s, f, d, Some(bf)) else bd in From(s.lists[p], bf)
  }

  /** Going down from the list at `p` to `d`, something movable stands directly in a list before the
      branch of `d`: when it is moved, it becomes the destination before `d` is reached.  Of the first
      list only `rest` counts. */
  ghost predicate MovesOn(s: Forest, d: Node, p: Place, rest: seq<Node>)
    requires Consistent(s) && d in s.nodes
    decreases |s.nodes| - DepthIn(s, p)
  {
    && Exposed(s, d, p) && p in s.lists
    && var b := Branch(s, d, p);
       DepthBounded(s, b);
       Fronted(s, b, p, rest) || (b != d && Some(b) in s.lists && MovesOn(s, d, Some(b), s.lists[Some(b)]))
  }

  ghost predicate Fronted(s: Forest, b: Node, p: Place, rest: seq<Node>)
    requires p in s.lists
  {
    exists y :: y in s.movable && y in rest && b in From(s.lists[p], y)
  }

  /** The traversal comes to `f` again after it has been moved: because the destination is later, or
      because `f` is below it and it moves on before. */
  ghost predicate ComesAgain(s: Forest, f: Node, d: Node, asChild: bool, p: Place, rest: seq<Node>)
    requires Consistent(s) && f in s.nodes && d in s.nodes
  {
    Later(s, f, d, p) || (!asChild && Under(s, f, d) && Exposed(s, f, p) && MovesOn(s, d, p, rest))
  }

  /** A marked node `n` in a marked folder `f`, with nothing marked between or above them, where the
      traversal comes again. */
  ghost predicate Leaves(s: Forest, f: Node, n: Node, dest: Node, asChild: bool, p: Place, rest: seq<Node>)
    requires Consistent(s)
  {
    && f in s.movable && n in s.movable && f in s.nodes && n in s.nodes && dest in s.nodes
    && Exposed(s, n, Some(f)) && ComesAgain(s, f, dest, asChild, p, rest)
  }

  ghost predicate Emptied(s: Forest, r: Forest, dest: Node, asChild: bool, p: Place)
    requires Consistent(s)
  {
    p in s.lists ==> forall f, n :: Leaves(s, f, n, dest, asChild, p, s.lists[p]) ==> n !in r.movable
  }

  /** What has been moved comes after the destination, unless it was put into it. */
  ghost predicate Behind(s: Forest, r: Forest, dest: Node, asChild: bool, target: Place) {
    !asChild ==> forall m :: m in Moved(s, r) ==> target in r.lists && m in From(r.lists[target], dest)
  }

  // ---- lists

  lemma {:induction false} FromFrom(l: seq<Node>, x: Node, y: Node, z: Node)
    requires NoDup(l) && y in From(l, x) && z in From(l, y)
    ensures z in From(l, x)
  {
    if l[0] == x {
    } else {
      FromTail(l, x, y);
      FromTail(l, y, y);
      FromFrom(l[1..], x, y, z);
    }
  }

  lemma FromTail(l: seq<Node>, x: Node, y: Node)
    requires NoDup(l) && l != [] && l[0] != x
    ensures NoDup(l[1..]) && l[0] !in l[1..] && From(l, x) == From(l[1..], x)
  {
    assert l == [l[0]] + l[1..];
  }

  /** Two nodes of a list do not come after each other. */
  lemma {:induction false} FromBoth(l: seq<Node>, x: Node, y: Node)
    requires NoDup(l) && y in From(l, x) && x in From(l, y)
    ensures x == y
  {
    if l[0] != x && l[0] != y {
      FromTail(l, x, y);
      FromTail(l, y, y);
      FromBoth(l[1..], x, y);
    }
  }

  lemma {:induction false} InsertedFrom(l: seq<Node>, d: Node, x: Node)
    requires d in l && x != d
    ensures x in From(InsertAfter(l, d, x), d)
  {
    if l[0] == d {
      assert InsertAfter(l, d, x)[1] == x;
    } else {
      InsertedFrom(l[1..], d, x);
      assert InsertAfter(l, d, x)[1..] == InsertAfter(l[1..], d, x);
    }
  }

  // ---- branches

  lemma {:induction false} ExposedDepth(s: Forest, n: Node, p: Place)
    requires Consistent(s) && n in s.nodes && Exposed(s, n, p)
    ensures DepthIn(s, p) <= s.depth[n]
    ensures p.Some? ==> p.value in s.nodes
    decreases s.depth[n]
  {
    if s.root[n] != p { ExposedDepth(s, s.root[n].value, p); }
  }

  /** What is exposed below something exposed is exposed, and in the same branch. */
  lemma {:induction false} ExposedThrough(s: Forest, n: Node, f: Node, p: Place)
    requires Consistent(s) && n in s.nodes && f in s.nodes && Exposed(s, n, Some(f)) && Exposed(s, f, p)
    requires f !in s.movable
    ensures Exposed(s, n, p) && Branch(s, n, p) == Branch(s, f, p)
    decreases s.depth[n]
  {
    ExposedDepth(s, n, Some(f));
    ExposedDepth(s, f, p);
    if s.root[n] != Some(f) { ExposedThrough(s, s.root[n].value, f, p); }
  }

  /** The branch of a node that is at or below a node of the list is that node. */
  lemma {:induction false} BranchUnder(s: Forest, n: Node, x: Node, p: Place)
    requires Consistent(s) && n in s.nodes && x in s.nodes && s.root[x] == p && Exposed(s, n, p)
    requires n == x || Under(s, n, x)
    ensures Branch(s, n, p) == x && (n != x ==> Exposed(s, n, Some(x)) && x !in s.movable)
    decreases s.depth[n]
  {
    if n != x {
      UnderDeeper(s, n, x);
      if s.root[n] != Some(x) { BranchUnder(s, s.root[n].value, x, p); }
    }
  }

  /** Branches of nodes that have not been moved stay. */
  lemma {:induction false} BranchStays(s: Forest, r: Forest, p: Place, target: Place, n: Node, q: Place)
    requires Moves(s, r, p, target) && n in s.nodes && n !in Moved(s, r) && Exposed(s, n, q)
    ensures Exposed(r, n, q) && Branch(r, n, q) == Branch(s, n, q)
    ensures Branch(s, n, q) !in Moved(s, r)
    decreases s.depth[n]
  {
    hide Linked, Without, Within;
    if s.root[n] != q { BranchStays(s, r, p, target, s.root[n].value, q); }
  }

  // ---- the destination

  /** A bookmark put into the destination, or behind it in its list, is later wherever the destination
      is. */
  lemma {:induction false} LaterBeside(s: Forest, f: Node, d: Node, e: Node, q: Place)
    requires Consistent(s) && f in s.nodes && d in s.nodes && e in s.nodes && Later(s, f, d, q)
    requires d !in s.movable && e != d
    requires s.root[e] == Some(d)
             || (s.root[e] == s.root[d] && s.root[d] in s.lists && e in From(s.lists[s.root[d]], d))
    ensures Later(s, f, e, q)
    decreases |s.nodes| - DepthIn(s, q)
  {
    hide Linked, Without;
    var bf, bd := Branch(s, f, q), Branch(s, d, q);
    ListNoDup(s, q);
    DepthBounded(s, bf);
    ExposedDepth(s, d, q);
    if s.root[d] == q && s.root[e] == q {
      FromFrom(s.lists[q], bf, d, e);
      if e == bf { FromBoth(s.lists[q], d, e); }
    } else {
      assert Exposed(s, e, q) && Branch(s, e, q) == bd;
      if bf == bd { LaterBeside(s, f, d, e, Some(bf)); }
    }
  }

  /** Moves do not change which of two nodes that stay is later. */
  lemma {:induction false} LaterStays(s: Forest, r: Forest, p: Place, target: Place, f: Node, d: Node, q: Place)
    requires Moves(s, r, p, target) && f in s.nodes && d in s.nodes && f !in Moved(s, r) && d !in Moved(s, r)
    requires Later(s, f, d, q)
    ensures Later(r, f, d, q)
    decreases |s.nodes| - DepthIn(s, q)
  {
    hide Linked, Without, Within, Exposed, Branch, From;
    BranchStays(s, r, p, target, f, q);
    BranchStays(s, r, p, target, d, q);
    var bf, bd := Branch(s, f, q), Branch(s, d, q);
    DepthBounded(s, bf);
    SameOrder(s, r, p, target, q);
    if bf == bd {
      LaterStays(s, r, p, target, f, d, Some(bf));
    } else {
      OrderStays(s.lists[q], r.lists[q], Moved(s, r), bf, bd);
    }
  }

  /** The destination after a turn: as before, or the bookmark that was moved. */
  ghost predicate NextDest(s: Forest, r: Forest, dest: Node, next: Node, target: Place)
    requires Leveled(r)
  {
    && dest in r.nodes && next in r.nodes && dest !in Moved(s, r)
    && Settled(r, dest) && (target == Some(dest) || target == r.root[dest])
    && (next == dest || (next in Moved(s, r) && r.root[next] == target))
  }

  // ---- destinations with the folder below them

  lemma {:induction false} UnderExposed(s: Forest, f: Node, d: Node, p: Place)
    requires Consistent(s) && f in s.nodes && d in s.nodes && Under(s, f, d) && Exposed(s, f, p) && Exposed(s, d, p)
    ensures d !in s.movable && Exposed(s, f, Some(d)) && Branch(s, f, p) == Branch(s, d, p)
    decreases s.depth[f]
  {
    ExposedDepth(s, d, p);
    UnderDeeper(s, f, d);
    if s.root[f] == Some(d) {
      assert p != Some(d);
    } else {
      UnderDeeper(s, s.root[f].value, d);
      UnderExposed(s, s.root[f].value, d, p);
    }
  }

  /** What is put behind the destination is later than what is below the destination. */
  lemma {:induction false} LaterBehind(s: Forest, f: Node, d: Node, e: Node, q: Place)
    requires Consistent(s) && f in s.nodes && d in s.nodes && e in s.nodes && e != d && q in s.lists
    requires Under(s, f, d) && Exposed(s, f, q) && Exposed(s, d, q)
    requires s.root[e] == s.root[d] && s.root[d] in s.lists && e in From(s.lists[s.root[d]], d)
    ensures Later(s, f, e, q)
    decreases |s.nodes| - DepthIn(s, q)
  {
    hide Linked, From;
    UnderExposed(s, f, d, q);
    UnderDeeper(s, f, d);
    ExposedDepth(s, d, q);
    var bd := Branch(s, d, q);
    DepthBounded(s, bd);
    if s.root[d] == q {
      assert bd == d && Branch(s, e, q) == e;
    } else {
      LinkedPlace(s, bd);
      assert Branch(s, e, q) == bd && bd != d;
      BelowBranch(s, d, q);
      BelowBranch(s, f, q);
      LaterBehind(s, f, d, e, Some(bd));
    }
  }

  /** A node is its branch, or exposed below it. */
  lemma BelowBranch(s: Forest, n: Node, p: Place)
    requires Leveled(s) && n in s.nodes && Exposed(s, n, p)
    ensures Branch(s, n, p) == n || Exposed(s, n, Some(Branch(s, n, p)))
    ensures s.depth[Branch(s, n, p)] <= s.depth[n]
  {
    var b := Branch(s, n, p);
    if b != n { UnderDeeper(s, n, b); }
  }

  /** A destination that moves on within a folder still does so after moves outside of the folder. */
  lemma {:induction false} MovesOnStays(r: Forest, t: Forest, p: Place, target: Place, d: Node, c: Node)
    requires Moves(r, t, p, target) && d in r.nodes && d !in Moved(r, t) && c in r.nodes
    requires forall m :: m in Moved(r, t) ==> m in r.nodes && !Under(r, m, c)
    requires Some(c) in r.lists && MovesOn(r, d, Some(c), r.lists[Some(c)])
    ensures Some(c) in t.lists && MovesOn(t, d, Some(c), t.lists[Some(c)])
    decreases |r.nodes| - DepthIn(r, Some(c))
  {
    hide Linked, Without, Within, Exposed, Branch, From, Under;
    MovesParts(r, t, p, target);
    var q := Some(c);
    BranchStays(r, t, p, target, d, q);
    SameOrder(r, t, p, target, q);
    var b := Branch(r, d, q);
    DepthBounded(r, b);
    if Fronted(r, b, q, r.lists[q]) {
      var y :| y in r.movable && y in r.lists[q] && b in From(r.lists[q], y);
      ListsAre(r, q);
      ChildUnder(r, y, c);
      assert y !in Moved(r, t) && y in t.movable;
      ListsAre(t, q);
      OrderStays(r.lists[q], t.lists[q], Moved(r, t), y, b);
    } else {
      forall m | m in Moved(r, t) ensures !Under(r, m, b) {
        ChildUnder(r, b, c);
        if Under(r, m, b) { UnderTrans(r, m, b, c); }
      }
      MovesOnStays(r, t, p, target, d, b);
    }
  }

  lemma ChildUnder(s: Forest, n: Node, c: Node)
    requires Leveled(s) && n in s.nodes && s.root[n] == Some(c)
    ensures Under(s, n, c)
  {
  }

  /** A node is at or below one node of a list only. */
  lemma {:induction false} OneBranch(s: Forest, n: Node, a: Node, b: Node)
    requires Leveled(s) && n in s.nodes && a in s.nodes && b in s.nodes && s.root[a] == s.root[b]
    requires (n == a || Under(s, n, a)) && (n == b || Under(s, n, b))
    ensures a == b
    decreases s.depth[n]
  {
    if n != a { UnderDeeper(s, n, a); }
    if n != b { UnderDeeper(s, n, b); }
    if n != a && n != b { OneBranch(s, s.root[n].value, a, b); }
  }

  /** The promise for a marked node in a marked folder, with the list still to be visited from `rest`
      on: it has been moved; or the folder is still ahead and will be come to again; or nothing movable
      is left above the node, and it is still ahead. */
  ghost predicate Promised(r: Forest, f: Node, n: Node, dest: Node, asChild: bool, p: Place, rest: seq<Node>)
    requires Consistent(r)
  {
    || n !in r.movable
    || LeavesAhead(r, f, n, dest, asChild, p, rest)
    || (n in r.nodes && Exposed(r, n, p) && Branch(r, n, p) in rest)
  }

  ghost predicate LeavesAhead(r: Forest, f: Node, n: Node, dest: Node, asChild: bool, p: Place, rest: seq<Node>)
    requires Consistent(r)
  {
    Leaves(r, f, n, dest, asChild, p, rest) && Exposed(r, f, p) && Branch(r, f, p) in rest
  }

  /** A node of the list that is ahead and stays is ahead of the next one. */
  lemma StillAhead(r: Forest, t: Forest, p: Place, target: Place, x: Node, b: Node)
    requires Moves(r, t, p, target) && p in r.lists && x in r.nodes && r.root[x] == p && Visited(r, t, x)
    requires b in From(r.lists[p], x) && b != x && b in r.nodes && r.root[b] == p
    ensures p in t.lists && b in Rest(t.lists[p], Following(r.lists[p], x))
  {
    hide Linked, Without, Within, From, Leveled, Exposed;
    ListsAre(r, p);
    ListNoDup(r, p);
    FromFollowing(r.lists[p], x, b);
    var next := Following(r.lists[p], x).value;
    SiblingStays(r, t, p, target, x, b);
    SiblingStays(r, t, p, target, x, next);
    SameOrder(r, t, p, target, p);
    OrderStays(r.lists[p], t.lists[p], Moved(r, t), next, b);
  }

  /** The folder has been moved in this turn, to a destination that is ahead: so is what is in it. */
  lemma MovedAhead(r: Forest, t: Forest, p: Place, target: Place, x: Node, dest: Node, asChild: bool, f: Node, n: Node)
    requires Moves(r, t, p, target) && p in r.lists && x in r.nodes && r.root[x] == p && Visited(r, t, x)
    requires dest in r.nodes && dest !in Moved(r, t) && Settled(t, dest)
    requires target == (if asChild then Some(dest) else r.root[dest]) && Behind(r, t, dest, asChild, target)
    requires f in Moved(r, t) && n in t.movable && n in r.nodes && Exposed(r, n, Some(f))
    requires Exposed(r, dest, p) && Branch(r, dest, p) != x && Branch(r, dest, p) in From(r.lists[p], x)
    ensures Exposed(t, n, p) && p in t.lists && Branch(t, n, p) in Rest(t.lists[p], Following(r.lists[p], x))
  {
    hide Linked, Without, Within, From, Visited;
    MovesParts(r, t, p, target);
    var bd := Branch(r, dest, p);
    StillAhead(r, t, p, target, x, bd);
    BranchStays(r, t, p, target, dest, p);
    assert n !in Moved(r, t) by { assert n in t.movable; }
    ExposedStays(r, t, p, target, n, Some(f));
    assert t.root[f] == target && f !in t.movable && f in t.nodes;
    assert t.root[dest] == r.root[dest];
    ExposedDepth(t, dest, p);
    if !asChild && target == p {
      assert Branch(t, f, p) == f && bd == dest;
      ListNoDup(t, p);
      var next := Following(r.lists[p], x).value;
      FromFrom(t.lists[p], next, dest, f);
    } else {
      assert Exposed(t, f, p) && Branch(t, f, p) == bd;
    }
    ExposedThrough(t, n, f, p);
  }

  /** A turn as the loop makes it, with `next` the destination after it. */
  ghost predicate OrderTurn(r: Forest, t: Forest, p: Place, target: Place, x: Node, dest: Node, asChild: bool,
                            next: Node, nextAsChild: bool)
  {
    && Moves(r, t, p, target) && p in r.lists && p in t.lists && x in r.lists[p] && x in r.nodes && r.root[x] == p
    && Visited(r, t, x) && (x !in r.movable ==> Emptied(r, t, dest, asChild, Some(x)))
    && NextDest(r, t, dest, next, target) && Behind(r, t, dest, asChild, target)
    && dest in r.nodes && target == (if asChild then Some(dest) else r.root[dest])
    && (if x in r.movable then next == x && next != dest && !nextAsChild else next == dest && nextAsChild == asChild)
  }

  /** What a turn that visits `x` leaves of the promise. */
  lemma PromisedStep(r: Forest, t: Forest, p: Place, target: Place, x: Node, dest: Node, asChild: bool, next: Node,
                     nextAsChild: bool, f: Node, n: Node)
    requires OrderTurn(r, t, p, target, x, dest, asChild, next, nextAsChild)
    requires Promised(r, f, n, dest, asChild, p, From(r.lists[p], x))
    ensures Promised(t, f, n, next, nextAsChild, p, Rest(t.lists[p], Following(r.lists[p], x)))
  {
    hide Linked, Without, Within, From, Exposed, Branch, Visited, Settled, NoDup, Emptied, Behind, LeavesAhead;
    MovesParts(r, t, p, target);
    NoMoves(r, p, target);
    if n in t.movable {
      assert n in r.movable;
      if LeavesAhead(r, f, n, dest, asChild, p, From(r.lists[p], x)) {
        if f in t.movable {
          FolderAhead(r, t, p, target, x, dest, asChild, next, nextAsChild, f, n);
        } else {
          FolderMoved(r, t, p, target, x, dest, asChild, next, nextAsChild, f, n);
        }
      } else {
        PendingNode(r, r, t, p, target, x, n);
        BranchStays(r, t, p, target, n, p);
      }
    }
  }

  /** The folder is still ahead after the turn. */
  lemma FolderAhead(r: Forest, t: Forest, p: Place, target: Place, x: Node, dest: Node, asChild: bool, next: Node,
                    nextAsChild: bool, f: Node, n: Node)
    requires OrderTurn(r, t, p, target, x, dest, asChild, next, nextAsChild)
    requires LeavesAhead(r, f, n, dest, asChild, p, From(r.lists[p], x)) && f in t.movable && n in t.movable
    ensures LeavesAhead(t, f, n, next, nextAsChild, p, Rest(t.lists[p], Following(r.lists[p], x)))
  {
    hide Moves, Linked, Without, Within, From, Visited, NoDup, Emptied, Behind, Later, Under, Exposed, Branch,
         MovesOn, Settled;
    MovesParts(r, t, p, target);
    NoMoves(r, p, target);
    PendingNode(r, r, t, p, target, x, f);
    BranchStays(r, t, p, target, f, p);
    ExposedStays(r, t, p, target, n, Some(f));
    if Later(r, f, dest, p) {
      LaterStays(r, t, p, target, f, dest, p);
      if next != dest {
        PutBeside(r, t, p, target, dest, asChild, next);
        LaterBeside(t, f, dest, next, p);
      }
    } else {
      BelowAhead(r, t, p, target, x, dest, asChild, next, nextAsChild, f);
    }
  }

  /** The folder is below the destination, and still ahead. */
  lemma BelowAhead(r: Forest, t: Forest, p: Place, target: Place, x: Node, dest: Node, asChild: bool, next: Node,
                   nextAsChild: bool, f: Node)
    requires OrderTurn(r, t, p, target, x, dest, asChild, next, nextAsChild) && f in r.movable && f in t.movable
    requires !asChild && f in r.nodes && Under(r, f, dest) && Exposed(r, f, p)
    requires MovesOn(r, dest, p, From(r.lists[p], x))
    ensures ComesAgain(t, f, next, nextAsChild, p, Rest(t.lists[p], Following(r.lists[p], x)))
  {
    hide Moves, Linked, Without, Within, From, Visited, NoDup, Emptied, Behind, Later, Under, Exposed, Branch,
         MovesOn, Settled;
    MovesParts(r, t, p, target);
    NoMoves(r, p, target);
    MovesOnExposed(r, dest, p, From(r.lists[p], x));
    BranchStays(r, t, p, target, f, p);
    BranchStays(r, t, p, target, dest, p);
    UnderExposed(r, f, dest, p);
    UnderStays(r, t, p, target, f, dest, p);
    if next != dest {
      PutBeside(r, t, p, target, dest, false, next);
      LaterBehind(t, f, dest, next, p);
    } else {
      BranchIsLater(r, r, t, p, target, x, f);
      StillMovesOn(r, t, p, target, x, dest);
    }
  }

  /** What has been moved is in the destination, or comes after it in its list. */
  lemma PutBeside(r: Forest, t: Forest, p: Place, target: Place, dest: Node, asChild: bool, next: Node)
    requires Moves(r, t, p, target) && Behind(r, t, dest, asChild, target) && NextDest(r, t, dest, next, target)
    requires dest in r.nodes && target == (if asChild then Some(dest) else r.root[dest]) && next != dest
    ensures next in t.nodes && dest in t.nodes && dest !in t.movable && t.root[dest] in t.lists
    ensures if asChild then t.root[next] == Some(dest)
            else t.root[next] == t.root[dest] && next in From(t.lists[t.root[dest]], dest)
  {
    hide Without, Within, Leveled, From, Exposed;
    TargetIn(r, t, dest, p, target);
  }

  lemma MovesOnExposed(s: Forest, d: Node, p: Place, rest: seq<Node>)
    requires Consistent(s) && d in s.nodes && MovesOn(s, d, p, rest)
    ensures Exposed(s, d, p) && p in s.lists
    ensures var b := Branch(s, d, p);
      Fronted(s, b, p, rest) || (b != d && Some(b) in s.lists && MovesOn(s, d, Some(b), s.lists[Some(b)]))
  {
  }

  lemma TargetIn(r: Forest, t: Forest, dest: Node, p: Place, target: Place)
    requires Moves(r, t, p, target) && dest in r.nodes && dest !in Moved(r, t)
    ensures t.root[dest] == r.root[dest] && t.root[dest] in t.lists
  {
    hide Without, Within, Leveled;
    LinkedPlace(t, dest);
  }

  /** What is exposed below a node still is, if neither has been moved. */
  lemma UnderStays(r: Forest, t: Forest, p: Place, target: Place, f: Node, d: Node, q: Place)
    requires Moves(r, t, p, target) && f in r.nodes && d in r.nodes && f !in Moved(r, t) && Exposed(r, f, Some(d))
    ensures Under(t, f, d)
  {
    hide Linked, Without, Within;
    ExposedStays(r, t, p, target, f, Some(d));
    ExposedIsUnder(t, f, d);
  }

  lemma StillMovesOn(r: Forest, t: Forest, p: Place, target: Place, x: Node, d: Node)
    requires Moves(r, t, p, target) && p in r.lists && p in t.lists && x in r.lists[p] && x in r.nodes
    requires r.root[x] == p && Visited(r, t, x)
    requires d in r.nodes && d !in Moved(r, t) && MovesOn(r, d, p, From(r.lists[p], x)) && Branch(r, d, p) != x
    requires x !in r.movable
    ensures MovesOn(t, d, p, Rest(t.lists[p], Following(r.lists[p], x)))
  {
    hide Linked, Without, Within, Exposed, Branch, From, Under, Visited;
    MovesParts(r, t, p, target);
    MovesOnExposed(r, d, p, From(r.lists[p], x));
    BranchStays(r, t, p, target, d, p);
    var b, l := Branch(r, d, p), From(r.lists[p], x);
    ListsAre(r, p);
    if Fronted(r, b, p, l) {
      var y :| y in r.movable && y in l && b in From(r.lists[p], y);
      StillAhead(r, t, p, target, x, y);
      SiblingStays(r, t, p, target, x, y);
      SameOrder(r, t, p, target, p);
      OrderStays(r.lists[p], t.lists[p], Moved(r, t), y, b);
      assert y in t.movable;
      MovesOnWhen(t, d, p, Rest(t.lists[p], Following(r.lists[p], x)));
    } else {
      forall m | m in Moved(r, t) ensures m in r.nodes && !Under(r, m, b) { NotBelow(r, t, x, b, m); }
      MovesOnStays(r, t, p, target, d, b);
      MovesOnWhen(t, d, p, Rest(t.lists[p], Following(r.lists[p], x)));
    }
  }

  lemma NotBelow(r: Forest, t: Forest, x: Node, b: Node, m: Node)
    requires Leveled(r) && r.movable <= r.nodes && x in r.nodes && b in r.nodes && r.root[x] == r.root[b] && x != b
    requires Visited(r, t, x) && m in Moved(r, t)
    ensures m in r.nodes && !Under(r, m, b)
  {
    if Under(r, m, b) { OneBranch(r, m, x, b); }
  }

  lemma MovesOnWhen(s: Forest, d: Node, p: Place, rest: seq<Node>)
    requires Consistent(s) && d in s.nodes && Exposed(s, d, p) && p in s.lists
    requires var b := Branch(s, d, p);
      Fronted(s, b, p, rest) || (b != d && Some(b) in s.lists && MovesOn(s, d, Some(b), s.lists[Some(b)]))
    ensures MovesOn(s, d, p, rest)
  {
  }

  /** Folder and destination are below the same node: the call for that node has moved what is in the
      folder. */
  lemma BothBelow(r: Forest, t: Forest, p: Place, x: Node, dest: Node, asChild: bool, f: Node, n: Node)
    requires Consistent(r) && x in r.nodes && dest in r.nodes && r.root[x] == p && f != x
    requires Emptied(r, t, dest, asChild, Some(x)) && Leaves(r, f, n, dest, asChild, p, From(r.lists[p], x))
    requires Exposed(r, f, p) && Exposed(r, dest, p) && Branch(r, f, p) == x == Branch(r, dest, p)
    ensures n !in t.movable
  {
    hide Linked, Leveled, Exposed, Branch, From;
    LinkedPlace(r, x);
    var l := r.lists[Some(x)];
    if Later(r, f, dest, p) {
      assert Later(r, f, dest, Some(x));
    } else {
      MovesOnExposed(r, dest, p, From(r.lists[p], x));
      BelowBranch(r, f, p);
      BelowBranch(r, dest, p);
      NotFronted(r, x, p);
    }
    assert Leaves(r, f, n, dest, asChild, Some(x), l);
  }

  /** Nothing from a node on stands before it, but itself. */
  lemma NotFronted(r: Forest, x: Node, p: Place)
    requires Consistent(r) && p in r.lists && x in r.lists[p] && x !in r.movable
    ensures !Fronted(r, x, p, From(r.lists[p], x))
  {
    hide From, Leveled;
    ListNoDup(r, p);
    if Fronted(r, x, p, From(r.lists[p], x)) {
      var y :| y in r.movable && y in From(r.lists[p], x) && x in From(r.lists[p], y);
      FromBoth(r.lists[p], x, y);
    }
  }

  lemma FolderMoved(r: Forest, t: Forest, p: Place, target: Place, x: Node, dest: Node, asChild: bool, next: Node,
                    nextAsChild: bool, f: Node, n: Node)
    requires OrderTurn(r, t, p, target, x, dest, asChild, next, nextAsChild)
    requires LeavesAhead(r, f, n, dest, asChild, p, From(r.lists[p], x)) && f !in t.movable && n in t.movable
    ensures Exposed(t, n, p) && Branch(t, n, p) in Rest(t.lists[p], Following(r.lists[p], x))
  {
    hide Linked, Leveled, Without, Within, From, Settled, NoDup, Later, Exposed, Branch, Under, Emptied, Behind,
         MovesOn;
    MovesParts(r, t, p, target);
    assert f in Moved(r, t) && (f == x || Under(r, f, x));
    BranchUnder(r, f, x, p);
    if Later(r, f, dest, p) { LaterBranches(r, f, dest, p); } else { BelowDest(r, f, dest, p, From(r.lists[p], x)); }
    if Branch(r, dest, p) == x {
      BothBelow(r, t, p, x, dest, asChild, f, n);
    } else {
      MovedAhead(r, t, p, target, x, dest, asChild, f, n);
    }
  }

  lemma LaterBranches(s: Forest, f: Node, d: Node, p: Place)
    requires Consistent(s) && f in s.nodes && d in s.nodes && Later(s, f, d, p)
    ensures Exposed(s, f, p) && Exposed(s, d, p) && p in s.lists
    ensures var bf, bd := Branch(s, f, p), Branch(s, d, p);
            if bf == bd then bf != f && bd != d && bf !in s.movable else bd in From(s.lists[p], bf)
  {
  }

  lemma BelowDest(s: Forest, f: Node, d: Node, p: Place, rest: seq<Node>)
    requires Consistent(s) && f in s.nodes && d in s.nodes && Under(s, f, d) && Exposed(s, f, p)
    requires MovesOn(s, d, p, rest)
    ensures Exposed(s, d, p) && Branch(s, f, p) == Branch(s, d, p) && Branch(s, f, p) != f
    ensures Branch(s, f, p) !in s.movable
  {
    hide Linked, Exposed, Under;
    MovesOnExposed(s, d, p, rest);
    UnderExposed(s, f, d, p);
    UnderDeeper(s, f, d);
    BelowBranch(s, d, p);
  }

  /** The promise for every marked node in a marked folder. */
  ghost predicate AllPromised(s: Forest, r: Forest, dest0: Node, asChild0: bool, dest: Node, asChild: bool, p: Place,
                              rest: seq<Node>)
    requires Consistent(s) && Consistent(r) && p in s.lists
  {
    forall f, n :: Leaves(s, f, n, dest0, asChild0, p, s.lists[p]) ==> Promised(r, f, n, dest, asChild, p, rest)
  }

  lemma PromisedFirst(s: Forest, dest: Node, asChild: bool, p: Place)
    requires Consistent(s) && p in s.lists
    ensures AllPromised(s, s, dest, asChild, dest, asChild, p, s.lists[p])
  {
    hide Later, Without, From, Leveled, Exposed, MovesOn, Under;
    forall f, n | Leaves(s, f, n, dest, asChild, p, s.lists[p])
      ensures Promised(s, f, n, dest, asChild, p, s.lists[p])
    {
      if Later(s, f, dest, p) { LaterExposed(s, f, dest, p); }
      assert Branch(s, f, p) in s.lists[p];
    }
  }

  lemma LaterExposed(s: Forest, f: Node, d: Node, p: Place)
    requires Consistent(s) && f in s.nodes && d in s.nodes && Later(s, f, d, p)
    ensures Exposed(s, f, p) && Exposed(s, d, p)
  {
  }

  lemma AllPromisedStep(s: Forest, r: Forest, t: Forest, p: Place, target: Place, x: Node, dest0: Node,
                        asChild0: bool, dest: Node, asChild: bool, next: Node, nextAsChild: bool)
    requires Consistent(s) && p in s.lists && OrderTurn(r, t, p, target, x, dest, asChild, next, nextAsChild)
    requires AllPromised(s, r, dest0, asChild0, dest, asChild, p, From(r.lists[p], x))
    ensures AllPromised(s, t, dest0, asChild0, next, nextAsChild, p, Rest(t.lists[p], Following(r.lists[p], x)))
  {
    hide Without, From, Leveled, Linked, Visited, Promised, Leaves, Behind, NextDest, Emptied, Moves;
    MovesParts(r, t, p, target);
    forall f, n | Leaves(s, f, n, dest0, asChild0, p, s.lists[p])
      ensures Promised(t, f, n, next, nextAsChild, p, Rest(t.lists[p], Following(r.lists[p], x)))
    {
      PromisedStep(r, t, p, target, x, dest, asChild, next, nextAsChild, f, n);
    }
  }

  lemma PromisedDone(s: Forest, r: Forest, dest0: Node, asChild0: bool, dest: Node, asChild: bool, p: Place)
    requires Consistent(s) && Consistent(r) && p in s.lists && AllPromised(s, r, dest0, asChild0, dest, asChild, p, [])
    ensures Emptied(s, r, dest0, asChild0, p)
  {
    hide Leaves, Exposed, Branch, Leveled, Linked;
  }

  /** Moves behind what was moved behind the destination. */
  lemma BehindStep(s: Forest, r: Forest, t: Forest, p: Place, target: Place, dest0: Node, asChild0: bool, dest: Node,
                   asChild: bool)
    requires Moves(s, r, p, target) && Moves(r, t, p, target) && dest0 !in s.movable && target in s.lists
    requires Behind(s, r, dest0, asChild0, target) && Behind(r, t, dest, asChild, target)
    requires (dest == dest0 && asChild == asChild0) || (dest in Moved(s, r) && !asChild)
    ensures Behind(s, t, dest0, asChild0, target)
  {
    hide Linked, Without, Within, From, Leveled, NoDup;
    MovesParts(s, r, p, target);
    MovesParts(r, t, p, target);
    SameOrder(r, t, p, target, target);
    ListNoDup(t, target);
    if !asChild0 {
      forall m | m in Moved(s, t) ensures m in From(t.lists[target], dest0) {
        if m in Moved(s, r) {
          OrderStays(r.lists[target], t.lists[target], Moved(r, t), dest0, m);
        } else if dest != dest0 {
          OrderStays(r.lists[target], t.lists[target], Moved(r, t), dest0, dest);
          FromFrom(t.lists[target], dest0, dest, m);
        }
      }
    }
  }

  lemma NothingBehind(s: Forest, dest: Node, asChild: bool, target: Place)
    ensures Behind(s, s, dest, asChild, target)
  {
  }

  /** A bookmark that has been moved is behind the destination and becomes the next one. */
  lemma PlacedBehind(s: Forest, x: Node, dest: Node, asChild: bool, r: Forest)
    requires CanMove(s, x, dest, asChild) && Leveled(r)
    requires r == Placed(s, x, dest, asChild).(depth := r.depth) && Settled(r, dest)
    ensures var target := Target(s, dest, asChild);
            Behind(s, r, dest, asChild, target) && NextDest(s, r, dest, x, target)
  {
    hide Linked, Leveled, Without, From, Exposed, Under;
    RootsInside(s);
    var target := Target(s, dest, asChild);
    TargetPlace(s, x, dest, asChild);
    LinkedPlace(s, x);
    if !asChild {
      var cut := s.lists[s.root[x] := Without(s.lists[s.root[x]], {x})];
      assert dest in cut[target] by { TargetStays(s.lists, s.root[x], target, x, dest); }
      InsertedFrom(cut[target], dest, x);
    }
  }

  lemma TargetStays(lists: map<Place, seq<Node>>, from: Place, to: Place, x: Node, dest: Node)
    requires from in lists && to in lists && dest in lists[to] && dest != x
    ensures dest in lists[from := Without(lists[from], {x})][to]
  {
  }

  /** A turn that moved things below `x`. */
  lemma NextSame(s: Forest, r: Forest, p: Place, target: Place, dest: Node, asChild: bool)
    requires Moves(s, r, p, target) && dest in s.nodes && Settled(s, dest) && Settled(r, dest)
    requires target == Target(s, dest, asChild)
    ensures NextDest(s, r, dest, dest, target)
  {
    hide Linked, Leveled, Without, Within, Exposed;
  }

  // ---- what the promise comes to

  /** After all bookmarks have been gone through: a marked bookmark in a marked folder, with nothing
      marked between or above them, is no longer in that folder if the traversal came to it again; so
      the folder was not moved as a whole. */
  lemma MarkedInsideComesOut(s: Forest, r: Forest, target: Place, dest: Node, asChild: bool, f: Node, n: Node)
    requires Moves(s, r, None, target) && AllMoved(s, r, None) && Emptied(s, r, dest, asChild, None)
    requires None in s.lists && Leaves(s, f, n, dest, asChild, None, s.lists[None])
    ensures Under(s, n, f) && r.root[n] == target && r.root[f] == target && !Under(r, n, f)
  {
    hide Linked, Without, Later, From, MovesOn;
    if Later(s, f, dest, None) { LaterExposed(s, f, dest, None); }
    MovesParts(s, r, None, target);
    assert f in Moved(s, r) && n in Moved(s, r);
    ExposedIsUnder(s, n, f);
    if Under(r, n, f) { UnderDeeper(r, n, f); }
  }

  lemma {:induction false} ExposedIsUnder(s: Forest, n: Node, f: Node)
    requires Leveled(s) && n in s.nodes && Exposed(s, n, Some(f))
    ensures Under(s, n, f)
    decreases s.depth[n]
  {
    if s.root[n] != Some(f) { ExposedIsUnder(s, s.root[n].value, f); }
  }

  // ---- an example

  const BOOKMARK: Node := 1
  const FOLDER: Node := 2
  const INSIDE: Node := 3

  /** A marked folder in front of a bookmark, with a marked bookmark in it. */
  function Trio(): Forest {
    var lists := map[None := [FOLDER, BOOKMARK], Some(BOOKMARK) := [], Some(FOLDER) := [INSIDE], Some(INSIDE) := []];
    Forest({BOOKMARK, FOLDER, INSIDE}, {FOLDER}, map[BOOKMARK := None, FOLDER := None, INSIDE := Some(FOLDER)],
           lists, lists, map[BOOKMARK := 0, FOLDER := 0, INSIDE := 1], {FOLDER, INSIDE})
  }

  lemma TrioLinked()
    ensures Linked(Trio())
  {
    hide Linked, IsPlace;
    var s := Trio();
    forall p ensures p in s.lists <==> IsPlace(s, p) { TrioPlace(p); }
    forall p | p in s.lists
      ensures NoDup(s.lists[p]) && forall n :: n in s.lists[p] <==> n in s.nodes && s.root[n] == p
    {
      TrioPlace(p);
      assert s.lists[p] == [FOLDER, BOOKMARK] || s.lists[p] == [INSIDE] || s.lists[p] == [];
    }
    LinkedWhen(s, s);
  }

  lemma TrioPlace(p: Place)
    ensures p in Trio().lists <==> IsPlace(Trio(), p)
    ensures p in Trio().lists <==> p == None || p == Some(BOOKMARK) || p == Some(FOLDER) || p == Some(INSIDE)
  {
  }

  /** With that bookmark as the destination: the smallest case in which a folder is not moved as a
      whole. */
  lemma FolderInFront()
    ensures var s := Trio();
            && Consistent(s) && Settled(s, BOOKMARK)
            && Leaves(s, FOLDER, INSIDE, BOOKMARK, false, None, s.lists[None])
  {
    var s := Trio();
    TrioLinked();
    hide Linked;
    assert Consistent(s);
    assert Branch(s, FOLDER, None) == FOLDER && Branch(s, BOOKMARK, None) == BOOKMARK;
    assert s.lists[None] == [FOLDER, BOOKMARK] && From(s.lists[None], FOLDER) == [FOLDER, BOOKMARK];
  }

  const OUTER: Node := 4

  /** A marked bookmark in front of a folder, with a marked folder in it and a marked bookmark in
      that. */
  function Quartet(): Forest {
    var lists := map[None := [BOOKMARK, OUTER], Some(BOOKMARK) := [], Some(OUTER) := [FOLDER],
                     Some(FOLDER) := [INSIDE], Some(INSIDE) := []];
    Forest({BOOKMARK, OUTER, FOLDER, INSIDE}, {OUTER, FOLDER},
           map[BOOKMARK := None, OUTER := None, FOLDER := Some(OUTER), INSIDE := Some(FOLDER)], lists, lists,
           map[BOOKMARK := 0, OUTER := 0, FOLDER := 1, INSIDE := 2], {BOOKMARK, FOLDER, INSIDE})
  }

  lemma QuartetPlace(p: Place)
    ensures p in Quartet().lists <==> IsPlace(Quartet(), p)
    ensures p in Quartet().lists <==>
      p == None || p == Some(BOOKMARK) || p == Some(OUTER) || p == Some(FOLDER) || p == Some(INSIDE)
  {
  }

  lemma QuartetLinked()
    ensures Linked(Quartet())
  {
    hide Linked, IsPlace;
    var s := Quartet();
    forall p ensures p in s.lists <==> IsPlace(s, p) { QuartetPlace(p); }
    forall p | p in s.lists
      ensures NoDup(s.lists[p]) && forall n :: n in s.lists[p] <==> n in s.nodes && s.root[n] == p
    {
      QuartetPlace(p);
      assert s.lists[p] == [BOOKMARK, OUTER] || s.lists[p] == [FOLDER] || s.lists[p] == [INSIDE] || s.lists[p] == [];
    }
    LinkedWhen(s, s);
  }

  lemma QuartetShape()
    ensures var s := Quartet();
            && Consistent(s) && Settled(s, OUTER) && Exposed(s, OUTER, None) && Branch(s, OUTER, None) == OUTER
            && Exposed(s, FOLDER, None) && Branch(s, FOLDER, None) == OUTER && !Later(s, FOLDER, OUTER, None)
            && Under(s, FOLDER, OUTER) && Exposed(s, INSIDE, Some(FOLDER))
  {
    QuartetLinked();
    hide Linked, From;
  }

  lemma QuartetLeaves()
    ensures Consistent(Quartet()) && Leaves(Quartet(), FOLDER, INSIDE, OUTER, false, None, [BOOKMARK, OUTER])
  {
    QuartetShape();
    hide Linked, Leveled, Exposed, Branch, Under, Later;
    var s := Quartet();
    var l := s.lists[None];
    assert BOOKMARK in s.movable && BOOKMARK in l && OUTER in From(l, BOOKMARK);
    MovesOnWhen(s, OUTER, None, l);
  }

  /** Bookmarks are put behind the folder, which is not later than what is in it: the marked bookmark
      in front of it becomes the destination before the folder is reached, and the folder in it is
      come to again. */
  lemma FolderAround(r: Forest)
    requires Moves(Quartet(), r, None, None) && AllMoved(Quartet(), r, None)
    requires Emptied(Quartet(), r, OUTER, false, None)
    ensures var s := Quartet();
            && Consistent(s) && Settled(s, OUTER) && Target(s, OUTER, false) == None && !Later(s, FOLDER, OUTER, None)
            && Under(s, INSIDE, FOLDER) && r.root[FOLDER] == None && r.root[INSIDE] == None
  {
    QuartetShape();
    QuartetLeaves();
    hide Linked, Leveled, Moves, AllMoved, Emptied, Exposed, Branch, Under, Later, Leaves, Settled;
    MarkedInsideComesOut(Quartet(), r, None, OUTER, false, FOLDER, INSIDE);
  }
}
