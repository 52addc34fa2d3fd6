/** Moving bookmarks, changing the two forests step by step as ELinks does it
    (src/bookmarks/dialogs.c:450-605). */
module BookmarkManagers {
  import opened Basics
  import opened Bookmarks
  import opened BookmarkSteps
  import opened BookmarkOrder
  import opened BookmarkWhole
  import opened BookmarkRows
  import opened BookmarkCycles

  class BookmarkManager {
    const nodes: set<Node>
    const folders: set<Node>
    /** The bookmarks: their folders and the lists. */
    var root: map<Node, Place>
    var child: map<Place, seq<Node>>
    /** Their listbox items: the lists, the depths and the marks. */
    var boxChild: map<Place, seq<Node>>
    var depth: map<Node, nat>
    var marked: set<Node>
    /** move_cache_root_avoid. */
    var avoid: Option<Node>

    constructor (s: Forest)
      requires Consistent(s)
      ensures View() == s
    {
      nodes, folders, root, child, boxChild := s.nodes, s.folders, s.root, s.lists, s.boxes;
      depth, marked, avoid := s.depth, s.movable, None;
      new;
      assert marked - Avoided() == marked;
    }

    function Avoided(): set<Node>
      reads this`avoid
    {
      if avoid.Some? then {avoid.value} else {}
    }

    ghost function View(): Forest
      reads this
    {
      Forest(nodes, folders, root, child, boxChild, depth, marked - Avoided())
    }

    /** update_depths: sets the depths below `item` from its own.  The forest `s` is one that has the
        same lists below `item`. */
    method UpdateDepths(item: Node, ghost s: Forest)
      requires Consistent(s) && item in s.nodes && s.folders == folders && depth.Keys == s.nodes
      requires boxChild.Keys == s.lists.Keys
      requires forall n :: n in s.nodes && (n == item || Under(s, n, item)) ==>
               Some(n) in s.lists && boxChild[Some(n)] == s.lists[Some(n)]
      modifies this`depth
      ensures depth.Keys == old(depth.Keys)
      ensures forall n :: n in s.nodes ==> depth[n] == LeveledFrom(s, item, old(depth[item]), old(depth), n)
      decreases |s.nodes| - s.depth[item]
    {
      hide Linked, Leveled, Under;
      RootsInside(s);
      LinkedPlace(s, item);
      DepthBounded(s, item);
      var l := boxChild[Some(item)];
      ghost var top := depth[item];
      for i := 0 to |l|
        invariant depth.Keys == s.nodes && depth[item] == top
        invariant forall n :: n in s.nodes ==>
          depth[n] == if UnderAny(s, n, l[..i]) then Relevel(s, item, top, n) else old(depth[n])
      {
        var c := l[i];
        ghost var before := depth;
        ChildOf(s, item, c);
        assert l[..i + 1] == l[..i] + [c];
        depth := depth[c := depth[item] + 1];
        if c in folders {
          forall n | n in s.nodes && (n == c || Under(s, n, c))
            ensures Some(n) in s.lists && boxChild[Some(n)] == s.lists[Some(n)]
          {
            if n != c { UnderTrans(s, n, c, item); }
          }
          DepthBounded(s, c);
          UpdateDepths(c, s);
        }
        forall n | n in s.nodes
          ensures depth[n] == if UnderAny(s, n, l[..i + 1]) then Relevel(s, item, top, n) else old(depth[n])
        {
          ReleveledChild(s, item, c, n);
          UnderAnyGrows(s, n, l[..i], c);
        }
        ItemNotUnder(s, item, l[..i + 1]);
      }
      assert l[..|l|] == l;
      forall n | n in s.nodes ensures depth[n] == LeveledFrom(s, item, top, old(depth), n) {
        UnderAnyOf(s, n, item);
      }
    }

    /** del_from_list and add_to_list or add_at_pos, for the bookmark and its listbox item. */
    method Relink(bm: Node, dest: Node, insertAsChild: bool)
      requires bm in root && dest in root && bm != dest && boxChild == child
      requires root[bm] in child && (if insertAsChild then Some(dest) else root[dest]) in child
      modifies this`root, this`child, this`boxChild
      ensures var to := if insertAsChild then Some(dest) else old(root)[dest];
              && root == old(root)[bm := to]
              && child == Relisted(old(child), old(root)[bm], to, bm, dest, insertAsChild)
              && boxChild == child
    {
      hide Without, InsertAfter;
      boxChild := boxChild[root[bm] := Without(boxChild[root[bm]], {bm})];
      child := child[root[bm] := Without(child[root[bm]], {bm})];
      if insertAsChild {
        child := child[Some(dest) := [bm] + child[Some(dest)]];
        boxChild := boxChild[Some(dest) := [bm] + boxChild[Some(dest)]];
        root := root[bm := Some(dest)];
      } else {
        child := child[root[dest] := InsertAfter(child[root[dest]], dest, bm)];
        boxChild := boxChild[root[dest] := InsertAfter(boxChild[root[dest]], dest, bm)];
        root := root[bm := root[dest]];
      }
    }

    /** What do_move_bookmark does with a marked bookmark. */
    method MoveOne(bm: Node, dest: Node, insertAsChild: bool)
      requires CanMove(View(), bm, dest, insertAsChild)
      modifies this`root, this`child, this`boxChild, this`depth, this`marked
      ensures avoid == old(avoid) && marked * Avoided() == old(marked) * Avoided()
      ensures View() == old(Placed(View(), bm, dest, insertAsChild)).(
        depth := old(Shifted(View(), bm, DepthIn(View(), Target(View(), dest, insertAsChild)))))
    {
      hide Linked, Leveled, Under, Exposed, Relisted, Shifted, UnderAny;
      ghost var s := View();
      RootsInside(s);
      ghost var placed := Placed(s, bm, dest, insertAsChild);
      TargetPlace(s, bm, dest, insertAsChild);
      BelowUntouched(s, bm, dest, insertAsChild);
      NoneBelowLeaf(s, bm);
      marked := marked - {bm};
      assert marked - Avoided() == placed.movable;
      Relink(bm, dest, insertAsChild);
      ghost var d := DepthIn(s, Target(s, dest, insertAsChild));
      PlacedDepth(s, bm, dest, insertAsChild);
      assert View() == placed;
      depth := depth[bm := if root[bm].Some? then depth[root[bm].value] + 1 else 0];
      ghost var before := depth;
      assert before[bm] == d;
      if bm in folders { UpdateDepths(bm, s); }
      ShiftedIs(s, bm, before, depth);
    }

    /** One turn of the loop of do_move_bookmark, with `dest` and `insertAsChild` as they are after
        it. */
    method VisitBookmark(x: Node, dest0: Node, insertAsChild0: bool, src: Place)
      returns (dest: Node, insertAsChild: bool, moved: bool, cycle: bool)
      requires Consistent(View()) && dest0 in nodes && Settled(View(), dest0) && (insertAsChild0 ==> dest0 in folders)
      requires x in nodes && root[x] == src && IsPlace(View(), src)
      modifies this`root, this`child, this`boxChild, this`depth, this`marked
      ensures avoid == old(avoid) && marked * Avoided() == old(marked) * Avoided()
      ensures Moves(old(View()), View(), src, old(Target(View(), dest0, insertAsChild0)))
      ensures Visited(old(View()), View(), x)
      ensures x !in old(View()).movable ==> Emptied(old(View()), View(), dest0, insertAsChild0, Some(x))
      ensures NextDest(old(View()), View(), dest0, dest, old(Target(View(), dest0, insertAsChild0)))
      ensures Behind(old(View()), View(), dest0, insertAsChild0, old(Target(View(), dest0, insertAsChild0)))
      ensures x !in old(View()).movable ==> Kept(old(View()), View(), dest0, insertAsChild0, Some(x))
      ensures Close(old(View()), View(), dest0, insertAsChild0, old(Target(View(), dest0, insertAsChild0)))
      ensures RowTurn(old(View()), View(), old(Target(View(), dest0, insertAsChild0)), x, Spot(dest0, insertAsChild0))
      ensures x in old(View()).movable ==> Moved(old(View()), View()) == {x}
      ensures if x in old(View()).movable then dest == x && dest != dest0 && !insertAsChild
              else dest == dest0 && insertAsChild == insertAsChild0
      ensures dest in nodes && Settled(View(), dest) && (insertAsChild ==> dest in folders)
      ensures Target(View(), dest, insertAsChild) == old(Target(View(), dest0, insertAsChild0))
      ensures moved <==> View().movable != old(View().movable)
      ensures ToldAt(old(View()), avoid, old(marked), x, cycle)
      decreases |View().movable|, |nodes| - DepthIn(View(), src), 0
    {
      hide Moves, Linked, Leveled, Exposed, Under, Visited, Shifted, Settled, CanMove, AllMoved, Placed, Emptied,
           Behind, NextDest, Kept, Close, RowTurn, Rows, Told, ToldAt;
      ghost var r := View();
      RootsInside(r);
      ghost var target := Target(r, dest0, insertAsChild0);
      dest, insertAsChild, moved, cycle := dest0, insertAsChild0, false, false;
      SettledNotMovable(r, dest);
      if x in marked && x != dest && avoid != Some(x) {
        ToldMoved(r, avoid, marked, x);
        moved := true;
        CanMoveHere(r, x, dest, insertAsChild);
        PlacedMoves(r, x, dest, insertAsChild, src);
        MoveOne(x, dest, insertAsChild);
        PlacedVisited(r, View(), src, target, x);
        SettledStays(r, View(), src, target, dest);
        MovesParts(r, View(), src, target);
        PlacedBehind(r, x, dest, insertAsChild, View());
        PlacedClose(r, x, dest, insertAsChild, View());
        PlacedTurn(r, x, dest, insertAsChild, View());
        dest, insertAsChild := x, false;
      } else {
        assert x in marked ==> avoid == Some(x);
        if x in marked { cycle := true; }
        if x in folders {
          DeeperList(r, x);
          ghost var mine := marked;
          var m, c := DoMoveBookmark(dest, insertAsChild, Some(x));
          ToldHere(r, avoid, mine, x, c);
          moved, cycle := m, cycle || c;
          BelowVisited(r, View(), src, target, x);
          BelowTurn(r, View(), target, x, Spot(dest, insertAsChild));
          SettledStays(r, View(), src, target, dest);
        } else {
          ToldLeaf(r, avoid, marked, x);
          ToldHere(r, avoid, marked, x, false);
          LeafVisited(r, x);
          NoMoves(r, src, target);
          LeafEmptied(r, dest, insertAsChild, x);
          NothingKept(r, dest, insertAsChild, Some(x));
          NothingBehind(r, dest, insertAsChild, target);
          TargetListed(r, dest, insertAsChild);
          NothingClose(r, dest, insertAsChild, target);
          NothingTurn(r, target, x, Spot(dest, insertAsChild));
        }
        NextSame(r, View(), src, target, dest, insertAsChild);
      }
    }

    /** Moves all marked bookmarks of the list `src`, and of the folders in it, into `dest0` or after
        it. */
    method DoMoveBookmark(dest0: Node, insertAsChild0: bool, src: Place) returns (moved: bool, cycle: bool)
      requires Consistent(View()) && dest0 in nodes && Settled(View(), dest0) && (insertAsChild0 ==> dest0 in folders)
      requires IsPlace(View(), src)
      modifies this`root, this`child, this`boxChild, this`depth, this`marked
      ensures avoid == old(avoid) && marked * Avoided() == old(marked) * Avoided()
      ensures Moves(old(View()), View(), src, old(Target(View(), dest0, insertAsChild0)))
      ensures AllMoved(old(View()), View(), src)
      ensures Emptied(old(View()), View(), dest0, insertAsChild0, src)
      ensures Behind(old(View()), View(), dest0, insertAsChild0, old(Target(View(), dest0, insertAsChild0)))
      ensures Kept(old(View()), View(), dest0, insertAsChild0, src)
      ensures Close(old(View()), View(), dest0, insertAsChild0, old(Target(View(), dest0, insertAsChild0)))
      ensures Rows(old(View()), View(), src, old(Target(View(), dest0, insertAsChild0)), Spot(dest0, insertAsChild0))
      ensures moved <==> View().movable != old(View().movable)
      ensures Told(old(View()), avoid, old(marked), src, cycle)
      decreases |View().movable|, |nodes| - DepthIn(View(), src), 1
    {
      hide Linked, Leveled, Exposed, Under, Settled, Moves, Visited, AllMoved, Emptied, Behind, NextDest, Kept, Close,
           Walk, RowTurn, Rows, Told, ToldAt, ToldSoFar;
      ghost var s := View();
      RootsInside(s);
      ghost var target := Target(s, dest0, insertAsChild0);
      var dest, insertAsChild := dest0, insertAsChild0;
      moved, cycle := false, false;
      WalkFirst(s, src, dest, insertAsChild);
      ToldFirst(s, avoid, marked, src);
      var bm := if child[src] == [] then None else Some(child[src][0]);
      while bm.Some?
        invariant avoid == old(avoid) && marked * Avoided() == old(marked) * Avoided()
        invariant Consistent(View()) && root.Keys == nodes && dest in nodes && Settled(View(), dest)
        invariant insertAsChild ==> dest in folders
        invariant Target(View(), dest, insertAsChild) == target
        invariant src in child && (bm.Some? ==> bm.value in child[src])
        invariant Walk(s, View(), src, target, dest0, insertAsChild0, dest, insertAsChild, Rest(child[src], bm))
        invariant View().movable <= s.movable && (moved <==> View().movable != s.movable)
        invariant ToldSoFar(s, avoid, old(marked), src, Rest(child[src], bm), cycle)
        invariant |View().movable| < |s.movable|
                  || (View().movable == s.movable && DepthIn(View(), src) == DepthIn(s, src))
        decreases |View().movable|, |Rest(child[src], bm)|
      {
        ghost var r := View();
        var x, next := bm.value, Following(child[src], bm.value);
        InList(r, src, x);
        ghost var d, into, was := dest, insertAsChild, marked;
        var m, c;
        dest, insertAsChild, m, c := VisitBookmark(x, dest, insertAsChild, src);
        WalkStep(s, r, View(), src, target, x, dest0, insertAsChild0, d, into, dest, insertAsChild);
        WalkTold(s, r, View(), src, target, x, dest0, insertAsChild0, d, into, dest, insertAsChild, avoid, old(marked),
          was, cycle, c);
        moved, cycle := moved || m, cycle || c;
        bm := next;
      }
      WalkDone(s, View(), src, target, dest0, insertAsChild0, dest, insertAsChild);
      ToldDone(s, avoid, old(marked), src, cycle);
    }

    /** The forest with all marked nodes. */
    ghost function Marks(): Forest
      reads this
    {
      View().(movable := marked)
    }

    /** push_move_button, for a selected bookmark that is not marked and that has at most one marked
        ancestor, which stays. */
    method PushMoveButton(sel: Node, expanded: bool) returns (moved: bool, cycle: bool)
      requires Consistent(Marks()) && sel in nodes && sel !in marked
      requires forall a, b :: a in marked && b in marked && Under(Marks(), sel, a) && Under(Marks(), sel, b) ==> a == b
      modifies this
      ensures avoid.Some? <==> exists a :: a in old(marked) && old(Under(Marks(), sel, a))
      ensures avoid.Some? ==> avoid.value in marked
      ensures var s := old(Marks()).(movable := old(marked) - Avoided());
              var target := Target(s, sel, sel in folders && expanded);
              && Moves(s, View(), None, target) && AllMoved(s, View(), None)
              && Emptied(s, View(), sel, sel in folders && expanded, None)
              && Kept(s, View(), sel, sel in folders && expanded, None)
              && Rows(s, View(), None, target, Spot(sel, sel in folders && expanded))
              && Consistent(Marks()) && Moved(s, View()) == old(marked) - marked
              && (moved <==> marked != old(marked)) && (cycle <==> avoid.Some?)
    {
      hide Linked, Leveled, Under, Exposed, Moves, AllMoved, Emptied, Behind, Kept, Close, Rows, Settled;
      ghost var all := Marks();
      RootsInside(all);
      var dest := sel;
      var insertAsChild := sel in folders && expanded;
      avoid := None;
      var bm := root[dest];
      UnderFirst(all, dest);
      while bm.Some?
        invariant Marks() == all
        invariant bm.Some? ==> bm.value in nodes && Under(all, dest, bm.value)
        invariant avoid.Some? ==> avoid.value in marked && Under(all, dest, avoid.value)
        invariant forall a :: a in marked && Under(all, dest, a) ==>
          avoid == Some(a) || (bm.Some? && (a == bm.value || Under(all, bm.value, a)))
        decreases DepthIn(all, bm)
      {
        UnderStep(all, dest, bm.value);
        if bm.value in marked { avoid := bm; }
        bm := root[bm.value];
      }
      ghost var s := View();
      FewerMarks(all, marked - Avoided());
      SettledWhen(s, dest);
      if avoid.Some? { AvoidedFixed(s, dest, avoid.value); }
      moved, cycle := DoMoveBookmark(dest, insertAsChild, None);
      MovesParts(s, View(), None, Target(s, dest, insertAsChild));
      FewerMarks(View(), marked);
      assert marked == View().movable + marked * Avoided();
      assert all.movable == s.movable + all.movable * Avoided();
    }
  }

  // ---- the selected bookmark

  lemma UnderFirst(s: Forest, n: Node)
    requires Consistent(s) && n in s.nodes
    ensures s.root[n].Some? ==> s.root[n].value in s.nodes && Under(s, n, s.root[n].value)
    ensures forall a :: Under(s, n, a) ==> s.root[n].Some? && (a == s.root[n].value || Under(s, s.root[n].value, a))
  {
    hide Linked;
  }

  lemma UnderStep(s: Forest, n: Node, m: Node)
    requires Consistent(s) && n in s.nodes && m in s.nodes && Under(s, n, m)
    ensures s.root[m].Some? ==>
            s.root[m].value in s.nodes && Under(s, n, s.root[m].value) && DepthIn(s, s.root[m]) < DepthIn(s, Some(m))
    ensures s.root[m] == None ==> 0 < DepthIn(s, Some(m))
    ensures forall a :: Under(s, m, a) ==> s.root[m].Some? && (a == s.root[m].value || Under(s, s.root[m].value, a))
  {
    hide Linked;
    if s.root[m].Some? { UnderTrans(s, n, m, s.root[m].value); }
  }

  /** The marks do not matter for the shape of the forest. */
  lemma FewerMarks(s: Forest, m: set<Node>)
    requires Consistent(s) && m <= s.nodes
    ensures Consistent(s.(movable := m))
    ensures forall n, a :: n in s.nodes ==> (Under(s.(movable := m), n, a) <==> Under(s, n, a))
  {
    hide Leveled, Under, Linked;
    RootsInside(s);
    SameLinks(s, s.(movable := m));
    LeveledMarks(s, m);
    forall n, a | n in s.nodes ensures Under(s.(movable := m), n, a) <==> Under(s, n, a) {
      SameUnder(s, m, n, a);
    }
  }

  lemma LeveledMarks(s: Forest, m: set<Node>)
    requires Leveled(s)
    ensures Leveled(s.(movable := m))
  {
  }

  lemma {:induction false} SameUnder(s: Forest, m: set<Node>, n: Node, a: Node)
    requires Leveled(s) && n in s.nodes
    ensures Leveled(s.(movable := m)) && (Under(s.(movable := m), n, a) <==> Under(s, n, a))
    decreases s.depth[n]
  {
    if s.root[n].Some? { SameUnder(s, m, s.root[n].value, a); }
  }

  lemma {:induction false} SettledWhen(s: Forest, n: Node)
    requires Leveled(s) && n in s.nodes && n !in s.movable && forall a :: a in s.movable ==> !Under(s, n, a)
    ensures Settled(s, n)
    decreases s.depth[n]
  {
    if s.root[n].Some? { SettledWhen(s, s.root[n].value); }
  }

  lemma AvoidedFixed(s: Forest, n: Node, a: Node)
    requires Leveled(s) && n in s.nodes && Settled(s, n) && Under(s, n, a)
    ensures a in s.nodes && Settled(s, a) && Exposed(s, a, None)
  {
    hide Leveled, Under, Exposed;
    AboveSettled(s, n, a);
  }

  // ---- turns of the loop

  lemma InList(s: Forest, p: Place, x: Node)
    requires Consistent(s) && p in s.lists && x in s.lists[p]
    ensures x in s.nodes && s.root[x] == p && Some(x) in s.lists && IsPlace(s, Some(x))
  {
    LinkedPlace(s, x);
  }

  lemma CanMoveHere(s: Forest, x: Node, dest: Node, asChild: bool)
    requires Consistent(s) && x in s.movable && dest in s.nodes && Settled(s, dest) && (asChild ==> dest in s.folders)
    ensures CanMove(s, x, dest, asChild)
  {
  }

  lemma SettledNotMovable(s: Forest, n: Node)
    requires Leveled(s) && n in s.nodes && Settled(s, n)
    ensures n !in s.movable
  {
  }

  lemma PlacedVisited(s: Forest, r: Forest, p: Place, target: Place, x: Node)
    requires Moves(s, r, p, target) && x in s.nodes && Moved(s, r) == {x}
    ensures Visited(s, r, x)
    ensures r.root[x] == target
  {
    assert x in Moved(s, r);
  }

  lemma BelowVisited(s: Forest, r: Forest, p: Place, target: Place, x: Node)
    requires Moves(s, r, Some(x), target) && x in s.nodes && s.root[x] == p && x !in s.movable
    requires AllMoved(s, r, Some(x))
    ensures Visited(s, r, x) && Moves(s, r, p, target)
  {
    hide Linked, Leveled, Under, Exposed, Without, AllMoved;
    NoMoves(s, p, target);
    RootWithin(s, x, p);
    MovesThen(s, s, r, p, target, Some(x));
  }

  lemma LeafVisited(s: Forest, x: Node)
    requires Consistent(s) && x in s.nodes && x !in s.folders && x !in s.movable
    ensures Visited(s, s, x)
  {
    forall n | n in s.movable ensures !Exposed(s, n, Some(x)) {
      if Exposed(s, n, Some(x)) {
        ExposedIsUnder(s, n, x);
        UnderFolder(s, n, x);
      }
    }
  }

  lemma {:induction false} SameDepth(s: Forest, r: Forest, n: Node)
    requires Leveled(s) && Leveled(r) && s.nodes == r.nodes && s.root == r.root && n in s.nodes
    ensures s.depth[n] == r.depth[n]
    decreases s.depth[n]
  {
    if s.root[n].Some? { SameDepth(s, r, s.root[n].value); }
  }

  /** Looking into a folder takes less than looking through the list it is in. */
  lemma DeeperList(s: Forest, x: Node)
    requires Consistent(s) && x in s.nodes
    ensures DepthIn(s, s.root[x]) < DepthIn(s, Some(x)) <= |s.nodes| && IsPlace(s, Some(x))
  {
    DepthBounded(s, x);
  }

  /** While nothing is moved, the list stays as deep as it was. */
  lemma SmallerState(s: Forest, r: Forest, p: Place, target: Place)
    requires Moves(s, r, p, target) && IsPlace(s, p)
    ensures |r.movable| < |s.movable| || (r.movable == s.movable && DepthIn(r, p) == DepthIn(s, p))
  {
    hide Without, Linked, Within;
    if r.movable == s.movable {
      NothingMoved(s, r, p, target);
      if p.Some? { SameDepth(s, r, p.value); }
    } else {
      MovesParts(s, r, p, target);
      FewerMovable(r.movable, s.movable);
    }
  }

  lemma FewerMovable(a: set<Node>, b: set<Node>)
    requires a <= b && a != b
    ensures |a| < |b|
  {
    var x :| x in b && x !in a;
    SubsetSize(a, b - {x});
  }

  lemma Turn(s: Forest, r: Forest, t: Forest, p: Place, target: Place, x: Node)
    requires Moves(s, r, p, target) && Moves(r, t, p, target)
    requires p in r.lists && x in r.lists[p] && x in r.nodes && r.root[x] == p && Visited(r, t, x)
    requires Pending(s, r, p, From(r.lists[p], x))
    ensures Moves(s, t, p, target) && p in t.lists
    ensures t.movable <= r.movable <= s.movable
    ensures var next := Following(r.lists[p], x);
            && (next.Some? ==> next.value in t.lists[p])
            && Pending(s, t, p, Rest(t.lists[p], next))
            && (|t.movable| < |r.movable|
                 || (t.movable == r.movable && |Rest(t.lists[p], next)| < |From(r.lists[p], x)|))
  {
    hide Moves, Linked, Leveled, Consistent, Exposed, Under, Pending, Visited, Without;
    MovesParts(s, r, p, target);
    MovesParts(r, t, p, target);
    MovesThen(s, r, t, p, target, p);
    PendingStep(s, r, t, p, target, x);
    ListNoDup(r, p);
    FromFollowing(r.lists[p], x, x);
    var next := Following(r.lists[p], x);
    if next.Some? {
      InList(r, p, next.value);
      SiblingStays(r, t, p, target, x, next.value);
      LinkedPlace(t, next.value);
    }
    if t.movable == r.movable {
      NothingMoved(r, t, p, target);
    } else {
      FewerMovable(t.movable, r.movable);
    }
  }

  /** What is known while the loop goes on, with `rest` still to be visited. */
  ghost predicate Walk(s: Forest, r: Forest, p: Place, target: Place, dest0: Node, asChild0: bool, dest: Node,
                       asChild: bool, rest: seq<Node>)
  {
    && Moves(s, r, p, target) && IsPlace(s, p) && p in s.lists && target in s.lists && dest0 !in s.movable
    && Pending(s, r, p, rest)
    && AllPromised(s, r, dest0, asChild0, dest, asChild, p, rest) && Behind(s, r, dest0, asChild0, target)
    && AllStaying(s, r, dest0, asChild0, dest, asChild, p, rest) && Close(s, r, dest0, asChild0, target)
    && Lined(s, r, p, target, Spot(dest0, asChild0), Spot(dest, asChild))
    && ((dest == dest0 && asChild == asChild0) || (dest in Moved(s, r) && !asChild))
  }

  /** What one turn does. */
  ghost predicate TurnMade(r: Forest, t: Forest, p: Place, target: Place, x: Node, dest: Node, asChild: bool,
                           next: Node, nextAsChild: bool)
  {
    && Moves(r, t, p, target) && p in r.lists && x in r.lists[p] && x in r.nodes && r.root[x] == p && Visited(r, t, x)
    && (if x in r.movable then Moved(r, t) == {x} && next == x && next != dest && !nextAsChild
        else Emptied(r, t, dest, asChild, Some(x)) && Kept(r, t, dest, asChild, Some(x))
             && next == dest && nextAsChild == asChild)
    && NextDest(r, t, dest, next, target) && Behind(r, t, dest, asChild, target) && Close(r, t, dest, asChild, target)
    && RowTurn(r, t, target, x, Spot(dest, asChild))
    && dest in r.nodes && Settled(r, dest) && target == Target(r, dest, asChild)
  }

  lemma WalkFirst(s: Forest, p: Place, dest: Node, asChild: bool)
    requires Consistent(s) && dest in s.nodes && Settled(s, dest) && IsPlace(s, p)
    ensures p in s.lists
    ensures Walk(s, s, p, Target(s, dest, asChild), dest, asChild, dest, asChild, s.lists[p])
  {
    hide Moves, Linked, Leveled, Exposed, Pending, AllPromised, Behind, AllStaying, Close, Lined;
    RootsInside(s);
    var target := Target(s, dest, asChild);
    NoMoves(s, p, target);
    PendingFirst(s, p);
    PromisedFirst(s, dest, asChild, p);
    NothingBehind(s, dest, asChild, target);
    TargetListed(s, dest, asChild);
    StayingFirst(s, dest, asChild, p);
    NothingClose(s, dest, asChild, target);
    LinedFirst(s, p, target, Spot(dest, asChild));
  }

  lemma WalkStep(s: Forest, r: Forest, t: Forest, p: Place, target: Place, x: Node, dest0: Node, asChild0: bool,
                 dest: Node, asChild: bool, next: Node, nextAsChild: bool)
    requires TurnMade(r, t, p, target, x, dest, asChild, next, nextAsChild)
    requires Walk(s, r, p, target, dest0, asChild0, dest, asChild, From(r.lists[p], x))
    ensures Consistent(t) && t.root.Keys == t.nodes && t.movable <= r.movable <= s.movable && p in t.lists
    ensures var f := Following(r.lists[p], x);
            && (f.Some? ==> f.value in t.lists[p])
            && Walk(s, t, p, target, dest0, asChild0, next, nextAsChild, Rest(t.lists[p], f))
            && (|t.movable| < |r.movable| || (t.movable == r.movable && |Rest(t.lists[p], f)| < |From(r.lists[p], x)|))
    ensures |t.movable| < |s.movable| || (t.movable == s.movable && DepthIn(t, p) == DepthIn(s, p))
  {
    hide Moves, Linked, Leveled, Visited, Pending, AllPromised, Behind, AllStaying, Close, Emptied, Kept, NextDest,
         Settled, From, Lined, RowTurn;
    Turn(s, r, t, p, target, x);
    TurnOrder(s, r, t, p, target, x, dest0, asChild0, dest, asChild, next, nextAsChild);
    TurnWhole(s, r, t, p, target, x, dest0, asChild0, dest, asChild, next, nextAsChild);
    LinedStep(s, r, t, p, target, x, dest0, asChild0, dest, asChild, next, nextAsChild);
    MovesParts(s, t, p, target);
    RootsInside(t);
    SmallerState(s, t, p, target);
  }

  /** What a turn tells, with the marks `now` before it. */
  lemma WalkTold(s: Forest, r: Forest, t: Forest, p: Place, target: Place, x: Node, dest0: Node, asChild0: bool,
                 dest: Node, asChild: bool, next: Node, nextAsChild: bool, avoid: Option<Node>, marked: set<Node>,
                 now: set<Node>, before: bool, here: bool)
    requires TurnMade(r, t, p, target, x, dest, asChild, next, nextAsChild)
    requires Walk(s, r, p, target, dest0, asChild0, dest, asChild, From(r.lists[p], x))
    requires p in t.lists && ToldSoFar(s, avoid, marked, p, From(r.lists[p], x), before)
    requires ToldAt(r, avoid, now, x, here) && (avoid.Some? ==> (avoid.value in now <==> avoid.value in marked))
    ensures ToldSoFar(s, avoid, marked, p, Rest(t.lists[p], Following(r.lists[p], x)), before || here)
  {
    hide Moves, Linked, Leveled, Visited, Pending, AllPromised, Behind, AllStaying, Close, Emptied, Kept, NextDest,
         Settled, From, Lined, RowTurn, ToldSoFar;
    MovesParts(s, r, p, target);
    assert ToldAt(r, avoid, marked, x, here);
    ToldStep(s, r, t, p, target, x, avoid, marked, before, here);
  }

  lemma WalkDone(s: Forest, r: Forest, p: Place, target: Place, dest0: Node, asChild0: bool, dest: Node, asChild: bool)
    requires Walk(s, r, p, target, dest0, asChild0, dest, asChild, [])
    ensures Moves(s, r, p, target) && Consistent(s) && s.movable <= s.nodes && AllMoved(s, r, p)
    ensures Emptied(s, r, dest0, asChild0, p) && Behind(s, r, dest0, asChild0, target)
    ensures Kept(s, r, dest0, asChild0, p) && Close(s, r, dest0, asChild0, target)
    ensures Rows(s, r, p, target, Spot(dest0, asChild0))
  {
    hide Moves, Linked, Leveled, Pending, AllPromised, Behind, AllStaying, Close, Emptied, Kept, AllMoved, Lined, Rows;
    MovesParts(s, r, p, target);
    AllDone(s, r, p, target);
    PromisedDone(s, r, dest0, asChild0, dest, asChild, p);
    StayingDone(s, r, dest0, asChild0, dest, asChild, p);
    LinedDone(s, r, p, target, Spot(dest0, asChild0), Spot(dest, asChild));
  }

  /** What a turn leaves of the order and of the promises. */
  lemma TurnOrder(s: Forest, r: Forest, t: Forest, p: Place, target: Place, x: Node, dest0: Node, asChild0: bool,
                  dest: Node, asChild: bool, next: Node, nextAsChild: bool)
    requires TurnMade(r, t, p, target, x, dest, asChild, next, nextAsChild)
    requires Walk(s, r, p, target, dest0, asChild0, dest, asChild, From(r.lists[p], x))
    ensures p in t.lists
    ensures AllPromised(s, t, dest0, asChild0, next, nextAsChild, p, Rest(t.lists[p], Following(r.lists[p], x)))
    ensures Behind(s, t, dest0, asChild0, target)
    ensures (next == dest0 && nextAsChild == asChild0) || (next in Moved(s, t) && !nextAsChild)
  {
    hide Linked, Leveled, Exposed, Under, Visited, Without, Emptied, Behind, AllPromised, From, Pending, AllStaying,
         Close, Lined, RowTurn;
    MovesParts(s, r, p, target);
    MovesParts(r, t, p, target);
    assert OrderTurn(r, t, p, target, x, dest, asChild, next, nextAsChild);
    AllPromisedStep(s, r, t, p, target, x, dest0, asChild0, dest, asChild, next, nextAsChild);
    BehindStep(s, r, t, p, target, dest0, asChild0, dest, asChild);
  }

  lemma TurnWhole(s: Forest, r: Forest, t: Forest, p: Place, target: Place, x: Node, dest0: Node, asChild0: bool,
                  dest: Node, asChild: bool, next: Node, nextAsChild: bool)
    requires TurnMade(r, t, p, target, x, dest, asChild, next, nextAsChild)
    requires Walk(s, r, p, target, dest0, asChild0, dest, asChild, From(r.lists[p], x))
    ensures p in t.lists
    ensures AllStaying(s, t, dest0, asChild0, next, nextAsChild, p, Rest(t.lists[p], Following(r.lists[p], x)))
    ensures Close(s, t, dest0, asChild0, target)
  {
    hide Linked, Leveled, Exposed, Under, Visited, Without, Kept, Close, AllStaying, From, Settled, Pending,
         AllPromised, Behind, Lined, RowTurn;
    MovesParts(s, r, p, target);
    MovesParts(r, t, p, target);
    assert IsTurn(r, t, p, target, x, dest, asChild, next, nextAsChild);
    AllStayingStep(s, r, t, p, target, x, dest0, asChild0, dest, asChild, next, nextAsChild);
    CloseStep(s, r, t, p, target, dest0, asChild0, dest, asChild);
  }

  lemma NothingKept(s: Forest, dest: Node, asChild: bool, p: Place)
    requires Consistent(s)
    ensures Kept(s, s, dest, asChild, p)
  {
    hide Linked, Leveled, Exposed, Passed, Under;
  }

  lemma TargetListed(s: Forest, dest: Node, asChild: bool)
    requires Consistent(s) && dest in s.nodes
    ensures Target(s, dest, asChild) in s.lists
  {
    LinkedPlace(s, dest);
  }

  /** A node that is not a folder has nothing in it. */
  lemma LeafEmptied(s: Forest, dest: Node, asChild: bool, x: Node)
    requires Consistent(s) && x in s.nodes && x !in s.folders
    ensures Emptied(s, s, dest, asChild, Some(x))
  {
    hide Linked, Leveled, Branch, Under, MovesOn;
    if Some(x) in s.lists {
      var l := s.lists[Some(x)];
      forall f, n ensures !Leaves(s, f, n, dest, asChild, Some(x), l) {
        if Leaves(s, f, n, dest, asChild, Some(x), l) {
          if Later(s, f, dest, Some(x)) { LaterExposed(s, f, dest, Some(x)); }
          ExposedIsUnder(s, f, x);
          UnderFolder(s, f, x);
        }
      }
    }
  }

  lemma AllDone(s: Forest, r: Forest, p: Place, target: Place)
    requires Moves(s, r, p, target) && Pending(s, r, p, [])
    ensures AllMoved(s, r, p)
  {
    hide Exposed, Branch, Linked, Without, Under;
  }

  lemma PlacedDepth(s: Forest, x: Node, dest: Node, asChild: bool)
    requires CanMove(s, x, dest, asChild)
    ensures var to := Target(s, dest, asChild); to.Some? ==> to.value != x && to.value in s.depth
  {
    TargetPlace(s, x, dest, asChild);
  }

  lemma ShiftedIs(s: Forest, x: Node, d: map<Node, nat>, e: map<Node, nat>)
    requires Leveled(s) && x in s.nodes && d.Keys == e.Keys == s.nodes
    requires forall n :: n in s.nodes && n != x ==> d[n] == s.depth[n]
    requires forall n :: n in s.nodes ==> e[n] == LeveledFrom(s, x, d[x], d, n)
    ensures e == Shifted(s, x, d[x])
  {
    forall n | n in s.nodes ensures e[n] == Shifted(s, x, d[x])[n] {
      if Under(s, n, x) { UnderDeeper(s, n, x); }
      if n == x && Under(s, x, x) { UnderDeeper(s, x, x); }
    }
  }

  // ---- depths

  /** The depth of a node below `item` when `item` is at depth `d`. */
  ghost function Relevel(s: Forest, item: Node, d: nat, n: Node): int
    requires item in s.depth && n in s.depth
  {
    d + s.depth[n] - s.depth[item]
  }

  ghost function LeveledFrom(s: Forest, item: Node, d: nat, depth: map<Node, nat>, n: Node): int
    requires Leveled(s) && item in s.nodes && n in s.nodes && n in depth
  {
    if Under(s, n, item) then Relevel(s, item, d, n) else depth[n]
  }

  ghost predicate UnderAny(s: Forest, n: Node, l: seq<Node>)
    requires Leveled(s) && n in s.nodes
  {
    exists c :: c in l && (n == c || Under(s, n, c))
  }

  lemma UnderAnyGrows(s: Forest, n: Node, l: seq<Node>, c: Node)
    requires Leveled(s) && n in s.nodes
    ensures UnderAny(s, n, l + [c]) <==> UnderAny(s, n, l) || n == c || Under(s, n, c)
  {
    hide Leveled, Under;
    if UnderAny(s, n, l) {
      var d :| d in l && (n == d || Under(s, n, d));
      assert d in l + [c];
    }
    assert c in l + [c];
  }

  lemma {:induction false} UnderAnyOf(s: Forest, n: Node, item: Node)
    requires Consistent(s) && n in s.nodes && item in s.nodes && Some(item) in s.lists
    ensures UnderAny(s, n, s.lists[Some(item)]) <==> Under(s, n, item)
    decreases s.depth[n]
  {
    var l := s.lists[Some(item)];
    if UnderAny(s, n, l) {
      var c :| c in l && (n == c || Under(s, n, c));
      ChildOf(s, item, c);
      if n != c { UnderTrans(s, n, c, item); }
    }
    if Under(s, n, item) {
      if s.root[n] == Some(item) {
        assert n in l;
      } else {
        var r := s.root[n].value;
        UnderAnyOf(s, r, item);
        var c :| c in l && (r == c || Under(s, r, c));
        assert Under(s, n, c);
      }
    }
  }

  lemma ChildOf(s: Forest, item: Node, c: Node)
    requires Consistent(s) && Some(item) in s.lists && c in s.lists[Some(item)]
    ensures c in s.nodes && Under(s, c, item) && s.depth[c] == s.depth[item] + 1
  {
  }

  lemma ItemNotUnder(s: Forest, item: Node, l: seq<Node>)
    requires Consistent(s) && item in s.nodes && Some(item) in s.lists
    requires forall c :: c in l ==> c in s.lists[Some(item)]
    ensures !UnderAny(s, item, l)
  {
    hide Linked;
    if UnderAny(s, item, l) {
      var c :| c in l && (item == c || Under(s, item, c));
      ChildOf(s, item, c);
      if item != c { UnderDeeper(s, item, c); }
    }
  }

  lemma ReleveledChild(s: Forest, item: Node, c: Node, n: Node)
    requires Consistent(s) && Some(item) in s.lists && c in s.lists[Some(item)] && n in s.nodes
    ensures c !in s.folders ==> !Under(s, n, c)
  {
    hide Leveled;
    ChildOf(s, item, c);
    if Under(s, n, c) { UnderFolder(s, n, c); }
  }

  lemma NoneBelowLeaf(s: Forest, x: Node)
    requires Consistent(s) && x in s.nodes
    ensures x !in s.folders ==> forall n :: n in s.nodes ==> !Under(s, n, x)
  {
    forall n | n in s.nodes ensures x !in s.folders ==> !Under(s, n, x) {
      if Under(s, n, x) { UnderFolder(s, n, x); }
    }
  }

  /** The lists of a moved node and of those below it are not touched. */
  lemma BelowUntouched(s: Forest, x: Node, dest: Node, asChild: bool)
    requires CanMove(s, x, dest, asChild)
    ensures var r := Placed(s, x, dest, asChild);
            r.lists.Keys == s.lists.Keys
            && forall n :: n in s.nodes && (n == x || Under(s, n, x)) ==>
                 Some(n) in s.lists && r.lists[Some(n)] == s.lists[Some(n)]
  {
    TargetPlace(s, x, dest, asChild);
    forall n | n in s.nodes && (n == x || Under(s, n, x))
      ensures Some(n) in s.lists && Placed(s, x, dest, asChild).lists[Some(n)] == s.lists[Some(n)]
    {
      LinkedPlace(s, n);
      if n != x { UnderDeeper(s, n, x); }
    }
  }
}
