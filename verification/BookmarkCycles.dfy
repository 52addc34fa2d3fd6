/** When moving bookmarks tells that a folder was not moved into itself (src/bookmarks/dialogs.c:484-559). */
module BookmarkCycles {
  import opened Basics
  import opened Bookmarks
  import opened BookmarkSteps
  import opened BookmarkOrder
  import opened BookmarkWhole

  /** The node that is not to be moved, with nothing movable above it. */
  ghost predicate Fixed(s: Forest, avoid: Option<Node>)
    requires Leveled(s)
  {
    avoid.Some? && avoid.value in s.nodes && Settled(s, avoid.value)
  }

  /** Going through the list at `p` tells so exactly if that node is marked and is come to. */
  ghost predicate Told(s: Forest, avoid: Option<Node>, marked: set<Node>, p: Place, cycle: bool)
    requires Leveled(s)
  {
    && (cycle ==> avoid.Some?)
    && (Fixed(s, avoid) ==> (cycle <==> avoid.value in marked && Exposed(s, avoid.value, p)))
  }

  /** The same for a node that is visited, with what is below it. */
  ghost predicate ToldAt(s: Forest, avoid: Option<Node>, marked: set<Node>, x: Node, cycle: bool)
    requires Leveled(s)
  {
    && (cycle ==> avoid.Some?)
    && (Fixed(s, avoid) ==>
          (cycle <==> avoid.value in marked && (avoid.value == x || Exposed(s, avoid.value, Some(x)))))
  }

  /** The same for the part of a list before `rest`. */
  ghost predicate ToldSoFar(s: Forest, avoid: Option<Node>, marked: set<Node>, p: Place, rest: seq<Node>, cycle: bool)
    requires Leveled(s)
  {
    && (cycle ==> avoid.Some?)
    && (Fixed(s, avoid) ==>
          (cycle <==> avoid.value in marked && Exposed(s, avoid.value, p) && Branch(s, avoid.value, p) !in rest))
  }

  lemma ToldFirst(s: Forest, avoid: Option<Node>, marked: set<Node>, p: Place)
    requires Consistent(s) && p in s.lists
    ensures ToldSoFar(s, avoid, marked, p, s.lists[p], false)
  {
    hide Leveled, Exposed;
    if Fixed(s, avoid) && Exposed(s, avoid.value, p) { assert Branch(s, avoid.value, p) in s.lists[p]; }
  }

  lemma ToldDone(s: Forest, avoid: Option<Node>, marked: set<Node>, p: Place, cycle: bool)
    requires Leveled(s) && ToldSoFar(s, avoid, marked, p, [], cycle)
    ensures Told(s, avoid, marked, p, cycle)
  {
    hide Leveled, Exposed;
  }

  /** A movable node is not above it. */
  lemma ToldMoved(s: Forest, avoid: Option<Node>, marked: set<Node>, x: Node)
    requires Consistent(s) && x in s.movable && x in s.nodes
    ensures ToldAt(s, avoid, marked, x, false)
  {
    hide Linked, Leveled, Settled;
    if Fixed(s, avoid) {
      SettledAbove(s, avoid.value, x);
      if Exposed(s, avoid.value, Some(x)) { ExposedIsUnder(s, avoid.value, x); }
    }
  }

  /** A node that is not moved, and what is told below it. */
  lemma ToldHere(s: Forest, avoid: Option<Node>, marked: set<Node>, x: Node, below: bool)
    requires Consistent(s) && x in s.nodes && Told(s, avoid, marked, Some(x), below)
    ensures ToldAt(s, avoid, marked, x, (avoid == Some(x) && x in marked) || below)
  {
    hide Linked, Settled;
    if Fixed(s, avoid) && avoid.value == x && Exposed(s, x, Some(x)) { ExposedIsUnder(s, x, x); }
  }

  /** What is no folder has nothing below it. */
  lemma ToldLeaf(s: Forest, avoid: Option<Node>, marked: set<Node>, x: Node)
    requires Consistent(s) && x in s.nodes && x !in s.folders
    ensures Told(s, avoid, marked, Some(x), false)
  {
    hide Leveled, Settled;
    if Fixed(s, avoid) && Exposed(s, avoid.value, Some(x)) {
      ExposedIsUnder(s, avoid.value, x);
      UnderFolder(s, avoid.value, x);
    }
  }

  /** A turn of the loop. */
  lemma ToldStep(s: Forest, r: Forest, t: Forest, p: Place, target: Place, x: Node, avoid: Option<Node>,
                 marked: set<Node>, before: bool, here: bool)
    requires Moves(s, r, p, target) && Moves(r, t, p, target)
    requires p in r.lists && p in t.lists && x in r.lists[p] && x in r.nodes && r.root[x] == p && Visited(r, t, x)
    requires ToldSoFar(s, avoid, marked, p, From(r.lists[p], x), before) && ToldAt(r, avoid, marked, x, here)
    ensures ToldSoFar(s, avoid, marked, p, Rest(t.lists[p], Following(r.lists[p], x)), before || here)
  {
    hide Moves, Linked, Leveled, Exposed, Branch, Visited, From, Under;
    MovesParts(s, r, p, target);
    MovesParts(r, t, p, target);
    if Fixed(s, avoid) {
      var a := avoid.value;
      FixedStays(s, r, p, target, a);
      BranchBack(s, r, p, target, a, p);
      FixedBelow(r, a, x, p);
      if Exposed(s, a, p) {
        var b := Branch(s, a, p);
        FixedStays(r, t, p, target, a);
        BranchBack(r, t, p, target, a, p);
        if b in From(r.lists[p], x) && b != x { StillAhead(r, t, p, target, x, b); }
        if b in Rest(t.lists[p], Following(r.lists[p], x)) { AheadBack(r, t, p, target, x, b); }
      }
    }
  }

  lemma FixedStays(s: Forest, r: Forest, p: Place, target: Place, a: Node)
    requires Moves(s, r, p, target) && a in s.nodes && Settled(s, a)
    ensures Settled(r, a) && a in r.nodes && a !in Moved(s, r) && Exposed(s, a, None)
  {
    hide Linked, Leveled, Without, Within, Exposed;
    SettledStays(s, r, p, target, a);
  }

  /** It is at or below a node of the list exactly if that node is its branch. */
  lemma FixedBelow(r: Forest, a: Node, x: Node, p: Place)
    requires Consistent(r) && a in r.nodes && Settled(r, a) && x in r.nodes && r.root[x] == p
    ensures a == x || Exposed(r, a, Some(x)) <==> Exposed(r, a, p) && Branch(r, a, p) == x
  {
    hide Linked, Leveled;
    if Exposed(r, a, Some(x)) {
      ExposedIsUnder(r, a, x);
      SettledExposed(r, a, x, p);
      BranchUnder(r, a, x, p);
    }
  }
}
