/** In which order moved bookmarks end up: those of one list in a row, each directly behind the one
    before (src/bookmarks/dialogs.c:471-559). */
module BookmarkRows {
  import opened Basics
  import opened Bookmarks
  import opened BookmarkSteps
  import BookmarkOrder
  import BookmarkWhole

  /** The nodes of a list that are in `m`. */
  function Only(l: seq<Node>, m: set<Node>): (r: seq<Node>)
    ensures forall n :: n in r <==> n in l && n in m
  {
    if l == [] then [] else (if l[0] in m then [l[0]] else []) + Only(l[1..], m)
  }

  /** The node behind another one, or the first one. */
  function NextTo(l: seq<Node>, at: Option<Node>): Option<Node> {
    if at.Some? then Following(l, at.value) else if l == [] then None else Some(l[0])
  }

  /** Where bookmarks are put: behind `dest`, or in front of everything in it. */
  function Spot(dest: Node, asChild: bool): Option<Node> { if asChild then None else Some(dest) }

  /** Each is directly behind the one before. */
  predicate InRow(l: seq<Node>, row: seq<Node>) {
    forall i :: 0 <= i < |row| - 1 ==> Following(l, row[i]) == Some(row[i + 1])
  }

  /** What stands together and cannot be moved stays together, but for the place where bookmarks are
      put. */
  ghost predicate KeepsNext(s: Forest, r: Forest, target: Place, at: Option<Node>) {
    && target in s.lists && target in r.lists
    && forall n: Option<Node> :: n != at && (n.Some? ==> n.value !in s.movable) ==>
         var m := NextTo(s.lists[target], n);
         m.Some? && m.value !in s.movable ==> NextTo(r.lists[target], n) == m
  }

  function Row(s: Forest, q: Place): seq<Node>
    requires q in s.lists
  {
    Only(s.lists[q], s.movable)
  }

  /** The movable nodes of a list have all stayed, or they have all been moved and stand in a row. */
  ghost predicate Together(s: Forest, r: Forest, target: Place, q: Place)
    requires q in s.lists
  {
    target in r.lists
    && ((forall n :: n in Row(s, q) ==> n in r.movable)
        || ((forall n :: n in Row(s, q) ==> n !in r.movable) && InRow(r.lists[target], Row(s, q))))
  }

  ghost predicate AllTogether(s: Forest, r: Forest, target: Place) {
    forall q :: q in s.lists ==> Together(s, r, target, q)
  }

  /** And those of the list at `p` begin where bookmarks are put. */
  ghost predicate Rows(s: Forest, r: Forest, p: Place, target: Place, at: Option<Node>) {
    && AllTogether(s, r, target) && KeepsNext(s, r, target, at) && p in s.lists && target in r.lists
    && (Row(s, p) != [] ==> NextTo(r.lists[target], at) == Some(Row(s, p)[0]))
  }

  // ---- lists

  lemma {:induction false} OnlyNoDup(l: seq<Node>, m: set<Node>)
    requires NoDup(l)
    ensures NoDup(Only(l, m))
  {
    if l != [] {
      assert NoDup(l[1..]) && l[0] !in l[1..];
      OnlyNoDup(l[1..], m);
    }
  }

  lemma {:induction false} OnlyWithout(l: seq<Node>, a: set<Node>, m: set<Node>)
    ensures Only(Without(l, a), m) == Only(l, m - a)
    ensures Without(Only(l, m), a) == Only(l, m - a)
  {
    if l != [] {
      OnlyWithout(l[1..], a, m);
      var w, o := Without(l[1..], a), Only(l[1..], m);
      assert ([l[0]] + w)[1..] == w && ([l[0]] + o)[1..] == o && [] + w == w && [] + o == o;
    }
  }

  /** If nothing in `m` comes before `x`, then `x` is the first one. */
  lemma {:induction false} FirstOnly(l: seq<Node>, m: set<Node>, x: Node)
    requires NoDup(l) && x in l && x in m && forall n :: n in Only(l, m) ==> n in From(l, x)
    ensures Only(l, m) != [] && Only(l, m)[0] == x
  {
    if l[0] != x {
      assert NoDup(l[1..]) && l[0] !in l[1..];
      assert l[0] in m ==> l[0] in Only(l, m);
      assert Only(l, m) == Only(l[1..], m) && From(l, x) == From(l[1..], x);
      FirstOnly(l[1..], m, x);
    }
  }

  /** Behind what: the node behind a node of a list without repetitions. */
  lemma {:induction false} FollowingAt(l: seq<Node>, i: nat)
    requires NoDup(l) && i < |l|
    ensures Following(l, l[i]) == if i + 1 < |l| then Some(l[i + 1]) else None
  {
    if i == 0 {
      assert From(l, l[0]) == l;
    } else {
      assert l[0] != l[i] && l[1..][i - 1] == l[i];
      FollowingAt(l[1..], i - 1);
    }
  }

  lemma FollowingIn(l: seq<Node>, x: Node)
    ensures Following(l, x).Some? ==> x in l && Following(l, x).value in l
  {
  }

  /** A row is a stretch of the list. */
  lemma {:induction false} RowIsStretch(l: seq<Node>, row: seq<Node>, i: nat)
    requires NoDup(l) && InRow(l, row) && row != [] && i < |l| && l[i] == row[0]
    ensures i + |row| <= |l| && l[i..i + |row|] == row
  {
    if |row| == 1 {
      assert l[i..i + 1] == [l[i]];
    } else {
      FollowingAt(l, i);
      assert Following(l, row[0]) == Some(row[1]);
      forall j | 0 <= j < |row[1..]| - 1 ensures Following(l, row[1..][j]) == Some(row[1..][j + 1]) {
        assert Following(l, row[j + 1]) == Some(row[j + 2]);
      }
      RowIsStretch(l, row[1..], i + 1);
      assert l[i..i + |row|] == [l[i]] + l[i + 1..i + |row|];
    }
  }

  /** Taking a node out leaves others together. */
  lemma {:induction false} NextWithout(l: seq<Node>, x: Node, n: Option<Node>)
    requires NextTo(l, n).Some? && n != Some(x) && NextTo(l, n) != Some(x)
    ensures NextTo(Without(l, {x}), n) == NextTo(l, n)
  {
    if n.Some? && l[0] != n.value {
      NextWithout(l[1..], x, n);
      assert From(l, n.value) == From(l[1..], n.value);
      var w := Without(l[1..], {x});
      if l[0] != x {
        assert ([l[0]] + w)[1..] == w;
      } else {
        assert [] + w == w;
      }
      assert From(Without(l, {x}), n.value) == From(w, n.value);
    } else if n.Some? {
      assert l[1..][0] == l[1];
      var w := Without(l[1..], {x});
      assert w == [l[1]] + Without(l[1..][1..], {x});
      assert Without(l, {x}) == [l[0]] + w;
    }
  }

  /** Putting a node behind `d` parts no others. */
  lemma {:induction false} NextInserted(l: seq<Node>, d: Node, x: Node, n: Option<Node>)
    requires d in l && NoDup(l) && x !in l && n != Some(x)
    ensures n != Some(d) ==> NextTo(InsertAfter(l, d, x), n) == NextTo(l, n)
    ensures NextTo(InsertAfter(l, d, x), Some(d)) == Some(x)
  {
    var r := InsertAfter(l, d, x);
    if l[0] == d {
      assert r == [d, x] + l[1..] && From(r, d) == r;
      if n.Some? && n.value != d {
        assert r[1..] == [x] + l[1..] && r[1..][1..] == l[1..];
        assert From(r, n.value) == From(r[1..], n.value) == From(l[1..], n.value) == From(l, n.value);
      }
    } else {
      assert NoDup(l[1..]);
      assert r[0] == l[0] && r[1..] == InsertAfter(l[1..], d, x);
      assert From(r, d) == From(r[1..], d);
      NextInserted(l[1..], d, x, n);
      NextInsertedFirst(l, d, x, n);
    }
  }

  lemma NextInsertedFirst(l: seq<Node>, d: Node, x: Node, n: Option<Node>)
    requires l != [] && l[0] != d && d in l && NoDup(l) && x !in l
    requires n.Some? && n.value != l[0] && n.value != d ==>
      Following(InsertAfter(l[1..], d, x), n.value) == Following(l[1..], n.value)
    ensures n != Some(d) ==> NextTo(InsertAfter(l, d, x), n) == NextTo(l, n)
  {
    var r := InsertAfter(l, d, x);
    assert r[0] == l[0] && r[1..] == InsertAfter(l[1..], d, x);
    if n.Some? && n.value != d {
      if n.value == l[0] {
        assert From(r, l[0]) == r && From(l, l[0]) == l && l[1..][0] == l[1] && r[1] == r[1..][0];
      } else {
        assert From(r, n.value) == From(r[1..], n.value) && From(l, n.value) == From(l[1..], n.value);
      }
    }
  }

  // ---- one move

  lemma PlacedNext(s: Forest, x: Node, dest: Node, asChild: bool, r: Forest)
    requires CanMove(s, x, dest, asChild) && r.lists == Placed(s, x, dest, asChild).lists
    ensures var target := Target(s, dest, asChild);
            && KeepsNext(s, r, target, Spot(dest, asChild))
            && NextTo(r.lists[target], Spot(dest, asChild)) == Some(x)
  {
    hide Linked, Leveled, Under, Exposed, Settled, Without, InsertAfter, NextTo, NoDup;
    RootsInside(s);
    TargetPlace(s, x, dest, asChild);
    LinkedPlace(s, x);
    var target := Target(s, dest, asChild);
    var cut := Without(s.lists[target], {x});
    ListNoDup(s, target);
    WithoutNoDup(s.lists[target], {x});
    var l := if target == s.root[x] then cut else s.lists[target];
    RelistedTarget(s, x, dest, asChild, target, l);
    PutNext(l, x, dest, asChild, r.lists[target]);
    forall n: Option<Node> | n != Spot(dest, asChild) && (n.Some? ==> n.value !in s.movable)
      ensures var m := NextTo(s.lists[target], n);
              m.Some? && m.value !in s.movable ==> NextTo(r.lists[target], n) == m
    {
      var m := NextTo(s.lists[target], n);
      if m.Some? && m.value !in s.movable {
        NextWithout(s.lists[target], x, n);
        PutNextOther(l, x, dest, asChild, r.lists[target], n);
      }
    }
  }

  lemma RelistedTarget(s: Forest, x: Node, dest: Node, asChild: bool, target: Place, l: seq<Node>)
    requires CanMove(s, x, dest, asChild) && target == Target(s, dest, asChild)
    requires s.root[x] in s.lists && target in s.lists
    requires l == if target == s.root[x] then Without(s.lists[target], {x}) else s.lists[target]
    ensures Placed(s, x, dest, asChild).lists[target] == if asChild then [x] + l else InsertAfter(l, dest, x)
    ensures x !in l && (!asChild ==> dest in l)
  {
    hide Leveled, Under, Exposed, Settled, InsertAfter;
    TargetPlace(s, x, dest, asChild);
  }

  lemma PutNext(l: seq<Node>, x: Node, dest: Node, asChild: bool, r: seq<Node>)
    requires NoDup(l) && x !in l && (!asChild ==> dest in l)
    requires r == if asChild then [x] + l else InsertAfter(l, dest, x)
    ensures NextTo(r, Spot(dest, asChild)) == Some(x)
  {
    if !asChild { NextInserted(l, dest, x, None); }
  }

  lemma PutNextOther(l: seq<Node>, x: Node, dest: Node, asChild: bool, r: seq<Node>, n: Option<Node>)
    requires NoDup(l) && x !in l && (!asChild ==> dest in l) && n != Some(x) && n != Spot(dest, asChild)
    requires r == if asChild then [x] + l else InsertAfter(l, dest, x)
    ensures NextTo(r, n) == NextTo(l, n)
  {
    if asChild {
      assert r[1..] == l && From(r, n.value) == From(l, n.value);
    } else {
      NextInserted(l, dest, x, n);
    }
  }

  // ---- what remains together

  lemma KeepsNextThen(s: Forest, r: Forest, t: Forest, target: Place, at0: Option<Node>, at: Option<Node>)
    requires KeepsNext(s, r, target, at0) && KeepsNext(r, t, target, at) && r.movable <= s.movable
    requires at == at0 || (at.Some? && at.value in s.movable)
    ensures KeepsNext(s, t, target, at0)
  {
    hide NextTo;
  }

  lemma {:induction false} WithoutOthers(l: seq<Node>, m: set<Node>)
    requires forall n :: n in l ==> n !in m
    ensures Without(l, m) == l
  {
    if l != [] { WithoutOthers(l[1..], m); }
  }

  /** What is left to be moved of a list. */
  lemma RowLeft(s: Forest, r: Forest, p: Place, target: Place, q: Place)
    requires Moves(s, r, p, target) && q in s.lists
    ensures q in r.lists && Row(r, q) == Without(Row(s, q), Moved(s, r))
  {
    hide Without, Only, Linked, Leveled, Within;
    SameOrder(s, r, p, target, q);
    var m := Moved(s, r);
    OnlyWithout(r.lists[q], m, s.movable);
    OnlyWithout(s.lists[q], m, s.movable);
    assert r.movable == s.movable - m;
  }

  lemma RowStays(s: Forest, r: Forest, p: Place, target: Place, q: Place)
    requires Moves(s, r, p, target) && q in s.lists && forall n :: n in Row(s, q) ==> n !in Moved(s, r)
    ensures q in r.lists && Row(r, q) == Row(s, q)
  {
    hide Without, Only, Linked, Leveled, Within;
    RowLeft(s, r, p, target, q);
    WithoutOthers(Row(s, q), Moved(s, r));
  }

  /** A row whose nodes have been moved stays one, unless its last node is where bookmarks are put. */
  lemma InRowStays(r: Forest, t: Forest, target: Place, at: Option<Node>, row: seq<Node>)
    requires KeepsNext(r, t, target, at) && InRow(r.lists[target], row) && forall n :: n in row ==> n !in r.movable
    requires forall i :: 0 <= i < |row| - 1 ==> at != Some(row[i])
    ensures InRow(t.lists[target], row)
  {
    forall i | 0 <= i < |row| - 1 ensures Following(t.lists[target], row[i]) == Some(row[i + 1]) {
      assert NextTo(r.lists[target], Some(row[i])) == Some(row[i + 1]);
    }
  }

  lemma TogetherStays(s: Forest, r: Forest, t: Forest, p: Place, target: Place, at: Option<Node>, q: Place)
    requires Moves(s, r, p, target) && t.movable <= r.movable && KeepsNext(r, t, target, at)
    requires q in s.lists && q in r.lists && Together(s, r, target, q) && Together(r, t, target, q)
    requires at.Some? ==> at.value !in Row(s, q)
    ensures Together(s, t, target, q)
  {
    hide Only, Moves, NextTo;
    if forall n :: n in Row(s, q) ==> n in r.movable {
      RowStays(s, r, p, target, q);
    } else {
      InRowStays(r, t, target, at, Row(s, q));
    }
  }

  // ---- the loop

  /** Of the row `row` there is still `left`; what comes before has been moved and stands in a row from
      `at0` on, and its last node is where bookmarks are put now. */
  predicate Begun(row: seq<Node>, left: seq<Node>, movable: set<Node>, l: seq<Node>, at0: Option<Node>,
                  at: Option<Node>)
  {
    |left| <= |row| && row[|row| - |left|..] == left &&
    var done := row[..|row| - |left|];
    (forall n :: n in done ==> n !in movable)
    && if done == [] then at == at0
       else at == Some(done[|done| - 1]) && NextTo(l, at0) == Some(done[0]) && InRow(l, done)
  }

  ghost predicate Lined(s: Forest, r: Forest, p: Place, target: Place, at0: Option<Node>, at: Option<Node>) {
    && p in s.lists && p in r.lists && KeepsNext(s, r, target, at0)
    && (forall q :: q in s.lists && q != p ==> Together(s, r, target, q))
    && Begun(Row(s, p), Row(r, p), r.movable, r.lists[target], at0, at)
  }

  lemma LinedFirst(s: Forest, p: Place, target: Place, at: Option<Node>)
    requires Linked(s) && p in s.lists && target in s.lists
    ensures Lined(s, s, p, target, at, at)
  {
    hide Linked, Only, NextTo, Following;
  }

  /** What has been moved of the list so far stays in a row. */
  lemma BegunStays(r: Forest, t: Forest, target: Place, row: seq<Node>, left: seq<Node>, at0: Option<Node>,
                   at: Option<Node>)
    requires NoDup(row) && target in r.lists && Begun(row, left, r.movable, r.lists[target], at0, at)
    requires KeepsNext(r, t, target, at) && t.movable <= r.movable
    requires at0.Some? ==> at0.value !in r.movable && at0.value !in row
    ensures Begun(row, left, t.movable, t.lists[target], at0, at)
  {
    hide NextTo;
    var done := row[..|row| - |left|];
    if done != [] {
      assert done[|done| - 1] in row;
      InRowStays(r, t, target, at, done);
    }
  }

  /** The next node of the row comes behind the others. */
  lemma BegunMore(row: seq<Node>, left: seq<Node>, movable: set<Node>, l: seq<Node>, at0: Option<Node>,
                  at: Option<Node>)
    requires Begun(row, left, movable, l, at0, at) && left != [] && left[0] !in movable
    requires NextTo(l, at) == Some(left[0])
    ensures Begun(row, left[1..], movable, l, at0, Some(left[0]))
  {
    hide From;
    var k := |row| - |left|;
    assert row[..k + 1] == row[..k] + [left[0]] && row[k + 1..] == left[1..];
  }

  /** What is left of the list is still to be visited. */
  lemma LeftAhead(s: Forest, r: Forest, p: Place, target: Place, rest: seq<Node>)
    requires Moves(s, r, p, target) && p in r.lists && Pending(s, r, p, rest)
    ensures forall n :: n in Row(r, p) ==> n in rest
    ensures rest == [] ==> Row(r, p) == []
    ensures p in s.lists && NoDup(r.lists[p]) && NoDup(s.lists[p])
  {
    hide Only, Without, Within;
    forall n | n in Row(r, p) ensures n in rest {
      assert n in r.lists[p] && n in s.movable && n !in Moved(s, r);
      assert s.root[n] == p && Exposed(s, n, p) && Branch(s, n, p) == n;
    }
    if Row(r, p) != [] { assert Row(r, p)[0] in rest; }
  }

  lemma AtElsewhere(s: Forest, row: seq<Node>, p: Place, q: Place, at0: Option<Node>, at: Option<Node>)
    requires Linked(s) && p in s.lists && q in s.lists && q != p && (at0.Some? ==> at0.value !in s.movable)
    requires at == at0 || (at.Some? && at.value in Row(s, p))
    ensures at.Some? ==> at.value !in Row(s, q)
  {
    hide Only;
  }

  lemma AtIs(s: Forest, r: Forest, p: Place, target: Place, at0: Option<Node>, at: Option<Node>)
    requires Lined(s, r, p, target, at0, at)
    ensures at == at0 || (at.Some? && at.value in Row(s, p) && at.value in s.movable)
  {
    hide KeepsNext, Together, NextTo, InRow;
    var done := Row(s, p)[..|Row(s, p)| - |Row(r, p)|];
    if done != [] { assert done[|done| - 1] in Row(s, p); }
  }

  /** A turn that moves the node it visits. */
  lemma LinedMoved(s: Forest, r: Forest, t: Forest, p: Place, target: Place, x: Node, at0: Option<Node>,
                   at: Option<Node>)
    requires Moves(s, r, p, target) && Moves(r, t, p, target) && Lined(s, r, p, target, at0, at)
    requires p in r.lists && x in r.lists[p] && x in r.movable && Moved(r, t) == {x}
    requires Pending(s, r, p, From(r.lists[p], x)) && (at0.Some? ==> at0.value !in s.movable)
    requires KeepsNext(r, t, target, at) && NextTo(t.lists[target], at) == Some(x)
    ensures Lined(s, t, p, target, at0, Some(x))
  {
    hide Moves, Only, NextTo, KeepsNext, Together, Begun, From, Linked, Leveled, Pending, NoDup, Without;
    MovesParts(s, r, p, target);
    MovesParts(r, t, p, target);
    AtIs(s, r, p, target, at0, at);
    KeepsNextThen(s, r, t, target, at0, at);
    LeftAhead(s, r, p, target, From(r.lists[p], x));
    FirstOnly(r.lists[p], r.movable, x);
    var row, left := Row(s, p), Row(r, p);
    OnlyNoDup(s.lists[p], s.movable);
    OnlyNoDup(r.lists[p], r.movable);
    RowLeft(r, t, p, target, p);
    WithoutFirst(left, x);
    NotInRow(s, p, at0);
    TargetHeld(r, t, target, at);
    BegunStays(r, t, target, row, left, at0, at);
    assert x in Moved(r, t);
    BegunMore(row, left, t.movable, t.lists[target], at0, at);
    forall q | q in s.lists && q != p ensures Together(s, t, target, q) {
      AtElsewhere(s, row, p, q, at0, at);
      OthersStay(r, t, p, target, x, q);
      TogetherStays(s, r, t, p, target, at, q);
    }
  }

  lemma WithoutFirst(l: seq<Node>, x: Node)
    requires NoDup(l) && l != [] && l[0] == x
    ensures Without(l, {x}) == l[1..]
  {
    WithoutOthers(l[1..], {x});
    assert [] + l[1..] == l[1..];
  }

  lemma NotInRow(s: Forest, p: Place, at0: Option<Node>)
    requires p in s.lists && (at0.Some? ==> at0.value !in s.movable)
    ensures at0.Some? ==> at0.value !in Row(s, p)
  {
    hide Only;
  }

  lemma TargetHeld(r: Forest, t: Forest, target: Place, at: Option<Node>)
    requires KeepsNext(r, t, target, at)
    ensures target in r.lists && target in t.lists
  {
    hide NextTo;
  }

  lemma OthersStay(r: Forest, t: Forest, p: Place, target: Place, x: Node, q: Place)
    requires Moves(r, t, p, target) && Moved(r, t) == {x} && p in r.lists && x in r.lists[p] && q != p
    requires q in r.lists && target in t.lists
    ensures Together(r, t, target, q)
  {
    hide Only, InRow, Without, Within;
  }

  /** A turn that looks into the node it visits. */
  lemma LinedBelow(s: Forest, r: Forest, t: Forest, p: Place, target: Place, x: Node, at0: Option<Node>,
                   at: Option<Node>)
    requires Moves(s, r, p, target) && Moves(r, t, p, target) && Lined(s, r, p, target, at0, at)
    requires p in r.lists && x in r.nodes && r.root[x] == p && x !in r.movable && Visited(r, t, x)
    requires at0.Some? ==> at0.value !in s.movable
    requires KeepsNext(r, t, target, at) && AllTogether(r, t, target)
    ensures Lined(s, t, p, target, at0, at)
  {
    hide Moves, Only, NextTo, KeepsNext, Together, Begun, From, Linked, Leveled, NoDup, Without, Visited;
    MovesParts(s, r, p, target);
    MovesParts(r, t, p, target);
    AtIs(s, r, p, target, at0, at);
    KeepsNextThen(s, r, t, target, at0, at);
    var row, left := Row(s, p), Row(r, p);
    ListNoDup(s, p);
    OnlyNoDup(s.lists[p], s.movable);
    NoneOfList(r, t, p, x);
    RowStays(r, t, p, target, p);
    NotInRow(s, p, at0);
    TargetHeld(r, t, target, at);
    BegunStays(r, t, target, row, left, at0, at);
    forall q | q in s.lists && q != p ensures Together(s, t, target, q) {
      AtElsewhere(s, row, p, q, at0, at);
      TogetherStays(s, r, t, p, target, at, q);
    }
  }

  lemma NoneOfList(r: Forest, t: Forest, p: Place, x: Node)
    requires Consistent(r) && r.movable <= r.nodes && p in r.lists && x in r.nodes && r.root[x] == p
    requires x !in r.movable && Visited(r, t, x)
    ensures forall n :: n in Row(r, p) ==> n !in Moved(r, t)
  {
    hide Only, AllMoved;
    forall n | n in Row(r, p) ensures n !in Moved(r, t) {
      if n in Moved(r, t) { UnderDeeper(r, n, x); }
    }
  }

  lemma LinedDone(s: Forest, r: Forest, p: Place, target: Place, at0: Option<Node>, at: Option<Node>)
    requires Moves(s, r, p, target) && Lined(s, r, p, target, at0, at) && Pending(s, r, p, [])
    ensures Rows(s, r, p, target, at0)
  {
    hide Moves, Only, NextTo, KeepsNext, Linked, Leveled, NoDup, Without;
    LeftAhead(s, r, p, target, []);
    TargetHeld(s, r, target, at0);
    var row, left := Row(s, p), Row(r, p);
    assert row[..|row|] == row;
  }

  /** When nothing happens. */
  lemma NothingInRows(s: Forest, target: Place, at: Option<Node>)
    requires target in s.lists
    ensures KeepsNext(s, s, target, at) && AllTogether(s, s, target)
  {
    hide Only, NextTo;
  }

  /** What a turn does: the visited node is put where bookmarks are put, or what is below it comes in
      rows. */
  ghost predicate RowTurn(r: Forest, t: Forest, target: Place, x: Node, at: Option<Node>) {
    && KeepsNext(r, t, target, at)
    && if x in r.movable then NextTo(t.lists[target], at) == Some(x) else AllTogether(r, t, target)
  }

  lemma PlacedTurn(s: Forest, x: Node, dest: Node, asChild: bool, r: Forest)
    requires CanMove(s, x, dest, asChild) && r.lists == Placed(s, x, dest, asChild).lists
    ensures RowTurn(s, r, Target(s, dest, asChild), x, Spot(dest, asChild))
  {
    hide KeepsNext, NextTo, AllTogether;
    PlacedNext(s, x, dest, asChild, r);
    TargetHeld(s, r, Target(s, dest, asChild), Spot(dest, asChild));
  }

  lemma BelowTurn(r: Forest, t: Forest, target: Place, x: Node, at: Option<Node>)
    requires Rows(r, t, Some(x), target, at) && x !in r.movable
    ensures RowTurn(r, t, target, x, at)
  {
    hide KeepsNext, NextTo, AllTogether;
  }

  lemma NothingTurn(s: Forest, target: Place, x: Node, at: Option<Node>)
    requires target in s.lists && x !in s.movable
    ensures RowTurn(s, s, target, x, at)
  {
    hide KeepsNext, NextTo, AllTogether;
    NothingInRows(s, target, at);
  }

  lemma LinedStep(s: Forest, r: Forest, t: Forest, p: Place, target: Place, x: Node, dest0: Node, asChild0: bool,
                  dest: Node, asChild: bool, next: Node, nextAsChild: bool)
    requires Moves(s, r, p, target) && Moves(r, t, p, target) && dest0 !in s.movable
    requires Lined(s, r, p, target, Spot(dest0, asChild0), Spot(dest, asChild))
    requires p in r.lists && x in r.lists[p] && x in r.nodes && r.root[x] == p && Visited(r, t, x)
    requires Pending(s, r, p, From(r.lists[p], x)) && RowTurn(r, t, target, x, Spot(dest, asChild))
    requires if x in r.movable then Moved(r, t) == {x} && next == x && !nextAsChild
             else next == dest && nextAsChild == asChild
    ensures Lined(s, t, p, target, Spot(dest0, asChild0), Spot(next, nextAsChild))
  {
    hide Moves, Lined, KeepsNext, NextTo, AllTogether, Pending, Visited, Linked, Leveled, From;
    var at0, at := Spot(dest0, asChild0), Spot(dest, asChild);
    if x in r.movable {
      LinedMoved(s, r, t, p, target, x, at0, at);
    } else {
      LinedBelow(s, r, t, p, target, x, at0, at);
    }
  }

  // ---- the result

  predicate StretchAt(l: seq<Node>, row: seq<Node>, i: nat) { i + |row| <= |l| && l[i..i + |row|] == row }

  predicate BeginsAt(l: seq<Node>, at: Option<Node>, i: nat) {
    if at.Some? then 0 < i <= |l| && l[i - 1] == at.value else i == 0
  }

  lemma {:induction false} FoundAt(l: seq<Node>, at: Option<Node>, x: Node) returns (i: nat)
    requires NoDup(l) && NextTo(l, at) == Some(x)
    ensures i < |l| && l[i] == x && BeginsAt(l, at, i)
  {
    i := 0;
    if at.Some? {
      FollowingIn(l, at.value);
      var j :| 0 <= j < |l| && l[j] == at.value;
      FollowingAt(l, j);
      i := j + 1;
    }
  }

  /** After all bookmarks have been gone through: the marked ones of a list have all stayed, or they
      stand at the target one directly behind the other, in the order they had in their list; they have
      not stayed if one of them was not in a marked folder; and those of the top list begin in front
      of everything in the selected folder, or directly behind the selected bookmark. */
  lemma MovedInRows(s: Forest, r: Forest, target: Place, at: Option<Node>, q: Place)
    requires Moves(s, r, None, target) && AllMoved(s, r, None) && Rows(s, r, None, target, at)
    requires q in s.lists && Row(s, q) != []
    ensures var row := Row(s, q);
            || (forall n :: n in row ==> n in r.movable && r.root[n] == q && !Exposed(s, n, None))
            || (target in r.lists && (forall n :: n in row ==> n !in r.movable)
                && exists i: nat :: StretchAt(r.lists[target], row, i)
                     && (q == None ==> BeginsAt(r.lists[target], at, i)))
  {
    hide Only, KeepsNext, NextTo, Linked, Leveled, Without, Within, StretchAt, BeginsAt;
    MovesParts(s, r, None, target);
    RootsInside(r);
    TargetHeld(s, r, target, at);
    var l, row := r.lists[target], Row(s, q);
    ListNoDup(r, target);
    ListsAre(s, q);
    if forall n :: n in row ==> n in r.movable {
      forall n | n in row ensures n in r.nodes && r.root[n] == q && !Exposed(s, n, None) {
        assert n !in Moved(s, r);
      }
    } else {
      assert row[0] in row && row[0] in Moved(s, r);
      ListsAre(r, target);
      var i := StretchFrom(l, row, if q == None then at else None, q == None);
    }
  }

  lemma StretchFrom(l: seq<Node>, row: seq<Node>, at: Option<Node>, begins: bool) returns (i: nat)
    requires NoDup(l) && row != [] && row[0] in l && InRow(l, row) && (begins ==> NextTo(l, at) == Some(row[0]))
    ensures StretchAt(l, row, i) && (begins ==> BeginsAt(l, at, i))
  {
    hide NextTo, InRow, NoDup;
    if begins {
      i := FoundAt(l, at, row[0]);
    } else {
      i :| i < |l| && l[i] == row[0];
    }
    RowIsStretch(l, row, i);
  }

  // ---- an example

  /** The selected bookmark 0, the marked bookmark 1, the folder 2 with the marked bookmark 3 in it, and
      the marked bookmark 4. */
  function Quintet(): Forest {
    var lists := map[None := [0, 1, 2, 4], Some(0) := [], Some(1) := [], Some(2) := [3], Some(3) := [], Some(4) := []];
    Forest({0, 1, 2, 3, 4}, {2}, map[0 := None, 1 := None, 2 := None, 3 := Some(2), 4 := None], lists, lists,
           map[0 := 0, 1 := 0, 2 := 0, 3 := 1, 4 := 0], {1, 3, 4})
  }

  lemma OnlyFirst(x: Node, l: seq<Node>, m: set<Node>)
    ensures Only([x] + l, m) == (if x in m then [x] else []) + Only(l, m)
    ensures Only([], m) == []
  {
    assert ([x] + l)[1..] == l;
  }

  lemma QuintetRow()
    ensures None in Quintet().lists && Row(Quintet(), None) == [1, 4]
  {
    hide Only;
    var m := {1, 3, 4};
    OnlyFirst(4, [], m);
    OnlyFirst(2, [4], m);
    OnlyFirst(1, [2, 4], m);
    OnlyFirst(0, [1, 2, 4], m);
    assert [0] + [1, 2, 4] == [0, 1, 2, 4] && [1] + [2, 4] == [1, 2, 4] && [2] + [4] == [2, 4] && [4] + [] == [4];
  }

  lemma QuintetMoved(r: Forest)
    requires Moves(Quintet(), r, None, None) && AllMoved(Quintet(), r, None)
    ensures var m := Moved(Quintet(), r); 1 in m && 3 in m && 4 in m && 0 !in m && 2 !in m
  {
    hide Linked, Without, Within;
    var s := Quintet();
    assert Exposed(s, 1, None) && Exposed(s, 4, None) && Exposed(s, 3, None);
  }

  lemma QuintetTop()
    ensures None in Quintet().lists && Quintet().lists[None] == [0, 1, 2, 4]
    ensures 2 in From(Quintet().lists[None], 0)
  {
  }

  lemma QuintetBehind(r: Forest)
    requires Moves(Quintet(), r, None, None) && AllMoved(Quintet(), r, None)
    ensures None in r.lists && 2 in From(r.lists[None], 0)
  {
    hide Linked, Leveled, Without, Within, Moves, AllMoved, Quintet, Moved, From;
    QuintetMoved(r);
    QuintetTop();
    SameOrder(Quintet(), r, None, None, None);
    OrderStays(Quintet().lists[None], r.lists[None], Moved(Quintet(), r), 0, 2);
  }

  /** Bookmarks do not end in the order in which they are come to: what is in a folder is put where the
      folder is come to, and what is marked in the list behind the folder is put in front of it. */
  lemma InnerComesBehind(r: Forest)
    requires Moves(Quintet(), r, None, None) && AllMoved(Quintet(), r, None)
    requires Rows(Quintet(), r, None, None, Some(0)) && BookmarkOrder.Behind(Quintet(), r, 0, false, None)
    requires BookmarkWhole.Close(Quintet(), r, 0, false, None)
    ensures None in r.lists
    ensures var l := r.lists[None];
            && Following(l, 0) == Some(1) && Following(l, 1) == Some(4) && 3 in From(l, 4) && 2 in From(l, 3)
  {
    var s := Quintet();
    QuintetRow();
    QuintetMoved(r);
    QuintetBehind(r);
    QuintetRowMoved(s, r);
    hide Quintet, KeepsNext, From, Following, Without, Only, Linked, Leveled, Moved, Moves, AllMoved;
    var l := r.lists[None];
    MovesParts(s, r, None, None);
    ListNoDup(r, None);
    FollowingIn(l, 0);
    FollowingIn(l, 1);
    FromFollowing(l, 0, 3);
    FromFollowing(l, 1, 3);
    assert 3 in Moved(s, r) && 2 !in Moved(s, r) && BookmarkWhole.IsBehind(l, 0, false, 2);
  }

  lemma QuintetRowMoved(s: Forest, r: Forest)
    requires None in s.lists && Row(s, None) == [1, 4] && Rows(s, r, None, None, Some(0)) && 1 in Moved(s, r)
    ensures None in r.lists && Following(r.lists[None], 0) == Some(1) && Following(r.lists[None], 1) == Some(4)
  {
    hide KeepsNext, From, Following, Only;
    TargetHeld(s, r, None, Some(0));
    var row := Row(s, None);
    assert row[0] in row && row[0] !in r.movable && Together(s, r, None, None);
    assert Following(r.lists[None], row[0]) == Some(row[1]);
  }
}
