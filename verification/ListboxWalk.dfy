/** Walking over the items of a listbox, and moving the selected one (src/bfu/listbox.c:122-357). */
module ListboxWalks {
  import opened Basics
  import opened ListboxItems

  // ---- counting

  /** The items of a list that count. */
  function Shown(l: seq<Item>, visible: set<Item>): seq<Item> {
    if l == [] then [] else (if l[0] in visible then [l[0]] else []) + Shown(l[1..], visible)
  }

  lemma {:induction false} ShownConcat(a: seq<Item>, b: seq<Item>, visible: set<Item>)
    ensures Shown(a + b, visible) == Shown(a, visible) + Shown(b, visible)
  {
    hide Shown;
    if a == [] {
      assert a + b == b;
      ShownNone(visible);
    } else {
      assert (a + b)[0] == a[0] && (a + b)[1..] == a[1..] + b;
      ShownConcat(a[1..], b, visible);
      ShownFirst(a, visible);
      ShownFirst(a + b, visible);
    }
  }

  lemma ShownNone(visible: set<Item>)
    ensures Shown([], visible) == []
  {
  }

  lemma ShownFirst(a: seq<Item>, visible: set<Item>)
    requires a != []
    ensures Shown(a, visible) == if a[0] in visible then [a[0]] + Shown(a[1..], visible) else Shown(a[1..], visible)
  {
  }

  lemma ShownOne(x: Item, visible: set<Item>)
    ensures Shown([x], visible) == if x in visible then [x] else []
  {
    assert [x][1..] == [];
  }

  /** The shown items of a box, in order. */
  ghost function Rows(t: Items): seq<Item>
    requires WellFormed(t)
  {
    Shown(All(t), t.visible)
  }

  /** How many shown items come before an item. */
  ghost function Row(t: Items, x: Item): nat
    requires WellFormed(t) && x in t.nodes
  {
    |Shown(UpTo(t, x), t.visible)|
  }

  function Counts(t: Items, x: Item): nat { if x in t.visible then 1 else 0 }

  lemma AllFrom(t: Items, x: Item)
    requires WellFormed(t) && x in t.nodes && Reached(t, x)
    ensures UpTo(t, x) + From(t, x) == All(t)
  {
    HasRoot(t, x);
    if t.root[x].Some? { ParentAt2(t, x); }
    AllJoined(t, t.root[x], Pos(t, x));
  }

  lemma FromStarts(t: Items, x: Item)
    requires WellFormed(t) && x in t.nodes
    ensures From(t, x) != [] && From(t, x)[0] == x
  {
    hide WellFormed, From, After, Flat;
    HasRoot(t, x);
    FromIs(t, x);
  }

  /** What is walked over after an item. */
  ghost function Beyond(t: Items, x: Item): (r: seq<Item>)
    requires WellFormed(t) && x in t.nodes
    ensures From(t, x) == [x] + r
  {
    FromStarts(t, x);
    From(t, x)[1..]
  }

  lemma BeyondIs(t: Items, x: Item, r: seq<Item>)
    requires WellFormed(t) && x in t.nodes && From(t, x) == [x] + r
    ensures Beyond(t, x) == r
  {
    assert Beyond(t, x) == ([x] + Beyond(t, x))[1..] && r == ([x] + r)[1..];
  }

  lemma ShownAround(a: seq<Item>, x: Item, b: seq<Item>, visible: set<Item>)
    ensures Shown(a + ([x] + b), visible) == Shown(a, visible) + (if x in visible then [x] else []) + Shown(b, visible)
  {
    ShownConcat(a, [x] + b, visible);
    ShownConcat([x], b, visible);
    ShownOne(x, visible);
  }

  /** The item in a row is the one that has that many shown items before it. */
  lemma RowHolds(t: Items, x: Item)
    requires WellFormed(t) && x in t.nodes && Reached(t, x)
    ensures Row(t, x) + Counts(t, x) + |Shown(Beyond(t, x), t.visible)| == |Rows(t)|
    ensures x in t.visible ==> Rows(t)[Row(t, x)] == x
  {
    hide WellFormed, From, UpTo, Reached, All, Shown, Beyond;
    AllFrom(t, x);
    ShownAround(UpTo(t, x), x, Beyond(t, x), t.visible);
  }

  /** One step further down there is one more item before. */
  lemma NextRow(t: Items, x: Item, y: Item)
    requires WellFormed(t) && x in t.nodes && y in t.nodes && Reached(t, x) && Reached(t, y)
    requires Beyond(t, x) == From(t, y)
    ensures Row(t, y) == Row(t, x) + Counts(t, x)
  {
    hide WellFormed, From, UpTo, Reached, All, Shown, Beyond;
    AllFrom(t, x);
    AllFrom(t, y);
    var u, v := UpTo(t, x), UpTo(t, y);
    assert v == All(t)[..|v|] && u + [x] == All(t)[..|u| + 1];
    ShownConcat(u, [x], t.visible);
    ShownOne(x, t.visible);
  }

  lemma PrevRow(t: Items, x: Item, y: Item)
    requires WellFormed(t) && x in t.nodes && y in t.nodes && UpTo(t, x) == UpTo(t, y) + [y]
    ensures Row(t, x) == Row(t, y) + Counts(t, y)
  {
    hide WellFormed, From, UpTo;
    ShownConcat(UpTo(t, y), [y], t.visible);
    ShownOne(y, t.visible);
  }

  lemma ReachedBeside(t: Items, x: Item, y: Item)
    requires WellFormed(t) && x in t.nodes && y in t.nodes && t.root[x] == t.root[y] && Reached(t, x)
    ensures Reached(t, y)
  {
  }

  lemma ReachedAbove(t: Items, x: Item)
    requires WellFormed(t) && x in t.nodes && t.root[x].Some? && Reached(t, x)
    ensures t.root[x].value in t.nodes && Some(t.root[x].value) in t.lists && Open(t, t.root[x].value)
    ensures Reached(t, t.root[x].value)
  {
    ParentAt2(t, x);
    HasRoot(t, t.root[x].value);
  }

  lemma ReachedBelow(t: Items, x: Item, y: Item)
    requires WellFormed(t) && x in t.nodes && y in t.nodes && Some(x) in t.lists && Open(t, x) && Reached(t, x)
    requires t.root[y] == Some(x)
    ensures Reached(t, y)
  {
  }

  lemma NextIs(t: Items, x: Item)
    requires WellFormed(t) && x in t.nodes
    ensures x in t.root && t.root[x] in t.lists && Some(x) in t.lists
    ensures var l, i := t.lists[t.root[x]], Pos(t, x);
            && i < |l| && NextOf(t, x) == (if i + 1 < |l| then Some(l[i + 1]) else None)
            && PrevOf(t, x) == (if 0 < i then Some(l[i - 1]) else None)
  {
    HasRoot(t, x);
  }

  /** The first item of the box. */
  predicate IsFirst(t: Items, x: Item) { None in t.lists && t.lists[None] != [] && t.lists[None][0] == x }

  predicate IsOpen(t: Items, x: Item) { Some(x) in t.lists && Open(t, x) }

  lemma FirstIs(t: Items, x: Item)
    requires WellFormed(t) && x in t.nodes
    ensures x in t.root && (IsFirst(t, x) <==> t.root[x] == None && PrevOf(t, x) == None)
  {
    hide WellFormed, Pos;
    NextIs(t, x);
    if IsFirst(t, x) { ItemAt(t, None, 0); }
  }

  // ---- steps

  /** The part of traverse_listbox_items_list that goes down by one item. */
  method StepDown(t: Items, start: Item) returns (item: Item, stop: bool)
    requires WellFormed(t) && start in t.nodes && Reached(t, start)
    ensures item in t.nodes && Reached(t, item)
    ensures stop ==> item == start && Beyond(t, start) == []
    ensures !stop ==> Beyond(t, start) == From(t, item)
  {
    hide WellFormed, Reached, From, After, Flat, Pos, Beyond;
    item, stop := start, false;
    NextIs(t, item);
    if Open(t, item) {
      FromOpen(t, item);
      ReachedBelow(t, item, t.lists[Some(item)][0]);
      BeyondIs(t, item, From(t, t.lists[Some(item)][0]));
      item := t.lists[Some(item)][0];
      return;
    }
    FromClosed(t, item);
    BeyondIs(t, item, After(t, t.root[item], Pos(t, item) + 1));
    var cragsman: Option<Item> := None;
    var croot, cnext := t.root[item], NextOf(t, item);
    while croot.Some? && cnext.None?
      invariant item in t.nodes && Reached(t, item) && item in t.root && croot == t.root[item] && croot in t.lists
      invariant cnext == NextOf(t, item)
      invariant Pos(t, item) < |t.lists[croot]|
      invariant cnext == if Pos(t, item) + 1 < |t.lists[croot]| then Some(t.lists[croot][Pos(t, item) + 1]) else None
      invariant Beyond(t, start) == After(t, croot, Pos(t, item) + 1)
      invariant if cragsman.Some? then cragsman.value == start else item == start
      decreases DepthIn(t, croot)
    {
      if cragsman.None? { cragsman := Some(item); }
      AfterLast(t, croot);
      ReachedAbove(t, item);
      ParentAt(t, croot.value);
      item := croot.value;
      NextIs(t, item);
      croot, cnext := t.root[item], NextOf(t, item);
    }
    if croot.None? && cnext.None? {
      stop := true;
      AfterLast(t, croot);
      if cragsman.Some? { item := cragsman.value; }
    }
    if !stop {
      AfterNext(t, croot, Pos(t, item) + 1);
      ReachedBeside(t, item, cnext.value);
      item := cnext.value;
    }
  }

  /** The part that goes up by one item. */
  method StepUp(t: Items, start: Item) returns (item: Item, stop: bool)
    requires WellFormed(t) && start in t.nodes && Reached(t, start)
    ensures item in t.nodes && Reached(t, item)
    ensures item == start ==> stop && UpTo(t, start) == []
    ensures item != start ==> UpTo(t, start) == UpTo(t, item) + [item]
    ensures stop ==> UpTo(t, item) == []
    ensures stop <==> IsFirst(t, item) && (item == start || IsOpen(t, item))
  {
    hide WellFormed, Reached, UpTo, Before, FlatTo, Flat, Pos;
    item, stop := start, false;
    NextIs(t, item);
    var levmove := false;
    var croot, cprev := t.root[item], PrevOf(t, item);
    if croot.Some? && cprev.None? {
      UpToFirst(t, item);
      ReachedAbove(t, item);
      item := croot.value;
      NextIs(t, item);
      croot, cprev := t.root[item], PrevOf(t, item);
      levmove := true;
    }
    FirstIs(t, item);
    if croot.None? && cprev.None? {
      UpToFirst(t, item);
      stop := true;
      levmove := true;
    }
    if !levmove && !stop {
      UpToPrev(t, item);
      ReachedBeside(t, item, cprev.value);
      item := cprev.value;
      NextIs(t, item);
      while Open(t, item)
        invariant item in t.nodes && Some(item) in t.lists && Reached(t, item)
        invariant UpTo(t, start) == UpTo(t, item) + Block(t, item)
        decreases t.height - DepthIn(t, Some(item))
      {
        BlockOpen(t, item);
        var l := t.lists[Some(item)];
        ItemAt(t, Some(item), |l| - 1);
        ReachedBelow(t, item, l[|l| - 1]);
        item := l[|l| - 1];
      }
    }
    FirstIs(t, item);
    NotBeforeItself(t, start, item);
  }

  lemma NotBeforeItself(t: Items, x: Item, y: Item)
    requires WellFormed(t) && x in t.nodes && y in t.nodes
    ensures UpTo(t, x) == UpTo(t, y) + [y] ==> x != y
  {
    hide WellFormed, UpTo;
  }

  // ---- the walk

  /** What is called for every item that is left: nothing, calc_dist, or test_search. */
  datatype Callback = NoCall | CalcDist | TestSearch(item: Item)

  /** The items that a walk counts. */
  function Followed(t: Items, followVisible: bool): Items {
    if followVisible then t else t.(visible := t.nodes)
  }

  lemma FollowedWellFormed(t: Items, followVisible: bool)
    requires WellFormed(t)
    ensures WellFormed(Followed(t, followVisible))
  {
    hide NoDup, IsPlace, DepthIn;
    var r := Followed(t, followVisible);
    forall p ensures IsPlace(r, p) == IsPlace(t, p) && DepthIn(r, p) == DepthIn(t, p) {
      SamePlaces(t, followVisible, p);
    }
  }

  lemma SamePlaces(t: Items, followVisible: bool, p: Place)
    ensures var r := Followed(t, followVisible); IsPlace(r, p) == IsPlace(t, p) && DepthIn(r, p) == DepthIn(t, p)
  {
  }

  function Min(a: int, b: int): int { if a < b then a else b }

  function Max(a: int, b: int): int { if a > b then a else b }

  function Clamp(x: int, n: nat): int
    requires n > 0
  {
    if x < 0 then 0 else if x >= n then n - 1 else x
  }

  /** The row of the last shown item up to and including `x`. */
  ghost function At(t: Items, x: Item): int
    requires WellFormed(t) && x in t.nodes
  {
    Row(t, x) + Counts(t, x) - 1
  }

  /** The callback: calc_dist counts into `d` in the direction of the walk, test_search until it is
      at the item sought, where it stops the walk. */
  method Call(fn: Callback, item: Item, offset0: int, d0: int) returns (offset: int, d: int)
    ensures fn.CalcDist? ==> offset == offset0 && d == d0 + if offset0 < 0 then -1 else if offset0 > 0 then 1 else 0
    ensures fn.TestSearch? ==> if item == fn.item then offset == 0 && d == d0 else offset == offset0 && d == d0 + 1
    ensures fn.NoCall? ==> offset == offset0 && d == d0
  {
    offset, d := offset0, d0;
    match fn {
      case NoCall =>
      case CalcDist =>
        if offset < 0 { d := d - 1; } else if offset > 0 { d := d + 1; }
      case TestSearch(x) =>
        if item != x { d := d + 1; } else { offset := 0; }
    }
  }

  /** A turn of the walk down. */
  method GoDown(t: Items, item0: Item, offset0: int, infinite: bool, visibleItem0: Item)
    returns (item: Item, offset: int, stop: bool, visibleItem: Item)
    requires WellFormed(t) && item0 in t.nodes && Reached(t, item0)
    ensures item in t.nodes && Reached(t, item)
    ensures if stop then item == item0 && |Rows(t)| == Row(t, item0) + Counts(t, item0)
            else Row(t, item) == Row(t, item0) + Counts(t, item0) && |From(t, item)| < |From(t, item0)|
    ensures offset == offset0 - (if infinite then 0 else 1) + 1 - Counts(t, item)
    ensures visibleItem == if item in t.visible then item else visibleItem0
  {
    hide WellFormed, Reached, Rows, Row, From, UpTo, Beyond;
    offset, visibleItem := offset0, visibleItem0;
    if !infinite { offset := offset - 1; }
    RowHolds(t, item0);
    item, stop := StepDown(t, item0);
    if item !in t.visible { offset := offset + 1; } else { visibleItem := item; }
    if !stop { NextRow(t, item0, item); }
  }

  /** A turn of the walk up. */
  method GoUp(t: Items, item0: Item, offset0: int, infinite: bool, visibleItem0: Item)
    returns (item: Item, offset: int, stop: bool, visibleItem: Item)
    requires WellFormed(t) && item0 in t.nodes && Reached(t, item0)
    ensures item in t.nodes && Reached(t, item)
    ensures stop ==> Row(t, item) == 0
    ensures stop <==> IsFirst(t, item) && (item == item0 || IsOpen(t, item))
    ensures if item == item0 then stop
            else Row(t, item0) == Row(t, item) + Counts(t, item) && |UpTo(t, item)| < |UpTo(t, item0)|
    ensures offset == offset0 + (if infinite then 0 else 1) - (1 - Counts(t, item))
    ensures visibleItem == if item in t.visible then item else visibleItem0
  {
    hide WellFormed, Reached, Rows, From, UpTo, Beyond;
    offset, visibleItem := offset0, visibleItem0;
    if !infinite { offset := offset + 1; }
    item, stop := StepUp(t, item0);
    if item != item0 { PrevRow(t, item0, item); }
    if item !in t.visible { offset := offset - 1; } else { visibleItem := item; }
  }

  /** A shown item that a walk is to find. */
  ghost predicate Sought(t: Items, start: Item, x: Item)
    requires WellFormed(t) && start in t.nodes
  {
    x in t.nodes && Reached(t, x) && x in t.visible && Row(t, start) <= Row(t, x)
  }

  /** The walk comes to the item. */
  ghost predicate ReachedIn(t: Items, x: Item, followVisible: bool)
    requires WellFormed(t) && x in t.nodes
  {
    FollowedWellFormed(t, followVisible);
    Reached(Followed(t, followVisible), x)
  }

  /** traverse_listbox_items_list, without callbacks that free items or turn around. */
  method Traverse(t0: Items, start: Item, offset0: int, followVisible: bool, fn: Callback)
    returns (visibleItem: Item, d: int)
    requires WellFormed(t0) && start in t0.nodes && ReachedIn(t0, start, followVisible)
    requires fn.TestSearch? ==> offset0 == 0
    ensures WellFormed(Followed(t0, followVisible)) && visibleItem in t0.nodes
    ensures fn.TestSearch? || Landed(Followed(t0, followVisible), start, offset0, visibleItem)
    ensures fn.CalcDist? && offset0 != 0 ==> d == Counted(Followed(t0, followVisible), start, offset0)
    ensures var t := Followed(t0, followVisible);
      fn.TestSearch? && Sought(t, start, fn.item) ==> d == Row(t, fn.item) - Row(t, start)
  {
    hide WellFormed, Reached, Rows, Row, From, UpTo, Beyond, Followed, Going, At;
    FollowedNodes(t0, followVisible);
    FollowedWellFormed(t0, followVisible);
    var t := Followed(t0, followVisible);
    visibleItem, d := start, 0;
    var infinite := offset0 == 0;
    var item, offset, stop := start, if infinite then 1 else offset0, false;
    ghost var down := offset0 >= 0;
    GoingFirst(t, start, offset0, fn);
    while offset != 0 && !stop
      invariant item in t.nodes && Reached(t, item) && visibleItem in t.nodes && Reached(t, visibleItem)
      invariant visibleItem in t.visible || visibleItem == start
      invariant if down then offset >= 0 else offset <= 0
      invariant Going(t, start, offset0, fn, Walk(item, offset, stop, visibleItem, d, infinite))
      decreases if stop || offset == 0 then 0 else 1 + if down then |From(t, item)| else |UpTo(t, item)|
    {
      ghost var before := Walk(item, offset, stop, visibleItem, d, infinite);
      if fn != NoCall && item in t.visible {
        offset, d := Call(fn, item, offset, d);
        if offset == 0 {
          infinite := false;
          GoingFound(t, start, offset0, fn, before);
          continue;
        }
      }
      ghost var called := Walk(item, offset, stop, visibleItem, d, infinite);
      if offset > 0 {
        item, offset, stop, visibleItem := GoDown(t, item, offset, infinite, visibleItem);
      } else {
        item, offset, stop, visibleItem := GoUp(t, item, offset, infinite, visibleItem);
      }
      GoingOn(t, start, offset0, fn, before, called, Walk(item, offset, stop, visibleItem, d, infinite));
    }
    GoingEnds(t, start, offset0, fn, Walk(item, offset, stop, visibleItem, d, infinite));
  }

  /** The item that a walk ends at: as many rows away, or in the last or the first row; and if that is
      no other row than where it began, the item it began at. */
  ghost predicate Landed(t: Items, start: Item, offset: int, x: Item)
    requires WellFormed(t) && start in t.nodes && x in t.nodes
  {
    && Reached(t, x) && (x in t.visible || x == start)
    && (offset >= 0 ==>
          && At(t, x) == (if offset == 0 then |Rows(t)| - 1 else Min(At(t, start) + offset, |Rows(t)| - 1))
          && (At(t, x) == At(t, start) ==> x == start))
    && (offset < 0 ==> Row(t, x) == Max(Row(t, start) + offset, 0) && (Row(t, x) == Row(t, start) ==> x == start))
  }

  /** There is only one. */
  lemma LandedOnce(t: Items, start: Item, offset: int, x: Item, y: Item)
    requires WellFormed(t) && start in t.nodes && x in t.nodes && y in t.nodes
    requires Landed(t, start, offset, x) && Landed(t, start, offset, y)
    ensures x == y
  {
    hide WellFormed, Reached, Rows, Row;
    if x != start && y != start { SameRow(t, x, y); }
  }

  /** What calc_dist counts on the way: the shown items that are left.  Past the end that is one more
      than the rows; past the beginning too, unless the first item of the box is a folder that is climbed
      to. */
  ghost function Counted(t: Items, start: Item, offset: int): int
    requires WellFormed(t) && start in t.nodes
  {
    var before, here := Row(t, start), Counts(t, start);
    if offset > 0 then Min(offset - 1 + here, |Rows(t)| - before)
    else if offset < 0 then Max(offset + 1 - here, (if ClimbsToFirst(t, start) then 1 else 0) - before - here)
    else 0
  }

  predicate ClimbsToFirst(t: Items, start: Item) {
    None in t.lists && t.lists[None] != [] && start != t.lists[None][0] && IsOpen(t, t.lists[None][0])
  }

  /** The variables of the loop. */
  datatype Walk = Walk(item: Item, offset: int, stop: bool, visibleItem: Item, d: int, infinite: bool)

  /** How the variables are tied to the rows that have been passed. */
  ghost predicate Going(t: Items, start: Item, offset0: int, fn: Callback, w: Walk)
    requires WellFormed(t) && start in t.nodes && w.item in t.nodes && w.visibleItem in t.nodes
  {
    && (w.item in t.visible ==> w.item == w.visibleItem)
    && (w.offset == 0 && !w.stop && !fn.TestSearch? ==> w.item in t.visible)
    && (w.infinite ==> offset0 == 0) && (offset0 == 0 && !fn.TestSearch? ==> w.offset > 0)
    && (offset0 == 0 && w.offset > 0 ==> w.infinite)
    && (if offset0 >= 0 then At(t, w.item) == At(t, w.visibleItem) else Row(t, w.item) == Row(t, w.visibleItem))
    && (!fn.TestSearch? && offset0 > 0 && !w.stop ==> w.offset == offset0 - (At(t, w.visibleItem) - At(t, start)))
    && (offset0 < 0 && !w.stop ==> w.offset == offset0 + (Row(t, start) - Row(t, w.visibleItem)))
    && (if offset0 >= 0 then At(t, w.visibleItem) < |Rows(t)| else Row(t, w.visibleItem) <= Row(t, start))
    && (offset0 >= 0 && w.stop ==>
          At(t, w.visibleItem) == |Rows(t)| - 1 && (offset0 > 0 ==> At(t, start) + offset0 >= |Rows(t)|))
    && (offset0 < 0 && w.stop ==> Row(t, w.visibleItem) == 0 && Row(t, start) + offset0 <= 0)
    && (if offset0 >= 0 then At(t, start) <= At(t, w.visibleItem) else true)
    && ((if offset0 >= 0 then At(t, w.visibleItem) == At(t, start) else Row(t, w.visibleItem) == Row(t, start)) ==>
          w.visibleItem == start)
    && (offset0 < 0 && !w.stop && IsFirst(t, w.item) && IsOpen(t, w.item) ==> w.item == start)
    && (fn.CalcDist? ==> CountsWalk(t, start, offset0, w))
    && (fn.TestSearch? && Sought(t, start, fn.item) ==>
          !w.stop && w.d == Row(t, w.item) - Row(t, start) && Row(t, w.item) <= Row(t, fn.item)
          && (w.offset == 0 ==> w.item == fn.item))
  }

  ghost predicate CountsWalk(t: Items, start: Item, offset0: int, w: Walk)
    requires WellFormed(t) && start in t.nodes && w.item in t.nodes && w.visibleItem in t.nodes
  {
    if offset0 > 0 then w.d == if w.stop then |Rows(t)| - Row(t, start) else Row(t, w.item) - Row(t, start)
    else offset0 < 0 ==>
      if !w.stop then w.d == At(t, w.item) - At(t, start)
      else
        && w.d == (if ClimbsToFirst(t, start) then 1 else 0) - Row(t, start) - Counts(t, start)
        && Row(t, start) + offset0 < (if ClimbsToFirst(t, start) then 1 else 0)
  }

  lemma GoingFirst(t: Items, start: Item, offset0: int, fn: Callback)
    requires WellFormed(t) && start in t.nodes && Reached(t, start)
    requires fn.TestSearch? ==> offset0 == 0
    ensures Going(t, start, offset0, fn,
            Walk(start, if offset0 == 0 then 1 else offset0, false, start, 0, offset0 == 0))
  {
    hide WellFormed, Reached, Rows, Row;
    RowHolds(t, start);
  }

  lemma GoingFound(t: Items, start: Item, offset0: int, fn: Callback, w: Walk)
    requires WellFormed(t) && start in t.nodes && w.item in t.nodes && w.visibleItem in t.nodes
    requires Going(t, start, offset0, fn, w) && w.item in t.visible && fn == TestSearch(w.item) && !w.stop
    requires w.offset != 0
    requires offset0 == 0
    ensures Going(t, start, offset0, fn, w.(offset := 0, infinite := false))
  {
    hide WellFormed, Reached, Rows, Row;
  }

  /** A turn of the loop: the callback, and a step down or up. */
  lemma GoingOn(t: Items, start: Item, offset0: int, fn: Callback, before: Walk, called: Walk, w: Walk)
    requires WellFormed(t) && start in t.nodes && fn.TestSearch? ==> offset0 == 0
    requires WellFormed(t) && start in t.nodes && before.item in t.nodes && before.visibleItem in t.nodes
    requires w.item in t.nodes && w.visibleItem in t.nodes && Reached(t, before.item) && Reached(t, w.item)
    requires Going(t, start, offset0, fn, before) && !before.stop && before.offset != 0
    requires if offset0 >= 0 then before.offset > 0 else before.offset < 0
    requires called == before.(d := called.d)
    requires !(fn.TestSearch? && before.item in t.visible && before.item == fn.item)
    requires called.d == before.d
      + if fn.NoCall? || before.item !in t.visible then 0 else if fn.CalcDist? && offset0 < 0 then -1 else 1
    requires w.d == called.d && w.infinite == called.infinite
    requires w.visibleItem == if w.item in t.visible then w.item else called.visibleItem
    requires offset0 >= 0 ==>
      && w.offset == called.offset - (if called.infinite then 0 else 1) + 1 - Counts(t, w.item)
      && if w.stop then w.item == before.item && |Rows(t)| == Row(t, before.item) + Counts(t, before.item)
         else Row(t, w.item) == Row(t, before.item) + Counts(t, before.item)
    requires offset0 < 0 ==>
      && w.offset == called.offset + (if called.infinite then 0 else 1) - (1 - Counts(t, w.item))
      && (w.stop ==> Row(t, w.item) == 0)
      && (w.stop <==> IsFirst(t, w.item) && (w.item == before.item || IsOpen(t, w.item)))
      && if w.item == before.item then w.stop else Row(t, before.item) == Row(t, w.item) + Counts(t, w.item)
    ensures Going(t, start, offset0, fn, w)
  {
    hide WellFormed, Reached, Rows, Row;
    RowHolds(t, w.item);
    if fn.TestSearch? && Sought(t, start, fn.item) { SoughtHere(t, start, fn.item, before.item); }
  }

  lemma GoingEnds(t: Items, start: Item, offset0: int, fn: Callback, w: Walk)
    requires WellFormed(t) && start in t.nodes && w.item in t.nodes && w.visibleItem in t.nodes
    requires Going(t, start, offset0, fn, w) && (w.offset == 0 || w.stop) && Reached(t, w.item)
    requires Reached(t, w.visibleItem) && (w.visibleItem in t.visible || w.visibleItem == start)
    ensures fn.TestSearch? || Landed(t, start, offset0, w.visibleItem)
    ensures fn.CalcDist? && offset0 != 0 ==> w.d == Counted(t, start, offset0)
    ensures fn.TestSearch? && Sought(t, start, fn.item) ==> w.d == Row(t, fn.item) - Row(t, start)
  {
    hide WellFormed, Reached, Rows, Row;
    RowHolds(t, w.item);
  }

  lemma FollowedNodes(t: Items, followVisible: bool)
    ensures Followed(t, followVisible).nodes == t.nodes
  {
  }

  /** As long as an item that is to be found has not been passed, it is this one or further on. */
  lemma SoughtHere(t: Items, start: Item, x: Item, item: Item)
    requires WellFormed(t) && start in t.nodes && Sought(t, start, x) && item in t.nodes && Reached(t, item)
    requires Row(t, item) <= Row(t, x)
    ensures Row(t, x) < |Rows(t)|
    ensures item != x ==> Row(t, item) + Counts(t, item) <= Row(t, x)
    ensures item == x ==> item in t.visible
  {
    hide WellFormed, Reached, Rows, Row;
    RowHolds(t, x);
    RowHolds(t, item);
  }

  // ---- the window

  /** Two shown items in the same row are the same, so the row that a walk ends in says which item it
      ends at, and a walk back by as much ends where the first one began. */
  lemma SameRow(t: Items, x: Item, y: Item)
    requires WellFormed(t) && x in t.nodes && Reached(t, x) && x in t.visible && y in t.nodes && Reached(t, y)
    requires y in t.visible
    ensures Row(t, x) == Row(t, y) <==> x == y
  {
    hide WellFormed, Reached, Rows, Row;
    RowHolds(t, x);
    RowHolds(t, y);
  }

  lemma FirstItem(t: Items)
    requires WellFormed(t) && None in t.lists && t.lists[None] != []
    ensures var x := t.lists[None][0]; x in t.nodes && Reached(t, x) && Row(t, x) == 0
  {
    hide WellFormed, Flat;
    ItemAt(t, None, 0);
    var x := t.lists[None][0];
    UpToFirst(t, x);
  }

  lemma BoxList(t: Items)
    requires WellFormed(t)
    ensures None in t.lists
  {
    assert IsPlace(t, None);
  }

  /** Whether moving the selection leaves a window in order: it does not go past the end of the
      items, or the window is full; a window of one row jumps to the end. */
  predicate StaysInOrder(topRow: int, selRow: int, rows: int, height: int, dist: int) {
    dist <= 0 || if height == 1 then selRow + dist >= rows - 1 else selRow + dist < rows || rows - topRow >= height
  }

  /** Where moving the selection begins: what is not set is set to the first item, and a hidden top
      item gives way to the next shown one, which is then selected. */
  ghost predicate Begins(t: Items, top: Option<Item>, sel: Option<Item>, from: Item, at: Item)
    requires WellFormed(t)
  {
    && from in t.nodes && at in t.nodes && Reached(t, from) && Reached(t, at)
    && None in t.lists && t.lists[None] != []
    && var a := if top.None? then t.lists[None][0] else top.value;
       a in t.nodes
       && if a in t.visible then from == a && at == (if sel.None? then a else sel.value)
          else Landed(t, a, 1, from) && at == from
  }

  /** By how much it moves: to a shown item at least. */
  function Distance(t: Items, at: Item, dist: int): int { if dist == 0 && at !in t.visible then 1 else dist }

  /** Where it ends. */
  ghost predicate Ends(t: Items, height: nat, from: Item, at: Item, selOffset: int, dist: int, top: Option<Item>,
                       sel: Option<Item>, offset: int)
    requires WellFormed(t) && from in t.nodes && at in t.nodes
  {
    var k := Distance(t, at, dist);
    var o := if k == 0 then selOffset else selOffset + Counted(t, at, k);
    && sel.Some? && sel.value in t.nodes && top.Some? && top.value in t.nodes
    && (if k == 0 then sel.value == at else Landed(t, at, k, sel.value))
    && if o < 0 then offset == 0 && top == sel
       else if o >= height then offset == height - 1 && Landed(t, sel.value, 1 - height, top.value)
       else offset == o && top.value == from
  }

  lemma LandedIsReached(t: Items, start: Item, offset: int, x: Item)
    requires WellFormed(t) && start in t.nodes && x in t.nodes && Landed(t, start, offset, x)
    ensures Reached(t, x)
  {
    hide WellFormed, Reached, Rows, Row;
  }

  lemma NoRows(t: Items)
    requires WellFormed(t) && None in t.lists && t.lists[None] == []
    ensures Rows(t) == []
  {
  }

  /** The row where a move begins that does not begin in order: the first one, or that of the next shown
      item behind the hidden top one. */
  lemma BeginsAt(t: Items, top: Option<Item>, sel: Option<Item>, from: Item, at: Item)
    requires WellFormed(t) && Begins(t, top, sel, from, at)
    requires (top.Some? ==> top.value in t.nodes && Reached(t, top.value))
             && (sel.Some? ==> sel.value in t.nodes && Reached(t, sel.value))
    ensures Reached(t, from) && Reached(t, at)
    ensures top == None && sel == None && |Rows(t)| > 0 ==> from == at && from in t.visible && Row(t, from) == 0
    ensures top.Some? && top.value !in t.visible && Row(t, top.value) < |Rows(t)| ==>
      from == at && from in t.visible && Row(t, from) == Row(t, top.value)
    ensures top.Some? && sel.Some? && top.value in t.visible ==> from == top.value && at == sel.value
  {
    hide WellFormed, Reached, Rows, Row;
    FirstItem(t);
    RowHolds(t, from);
  }

  lemma BeginsOnce(t: Items, top: Option<Item>, sel: Option<Item>, from: Item, at: Item, from': Item, at': Item)
    requires WellFormed(t) && Begins(t, top, sel, from, at) && Begins(t, top, sel, from', at')
    ensures from == from' && at == at'
  {
    hide WellFormed, Landed;
    var a := if top.None? then t.lists[None][0] else top.value;
    if a !in t.visible { LandedOnce(t, a, 1, from, from'); }
  }

  /** What it ends with is determined. */
  lemma EndsOnce(t: Items, height: nat, from: Item, at: Item, selOffset: int, dist: int, top: Option<Item>,
                 sel: Option<Item>, offset: int, top': Option<Item>, sel': Option<Item>, offset': int)
    requires WellFormed(t) && from in t.nodes && at in t.nodes
    requires Ends(t, height, from, at, selOffset, dist, top, sel, offset)
    requires Ends(t, height, from, at, selOffset, dist, top', sel', offset')
    ensures top == top' && sel == sel' && offset == offset'
  {
    hide WellFormed, Landed, Counted;
    var k := Distance(t, at, dist);
    if k != 0 { LandedOnce(t, at, k, sel.value, sel'.value); }
    if top.value != top'.value { LandedOnce(t, sel.value, 1 - height, top.value, top'.value); }
  }

  /** From shown items: the selection is in the row asked for, or the first or last, and the offset is
      right exactly under that condition, if it was. */
  lemma EndsInRow(t: Items, height: nat, from: Item, at: Item, selOffset: int, dist: int, top: Option<Item>,
                  sel: Option<Item>, offset: int)
    requires WellFormed(t) && from in t.nodes && at in t.nodes && height > 0
    requires Reached(t, from) && Reached(t, at) && from in t.visible && at in t.visible
    requires Ends(t, height, from, at, selOffset, dist, top, sel, offset)
    ensures sel.Some? && sel.value in t.nodes && top.Some? && top.value in t.nodes
    ensures |Rows(t)| > 0 && sel.value in t.visible && Reached(t, sel.value)
    ensures Row(t, sel.value) == Clamp(Row(t, at) + dist, |Rows(t)|)
    ensures selOffset == Row(t, at) - Row(t, from) && 0 <= selOffset < height ==>
      (top.value in t.visible && Reached(t, top.value) && offset == Row(t, sel.value) - Row(t, top.value)
         && 0 <= offset < height
       <==> StaysInOrder(Row(t, from), Row(t, at), |Rows(t)|, height, dist))
  {
    hide WellFormed, Reached, Rows, Row;
    RowHolds(t, at);
    RowHolds(t, from);
    RowHolds(t, sel.value);
    RowHolds(t, top.value);
  }

  /** Without a distance the offset stays, even if the selected item has become the top one. */
  lemma EndsThere(t: Items, height: nat, at: Item, selOffset: int, top: Option<Item>, sel: Option<Item>, offset: int)
    requires WellFormed(t) && at in t.nodes && at in t.visible
    requires Ends(t, height, at, at, selOffset, 0, top, sel, offset)
    ensures 0 <= selOffset < height ==> top == sel == Some(at) && offset == selOffset
  {
    hide WellFormed, Landed, Counted;
  }

  class Listbox {
    const items: Items
    /** The height of the widget. */
    const height: nat
    var sel: Option<Item>
    var top: Option<Item>
    /** The offset of the selected item against the top one. */
    var selOffset: int

    ghost predicate ShownItem(x: Item)
      requires WellFormed(items)
    {
      x in items.nodes && Reached(items, x) && x in items.visible
    }

    ghost predicate Walkable(x: Option<Item>)
      requires WellFormed(items)
    {
      x.Some? ==> x.value in items.nodes && Reached(items, x.value)
    }

    /** The selected item is in the window, where its offset says. */
    ghost predicate InOrder()
      requires WellFormed(items)
      reads this
    {
      && sel.Some? && top.Some? && ShownItem(sel.value) && ShownItem(top.value)
      && selOffset == Row(items, sel.value) - Row(items, top.value) && 0 <= selOffset < height
    }

    /** The top and selected items and the offset are as at the start of the program or as they were
        left, with the top one in row `topRow` and the selected one in row `selRow`. */
    ghost predicate GoesTo(topRow: int, selRow: int, fits: bool, dist: int)
      requires WellFormed(items)
      reads this
    {
      && sel.Some? && ShownItem(sel.value)
      && |Rows(items)| > 0 && Row(items, sel.value) == Clamp(selRow + dist, |Rows(items)|)
      && (fits ==> (InOrder() <==> StaysInOrder(topRow, selRow, |Rows(items)|, height, dist)))
    }

    /** listbox_sel_move.  From any state it ends in just one; from one that is in order, from the
        beginning, or if the top item has been hidden, the row of the selected item and when the
        offset is right are said outright. */
    method SelMove(dist0: int)
      requires WellFormed(items) && Walkable(sel) && Walkable(top) && height > 0
      modifies this
      ensures Walkable(sel) && Walkable(top)
      ensures None in items.lists
      ensures items.lists[None] == [] ==> sel == old(sel) && top == old(top) && selOffset == old(selOffset)
      ensures items.lists[None] != [] ==> exists from, at ::
              && Begins(items, old(top), old(sel), from, at)
              && Ends(items, height, from, at, old(selOffset), dist0, top, sel, selOffset)
      ensures old(InOrder()) ==> GoesTo(old(Row(items, top.value)), old(Row(items, sel.value)), true, dist0)
      ensures old(top) == None && old(sel) == None && |Rows(items)| > 0 ==> GoesTo(0, 0, old(selOffset) == 0, dist0)
      ensures old(top.Some? && top.value !in items.visible && Row(items, top.value) < |Rows(items)|) ==>
        && GoesTo(old(Row(items, top.value)), old(Row(items, top.value)), old(selOffset) == 0, dist0)
        && (dist0 == 0 && 0 <= old(selOffset) < height ==> (InOrder() <==> old(selOffset) == 0))
    {
      hide WellFormed, Reached, Rows, Row, From, UpTo, Beyond, Landed, Counted, Begins, Ends, StaysInOrder;
      BoxList(items);
      if items.lists[None] == [] {
        NoRows(items);
        if InOrder() { RowHolds(items, sel.value); }
        return;
      }
      ghost var top0, sel0, offset0 := top, sel, selOffset;
      ghost var inOrder := InOrder();
      ShowTop();
      ghost var from, at := top.value, sel.value;
      BeginsAt(items, top0, sel0, from, at);
      MoveOn(dist0);
      if from in items.visible && at in items.visible {
        EndsInRow(items, height, from, at, offset0, dist0, top, sel, selOffset);
        if from == at && dist0 == 0 { EndsThere(items, height, from, offset0, top, sel, selOffset); }
      }
    }

    /** The first part: both items are set, and the top one is shown if it can be. */
    method ShowTop()
      requires WellFormed(items) && Walkable(sel) && Walkable(top)
      requires None in items.lists && items.lists[None] != []
      modifies this`top, this`sel
      ensures top.Some? && sel.Some? && Walkable(sel) && Walkable(top)
      ensures Begins(items, old(top), old(sel), top.value, sel.value)
    {
      hide WellFormed, Reached, Rows, Row, From, UpTo, Beyond, Landed;
      FirstItem(items);
      FollowedSame(items);
      if top.None? { top := Some(items.lists[None][0]); }
      if sel.None? { sel := top; }
      if top.value !in items.visible {
        var moved, d := Traverse(items, top.value, 1, true, NoCall);
        LandedIsReached(items, top.value, 1, moved);
        top := Some(moved);
        sel := top;
      }
    }

    /** The second part: the selection is moved, and the window after it. */
    method MoveOn(dist0: int)
      requires WellFormed(items) && Walkable(sel) && Walkable(top) && sel.Some? && top.Some?
      modifies this
      ensures Walkable(sel) && Walkable(top)
      ensures Ends(items, height, old(top.value), old(sel.value), old(selOffset), dist0, top, sel, selOffset)
    {
      hide WellFormed, Reached, Rows, Row, From, UpTo, Beyond, Landed, Counted;
      FollowedSame(items);
      var dist := dist0;
      if dist == 0 && sel.value !in items.visible { dist := 1; }
      if dist != 0 {
        var moved, d := Traverse(items, sel.value, dist, true, CalcDist);
        LandedIsReached(items, sel.value, dist, moved);
        sel, selOffset := Some(moved), selOffset + d;
      }
      if selOffset < 0 {
        selOffset := 0;
        top := sel;
      } else if selOffset >= height {
        selOffset := height - 1;
        var moved, d := Traverse(items, sel.value, 1 - height, true, NoCall);
        LandedIsReached(items, sel.value, 1 - height, moved);
        top := Some(moved);
      }
    }

    method ItemOffset(item: Item) returns (offset: int)
      requires WellFormed(items) && None in items.lists && items.lists[None] != []
      ensures ShownItem(item) ==> offset == Row(items, item)
    {
      hide WellFormed, Reached, Rows, Row, From, UpTo, Beyond;
      FirstItem(items);
      FollowedSame(items);
      var moved, d := Traverse(items, items.lists[None][0], 0, true, TestSearch(item));
      offset := d;
    }

    /** listbox_sel. */
    method Select(item: Item)
      requires WellFormed(items) && height > 0 && InOrder() && ShownItem(item)
      modifies this
      ensures sel == Some(item)
      ensures var dist := Row(items, item) - old(Row(items, sel.value));
              var from, at := old(Row(items, top.value)), old(Row(items, sel.value));
              InOrder() <==> StaysInOrder(from, at, |Rows(items)|, height, dist)
      ensures height > 1 ==> InOrder()
    {
      hide WellFormed, Reached, Rows, Row, From, UpTo, Beyond;
      BoxList(items);
      NotEmpty(items, item);
      RowHolds(items, item);
      var to := ItemOffset(item);
      var from := ItemOffset(sel.value);
      SelMove(to - from);
      SameRow(items, sel.value, item);
    }
  }

  lemma FollowedSame(t: Items)
    ensures Followed(t, true) == t
  {
  }

  lemma NotEmpty(t: Items, x: Item)
    requires WellFormed(t) && x in t.nodes && Reached(t, x) && None in t.lists
    ensures t.lists[None] != []
    decreases t.depth[x]
  {
    if t.root[x].Some? {
      ParentAt2(t, x);
      NotEmpty(t, t.root[x].value);
    } else {
      assert x in t.lists[None];
    }
  }
}
