/** The tree of items of a listbox and the order it is walked in (src/bfu/listbox.c:72-260). */
module ListboxItems {
  import opened Basics

  type Item = nat

  /** Where a list of items is: in an item, or in the box itself. */
  type Place = Option<Item>

  /** `height` is the number of levels; `visible` are the items that count: all of them when a walk
      does not follow visibility. */
  datatype Items = Items(nodes: set<Item>, root: map<Item, Place>, lists: map<Place, seq<Item>>, depth: map<Item, nat>,
                         height: nat, expanded: set<Item>, visible: set<Item>)

  function Index(l: seq<Item>, x: Item): (i: nat)
    ensures i <= |l|
    ensures i < |l| ==> l[i] == x
    ensures x in l ==> i < |l|
  {
    if l == [] || l[0] == x then 0 else 1 + Index(l[1..], x)
  }

  lemma {:induction false} IndexAt(l: seq<Item>, i: nat)
    requires NoDup(l) && i < |l|
    ensures Index(l, l[i]) == i
  {
    if i > 0 {
      assert NoDup(l[1..]) && l[1..][i - 1] == l[i];
      IndexAt(l[1..], i - 1);
    }
  }

  predicate IsPlace(t: Items, p: Place) { p.None? || p.value in t.nodes }

  function DepthIn(t: Items, p: Place): nat {
    if p.Some? && p.value in t.depth then t.depth[p.value] + 1 else 0
  }

  ghost predicate WellFormed(t: Items) {
    && t.root.Keys == t.nodes && t.depth.Keys == t.nodes
    && (forall p :: p in t.lists <==> IsPlace(t, p))
    && (forall n :: n in t.nodes ==> IsPlace(t, t.root[n]) && t.depth[n] == DepthIn(t, t.root[n]) < t.height)
    && (forall p, n :: p in t.lists ==> (n in t.lists[p] <==> n in t.nodes && t.root[n] == p))
    && (forall p :: p in t.lists ==> NoDup(t.lists[p]))
  }

  /** A walk goes into the children of an item. */
  predicate Open(t: Items, x: Item)
    requires Some(x) in t.lists
  {
    t.lists[Some(x)] != [] && x in t.expanded && x in t.visible
  }

  /** The position of an item in its list. */
  ghost function Pos(t: Items, x: Item): (i: nat)
    requires WellFormed(t) && x in t.nodes
    ensures t.root[x] in t.lists && i < |t.lists[t.root[x]]| && t.lists[t.root[x]][i] == x
  {
    assert t.root[x] in t.lists && x in t.lists[t.root[x]];
    Index(t.lists[t.root[x]], x)
  }

  lemma InList(t: Items, p: Place, x: Item)
    requires WellFormed(t) && p in t.lists && x in t.lists[p]
    ensures x in t.nodes && t.root[x] == p && Some(x) in t.lists && NoDup(t.lists[p])
    ensures DepthIn(t, p) < DepthIn(t, Some(x)) <= t.height
  {
    hide NoDup, Index;
    assert IsPlace(t, Some(x));
  }

  lemma HasRoot(t: Items, x: Item)
    requires WellFormed(t) && x in t.nodes
    ensures x in t.root && t.root[x] in t.lists && Some(x) in t.lists
  {
    assert IsPlace(t, Some(x));
  }

  lemma ItemAt(t: Items, p: Place, i: nat)
    requires WellFormed(t) && p in t.lists && i < |t.lists[p]|
    ensures var x := t.lists[p][i]; x in t.nodes && t.root[x] == p && Pos(t, x) == i && Some(x) in t.lists
    ensures DepthIn(t, p) < DepthIn(t, Some(t.lists[p][i])) <= t.height
  {
    hide WellFormed, NoDup, Index, DepthIn;
    InList(t, p, t.lists[p][i]);
    IndexAt(t.lists[p], i);
  }

  // ---- the items in order

  /** The items of the list at `p` from the i-th on, each with what is shown below it. */
  ghost function Flat(t: Items, p: Place, i: nat): seq<Item>
    requires WellFormed(t) && p in t.lists && i <= |t.lists[p]|
    decreases t.height - DepthIn(t, p), |t.lists[p]| - i, 1
  {
    if i == |t.lists[p]| then []
    else
      ItemAt(t, p, i);
      Block(t, t.lists[p][i]) + Flat(t, p, i + 1)
  }

  ghost function Block(t: Items, x: Item): seq<Item>
    requires WellFormed(t) && x in t.nodes
    decreases t.height - DepthIn(t, t.root[x]), |t.lists[t.root[x]]| - Pos(t, x), 0
  {
    ItemAt(t, t.root[x], Pos(t, x));
    [x] + if Open(t, x) then Flat(t, Some(x), 0) else []
  }

  ghost function BlockAt(t: Items, p: Place, i: nat): seq<Item>
    requires WellFormed(t) && p in t.lists && i < |t.lists[p]|
  {
    ItemAt(t, p, i);
    Block(t, t.lists[p][i])
  }

  /** The items of the list at `p` up to the i-th, each with what is shown below it. */
  ghost function FlatTo(t: Items, p: Place, i: nat): seq<Item>
    requires WellFormed(t) && p in t.lists && i <= |t.lists[p]|
    decreases i
  {
    if i == 0 then [] else FlatTo(t, p, i - 1) + BlockAt(t, p, i - 1)
  }

  /** All that is walked over in a box, hidden items included. */
  ghost function All(t: Items): seq<Item>
    requires WellFormed(t)
  {
    assert IsPlace(t, None);
    Flat(t, None, 0)
  }

  /** What is walked over from the i-th place of the list at `p` on, to the end of the box. */
  ghost function After(t: Items, p: Place, i: nat): seq<Item>
    requires WellFormed(t) && p in t.lists && i <= |t.lists[p]|
    decreases DepthIn(t, p)
  {
    Flat(t, p, i)
      + if p.None? then []
        else
          ParentAt(t, p.value);
          After(t, t.root[p.value], Pos(t, p.value) + 1)
  }

  /** What is walked over before the i-th place of the list at `p`. */
  ghost function Before(t: Items, p: Place, i: nat): seq<Item>
    requires WellFormed(t) && p in t.lists && i <= |t.lists[p]|
    decreases DepthIn(t, p)
  {
    (if p.None? then []
     else
       ParentAt(t, p.value);
       Before(t, t.root[p.value], Pos(t, p.value)) + [p.value])
      + FlatTo(t, p, i)
  }

  lemma ParentAt(t: Items, x: Item)
    requires WellFormed(t) && Some(x) in t.lists
    ensures x in t.nodes && t.root[x] in t.lists && DepthIn(t, t.root[x]) < DepthIn(t, Some(x))
  {
    assert IsPlace(t, Some(x));
    ItemAt(t, t.root[x], Pos(t, x));
  }

  /** The items from `x` on, and those before it. */
  ghost function From(t: Items, x: Item): seq<Item>
    requires WellFormed(t) && x in t.nodes
  {
    After(t, t.root[x], Pos(t, x))
  }

  ghost function UpTo(t: Items, x: Item): seq<Item>
    requires WellFormed(t) && x in t.nodes
  {
    Before(t, t.root[x], Pos(t, x))
  }

  // ---- one step down

  function NextOf(t: Items, x: Item): Option<Item>
    requires x in t.root && t.root[x] in t.lists
  {
    var l := t.lists[t.root[x]];
    var i := Index(l, x);
    if i + 1 < |l| then Some(l[i + 1]) else None
  }

  function PrevOf(t: Items, x: Item): Option<Item>
    requires x in t.root && t.root[x] in t.lists
  {
    var l := t.lists[t.root[x]];
    var i := Index(l, x);
    if 0 < i <= |l| then Some(l[i - 1]) else None
  }

  lemma BlockIs(t: Items, x: Item)
    requires WellFormed(t) && x in t.nodes
    ensures Some(x) in t.lists && Block(t, x) == [x] + if Open(t, x) then Flat(t, Some(x), 0) else []
  {
    hide WellFormed, NoDup, Index, IsPlace, DepthIn, Flat;
    HasRoot(t, x);
  }

  lemma FromOpen(t: Items, x: Item)
    requires WellFormed(t) && x in t.nodes && Some(x) in t.lists && Open(t, x)
    ensures var y := t.lists[Some(x)][0]; y in t.nodes && t.root[y] == Some(x) && From(t, x) == [x] + From(t, y)
  {
    hide WellFormed, NoDup, Index, IsPlace, DepthIn, Flat, Block, After, Before, FlatTo;
    FromIs(t, x);
    BlockIs(t, x);
    BeforeIn(t, x, 0);
    AfterNext(t, Some(x), 0);
  }

  lemma FromClosed(t: Items, x: Item)
    requires WellFormed(t) && x in t.nodes && Some(x) in t.lists && !Open(t, x)
    ensures From(t, x) == [x] + After(t, t.root[x], Pos(t, x) + 1)
  {
    hide WellFormed, NoDup, Index, IsPlace, DepthIn;
    HasRoot(t, x);
    var i := Pos(t, x);
    ItemAt(t, t.root[x], i);
    assert Flat(t, t.root[x], i) == [x] + Flat(t, t.root[x], i + 1);
  }

  /** Past the last item of a list the walk goes on past the parent of the list, or ends. */
  lemma AfterLast(t: Items, p: Place)
    requires WellFormed(t) && p in t.lists
    ensures After(t, p, |t.lists[p]|)
            == if p.None? then [] else (ParentAt(t, p.value); After(t, t.root[p.value], Pos(t, p.value) + 1))
  {
    hide WellFormed, NoDup, Index, IsPlace, DepthIn;
  }

  lemma AfterNext(t: Items, p: Place, i: nat)
    requires WellFormed(t) && p in t.lists && i < |t.lists[p]|
    ensures var y := t.lists[p][i]; y in t.nodes && t.root[y] == p && From(t, y) == After(t, p, i)
  {
    hide WellFormed, NoDup, Index, IsPlace, DepthIn;
    ItemAt(t, p, i);
  }

  // ---- one step up

  lemma UpToFirst(t: Items, x: Item)
    requires WellFormed(t) && x in t.nodes && Pos(t, x) == 0
    ensures match t.root[x]
            case None => UpTo(t, x) == []
            case Some(r) => r in t.nodes && UpTo(t, x) == UpTo(t, r) + [r]
  {
    hide WellFormed, NoDup, Index, IsPlace, DepthIn;
    HasRoot(t, x);
    if t.root[x].Some? { ParentAt(t, t.root[x].value); }
  }

  lemma UpToPrev(t: Items, x: Item)
    requires WellFormed(t) && x in t.nodes && Pos(t, x) > 0
    ensures var y := t.lists[t.root[x]][Pos(t, x) - 1];
            y in t.nodes && t.root[y] == t.root[x] && UpTo(t, x) == UpTo(t, y) + Block(t, y)
  {
    hide WellFormed, NoDup, Index, IsPlace, DepthIn;
    HasRoot(t, x);
    var p, i := t.root[x], Pos(t, x);
    ItemAt(t, p, i - 1);
    assert FlatTo(t, p, i) == FlatTo(t, p, i - 1) + Block(t, t.lists[p][i - 1]);
  }

  lemma {:induction false} FlatJoined(t: Items, p: Place, i: nat)
    requires WellFormed(t) && p in t.lists && i <= |t.lists[p]|
    ensures FlatTo(t, p, i) + Flat(t, p, i) == Flat(t, p, 0)
    decreases i
  {
    hide WellFormed, NoDup, Index, IsPlace, DepthIn;
    if i > 0 {
      ItemAt(t, p, i - 1);
      FlatJoined(t, p, i - 1);
    }
  }

  lemma BlockOpen(t: Items, y: Item)
    requires WellFormed(t) && y in t.nodes && Some(y) in t.lists && Open(t, y)
    ensures var l := t.lists[Some(y)]; var z := l[|l| - 1];
            z in t.nodes && UpTo(t, y) + Block(t, y) == UpTo(t, z) + Block(t, z) && t.root[z] == Some(y)
  {
    hide WellFormed, NoDup, Index, IsPlace, DepthIn;
    var l := t.lists[Some(y)];
    var z := l[|l| - 1];
    ItemAt(t, Some(y), |l| - 1);
    FlatJoined(t, Some(y), |l|);
    assert FlatTo(t, Some(y), |l|) == Flat(t, Some(y), 0);
    assert UpTo(t, z) == UpTo(t, y) + [y] + FlatTo(t, Some(y), |l| - 1);
  }

  // ---- the whole

  /** An item is walked over when all items above it are open. */
  ghost predicate Reached(t: Items, x: Item)
    requires WellFormed(t) && x in t.nodes
    decreases t.depth[x]
  {
    t.root[x].Some? ==> (ParentAt2(t, x); Open(t, t.root[x].value) && Reached(t, t.root[x].value))
  }

  lemma ParentAt2(t: Items, x: Item)
    requires WellFormed(t) && x in t.nodes && t.root[x].Some?
    ensures t.root[x].value in t.nodes && t.root[x] in t.lists && t.depth[t.root[x].value] < t.depth[x]
  {
  }

  lemma BeforeIn(t: Items, r: Item, i: nat)
    requires WellFormed(t) && r in t.nodes && Some(r) in t.lists && i <= |t.lists[Some(r)]|
    ensures Before(t, Some(r), i) == UpTo(t, r) + [r] + FlatTo(t, Some(r), i)
    ensures t.root[r] in t.lists && After(t, Some(r), i) == Flat(t, Some(r), i) + After(t, t.root[r], Pos(t, r) + 1)
  {
    hide WellFormed, NoDup, Index, IsPlace, DepthIn, FlatTo, Flat, Reached;
    HasRoot(t, r);
    ParentAt(t, r);
  }

  /** The blocks before and after a place of a list make up the block of its parent. */
  lemma JoinedBelow(t: Items, r: Item, i: nat)
    requires WellFormed(t) && r in t.nodes && Some(r) in t.lists && Open(t, r) && i <= |t.lists[Some(r)]|
    ensures Before(t, Some(r), i) + After(t, Some(r), i) == UpTo(t, r) + From(t, r)
  {
    hide WellFormed, NoDup, Index, IsPlace, DepthIn, FlatTo, Flat, Before, After, Reached, UpTo, From;
    FlatJoined(t, Some(r), i);
    BeforeIn(t, r, i);
    FromIs(t, r);
  }

  lemma FromIs(t: Items, x: Item)
    requires WellFormed(t) && x in t.nodes
    ensures t.root[x] in t.lists && From(t, x) == Block(t, x) + After(t, t.root[x], Pos(t, x) + 1)
  {
    hide WellFormed, NoDup, Index, IsPlace, DepthIn, FlatTo, Reached, Block;
    HasRoot(t, x);
    ItemAt(t, t.root[x], Pos(t, x));
  }

  /** What comes before a place and what comes after it is everything. */
  lemma {:induction false} AllJoined(t: Items, p: Place, i: nat)
    requires WellFormed(t) && p in t.lists && i <= |t.lists[p]|
    requires p.Some? ==> p.value in t.nodes && Open(t, p.value) && Reached(t, p.value)
    ensures Before(t, p, i) + After(t, p, i) == All(t)
    decreases DepthIn(t, p)
  {
    hide WellFormed, NoDup, Index, IsPlace, DepthIn, Flat, FlatTo;
    if p.Some? {
      var r := p.value;
      ParentAt(t, r);
      HasRoot(t, r);
      JoinedBelow(t, r, i);
      if t.root[r].Some? { ParentAt2(t, r); }
      AllJoined(t, t.root[r], Pos(t, r));
    } else {
      FlatJoined(t, p, i);
    }
  }
}
