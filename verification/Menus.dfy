/** Moving the selection of a menu (src/bfu/menu.c:289-381). */
module Menus {
  import opened Basics

  // ---- where the selection goes

  /** The positions from `a` up to, but not including, `b`; and from `a` down to `b`. */
  function Rising(a: int, b: int): seq<int>
    decreases b - a
  {
    if a >= b then [] else [a] + Rising(a + 1, b)
  }

  function Falling(a: int, b: int): seq<int>
    decreases a - b
  {
    if a < b then [] else [a] + Falling(a - 1, b)
  }

  /** The k-th selectable one of some positions. */
  function Kth(path: seq<int>, k: int, selectable: seq<bool>): (r: Option<int>)
    requires k > 0 && forall i :: 0 <= i < |path| ==> 0 <= path[i] < |selectable|
    ensures r.Some? ==> 0 <= r.value < |selectable| && selectable[r.value] && r.value in path
  {
    if path == [] then None
    else
      assert forall i :: 0 <= i < |path[1..]| ==> path[1..][i] == path[i + 1];
      if selectable[path[0]] then (if k == 1 then Some(path[0]) else Kth(path[1..], k - 1, selectable))
      else Kth(path[1..], k, selectable)
  }

  predicate InMenu(path: seq<int>, size: int) { forall i :: 0 <= i < |path| ==> 0 <= path[i] < size }

  /** The positions that are passed from `pos` on, in direction `s`, until the walk is back at
      `start` or, without wrapping, at the end. */
  function Ahead(pos: int, start: int, s: int, wrap: bool, size: int): (r: seq<int>)
    requires -1 <= start < size
  {
    if pos == start then []
    else if s == 1 then
      if pos <= start then Rising(pos, start) else Rising(pos, size) + if wrap then Rising(0, start) else []
    else
      if pos >= start >= 0 then Falling(pos, start + 1)
      else Falling(pos, 0) + if wrap then Falling(size - 1, Zero(start) + 1) else []
  }

  function Zero(start: int): int { if start < 0 then 0 else start }

  /** Where the walk ends if there are not enough selectable items ahead. */
  function Fallback(pos: int, start: int, s: int, wrap: bool, size: int): int {
    if pos == start then start else if wrap then Zero(start) else if s == 1 then size - 1 else 0
  }

  lemma {:induction false} RisingInMenu(a: int, b: int, size: int)
    requires 0 <= a && b <= size
    ensures InMenu(Rising(a, b), size)
    decreases b - a
  {
    if a < b { RisingInMenu(a + 1, b, size); }
  }

  lemma {:induction false} FallingInMenu(a: int, b: int, size: int)
    requires a < size && 0 <= b
    ensures InMenu(Falling(a, b), size)
    decreases a - b
  {
    if a >= b { FallingInMenu(a - 1, b, size); }
  }

  lemma AheadInMenu(pos: int, start: int, s: int, wrap: bool, size: int)
    requires -1 <= start < size && if s == 1 then 0 <= pos else pos < size
    ensures InMenu(Ahead(pos, start, s, wrap, size), size)
  {
    hide Rising, Falling;
    if s == 1 {
      RisingInMenu(pos, start, size);
      RisingInMenu(pos, size, size);
      RisingInMenu(0, start, size);
    } else {
      if start >= 0 { FallingInMenu(pos, start + 1, size); }
      FallingInMenu(pos, 0, size);
      FallingInMenu(size - 1, Zero(start) + 1, size);
    }
  }

  /** The positions that a walk can be at. */
  predicate Walking(pos: int, start: int, s: int, wrap: bool, size: int) {
    && -1 <= start < size && size > 0 && (s == 1 || s == -1)
    && (if s == 1 then 0 <= pos <= size else -2 <= pos < size)
    && (!wrap ==> if s == 1 then pos >= start else pos <= start)
    && (start == -1 && s == -1 ==> pos == -2)
  }

  /** Where a walk ends that is to pass `k` selectable items from `pos` on: at the last of them, or
      else at the fallback if that is selectable, or at none. */
  function Scrolled(pos: int, start: int, s: int, k: int, wrap: bool, selectable: seq<bool>): (r: int)
    requires k > 0 && Walking(pos, start, s, wrap, |selectable|)
    ensures r == -1 || (0 <= r < |selectable| && selectable[r])
  {
    AheadInMenu(pos, start, s, wrap, |selectable|);
    match Kth(Ahead(pos, start, s, wrap, |selectable|), k, selectable)
    case Some(i) => i
    case None =>
      var i := Fallback(pos, start, s, wrap, |selectable|);
      if selectable[i] then i else -1
  }

  function Direction(steps: int): int { if steps < 0 then -1 else 1 }

  /** The selection after scroll_menu. */
  function Selection(selected: int, steps: int, wrap: bool, selectable: seq<bool>): (r: int)
    requires -1 <= selected < |selectable| || selectable == []
    ensures r == -1 || (0 <= r < |selectable| && selectable[r])
  {
    if selectable == [] then -1
    else
      var s := Direction(steps);
      Scrolled((if steps == 0 && selected >= 0 then selected - 1 else selected) + s, selected, s,
               if steps == 0 then 1 else s * steps, wrap, selectable)
  }

  // ---- what the walk passes

  lemma FirstOf(a: seq<int>, b: seq<int>, c: seq<int>)
    ensures a + b + c == a + (b + c)
  {
  }

  lemma AheadStep(pos: int, start: int, s: int, wrap: bool, size: int)
    requires Walking(pos, start, s, wrap, size) && 0 <= pos < size && pos != start
    ensures Walking(pos + s, start, s, wrap, size)
    ensures Ahead(pos, start, s, wrap, size) == [pos] + Ahead(pos + s, start, s, wrap, size)
  {
    var rest := if !wrap then [] else if s == 1 then Rising(0, start) else Falling(size - 1, Zero(start) + 1);
    if s == 1 {
      FirstOf([pos], Rising(pos + 1, size), rest);
    } else if pos > start {
      assert Falling(pos, start + 1) == [pos] + Falling(pos - 1, start + 1);
    } else {
      FirstOf([pos], Falling(pos - 1, 0), rest);
    }
  }

  /** What the walk comes to does not change when it takes a step, counting the item that it leaves,
      when it wraps, and when a walk from no selection gets its start. */
  lemma ScrolledStep(pos: int, start: int, s: int, k: int, wrap: bool, selectable: seq<bool>)
    requires k > 0 && Walking(pos, start, s, wrap, |selectable|) && 0 <= pos < |selectable| && pos != start
    ensures Walking(pos + s, start, s, wrap, |selectable|)
    ensures Scrolled(pos, start, s, k, wrap, selectable)
            == if !selectable[pos] then Scrolled(pos + s, start, s, k, wrap, selectable)
               else if k > 1 then Scrolled(pos + s, start, s, k - 1, wrap, selectable) else pos
  {
    hide Ahead;
    AheadStep(pos, start, s, wrap, |selectable|);
    var next := Ahead(pos + s, start, s, wrap, |selectable|);
    assert ([pos] + next)[1..] == next;
    AheadInMenu(pos, start, s, wrap, |selectable|);
  }

  lemma ScrolledWraps(pos: int, start: int, s: int, k: int, selectable: seq<bool>)
    requires k > 0 && Walking(pos, start, s, true, |selectable|) && pos != start && !(0 <= pos < |selectable|)
    ensures var to := if s == 1 then 0 else |selectable| - 1;
            Walking(to, Zero(start), s, true, |selectable|)
            && Scrolled(pos, start, s, k, true, selectable) == Scrolled(to, Zero(start), s, k, true, selectable)
            && |Ahead(to, Zero(start), s, true, |selectable|)| == |Ahead(pos, start, s, true, |selectable|)|
  {
    var size := |selectable|;
    if s == 1 {
      assert Rising(size, size) == [];
      assert [] + Rising(0, start) == Rising(0, start);
    } else {
      assert Falling(pos, 0) == [];
      assert [] + Falling(size - 1, Zero(start) + 1) == Falling(size - 1, Zero(start) + 1);
    }
  }

  lemma ScrolledStarts(pos: int, k: int, wrap: bool, selectable: seq<bool>)
    requires k > 0 && Walking(pos, -1, 1, wrap, |selectable|) && pos > 0
    ensures Walking(pos, 0, 1, wrap, |selectable|)
    ensures Scrolled(pos, -1, 1, k, wrap, selectable) == Scrolled(pos, 0, 1, k, wrap, selectable)
    ensures Ahead(pos, -1, 1, wrap, |selectable|) == Ahead(pos, 0, 1, wrap, |selectable|)
  {
  }

  lemma ScrolledEnds(pos: int, start: int, s: int, k: int, wrap: bool, selectable: seq<bool>)
    requires k > 0 && Walking(pos, start, s, wrap, |selectable|)
    requires pos == start || (!wrap && !(0 <= pos < |selectable|))
    ensures var to := if pos == start then start else if s == 1 then |selectable| - 1 else 0;
            0 <= to < |selectable| && Scrolled(pos, start, s, k, wrap, selectable) == if selectable[to] then to else -1
  {
  }

  // ---- what that means

  /** How many of some positions can be selected. */
  function Count(path: seq<int>, selectable: seq<bool>): nat
    requires InMenu(path, |selectable|)
  {
    if path == [] then 0
    else
      assert InMenu(path[1..], |selectable|);
      (if selectable[path[0]] then 1 else 0) + Count(path[1..], selectable)
  }

  /** The k-th selectable position is the one up to which there are k. */
  lemma {:induction false} KthCounts(path: seq<int>, k: int, selectable: seq<bool>) returns (j: nat)
    requires k > 0 && InMenu(path, |selectable|)
    ensures Kth(path, k, selectable) == None <==> Count(path, selectable) < k
    ensures Kth(path, k, selectable).Some? ==>
      j < |path| && Kth(path, k, selectable) == Some(path[j]) && InMenu(path[..j + 1], |selectable|)
        && Count(path[..j + 1], selectable) == k
  {
    j := 0;
    if path != [] {
      var here := if selectable[path[0]] then 1 else 0;
      assert InMenu(path[1..], |selectable|);
      if here == 1 && k == 1 {
        assert path[..1] == [path[0]] && path[..1][1..] == [];
      } else {
        var i := KthCounts(path[1..], k - here, selectable);
        j := i + 1;
        if Kth(path, k, selectable).Some? {
          assert path[..j + 1][1..] == path[1..][..i + 1];
        }
      }
    }
  }

  /** The position `d` items further in direction `s`, around the menu. */
  function Around(pos: int, s: int, d: int, size: int): (r: int)
    ensures 0 <= pos < size && 0 <= d <= size ==> 0 <= r < size
  {
    if s == 1 then (if pos + d >= size then pos + d - size else pos + d)
    else if pos - d < 0 then pos - d + size else pos - d
  }

  function Circle(pos: int, s: int, d: int, n: int, size: int): seq<int>
    decreases n - d
  {
    if d > n then [] else [Around(pos, s, d, size)] + Circle(pos, s, d + 1, n, size)
  }

  /** Wrapping, the walk passes all other items once around. */
  lemma {:induction false} AheadAround(pos: int, start: int, s: int, d: int, size: int)
    requires 0 <= start < size && (s == 1 || s == -1) && 1 <= d <= size && Around(start, s, d, size) == pos
    ensures Ahead(pos, start, s, true, size) == Circle(start, s, d, size - 1, size)
    decreases size - d
  {
    if d < size {
      var next := Around(start, s, d + 1, size);
      AheadAround(next, start, s, d + 1, size);
      AheadStep(pos, start, s, true, size);
      if next != pos + s { AheadWraps(pos + s, start, s, size); }
    }
  }

  lemma AheadWraps(pos: int, start: int, s: int, size: int)
    requires 0 <= start < size && ((s == 1 && pos == size) || (s == -1 && pos == -1))
    ensures Ahead(pos, start, s, true, size) == Ahead(if s == 1 then 0 else size - 1, start, s, true, size)
  {
    if s == 1 {
      assert Rising(size, size) == [] && [] + Rising(0, start) == Rising(0, start);
    } else {
      assert Falling(-1, 0) == [] && [] + Falling(size - 1, start + 1) == Falling(size - 1, start + 1);
    }
  }

  lemma {:induction false} CircleParts(pos: int, s: int, d: int, n: int, size: int, j: nat)
    requires j < |Circle(pos, s, d, n, size)|
    ensures Circle(pos, s, d, n, size)[..j + 1] == Circle(pos, s, d, d + j, size)
    ensures Circle(pos, s, d, n, size)[j] == Around(pos, s, d + j, size)
    ensures |Circle(pos, s, d, n, size)| == if d > n then 0 else n - d + 1
    decreases n - d
  {
    CircleLength(pos, s, d, n, size);
    var c := Circle(pos, s, d, n, size);
    if j == 0 {
      assert Circle(pos, s, d + 1, d, size) == [] && c[..1] == [c[0]];
    } else {
      CircleParts(pos, s, d + 1, n, size, j - 1);
      assert c[..j + 1] == [c[0]] + c[1..][..j];
    }
  }

  lemma {:induction false} CircleLength(pos: int, s: int, d: int, n: int, size: int)
    ensures |Circle(pos, s, d, n, size)| == if d > n then 0 else n - d + 1
    ensures 0 <= pos < size && 0 <= d && n <= size ==> InMenu(Circle(pos, s, d, n, size), size)
    decreases n - d
  {
    if d <= n { CircleLength(pos, s, d + 1, n, size); }
  }

  /** Scrolling around from a selected item by `steps`: the new selection is the item up to which
      there are so many selectable ones, going around; or if there are not so many besides the
      selected item, that item stays if it is selectable, and nothing is selected if not. */
  lemma WrapSelects(selected: int, steps: int, selectable: seq<bool>) returns (d: int)
    requires 0 <= selected < |selectable| && steps != 0
    ensures var (size, s) := (|selectable|, Direction(steps));
      forall n :: n < size ==> InMenu(Circle(selected, s, 1, n, size), size)
    ensures var (size, s, r) := (|selectable|, Direction(steps), Selection(selected, steps, true, selectable));
      if Count(Circle(selected, s, 1, size - 1, size), selectable) < s * steps then
        r == if selectable[selected] then selected else -1
      else
        1 <= d < size && r == Around(selected, s, d, size) && selectable[r]
        && Count(Circle(selected, s, 1, d, size), selectable) == s * steps
  {
    hide Ahead, Circle, Kth, Count, Around;
    var size, s := |selectable|, Direction(steps);
    var first := selected + s;
    forall n | n < size ensures InMenu(Circle(selected, s, 1, n, size), size) { CircleLength(selected, s, 1, n, size); }
    FirstAround(selected, s, size);
    var c := Circle(selected, s, 1, size - 1, size);
    assert Ahead(first, selected, s, true, size) == c;
    var j := KthCounts(c, s * steps, selectable);
    d := j + 1;
    if Kth(c, s * steps, selectable).Some? {
      CircleParts(selected, s, 1, size - 1, size, j);
      CircleLength(selected, s, 1, size - 1, size);
    }
  }

  lemma FirstAround(start: int, s: int, size: int)
    requires 0 <= start < size && (s == 1 || s == -1)
    ensures Ahead(start + s, start, s, true, size) == Circle(start, s, 1, size - 1, size)
  {
    hide Ahead, Circle;
    AheadAround(Around(start, s, 1, size), start, s, 1, size);
    if Around(start, s, 1, size) != start + s { AheadWraps(start + s, start, s, size); }
  }

  /** The positions passed from a selected item without wrapping, and the last one on that side. */
  function ToEnd(selected: int, steps: int, size: int): (seq<int>, int) {
    if steps >= 0 then (Rising(selected + 1, size), size - 1) else (Falling(selected - 1, 0), 0)
  }

  /** Without wrapping, a walk from a selected item ends at the one up to which there are as many
      selectable ones as steps; with nothing selected exactly when there are too few on that side and
      the one at the end of the menu is not selectable; and else there. */
  lemma NoWrapLoses(selected: int, steps: int, selectable: seq<bool>) returns (j: nat)
    requires 0 <= selected < |selectable| && steps != 0
    ensures InMenu(ToEnd(selected, steps, |selectable|).0, |selectable|)
    ensures var (path, end) := ToEnd(selected, steps, |selectable|);
            var k := Direction(steps) * steps;
            var r := Selection(selected, steps, false, selectable);
            && (r == -1 <==> Count(path, selectable) < k && !selectable[end])
            && (Count(path, selectable) < k && selectable[end] ==> r == end)
            && (Count(path, selectable) >= k ==>
                 (j < |path| && r == path[j] && selectable[r]
                  && InMenu(path[..j + 1], |selectable|) && Count(path[..j + 1], selectable) == k))
  {
    hide Kth, Count, Rising, Falling;
    var s := Direction(steps);
    RisingInMenu(selected + 1, |selectable|, |selectable|);
    FallingInMenu(selected - 1, 0, |selectable|);
    var path := Ahead(selected + s, selected, s, false, |selectable|);
    assert Rising(selected + 1, |selectable|) + [] == Rising(selected + 1, |selectable|);
    assert Falling(selected - 1, 0) + [] == Falling(selected - 1, 0);
    assert path == ToEnd(selected, steps, |selectable|).0;
    j := KthCounts(path, s * steps, selectable);
  }

  /** What the positions are: one by one, to the end. */
  lemma {:induction false} RisingIs(a: int, b: int)
    ensures |Rising(a, b)| == (if a < b then b - a else 0)
    ensures forall i :: 0 <= i < |Rising(a, b)| ==> Rising(a, b)[i] == a + i
    decreases b - a
  {
    if a < b {
      RisingIs(a + 1, b);
      forall i | 0 < i < |Rising(a, b)| ensures Rising(a, b)[i] == a + i {
        assert Rising(a, b)[i] == Rising(a + 1, b)[i - 1];
      }
    }
  }

  lemma {:induction false} FallingIs(a: int, b: int)
    ensures |Falling(a, b)| == (if a >= b then a - b + 1 else 0)
    ensures forall i :: 0 <= i < |Falling(a, b)| ==> Falling(a, b)[i] == a - i
    decreases a - b
  {
    if a >= b {
      FallingIs(a - 1, b);
      forall i | 0 < i < |Falling(a, b)| ensures Falling(a, b)[i] == a - i {
        assert Falling(a, b)[i] == Falling(a - 1, b)[i - 1];
      }
    }
  }

  /** Scrolling by no steps keeps a selectable selection; one that is not selectable is not corrected
      but dropped, whatever else could be selected. */
  lemma NoStepsDrop(selected: int, wrap: bool, selectable: seq<bool>)
    requires 0 <= selected < |selectable|
    ensures Selection(selected, 0, wrap, selectable) == if selectable[selected] then selected else -1
  {
  }

  /** The positions passed from no selection, and the one that is then fallen back to. */
  function FromNone(steps: int, wrap: bool, size: int): (seq<int>, int) {
    if steps >= 0 then (Rising(0, size), if wrap then 0 else size - 1)
    else (if wrap then Falling(size - 1, 1) else [], 0)
  }

  /** From no selection, up or down, with or without wrapping: the item up to which there are as many
      selectable ones as steps (one for no steps); and nothing is selected exactly when there are not
      so many and the item at the end cannot be selected, even if another one can. */
  lemma NoneSelects(steps: int, wrap: bool, selectable: seq<bool>) returns (j: nat)
    requires selectable != []
    ensures InMenu(FromNone(steps, wrap, |selectable|).0, |selectable|)
    ensures var (path, end) := FromNone(steps, wrap, |selectable|);
            var k := if steps == 0 then 1 else Direction(steps) * steps;
            var r := Selection(-1, steps, wrap, selectable);
            && (r == -1 <==> Count(path, selectable) < k && !selectable[end])
            && (Count(path, selectable) < k && selectable[end] ==> r == end)
            && (Count(path, selectable) >= k ==>
                 (j < |path| && r == path[j] && selectable[r]
                  && InMenu(path[..j + 1], |selectable|) && Count(path[..j + 1], selectable) == k))
  {
    hide Kth, Count, Rising, Falling;
    var size, s := |selectable|, Direction(steps);
    RisingInMenu(0, size, size);
    FallingInMenu(size - 1, 1, size);
    var path := Ahead(-1 + s, -1, s, wrap, size);
    NoneAhead(steps, wrap, size);
    assert path == FromNone(steps, wrap, size).0;
    j := KthCounts(path, if steps == 0 then 1 else s * steps, selectable);
  }

  lemma NoneAhead(steps: int, wrap: bool, size: int)
    requires size > 0
    ensures Ahead(-1 + Direction(steps), -1, Direction(steps), wrap, size) == FromNone(steps, wrap, size).0
  {
    assert Rising(0, -1) == [] && Falling(-2, 0) == [];
    assert Rising(0, size) + [] == Rising(0, size);
    assert [] + Falling(size - 1, 1) == Falling(size - 1, 1);
  }

  /** From no selection, two steps down in a menu whose first item is a bar and which has one item
      that can be selected end with no selection. */
  lemma TwoStepsFromNone()
    ensures Selection(-1, 2, true, [false, true]) == -1
  {
    assert Rising(0, 2) == [0, 1] by { assert Rising(2, 2) == []; }
    assert Rising(0, -1) == [] && [0, 1] + [] == [0, 1];
    assert [0, 1][1..] == [1] && [1][1..] == [];
  }

  const MENU_BORDER_SIZE: int := 1
  const SCROLL_ITEMS: int := 2

  function Bounded(what: int, lower: int, upper: int): int {
    if what < lower then lower else if what > upper then upper else what
  }

  function Distance(a: int, b: int): int { if a < b then b - a else a - b }

  class Menu {
    const selectable: seq<bool>
    const boxHeight: int
    var selected: int
    var first: int

    ghost predicate Valid()
      reads this
    {
      -1 <= selected < |selectable|
    }

    method ScrollMenu(steps0: int, wrap: bool)
      requires Valid()
      modifies this
      ensures Valid() && selected == Selection(old(selected), steps0, wrap, selectable)
      ensures if selected == -1 then first == 0 else Framed(old(first))
    {
      hide Scrolled, Ahead;
      var size := |selectable|;
      var steps, s := steps0, Direction(steps0);
      if size <= 0 {
        selected, first := -1, 0;
        return;
      }
      var start, pos := selected, selected;
      if steps == 0 {
        steps := 1;
        if pos >= 0 { pos := pos - 1; }
      }
      var found := false;
      ghost var goal := Selection(selected, steps0, wrap, selectable);
      while steps != 0 && !found
        invariant first == old(first)
        invariant found ==> 0 <= pos < size && goal == if selectable[pos] then pos else -1
        invariant !found ==> s * steps >= 0
        invariant !found && steps != 0 ==>
                  Walking(pos + s, start, s, wrap, size)
                  && goal == Scrolled(pos + s, start, s, s * steps, wrap, selectable)
        invariant !found && steps == 0 ==> 0 <= pos < size && selectable[pos] && goal == pos
        decreases !found, s * steps
      {
        pos, steps := pos + s, steps - s;
        while true
          invariant first == old(first) && s * steps >= 0 && Walking(pos, start, s, wrap, size)
          invariant goal == Scrolled(pos, start, s, s * steps + 1, wrap, selectable)
          decreases |Ahead(pos, start, s, wrap, size)|, if 0 <= pos < size then 0 else 1
        {
          if start == pos || (!wrap && !(0 <= pos < size)) {
            ScrolledEnds(pos, start, s, s * steps + 1, wrap, selectable);
          }
          if start != pos && 0 <= pos < size {
            AheadStep(pos, start, s, wrap, size);
            ScrolledStep(pos, start, s, s * steps + 1, wrap, selectable);
          }
          if start == pos {
            found := true;
            break;
          } else if pos >= size && s == 1 {
            if wrap {
              ScrolledWraps(pos, start, s, s * steps + 1, selectable);
              pos := 0;
            } else {
              pos := size - 1;
              found := true;
              break;
            }
          } else if pos < 0 && s == -1 {
            if wrap {
              ScrolledWraps(pos, start, s, s * steps + 1, selectable);
              pos := size - 1;
            } else {
              pos := 0;
              found := true;
              break;
            }
          } else if !selectable[pos] {
            pos := pos + s;
            if start == -1 { ScrolledStarts(pos, s * steps + 1, wrap, selectable); }
          } else {
            break;
          }
          if start == -1 { start := 0; }
        }
      }
      if !selectable[pos] {
        selected, first := -1, 0;
        return;
      }
      SetMenuSelection(pos);
    }

    /** The items that fit into the box, of which there are at least as many in the menu. */
    function Height(): int {
      if boxHeight - 2 * MENU_BORDER_SIZE > 1 then boxHeight - 2 * MENU_BORDER_SIZE else 1
    }

    /** With the item at `at` in front, the selected one is in the box, with some items around it unless
        the menu ends there. */
    predicate InFrame(at: int)
      reads this
    {
      var margin := if (Height() - 1) / 2 < SCROLL_ITEMS then (Height() - 1) / 2 else SCROLL_ITEMS;
      && 0 <= at <= |selectable| - Height() && at <= selected < at + Height()
      && (at == 0 || at + margin <= selected)
      && (at == |selectable| - Height() || selected + margin < at + Height())
    }

    /** A menu of one row keeps its first item; any other moves it no further than it must. */
    ghost predicate Framed(was: int)
      reads this
    {
      && (Height() == 1 ==> first == was)
      && (1 < Height() <= |selectable| ==>
            InFrame(first) && forall at :: InFrame(at) ==> Distance(first, was) <= Distance(at, was))
      && (1 < Height() && |selectable| < Height() ==> first == 0 || first == |selectable| - Height())
    }

    /** After setting the selection it is in the box of a vertical menu, which moves no further than it
        must. */
    method SetMenuSelection(pos: int)
      requires 0 <= pos < |selectable| && selectable[pos]
      modifies this
      ensures selected == pos && Framed(old(first))
    {
      selected := pos;
      var height := Height();
      if height == 1 { return; }
      var scrI := if (height - 1) / 2 < SCROLL_ITEMS then (height - 1) / 2 else SCROLL_ITEMS;
      first := Bounded(first, selected - height + scrI + 1, selected - scrI);
      first := Bounded(first, 0, |selectable| - height);
    }
  }
}
