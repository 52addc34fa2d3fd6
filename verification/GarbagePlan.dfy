/** Which entries a garbage collection keeps, as a function of their sizes
    (src/cache/cache.c:814-961). */
module GarbagePlan {

  datatype Item = Item(size: nat, used: bool)

  const MEMORY_CACHE_GC_PERCENT := 90

  function LowMark(opt: nat): nat { opt * MEMORY_CACHE_GC_PERCENT / 100 }

  function Total(items: seq<Item>): nat {
    if items == [] then 0 else items[0].size + Total(items[1..])
  }

  function Unused(items: seq<Item>): nat {
    if items == [] then 0 else (if items[0].used then 0 else items[0].size) + Unused(items[1..])
  }

  /** The items whose flag is set, in their order. */
  function Keep<T>(s: seq<T>, flags: seq<bool>): (r: seq<T>)
    requires |flags| == |s|
    ensures |r| <= |s|
  {
    if s == [] then [] else (if flags[0] then [s[0]] else []) + Keep(s[1..], flags[1..])
  }

  /** Where the second pass, going from the oldest item to the newest, finds that the unused
      items before it fit below the low mark. */
  function Cutoff(items: seq<Item>, low: nat): (s: nat)
    ensures s <= |items|
    ensures Unused(items[..s]) <= low
    ensures s < |items| ==> low < Unused(items[..s + 1])
  {
    if Unused(items) <= low then
      assert items[..|items|] == items;
      |items|
    else
      var shorter := items[..|items| - 1];
      var s := Cutoff(shorter, low);
      assert items[..s] == shorter[..s];
      assert s < |shorter| ==> items[..s + 1] == shorter[..s + 1];
      assert s == |shorter| ==> items[..s + 1] == items;
      s
  }

  /** The third pass: an item is let off while it still fits; what is not let off stays only
      if it is used. */
  function LetOff(items: seq<Item>, held: nat, low: nat): (flags: seq<bool>)
    ensures |flags| == |items|
  {
    if items == [] then []
    else if held + items[0].size <= low then [true] + LetOff(items[1..], held + items[0].size, low)
    else [items[0].used] + LetOff(items[1..], held, low)
  }

  lemma LetOffStep(items: seq<Item>, i: nat, held: nat, low: nat)
    requires i < |items|
    ensures LetOff(items[i..], held, low)
            == if held + items[i].size <= low then [true] + LetOff(items[i + 1..], held + items[i].size, low)
               else [items[i].used] + LetOff(items[i + 1..], held, low)
  {
    assert items[i..][1..] == items[i + 1..];
  }

  function UsedFlags(items: seq<Item>): seq<bool> {
    seq(|items|, i requires 0 <= i < |items| => items[i].used)
  }

  function All(n: nat): seq<bool> { seq(n, _ => true) }

  /** The collection has something to do. */
  predicate Marks(items: seq<Item>, opt: nat, whole: bool) {
    whole || (opt < Total(items) && opt < Unused(items))
  }

  function Start(items: seq<Item>, opt: nat, whole: bool): (s: nat)
    ensures s <= |items|
  {
    if whole then 0 else Cutoff(items, LowMark(opt))
  }

  function Plan(items: seq<Item>, opt: nat, whole: bool): (flags: seq<bool>)
    ensures |flags| == |items|
  {
    if !Marks(items, opt, whole) then All(|items|)
    else if whole then UsedFlags(items)
    else
      var s := Cutoff(items, LowMark(opt));
      All(s) + LetOff(items[s..], Unused(items[..s]), LowMark(opt))
  }

  lemma PlanIs(items: seq<Item>, opt: nat, whole: bool)
    requires Marks(items, opt, whole)
    ensures var s, flags := Start(items, opt, whole), Plan(items, opt, whole);
            forall i :: 0 <= i < |items| ==>
            flags[i] == if i < s then true else if whole then items[i].used
                        else LetOff(items[s..], Unused(items[..s]), LowMark(opt))[i - s]
  {
    hide Cutoff, LetOff, Unused;
  }

  // ---- sums

  lemma {:induction false} UnusedOfConcat(a: seq<Item>, b: seq<Item>)
    ensures Unused(a + b) == Unused(a) + Unused(b)
  {
    if a == [] {
      assert a + b == b;
    } else {
      assert (a + b)[1..] == a[1..] + b;
      UnusedOfConcat(a[1..], b);
    }
  }

  lemma {:induction false} TotalOfAppend(a: seq<Item>, x: Item)
    ensures Total(a + [x]) == Total(a) + x.size
    ensures Unused(a + [x]) == Unused(a) + if x.used then 0 else x.size
  {
    if a == [] {
      assert a + [x] == [x];
    } else {
      assert (a + [x])[1..] == a[1..] + [x];
      TotalOfAppend(a[1..], x);
    }
  }

  lemma {:induction false} KeepOfConcat<T>(a: seq<T>, b: seq<T>, f: seq<bool>, g: seq<bool>)
    requires |f| == |a| && |g| == |b|
    ensures Keep(a + b, f + g) == Keep(a, f) + Keep(b, g)
  {
    if a == [] {
      assert a + b == b && f + g == g;
    } else {
      var first := if f[0] then [a[0]] else [];
      assert (a + b)[1..] == a[1..] + b && (f + g)[1..] == f[1..] + g && (f + g)[0] == f[0] && (a + b)[0] == a[0];
      KeepOfConcat(a[1..], b, f[1..], g);
      assert first + (Keep(a[1..], f[1..]) + Keep(b, g)) == (first + Keep(a[1..], f[1..])) + Keep(b, g);
    }
  }

  lemma KeepOne<T>(x: T, flag: bool)
    ensures Keep([x], [flag]) == if flag then [x] else []
  {
    assert [x][1..] == [];
  }

  lemma {:induction false} KeepAll<T>(s: seq<T>)
    ensures Keep(s, All(|s|)) == s
  {
    if s != [] {
      assert All(|s|)[1..] == All(|s[1..]|);
      KeepAll(s[1..]);
    }
  }

  /** What is kept of a concatenation, item by item. */
  lemma {:induction false} KeepIndex<T>(s: seq<T>, flags: seq<bool>, x: T)
    requires |flags| == |s|
    ensures x in Keep(s, flags) <==> exists i :: 0 <= i < |s| && s[i] == x && flags[i]
  {
    if s != [] {
      KeepIndex(s[1..], flags[1..], x);
      if i :| 0 <= i < |s| && s[i] == x && flags[i] {
        if i > 0 { assert s[1..][i - 1] == x && flags[1..][i - 1]; }
      }
      if x in Keep(s[1..], flags[1..]) {
        var i :| 0 <= i < |s[1..]| && s[1..][i] == x && flags[1..][i];
        assert s[i + 1] == x && flags[i + 1];
      }
    }
  }

  /** Deciding item `i` of a list whose items before it have been decided. */
  lemma KeepAdvance<T>(s: seq<T>, flags: seq<bool>, i: nat)
    requires i < |s| == |flags|
    ensures var a, b := Keep(s[..i], flags[..i]), Keep(s[..i + 1], flags[..i + 1]);
            var now := a + s[i..];
            && now[|a|] == s[i]
            && (flags[i] ==> |b| == |a| + 1 && now == b + s[i + 1..])
            && (!flags[i] ==> b == a && now[..|a|] + now[|a| + 1..] == b + s[i + 1..])
  {
    assert s[..i + 1] == s[..i] + [s[i]] && flags[..i + 1] == flags[..i] + [flags[i]];
    KeepOfConcat(s[..i], [s[i]], flags[..i], [flags[i]]);
    KeepOne(s[i], flags[i]);
  }

  lemma KeepFrom<T>(s: seq<T>, flags: seq<bool>)
    requires |flags| == |s|
    ensures forall x :: x in Keep(s, flags) ==> x in s
  {
    forall x | x in Keep(s, flags) ensures x in s { KeepIndex(s, flags, x); }
  }

  /** The same flags keep matching items of two sequences. */
  lemma {:induction false} KeepPairs<A, B>(s: seq<A>, t: seq<B>, flags: seq<bool>, k: nat) returns (i: nat)
    requires |s| == |t| == |flags| && k < |Keep(s, flags)|
    ensures |Keep(s, flags)| == |Keep(t, flags)|
    ensures i < |s| && s[i] == Keep(s, flags)[k] && t[i] == Keep(t, flags)[k]
  {
    KeepSameLength(s, t, flags);
    if flags[0] && k == 0 {
      i := 0;
    } else {
      i := KeepPairs(s[1..], t[1..], flags[1..], if flags[0] then k - 1 else k);
      i := i + 1;
    }
  }

  lemma {:induction false} KeepSameLength<A, B>(s: seq<A>, t: seq<B>, flags: seq<bool>)
    requires |s| == |t| == |flags|
    ensures |Keep(s, flags)| == |Keep(t, flags)|
  {
    if s != [] { KeepSameLength(s[1..], t[1..], flags[1..]); }
  }

  // ---- the second pass

  lemma UnusedPrefix(items: seq<Item>, m: nat, n: nat)
    requires m <= n <= |items|
    ensures Unused(items[..m]) <= Unused(items[..n])
  {
    assert items[..n] == items[..m] + items[m..n];
    UnusedOfConcat(items[..m], items[m..n]);
  }

  lemma UnusedBefore(items: seq<Item>, k: nat)
    requires 0 < k <= |items|
    ensures Unused(items[..k]) == Unused(items[..k - 1]) + if items[k - 1].used then 0 else items[k - 1].size
  {
    assert items[..k] == items[..k - 1] + [items[k - 1]];
    TotalOfAppend(items[..k - 1], items[k - 1]);
  }

  lemma NoneUnused(items: seq<Item>)
    ensures Unused(items[..0]) == 0
  {
  }

  /** The position the second pass stops at is the only one of its kind. */
  lemma CutoffIs(items: seq<Item>, low: nat, k: nat)
    requires k <= |items| && Unused(items[..k]) <= low
    requires k < |items| ==> low < Unused(items[..k + 1])
    ensures Cutoff(items, low) == k
  {
    var s := Cutoff(items, low);
    if s < k { UnusedPrefix(items, s + 1, k); }
    if k < s { UnusedPrefix(items, k + 1, s); }
  }

  // ---- the third pass

  /** What the third pass has charged against the low mark when it ends: everything let off,
      used or not. */
  function Charged(items: seq<Item>, held: nat, low: nat): nat {
    if items == [] then held
    else if held + items[0].size <= low then Charged(items[1..], held + items[0].size, low)
    else Charged(items[1..], held, low)
  }

  lemma {:induction false} ChargedGrows(items: seq<Item>, held: nat, low: nat)
    ensures held <= Charged(items, held, low)
    ensures held <= low ==> Charged(items, held, low) <= low
  {
    if items != [] {
      ChargedGrows(items[1..], if held + items[0].size <= low then held + items[0].size else held, low);
    }
  }

  /** What the third pass charges for items that are in use, which stay in any case. */
  function UsedCharged(items: seq<Item>, held: nat, low: nat): nat {
    if items == [] then 0
    else if held + items[0].size <= low then
      (if items[0].used then items[0].size else 0) + UsedCharged(items[1..], held + items[0].size, low)
    else UsedCharged(items[1..], held, low)
  }

  /** All that is charged is the unused items that survive and what is charged for used ones. */
  lemma {:induction false} SurvivorsCharged(items: seq<Item>, held: nat, low: nat)
    ensures held + Unused(Keep(items, LetOff(items, held, low))) + UsedCharged(items, held, low)
            == Charged(items, held, low)
  {
    if items != [] {
      var x, rest := items[0], items[1..];
      var next := if held + x.size <= low then held + x.size else held;
      var flags := LetOff(items, held, low);
      SurvivorsCharged(rest, next, low);
      assert flags[1..] == LetOff(rest, next, low);
      assert Keep(items, flags) == (if flags[0] then [x] else []) + Keep(rest, flags[1..]);
      UnusedOfConcat(if flags[0] then [x] else [], Keep(rest, flags[1..]));
    }
  }

  lemma {:induction false} NoneUsedCharged(items: seq<Item>, held: nat, low: nat)
    requires forall i :: 0 <= i < |items| && items[i].used ==> items[i].size == 0
    ensures UsedCharged(items, held, low) == 0
  {
    if items != [] {
      NoneUsedCharged(items[1..], if held + items[0].size <= low then held + items[0].size else held, low);
    }
  }

  /** The third pass is greedy: an item it does not let off does not fit on top of everything
      that was charged. */
  lemma {:induction false} LetOffGreedy(items: seq<Item>, held: nat, low: nat, i: nat)
    requires i < |items| && !LetOff(items, held, low)[i]
    ensures low < Charged(items, held, low) + items[i].size && !items[i].used
  {
    var next := if held + items[0].size <= low then held + items[0].size else held;
    if i == 0 {
      ChargedGrows(items[1..], next, low);
    } else {
      LetOffGreedy(items[1..], next, low, i - 1);
    }
  }

  lemma {:induction false} LetOffEmpty(items: seq<Item>, held: nat, low: nat, i: nat)
    requires i < |items| && held <= low && (items[i].size == 0 || items[i].used)
    ensures LetOff(items, held, low)[i]
  {
    if i > 0 {
      LetOffEmpty(items[1..], if held + items[0].size <= low then held + items[0].size else held, low, i - 1);
    }
  }

  // ---- the whole collection

  lemma PlanSplit(items: seq<Item>, opt: nat)
    requires Marks(items, opt, false)
    ensures var s := Cutoff(items, LowMark(opt));
            Keep(items, Plan(items, opt, false))
            == items[..s] + Keep(items[s..], LetOff(items[s..], Unused(items[..s]), LowMark(opt)))
  {
    var s := Cutoff(items, LowMark(opt));
    assert items == items[..s] + items[s..];
    KeepOfConcat(items[..s], items[s..], All(s), LetOff(items[s..], Unused(items[..s]), LowMark(opt)));
    KeepAll(items[..s]);
  }

  /** Only unused entries are deleted, never the ones newer than where the second pass stopped,
      and, unless the whole cache is to go, never one without data. */
  lemma PlanDeletes(items: seq<Item>, opt: nat, whole: bool, i: nat)
    requires i < |items| && !Plan(items, opt, whole)[i]
    ensures !items[i].used && Start(items, opt, whole) <= i
    ensures !whole ==> 0 < items[i].size
  {
    if !whole {
      var s := Cutoff(items, LowMark(opt));
      var flags := LetOff(items[s..], Unused(items[..s]), LowMark(opt));
      assert i >= s && !flags[i - s];
      if items[s..][i - s].size == 0 || items[s..][i - s].used {
        LetOffEmpty(items[s..], Unused(items[..s]), LowMark(opt), i - s);
      }
    }
  }

  lemma {:induction false} NoUnusedKept(items: seq<Item>)
    ensures Unused(Keep(items, UsedFlags(items))) == 0
  {
    if items != [] {
      assert UsedFlags(items)[1..] == UsedFlags(items[1..]);
      NoUnusedKept(items[1..]);
      UnusedOfConcat(if items[0].used then [items[0]] else [], Keep(items[1..], UsedFlags(items[1..])));
    }
  }

  /** The unused data that survives: at most what the user allows, at most the low mark once
      anything was marked, and none at all when the whole cache is to go. */
  lemma PlanBounds(items: seq<Item>, opt: nat, whole: bool)
    ensures var kept := Keep(items, Plan(items, opt, whole));
            && Unused(kept) <= opt
            && (Marks(items, opt, whole) ==> Unused(kept) <= LowMark(opt))
            && (whole ==> Unused(kept) == 0 && forall x :: x in kept ==> x.used)
  {
    assert LowMark(opt) <= opt;
    if !Marks(items, opt, whole) {
      KeepAll(items);
      UnusedAtMostTotal(items);
    } else if whole {
      NoUnusedKept(items);
      forall x | x in Keep(items, Plan(items, opt, whole)) ensures x.used {
        KeepIndex(items, Plan(items, opt, whole), x);
      }
    } else {
      var s := Cutoff(items, LowMark(opt));
      var rest, held := items[s..], Unused(items[..s]);
      PlanSplit(items, opt);
      UnusedOfConcat(items[..s], Keep(rest, LetOff(rest, held, LowMark(opt))));
      SurvivorsCharged(rest, held, LowMark(opt));
      ChargedGrows(rest, held, LowMark(opt));
    }
  }

  lemma {:induction false} UnusedAtMostTotal(items: seq<Item>)
    ensures Unused(items) <= Total(items)
  {
    if items != [] { UnusedAtMostTotal(items[1..]); }
  }

  /** The bounds in numbers. */
  predicate InBounds(left: seq<Item>, items: seq<Item>, opt: nat, whole: bool) {
    && Unused(left) <= opt && (whole ==> forall i :: 0 <= i < |left| ==> left[i].used)
    && (opt < Unused(items) ==> 100 * Unused(left) <= 90 * opt)
  }

  lemma LeftOver(items: seq<Item>, opt: nat, whole: bool)
    ensures InBounds(Keep(items, Plan(items, opt, whole)), items, opt, whole)
  {
    hide Plan, Keep, Unused;
    PlanBounds(items, opt, whole);
    UnusedAtMostTotal(items);
    var kept := Keep(items, Plan(items, opt, whole));
    forall i | 0 <= i < |kept| && whole ensures kept[i].used { assert kept[i] in kept; }
  }

  /** Everything charged when a partial collection ends: the unused entries newer than the
      cut-off, and whatever the third pass let off. */
  function PlanCharge(items: seq<Item>, opt: nat): nat {
    var s := Cutoff(items, LowMark(opt));
    Charged(items[s..], Unused(items[..s]), LowMark(opt))
  }

  function PlanUsedCharge(items: seq<Item>, opt: nat): nat {
    var s := Cutoff(items, LowMark(opt));
    UsedCharged(items[s..], Unused(items[..s]), LowMark(opt))
  }

  /** No deleted entry would have fitted on top of what was charged, which is the unused data that
      survives and the used data that was charged with it.  So a deleted entry would have fitted
      exactly when it exceeds the low mark by no more than that used data; and when the used entries
      in the scanned tail hold no data, none would have. */
  lemma PlanGreedy(items: seq<Item>, opt: nat, i: nat)
    requires i < |items| && !Plan(items, opt, false)[i]
    ensures var low, charge, used := LowMark(opt), PlanCharge(items, opt), PlanUsedCharge(items, opt);
            var kept := Unused(Keep(items, Plan(items, opt, false)));
            && kept + used == charge <= low < charge + items[i].size
            && (kept + items[i].size <= low <==> charge + items[i].size - low <= used)
    ensures (forall j :: Cutoff(items, LowMark(opt)) <= j < |items| && items[j].used ==> items[j].size == 0) ==>
      LowMark(opt) < Unused(Keep(items, Plan(items, opt, false))) + items[i].size
  {
    hide Unused, Keep, LetOff, Cutoff;
    var s := Cutoff(items, LowMark(opt));
    var rest, held := items[s..], Unused(items[..s]);
    PlanSplit(items, opt);
    UnusedOfConcat(items[..s], Keep(rest, LetOff(rest, held, LowMark(opt))));
    SurvivorsCharged(rest, held, LowMark(opt));
    ChargedGrows(rest, held, LowMark(opt));
    assert !LetOff(rest, held, LowMark(opt))[i - s];
    LetOffGreedy(rest, held, LowMark(opt), i - s);
    if forall j :: 0 <= j < |rest| && rest[j].used ==> rest[j].size == 0 { NoneUsedCharged(rest, held, LowMark(opt)); }
  }

  lemma {:induction false} KeepFewer<T>(s: seq<T>, flags: seq<bool>, i: nat)
    requires i < |s| == |flags| && !flags[i]
    ensures |Keep(s, flags)| < |s|
  {
    if i > 0 { KeepFewer(s[1..], flags[1..], i - 1); }
  }

  lemma KeepsWhole<T>(s: seq<T>, flags: seq<bool>)
    requires |flags| == |s|
    ensures Keep(s, flags) == s <==> forall i :: 0 <= i < |s| ==> flags[i]
  {
    if i :| 0 <= i < |s| && !flags[i] {
      KeepFewer(s, flags, i);
    } else {
      assert flags == All(|s|);
      KeepAll(s);
    }
  }

  /** If the unused data is more than the user allows, the entry at which the second pass stops is
      deleted: it is unused, all newer ones stay, and with it the unused data is more than 90 % of
      what is allowed. */
  lemma CutoffDeleted(items: seq<Item>, opt: nat)
    requires opt < Unused(items)
    ensures var i := Cutoff(items, LowMark(opt));
            && i < |items| && !items[i].used && !Plan(items, opt, false)[i]
            && (forall j :: 0 <= j < i ==> Plan(items, opt, false)[j])
            && 100 * Unused(items[..i]) <= 90 * opt < 100 * Unused(items[..i + 1])
  {
    hide LetOff, Unused, Cutoff;
    var low := LowMark(opt);
    var i := Cutoff(items, low);
    UnusedAtMostTotal(items);
    assert items[..|items|] == items;
    UnusedBefore(items, i + 1);
    LetOffStep(items, i, Unused(items[..i]), low);
  }

  /** When nothing is deleted: when nothing but used entries are there, if the whole cache is to go,
      and else exactly if the unused data is no more than the user allows. */
  lemma CollectsWhen(items: seq<Item>, opt: nat, whole: bool)
    ensures (forall i :: 0 <= i < |items| ==> Plan(items, opt, whole)[i])
            <==> if whole then forall i :: 0 <= i < |items| ==> items[i].used else Unused(items) <= opt
  {
    hide LetOff, Unused, Cutoff, LowMark;
    var flags := Plan(items, opt, whole);
    if whole {
      assert forall i :: 0 <= i < |items| ==> flags[i] == items[i].used;
    } else if opt < Unused(items) {
      CutoffDeleted(items, opt);
    } else {
      assert flags == All(|items|);
    }
  }

  /** A used entry in the tail is charged like an unused one, and then the collection can delete
      an entry that would have fitted: here the last one, of size 5, though no unused data
      survives and the low mark is 9. */
  lemma UsedEntriesAreCharged()
    ensures var items := [Item(11, false), Item(5, true), Item(5, false)];
            && LowMark(10) == 9
            && Plan(items, 10, false) == [false, true, false]
            && Unused(Keep(items, Plan(items, 10, false))) + items[2].size <= LowMark(10)
  {
    var items := [Item(11, false), Item(5, true), Item(5, false)];
    assert items[..2] == [Item(11, false), Item(5, true)] && items[..2][..1] == [Item(11, false)]
      && items[..1][..0] == [];
    assert Unused(items) == 16 && Unused(items[..2]) == 11 && Unused(items[..1]) == 11;
    assert Cutoff(items, 9) == 0;
    assert items[0..] == items && items[1..] == [Item(5, true), Item(5, false)] && items[1..][1..] == [Item(5, false)];
    assert LetOff(items[2..], 5, 9) == [false];
    assert LetOff(items[1..], 0, 9) == [true, false];
    assert LetOff(items, 0, 9) == [false, true, false];
    var flags := [false, true, false];
    assert flags[1..] == [true, false] && flags[1..][1..] == [false];
    assert Keep(items[2..], [false]) == [] && Keep(items[1..], [true, false]) == [Item(5, true)];
  }
}
