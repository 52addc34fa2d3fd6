/** How single edits of a fragment list change the byte map it stands for. */
module FragmentEdits {
  import opened ByteMaps

  /** The fragment at which add_fragment stops looking: the first that reaches `offset`. */
  function Stop(fs: seq<Extent>, offset: int): (i: nat)
    ensures i <= |fs|
    ensures forall j :: 0 <= j < i ==> fs[j].End() < offset
    ensures i < |fs| ==> offset <= fs[i].End()
  {
    if fs == [] || offset <= fs[0].End() then 0 else 1 + Stop(fs[1..], offset)
  }

  lemma {:induction false} StopIs(fs: seq<Extent>, i: nat, offset: int)
    requires i <= |fs| && forall j :: 0 <= j < i ==> fs[j].End() < offset
    requires i < |fs| ==> offset <= fs[i].End()
    ensures Stop(fs, offset) == i
  {
    if i > 0 { StopIs(fs[1..], i - 1, offset); }
  }

  /** That fragment starts at or before `offset`, so the new data touches it. */
  predicate Touched(fs: seq<Extent>, offset: int) {
    var i := Stop(fs, offset);
    i < |fs| && fs[i].offset <= offset
  }

  /** The new data, ending at `end`, fits the buffer of the touched fragment. */
  predicate InPlace(fs: seq<Extent>, offset: int, end: int) {
    var i := Stop(fs, offset);
    Touched(fs, offset) && (end <= fs[i].End() || end - fs[i].offset <= fs[i].room)
  }

  /** What is lost from the touched fragment when the data goes into a fragment of its own. */
  function Dropped(fs: seq<Extent>, offset: int, end: int): int {
    if Touched(fs, offset) && !InPlace(fs, offset, end) then fs[Stop(fs, offset)].End() - offset else 0
  }

  /** The size charged to an entry drifts exactly when a write outgrows the buffer of the fragment
      it touches and starts before the end of it. */
  lemma DroppedExactly(fs: seq<Extent>, offset: int, end: int)
    ensures 0 <= Dropped(fs, offset, end)
    ensures var i := Stop(fs, offset);
            0 < Dropped(fs, offset, end)
            <==> i < |fs| && fs[i].offset <= offset < fs[i].End() < end && fs[i].room < end - fs[i].offset
  {
  }

  /** The fragments against which a new fragment is compared. */
  function Later(fs: seq<Extent>, offset: int): seq<Extent> {
    if Touched(fs, offset) then fs[Stop(fs, offset) + 1..] else fs[Stop(fs, offset)..]
  }

  /** The old map overlaid with new bytes is cut at `end`: always when they were written in
      place, otherwise when a later fragment disagrees with them. */
  ghost predicate Cuts(fs: seq<Extent>, offset: int, data: seq<Byte>) {
    || InPlace(fs, offset, offset + |data|)
    || Disagree(Bytes(Later(fs, offset)), Chunk(offset, data))
  }

  /** A fragment `f` overwritten with `data` from `offset` on, growing if needed. */
  function Overwritten(f: Extent, offset: int, data: seq<Byte>): Extent
    requires f.offset <= offset <= f.End()
  {
    var at := offset - f.offset;
    f.(bytes := f.bytes[..at] + data + if at + |data| <= |f.bytes| then f.bytes[at + |data|..] else [])
  }

  function CachePad(n: nat): nat { (n / 0x4000 + 1) * 0x4000 }

  /** The next multiple above `n`, and no other. */
  lemma CachePadFits(n: nat)
    ensures n < CachePad(n) <= n + 0x4000 && CachePad(n) % 0x4000 == 0
  {
  }

  /** A write that touches a fragment with the room it was made with goes in place exactly if the last
      byte it would put into the fragment is in no later block of 0x4000 than the first byte behind the
      fragment when it was made. */
  lemma FreshRoom(fs: seq<Extent>, n: nat, offset: int, end: int)
    requires Touched(fs, offset) && fs[Stop(fs, offset)].room == CachePad(n)
    requires |fs[Stop(fs, offset)].bytes| <= n && fs[Stop(fs, offset)].offset < end
    ensures InPlace(fs, offset, end) <==> (end - 1 - fs[Stop(fs, offset)].offset) / 0x4000 <= n / 0x4000
  {
    var f := fs[Stop(fs, offset)];
    var k := end - 1 - f.offset;
    CachePadFits(n);
    assert k < CachePad(n) <==> k / 0x4000 <= n / 0x4000;
  }

  function Shortened(f: Extent, offset: int): Extent
    requires f.offset <= offset <= f.End()
  {
    f.(bytes := f.bytes[..offset - f.offset])
  }

  function NewExtent(offset: int, data: seq<Byte>): Extent {
    Extent(offset, data, CachePad(|data|))
  }

  /** Where add_fragment puts the data, and the list it then has before merging. */
  function PlaceAt(fs: seq<Extent>, offset: int, end: int): (p: nat)
    ensures p <= |fs|
  {
    Stop(fs, offset) + if Touched(fs, offset) && !InPlace(fs, offset, end) then 1 else 0
  }

  function Placed(fs: seq<Extent>, offset: int, data: seq<Byte>): seq<Extent> {
    var i := Stop(fs, offset);
    if InPlace(fs, offset, offset + |data|) then
      fs[i := Overwritten(fs[i], offset, data)]
    else
      var kept := if Touched(fs, offset) then fs[i := Shortened(fs[i], offset)] else fs;
      var p := PlaceAt(fs, offset, offset + |data|);
      kept[..p] + [NewExtent(offset, data)] + kept[p..]
  }

  /** The three ways to place the data, told by what the search found. */
  lemma PlacedCases(fs: seq<Extent>, i: nat, offset: int, data: seq<Byte>)
    requires i <= |fs| && forall j :: 0 <= j < i ==> fs[j].End() < offset
    requires i < |fs| ==> offset <= fs[i].End()
    ensures var end := offset + |data|;
      if i < |fs| && fs[i].offset <= offset then
        if end <= fs[i].End() || end - fs[i].offset <= fs[i].room then
          && InPlace(fs, offset, end) && PlaceAt(fs, offset, end) == i && Dropped(fs, offset, end) == 0
          && Placed(fs, offset, data) == fs[i := Overwritten(fs[i], offset, data)]
        else
          var kept := fs[i := Shortened(fs[i], offset)];
          && !InPlace(fs, offset, end) && PlaceAt(fs, offset, end) == i + 1
          && Dropped(fs, offset, end) == fs[i].End() - offset
          && Placed(fs, offset, data) == kept[..i + 1] + [NewExtent(offset, data)] + kept[i + 1..]
      else
        && !InPlace(fs, offset, end) && PlaceAt(fs, offset, end) == i && Dropped(fs, offset, end) == 0
        && Placed(fs, offset, data) == fs[..i] + [NewExtent(offset, data)] + fs[i..]
  {
    StopIs(fs, i, offset);
  }

  /** The map after add_fragment: overlaid with the new bytes and perhaps cut where they end. */
  ghost function Written(m: map<int, Byte>, offset: int, data: seq<Byte>, cut: bool): map<int, Byte> {
    if cut then Below(m + Chunk(offset, data), offset + |data|) else m + Chunk(offset, data)
  }

  /** What a later reader finds after a write: the new bytes where they were put, the old bytes
      below them, and above them the old bytes or, after a cut, nothing. */
  lemma WrittenReads(m: map<int, Byte>, offset: int, data: seq<Byte>, cut: bool)
    ensures var r := Written(m, offset, data, cut);
            && Below(r, offset) == Below(m, offset)
            && (forall k :: offset <= k < offset + |data| ==> k in r && r[k] == data[k - offset])
            && From(r, offset + |data|) == if cut then map[] else From(m, offset + |data|)
  {
  }

  /** 0 when only old data was overwritten, 1 when the entry was enlarged. */
  function AddResult(fs: seq<Extent>, offset: int, data: seq<Byte>): int {
    if InPlace(fs, offset, offset + |data|) && offset + |data| <= fs[Stop(fs, offset)].End() then 0 else 1
  }

  lemma ChunkOverwritten(f: Extent, offset: int, data: seq<Byte>)
    requires f.offset <= offset <= f.End()
    ensures Chunk(f.offset, Overwritten(f, offset, data).bytes) == Chunk(f.offset, f.bytes) + Chunk(offset, data)
  {
  }

  /** Two overlays that do not meet can be made in either order. */
  lemma OverlayCommutes(b: map<int, Byte>, a: map<int, Byte>, c: map<int, Byte>)
    requires forall k :: k in a ==> k !in c
    ensures b + c + a == b + a + c
  {
    var l, r := b + c + a, b + a + c;
    assert forall k :: k in l ==> k in r && l[k] == r[k];
    assert forall k :: k in r ==> k in l;
  }

  lemma OverwriteInPlace(fs: seq<Extent>, i: nat, offset: int, data: seq<Byte>)
    requires Ordered(fs) && i < |fs| && fs[i].offset <= offset <= fs[i].End()
    ensures Bytes(fs[i := Overwritten(fs[i], offset, data)]) == Bytes(fs) + Chunk(offset, data)
  {
    hide Bytes, TotalLength;
    var f, g := fs[i], Overwritten(fs[i], offset, data);
    var fs' := fs[i := g];
    SplitAround(fs, i);
    SplitAround(fs', i);
    assert fs'[..i] == fs[..i] && fs'[i + 1..] == fs[i + 1..];
    ChunkOverwritten(f, offset, data);
    CoveredBelow(fs[..i], f.offset);
    OverlayAssociative(Bytes(fs[i + 1..]), Chunk(f.offset, f.bytes), Chunk(offset, data));
    OverlayCommutes(Bytes(fs[i + 1..]) + Chunk(f.offset, f.bytes), Bytes(fs[..i]), Chunk(offset, data));
  }

  /** Linking a new fragment between fragments that end by `offset` and any later ones. */
  lemma InsertBetween(fs: seq<Extent>, i: nat, e: Extent)
    requires i <= |fs| && forall j :: 0 <= j < i ==> fs[j].End() <= e.offset
    ensures Bytes(fs[..i] + [e] + fs[i..]) == Bytes(fs) + Chunk(e.offset, e.bytes)
  {
    hide Bytes, TotalLength;
    SplitAt(fs, i);
    var fs' := fs[..i] + [e] + fs[i..];
    SplitAround(fs', i);
    assert fs'[..i] == fs[..i] && fs'[i + 1..] == fs[i..] && fs'[i] == e;
    CoveredBelow(fs[..i], e.offset);
    OverlayCommutes(Bytes(fs[i..]), Bytes(fs[..i]), Chunk(e.offset, e.bytes));
  }

  lemma ChunkShortened(f: Extent, offset: int)
    requires f.offset <= offset <= f.End()
    ensures Chunk(f.offset, Shortened(f, offset).bytes) == Below(Chunk(f.offset, f.bytes), offset)
  {
  }

  lemma ChunkHidden(f: Extent, offset: int, data: seq<Byte>)
    requires f.offset <= offset <= f.End() <= offset + |data|
    ensures Chunk(f.offset, Shortened(f, offset).bytes) + Chunk(offset, data)
            == Chunk(f.offset, f.bytes) + Chunk(offset, data)
  {
    ChunkShortened(f, offset);
  }

  lemma RewriteHidden(b: map<int, Byte>, c: map<int, Byte>, c': map<int, Byte>, a: map<int, Byte>, d: map<int, Byte>)
    requires c + d == c' + d
    requires forall k :: k in a ==> k !in d
    ensures b + c + a + d == b + c' + a + d
  {
    OverlayCommutes(b + c, a, d);
    OverlayCommutes(b + c', a, d);
    OverlayAssociative(b, c, d);
    OverlayAssociative(b, c', d);
  }

  /** Shortening fragment `i` to end at `offset` only loses bytes that the new data rewrites. */
  lemma ShortenThenInsert(fs: seq<Extent>, i: nat, offset: int, data: seq<Byte>)
    requires Ordered(fs) && i < |fs|
    requires fs[i].offset <= offset <= fs[i].End() <= offset + |data|
    ensures Bytes(fs[i := Shortened(fs[i], offset)]) + Chunk(offset, data) == Bytes(fs) + Chunk(offset, data)
  {
    hide Bytes, TotalLength;
    var f, g := fs[i], Shortened(fs[i], offset);
    var c, d := Chunk(f.offset, f.bytes), Chunk(offset, data);
    SplitAround(fs, i);
    SplitAround(fs[i := g], i);
    assert fs[i := g][..i] == fs[..i] && fs[i := g][i + 1..] == fs[i + 1..];
    CoveredBelow(fs[..i], f.offset);
    ChunkHidden(f, offset, data);
    RewriteHidden(Bytes(fs[i + 1..]), c, Chunk(g.offset, g.bytes), Bytes(fs[..i]), d);
  }

  /** The part of the next fragment that overlaps fragment `f`. */
  function Common(f: Extent, next: Extent): nat
    requires next.offset <= f.End()
  {
    if f.End() < next.End() then f.End() - next.offset else |next.bytes|
  }

  function Absorbed(g: Extent, next: Extent): Extent
    requires next.offset <= g.End()
  {
    if g.End() < next.End()
    then Extent(g.offset, g.bytes + next.bytes[Common(g, next)..], |g.bytes| + |next.bytes| - Common(g, next))
    else g
  }

  /** The comparison that remove_overlaps makes. */
  predicate OverlapDiffers(f: Extent, next: Extent)
    requires f.offset <= next.offset <= f.End()
  {
    var at := next.offset - f.offset;
    f.bytes[at..at + Common(f, next)] != next.bytes[..Common(f, next)]
  }

  /** Fragment `p` has taken over the one after it. */
  function Swallowed(fs: seq<Extent>, p: nat): seq<Extent>
    requires p + 1 < |fs| && fs[p + 1].offset <= fs[p].End()
  {
    fs[..p] + [Absorbed(fs[p], fs[p + 1])] + fs[p + 2..]
  }

  lemma SwallowedAt(fs: seq<Extent>, p: nat)
    requires p + 1 < |fs| && fs[p + 1].offset <= fs[p].End()
    ensures p < |Swallowed(fs, p)| && Swallowed(fs, p)[p] == Absorbed(fs[p], fs[p + 1])
    ensures |Absorbed(fs[p], fs[p + 1]).bytes| >= |fs[p].bytes|
  {
  }

  lemma SwallowedTotal(fs: seq<Extent>, p: nat)
    requires p + 1 < |fs| && fs[p + 1].offset <= fs[p].End()
    ensures TotalLength(Swallowed(fs, p))
            == TotalLength(fs) + |Absorbed(fs[p], fs[p + 1]).bytes| - |fs[p].bytes| - |fs[p + 1].bytes|
  {
    var r := Swallowed(fs, p);
    SplitAround(fs, p);
    SplitAround(r, p);
    assert r[..p] == fs[..p] && r[p + 1..] == fs[p + 2..];
    assert fs[p + 1..][0] == fs[p + 1] && fs[p + 1..][1..] == fs[p + 2..];
  }

  /** One round of remove_overlaps: `n` overlaps `f` and reaches at least as far. */
  lemma AbsorbTail(f: Extent, n: Extent)
    requires f.offset <= n.offset <= f.End() <= n.End()
    ensures Chunk(n.offset, n.bytes) + Chunk(f.offset, f.bytes)
            == Chunk(f.offset, f.bytes + n.bytes[f.End() - n.offset..])
  {
  }

  /** One round of remove_overlaps: `n` lies inside `f`. */
  lemma AbsorbInner(f: Extent, n: Extent)
    requires f.offset <= n.offset && n.End() <= f.End()
    ensures Chunk(n.offset, n.bytes) + Chunk(f.offset, f.bytes) == Chunk(f.offset, f.bytes)
  {
  }

  /** A map and the bytes of a further fragment that it does not meet: disagreement is pieced
      together from both. */
  lemma DisagreeUnion(m: map<int, Byte>, n: map<int, Byte>, c: map<int, Byte>)
    requires forall k :: k in m ==> k !in n
    ensures Disagree(n + m, c) <==> Disagree(m, c) || Disagree(n, c)
  {
    if k :| k in m && k in c && m[k] != c[k] { assert (n + m)[k] == m[k]; }
    if k :| k in n && k in c && n[k] != c[k] { assert (n + m)[k] == n[k]; }
    if k :| k in n + m && k in c && (n + m)[k] != c[k] { assert k in m || k in n; }
  }

  /** That comparison tells whether the two fragments disagree anywhere. */
  lemma CompareOverlap(f: Extent, n: Extent)
    requires f.offset <= n.offset <= f.End()
    ensures Disagree(Chunk(n.offset, n.bytes), Chunk(f.offset, f.bytes)) <==> OverlapDiffers(f, n)
  {
    var at := n.offset - f.offset;
    var a, b := f.bytes[at..at + Common(f, n)], n.bytes[..Common(f, n)];
    var cf, cn := Chunk(f.offset, f.bytes), Chunk(n.offset, n.bytes);
    if a != b {
      var j :| 0 <= j < Common(f, n) && a[j] != b[j];
      var k := n.offset + j;
      assert k in cn && k in cf && cn[k] != cf[k];
    }
    if k :| k in cn && k in cf && cn[k] != cf[k] {
      assert a[k - n.offset] != b[k - n.offset];
    }
  }

  lemma BelowSplit(b: map<int, Byte>, a: map<int, Byte>, offset: int)
    requires forall k :: k in b ==> offset <= k
    requires forall k :: k in a ==> k < offset
    ensures Below(b + a, offset) == a
  {
  }

  lemma BelowParts(b: map<int, Byte>, c: map<int, Byte>, a: map<int, Byte>, offset: int)
    requires forall k :: k in b ==> offset <= k
    requires forall k :: k in a ==> k < offset
    ensures Below(b + c + a, offset) == Below(c, offset) + a
  {
    BelowOverlay(b + c, a, offset);
    BelowOverlay(b, c, offset);
    assert Below(b, offset) == map[] && Below(a, offset) == a;
  }

  function Min(a: int, b: int): int { if a < b then a else b }
  function Max(a: int, b: int): int { if a < b then b else a }

  lemma WellFormedLonger(fs: seq<Extent>, length: int, longer: int)
    requires WellFormed(fs, length) && length <= longer
    ensures WellFormed(fs, longer)
  {
  }

  /** Cutting a list at `offset`: fragments before `i` end by `offset`, fragment `i` is cut to
      what lies below it, and the rest goes. */
  lemma CutWhole(fs: seq<Extent>, i: nat, offset: int)
    requires i <= |fs|
    requires forall j :: 0 <= j < i ==> fs[j].End() <= offset
    requires forall j :: i <= j < |fs| ==> offset <= fs[j].offset
    ensures Bytes(fs[..i]) == Below(Bytes(fs), offset)
    ensures forall length :: WellFormed(fs, length) ==> WellFormed(fs[..i], Min(length, offset))
  {
    hide Bytes, TotalLength;
    SplitAt(fs, i);
    CoveredBelow(fs[..i], offset);
    CoveredFrom(fs[i..], offset);
    BelowSplit(Bytes(fs[i..]), Bytes(fs[..i]), offset);
  }

  lemma CutPart(fs: seq<Extent>, i: nat, offset: int, room: nat)
    requires Ordered(fs) && i < |fs| && fs[i].offset < offset < fs[i].End()
    requires forall j :: 0 <= j < i ==> fs[j].End() <= offset
    requires offset - fs[i].offset <= room
    ensures Bytes(fs[..i] + [Shortened(fs[i], offset).(room := room)]) == Below(Bytes(fs), offset)
  {
    hide Bytes, TotalLength;
    var f, g := fs[i], Shortened(fs[i], offset).(room := room);
    SplitAround(fs, i);
    CoveredBelow(fs[..i], offset);
    CoveredFrom(fs[i + 1..], f.End());
    BelowParts(Bytes(fs[i + 1..]), Chunk(f.offset, f.bytes), Bytes(fs[..i]), offset);
    BytesOfAppend(fs[..i], g);
    ChunkShortened(f, offset);
  }

  lemma CutPartWellFormed(fs: seq<Extent>, i: nat, offset: int, room: nat, length: int)
    requires WellFormed(fs, length) && i < |fs| && fs[i].offset < offset < fs[i].End()
    requires offset - fs[i].offset <= room
    ensures WellFormed(fs[..i] + [Shortened(fs[i], offset).(room := room)], Min(length, offset))
  {
  }

  /** Fragment `f` without its bytes below `offset`. */
  function Trimmed(f: Extent, offset: int): Extent
    requires f.offset <= offset <= f.End()
  {
    Extent(offset, f.bytes[offset - f.offset..], f.room)
  }

  lemma ChunkTrimmed(f: Extent, offset: int)
    requires f.offset <= offset <= f.End()
    ensures Chunk(offset, Trimmed(f, offset).bytes) == From(Chunk(f.offset, f.bytes), offset)
  {
  }

  lemma FromParts(b: map<int, Byte>, c: map<int, Byte>, a: map<int, Byte>, offset: int)
    requires forall k :: k in b ==> offset <= k
    requires forall k :: k in a ==> k < offset
    ensures From(b + c + a, offset) == b + From(c, offset)
  {
    FromOverlay(b + c, a, offset);
    FromOverlay(b, c, offset);
    assert From(a, offset) == map[] && From(b, offset) == b;
  }

  /** Freeing a list up to `offset`: fragments before `i` end by `offset` and go, fragment `i`
      loses what lies below it. */
  lemma FreeWhole(fs: seq<Extent>, i: nat, offset: int)
    requires i <= |fs|
    requires forall j :: 0 <= j < i ==> fs[j].End() <= offset
    requires forall j :: i <= j < |fs| ==> offset <= fs[j].offset
    ensures Bytes(fs[i..]) == From(Bytes(fs), offset)
  {
    hide Bytes, TotalLength;
    SplitAt(fs, i);
    CoveredBelow(fs[..i], offset);
    CoveredFrom(fs[i..], offset);
    var b, a := Bytes(fs[i..]), Bytes(fs[..i]);
    FromOverlay(b, a, offset);
    assert From(b, offset) == b && From(a, offset) == map[];
  }

  lemma FreePart(fs: seq<Extent>, i: nat, offset: int)
    requires Ordered(fs) && i < |fs| && fs[i].offset < offset < fs[i].End()
    requires forall j :: 0 <= j < i ==> fs[j].End() <= offset
    ensures Bytes([Trimmed(fs[i], offset)] + fs[i + 1..]) == From(Bytes(fs), offset)
  {
    hide Bytes, TotalLength;
    var f, rest := fs[i], Trimmed(fs[i], offset);
    SplitAround(fs, i);
    CoveredBelow(fs[..i], offset);
    CoveredFrom(fs[i + 1..], f.End());
    FromParts(Bytes(fs[i + 1..]), Chunk(f.offset, f.bytes), Bytes(fs[..i]), offset);
    ChunkTrimmed(f, offset);
    BytesOfPrepend(rest, fs[i + 1..]);
  }

  /** While freeing up to `offset`: the first `n` fragments are gone, and the next one has lost its
      beginning if `i` is 1. */
  ghost predicate Freeing(fs: seq<Extent>, n: nat, i: nat, now: seq<Extent>, offset: int) {
    && n <= |fs| && (forall j :: 0 <= j < n ==> fs[j].End() <= offset)
    && (if i == 0 then now == fs[n..]
        else i == 1 && n < |fs| && fs[n].offset < offset < fs[n].End() && now == [Trimmed(fs[n], offset)] + fs[n + 1..])
  }

  lemma FreeingFirst(fs: seq<Extent>, length: int, offset: int)
    requires WellFormed(fs, length)
    ensures Ordered(fs) && Freeing(fs, 0, 0, fs, offset)
  {
  }

  lemma FreeingWhole(fs: seq<Extent>, n: nat, i: nat, now: seq<Extent>, offset: int)
    requires Ordered(fs) && Freeing(fs, n, i, now, offset) && i < |now| && now[i].End() <= offset
    ensures i == 0 && Freeing(fs, n + 1, 0, now[..i] + now[i + 1..], offset)
  {
    hide Trimmed;
    if i == 0 {
      assert now[0] == fs[n] && now[..0] + now[1..] == fs[n + 1..];
    }
  }

  lemma FreeingPart(fs: seq<Extent>, n: nat, i: nat, now: seq<Extent>, offset: int)
    requires Ordered(fs) && Freeing(fs, n, i, now, offset) && i < |now| && now[i].offset < offset < now[i].End()
    ensures i == 0 && Freeing(fs, n, 1, now[i := Trimmed(now[i], offset)], offset)
  {
    hide Trimmed;
    if i == 0 {
      assert now[0] == fs[n];
      assert now[0 := Trimmed(now[0], offset)] == [Trimmed(fs[n], offset)] + fs[n + 1..];
    }
  }

  lemma FreeingDone(fs: seq<Extent>, n: nat, i: nat, now: seq<Extent>, offset: int, length: int)
    requires WellFormed(fs, length) && Freeing(fs, n, i, now, offset) && (i < |now| ==> offset <= now[i].offset)
    ensures Bytes(now) == From(Bytes(fs), offset) && WellFormed(now, length)
  {
    hide Bytes, From, Trimmed;
    if i == 0 {
      forall j | n <= j < |fs| ensures offset <= fs[j].offset {
        assert now[0] == fs[n];
        if n < j { assert fs[n].End() <= fs[j].offset; }
      }
      FreeWhole(fs, n, offset);
      FreeWholeWellFormed(fs, n, length);
    } else {
      FreePart(fs, n, offset);
      FreePartWellFormed(fs, n, offset, length);
    }
  }

  lemma RemovedTotal(fs: seq<Extent>, i: nat)
    requires i < |fs|
    ensures TotalLength(fs[..i] + fs[i + 1..]) == TotalLength(fs) - |fs[i].bytes|
  {
    SplitAround(fs, i);
    TotalOfConcat(fs[..i], fs[i + 1..]);
  }

  lemma ReplacedTotal(fs: seq<Extent>, i: nat, e: Extent)
    requires i < |fs|
    ensures TotalLength(fs[i := e]) == TotalLength(fs) - |fs[i].bytes| + |e.bytes|
  {
    SplitAround(fs, i);
    SplitAround(fs[i := e], i);
    assert fs[i := e][..i] == fs[..i] && fs[i := e][i + 1..] == fs[i + 1..];
  }

  lemma InsertedTotal(fs: seq<Extent>, i: nat, e: Extent)
    requires i <= |fs|
    ensures TotalLength(fs[..i] + [e] + fs[i..]) == TotalLength(fs) + |e.bytes|
  {
    var r := fs[..i] + [e] + fs[i..];
    SplitAt(fs, i);
    SplitAround(r, i);
    assert r[..i] == fs[..i] && r[i + 1..] == fs[i..];
  }

  lemma FreeWholeWellFormed(fs: seq<Extent>, i: nat, length: int)
    requires WellFormed(fs, length) && i <= |fs|
    ensures WellFormed(fs[i..], length)
  {
  }

  lemma FreePartWellFormed(fs: seq<Extent>, i: nat, offset: int, length: int)
    requires WellFormed(fs, length) && i < |fs| && fs[i].offset < offset < fs[i].End()
    ensures WellFormed([Trimmed(fs[i], offset)] + fs[i + 1..], length)
  {
  }

  /** `bytes` is the longest run of bytes that `m` has from offset 0 on without a gap. */
  ghost predicate LongestPrefix(m: map<int, Byte>, bytes: seq<Byte>) {
    && (forall k :: 0 <= k < |bytes| ==> k in m && m[k] == bytes[k])
    && |bytes| !in m
  }

  function Joined(fs: seq<Extent>): seq<Byte> {
    if fs == [] then [] else fs[0].bytes + Joined(fs[1..])
  }

  lemma {:induction false} JoinedAppend(fs: seq<Extent>, e: Extent)
    ensures Joined(fs + [e]) == Joined(fs) + e.bytes
  {
    if fs == [] {
      assert Joined([e]) == e.bytes;
    } else {
      assert (fs + [e])[1..] == fs[1..] + [e];
      JoinedAppend(fs[1..], e);
    }
  }

  ghost predicate Gapless(fs: seq<Extent>) {
    forall j :: 1 <= j < |fs| ==> fs[j - 1].End() == fs[j].offset
  }

  lemma {:induction false} JoinedLength(fs: seq<Extent>)
    requires fs != [] && Gapless(fs)
    ensures fs[0].offset + |Joined(fs)| == fs[|fs| - 1].End()
    ensures TotalLength(fs) == |Joined(fs)|
  {
    if |fs| > 1 {
      assert fs[1..][0] == fs[1] && fs[1..][|fs| - 2] == fs[|fs| - 1];
      JoinedLength(fs[1..]);
    } else {
      assert fs[1..] == [];
    }
  }

  /** Fragments without a gap between them mean what their joined bytes mean. */
  lemma {:induction false} JoinedChunk(fs: seq<Extent>)
    requires fs != [] && Gapless(fs)
    ensures Chunk(fs[0].offset, Joined(fs)) == Bytes(fs)
  {
    hide TotalLength, Chunk;
    if |fs| > 1 {
      assert fs[1..][0] == fs[1];
      JoinedChunk(fs[1..]);
      AdjacentChunks(fs[0].offset, fs[0].bytes, Joined(fs[1..]));
    } else {
      JoinedOne(fs[0]);
      assert fs == [fs[0]];
    }
  }

  lemma JoinedOne(e: Extent)
    ensures Joined([e]) == e.bytes && Bytes([e]) == Chunk(e.offset, e.bytes)
  {
  }

  lemma AdjacentChunks(offset: int, a: seq<Byte>, b: seq<Byte>)
    ensures Chunk(offset, a + b) == Chunk(offset + |a|, b) + Chunk(offset, a)
  {
  }

  /** Replacing the fragments before the first gap by one fragment. */
  lemma JoinedFront(fs: seq<Extent>, adj: nat, length: int)
    requires WellFormed(fs, length) && 0 < adj <= |fs| && fs[0].offset == 0
    requires Gapless(fs[..adj])
    ensures var joined := [Extent(0, Joined(fs[..adj]), |Joined(fs[..adj])|)] + fs[adj..];
            && Bytes(joined) == Bytes(fs) && TotalLength(joined) == TotalLength(fs) && WellFormed(joined, length)
  {
    hide Joined;
    var joined := [Extent(0, Joined(fs[..adj]), |Joined(fs[..adj])|)] + fs[adj..];
    JoinedChunk(fs[..adj]);
    JoinedLength(fs[..adj]);
    SplitAt(fs, adj);
    assert joined[1..] == fs[adj..];
  }

  lemma PrefixBeforeGap(fs: seq<Extent>, adj: nat)
    requires Ordered(fs) && 0 < adj <= |fs| && fs[0].offset == 0 && Gapless(fs[..adj])
    requires adj < |fs| ==> fs[adj - 1].End() < fs[adj].offset
    ensures LongestPrefix(Bytes(fs), Joined(fs[..adj]))
  {
    hide Joined, TotalLength;
    var bytes := Joined(fs[..adj]);
    JoinedChunk(fs[..adj]);
    JoinedLength(fs[..adj]);
    SplitAt(fs, adj);
    CoveredFrom(fs[adj..], |bytes| + 1);
    PrefixOfOverlay(Bytes(fs[adj..]), bytes);
  }

  lemma PrefixOfOverlay(b: map<int, Byte>, bytes: seq<Byte>)
    requires forall k :: k in b ==> |bytes| < k
    ensures LongestPrefix(b + Chunk(0, bytes), bytes)
  {
  }
}
