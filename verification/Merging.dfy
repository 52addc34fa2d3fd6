/** The state of remove_overlaps part-way through (src/cache/cache.c:345-391). */
module Merging {
  import opened ByteMaps
  import opened FragmentEdits

  /** What remove_overlaps may be given: fragment `p` may overlap the ones after it, and starts
      no later than they do. */
  ghost predicate Mergeable(fs: seq<Extent>, p: nat, length: int) {
    && p < |fs| && Fits(fs, length)
    && Ordered(fs[..p + 1]) && Ordered(fs[p + 1..])
    && forall j :: p < j < |fs| ==> fs[p].offset <= fs[j].offset
  }

  /** The `n` fragments after `p` that have been removed so far. */
  function Gone(fs: seq<Extent>, p: nat, n: nat): seq<Extent>
    requires p + 1 + n <= |fs|
  {
    fs[p + 1..p + 1 + n]
  }

  lemma OverwrittenMergeable(fs: seq<Extent>, i: nat, offset: int, data: seq<Byte>, length: int)
    requires WellFormed(fs, length) && i < |fs| && fs[i].offset <= offset <= fs[i].End()
    requires offset + |data| <= fs[i].End() || offset + |data| - fs[i].offset <= fs[i].room
    requires offset + |data| <= length
    ensures Mergeable(fs[i := Overwritten(fs[i], offset, data)], i, length)
  {
    var r := fs[i := Overwritten(fs[i], offset, data)];
    assert r[i + 1..] == fs[i + 1..];
    assert forall j :: 0 <= j < i ==> r[..i + 1][j] == fs[j];
  }

  lemma InsertedMergeable(fs: seq<Extent>, i: nat, e: Extent, length: int)
    requires WellFormed(fs, length) && i <= |fs| && |e.bytes| <= e.room && e.End() <= length
    requires forall j :: 0 <= j < i ==> fs[j].End() <= e.offset
    requires forall j :: i <= j < |fs| ==> e.offset <= fs[j].offset
    ensures Mergeable(fs[..i] + [e] + fs[i..], i, length)
  {
    var r := fs[..i] + [e] + fs[i..];
    assert r[i + 1..] == fs[i..];
    assert forall j :: 0 <= j < |fs[i..]| ==> fs[i..][j] == fs[i + j];
    assert r[..i + 1] == fs[..i] + [e];
  }

  lemma ShortenedWellFormed(fs: seq<Extent>, i: nat, offset: int, length: int)
    requires WellFormed(fs, length) && i < |fs| && fs[i].offset <= offset <= fs[i].End()
    ensures WellFormed(fs[i := Shortened(fs[i], offset)], length)
  {
  }

  lemma PlacedMergeable(fs: seq<Extent>, offset: int, data: seq<Byte>, length: int)
    requires WellFormed(fs, length) && offset + |data| <= length
    ensures Mergeable(Placed(fs, offset, data), PlaceAt(fs, offset, offset + |data|), length)
  {
    hide Mergeable, Bytes, TotalLength;
    var i := Stop(fs, offset);
    CachePadFits(|data|);
    if InPlace(fs, offset, offset + |data|) {
      OverwrittenMergeable(fs, i, offset, data, length);
    } else if Touched(fs, offset) {
      ShortenedWellFormed(fs, i, offset, length);
      InsertedMergeable(fs[i := Shortened(fs[i], offset)], i + 1, NewExtent(offset, data), length);
    } else {
      InsertedMergeable(fs, i, NewExtent(offset, data), length);
    }
  }

  lemma PlacedBytes(fs: seq<Extent>, offset: int, data: seq<Byte>, length: int)
    requires WellFormed(fs, length)
    ensures Bytes(Placed(fs, offset, data)) == Bytes(fs) + Chunk(offset, data)
  {
    var i := Stop(fs, offset);
    if InPlace(fs, offset, offset + |data|) {
      OverwriteInPlace(fs, i, offset, data);
    } else if Touched(fs, offset) {
      ShortenThenInsert(fs, i, offset, data);
      InsertBetween(fs[i := Shortened(fs[i], offset)], i + 1, NewExtent(offset, data));
    } else {
      InsertBetween(fs, i, NewExtent(offset, data));
    }
  }

  /** A new fragment is followed by exactly the fragments it is to be compared with. */
  lemma PlacedCuts(fs: seq<Extent>, offset: int, data: seq<Byte>)
    ensures var p, r := PlaceAt(fs, offset, offset + |data|), Placed(fs, offset, data);
            Cuts(fs, offset, data)
            <==> InPlace(fs, offset, offset + |data|) || Disagree(Bytes(r[p + 1..]), Chunk(r[p].offset, r[p].bytes))
  {
    var p, r := PlaceAt(fs, offset, offset + |data|), Placed(fs, offset, data);
    if !InPlace(fs, offset, offset + |data|) {
      assert r[p] == NewExtent(offset, data) && r[p + 1..] == Later(fs, offset);
    }
  }

  /** Fragment `p` has become `g` and taken over the bytes of the `n` fragments after it. */
  ghost predicate Merged(fs: seq<Extent>, p: nat, n: nat, g: Extent, trunc: bool, length: int)
    requires p < |fs|
  {
    var f := fs[p];
    && p + 1 + n <= |fs|
    && g.offset == f.offset && f.bytes <= g.bytes && |g.bytes| <= g.room && g.End() <= length
    && Chunk(g.offset, g.bytes) == Bytes(Gone(fs, p, n)) + Chunk(f.offset, f.bytes)
    && (g == f || g.End() > f.End())
    && (g.End() > f.End() ==> forall j :: p + 1 + n <= j < |fs| ==> g.End() <= fs[j].offset)
    && (trunc <==> Disagree(Bytes(Gone(fs, p, n)), Chunk(f.offset, f.bytes)))
  }

  /** The list with fragment `p` replaced by `g` and the next `n` fragments gone. */
  function After(fs: seq<Extent>, p: nat, n: nat, g: Extent): seq<Extent>
    requires p + 1 + n <= |fs|
  {
    fs[..p] + [g] + fs[p + 1 + n..]
  }

  lemma NothingGone(fs: seq<Extent>, p: nat, length: int)
    requires Mergeable(fs, p, length)
    ensures Merged(fs, p, 0, fs[p], false, length) && After(fs, p, 0, fs[p]) == fs
  {
    var c := Chunk(fs[p].offset, fs[p].bytes);
    assert Bytes(Gone(fs, p, 0)) == map[] && map[] + c == c;
  }

  lemma OrderAfter(fs: seq<Extent>, p: nat, length: int, i: nat, j: nat)
    requires Mergeable(fs, p, length) && p < i < j < |fs|
    ensures fs[i].End() <= fs[j].offset
  {
    var b := fs[p + 1..];
    assert b[i - p - 1].End() <= b[j - p - 1].offset;
  }

  lemma OneMoreGone(fs: seq<Extent>, p: nat, n: nat, length: int)
    requires Mergeable(fs, p, length) && p + 1 + n < |fs|
    ensures var next := fs[p + 1 + n];
            && Bytes(Gone(fs, p, n + 1)) == Chunk(next.offset, next.bytes) + Bytes(Gone(fs, p, n))
            && TotalLength(Gone(fs, p, n + 1)) == TotalLength(Gone(fs, p, n)) + |next.bytes|
            && forall k :: k in Bytes(Gone(fs, p, n)) ==> k !in Chunk(next.offset, next.bytes)
  {
    var next, gone := fs[p + 1 + n], Gone(fs, p, n);
    assert Gone(fs, p, n + 1) == gone + [next];
    BytesOfAppend(gone, next);
    TotalOfConcat(gone, [next]);
    forall i | 0 <= i < |gone| ensures gone[i].End() <= next.offset { OrderAfter(fs, p, length, p + 1 + i, p + 1 + n); }
    CoveredBelow(gone, next.offset);
  }

  /** One round of the loop: the next fragment overlaps fragment `p`. */
  lemma MergeNext(fs: seq<Extent>, p: nat, n: nat, g: Extent, trunc: bool, length: int)
    requires Mergeable(fs, p, length) && Merged(fs, p, n, g, trunc, length)
    requires p + 1 + n < |fs| && fs[p + 1 + n].offset < fs[p].End()
    ensures g == fs[p]
    ensures var next := fs[p + 1 + n];
            && g.offset <= next.offset
            && Merged(fs, p, n + 1, Absorbed(g, next),
                 trunc || OverlapDiffers(g, next), length)
  {
    var f, next := fs[p], fs[p + 1 + n];
    assert g == f;
    OneMoreGone(fs, p, n, length);
    DisagreeUnion(Bytes(Gone(fs, p, n)), Chunk(next.offset, next.bytes), Chunk(f.offset, f.bytes));
    CompareOverlap(f, next);
    MergeChunks(f, next, Bytes(Gone(fs, p, n)));
    forall j | p + 1 + n + 1 <= j < |fs| ensures next.End() <= fs[j].offset { OrderAfter(fs, p, length, p + 1 + n, j); }
  }

  /** The same, told of the whole list. */
  ghost predicate MergeState(fs: seq<Extent>, p: nat, n: nat, now: seq<Extent>, trunc: bool, length: int) {
    && Mergeable(fs, p, length)
    && p < |now| && Merged(fs, p, n, now[p], trunc, length) && now == After(fs, p, n, now[p])
  }

  lemma MergeStateNext(fs: seq<Extent>, p: nat, n: nat, now: seq<Extent>, trunc: bool, length: int)
    requires MergeState(fs, p, n, now, trunc, length)
    requires p + 1 < |now| && now[p + 1].offset < fs[p].End()
    ensures now[p].offset <= now[p + 1].offset < now[p].End() == fs[p].End()
    ensures MergeState(fs, p, n + 1, Swallowed(now, p), trunc || OverlapDiffers(now[p], now[p + 1]), length)
  {
    MergeNext(fs, p, n, now[p], trunc, length);
    SwallowAfter(fs, p, n, now[p]);
  }

  /** What remove_overlaps has achieved when no further fragment overlaps. */
  lemma MergeStateDone(fs: seq<Extent>, p: nat, n: nat, now: seq<Extent>, trunc: bool, length: int)
    requires MergeState(fs, p, n, now, trunc, length)
    requires p + 1 < |now| ==> fs[p].End() <= now[p + 1].offset
    ensures WellFormed(now, length) && Bytes(now) == Bytes(fs)
    ensures trunc <==> Disagree(Bytes(fs[p + 1..]), Chunk(fs[p].offset, fs[p].bytes))
  {
    MergeKeepsBytes(fs, p, n, now[p], trunc, length);
    MergeComparedAll(fs, p, n, now[p], trunc, length);
    MergeOrdered(fs, p, n, now[p], trunc, length);
  }

  lemma MergeChunks(f: Extent, next: Extent, gone: map<int, Byte>)
    requires f.offset <= next.offset < f.End()
    requires Chunk(f.offset, f.bytes) == gone + Chunk(f.offset, f.bytes)
    ensures Chunk(f.offset, Absorbed(f, next).bytes) == Chunk(next.offset, next.bytes) + gone + Chunk(f.offset, f.bytes)
  {
    OverlayAssociative(Chunk(next.offset, next.bytes), gone, Chunk(f.offset, f.bytes));
    if f.End() < next.End() { AbsorbTail(f, next); } else { AbsorbInner(f, next); }
  }

  lemma SwallowAfter(fs: seq<Extent>, p: nat, n: nat, g: Extent)
    requires p + 1 + n < |fs| && fs[p + 1 + n].offset <= g.End()
    ensures var r := After(fs, p, n, g);
            && p + 1 < |r| && r[p] == g && r[p + 1] == fs[p + 1 + n]
            && Swallowed(r, p) == After(fs, p, n + 1, Absorbed(g, fs[p + 1 + n]))
  {
  }

  lemma MergedBytes(b: map<int, Byte>, m: map<int, Byte>, cf: map<int, Byte>, cg: map<int, Byte>, a: map<int, Byte>)
    requires cg == m + cf
    ensures b + cg + a == b + m + cf + a
  {
    OverlayAssociative(b, m, cf);
  }

  lemma SplitRest(fs: seq<Extent>, p: nat, n: nat)
    requires p + 1 + n <= |fs|
    ensures Bytes(fs[p + 1..]) == Bytes(fs[p + 1 + n..]) + Bytes(Gone(fs, p, n))
    ensures TotalLength(fs[p + 1..]) == TotalLength(Gone(fs, p, n)) + TotalLength(fs[p + 1 + n..])
  {
    assert fs[p + 1..] == Gone(fs, p, n) + fs[p + 1 + n..];
    BytesOfConcat(Gone(fs, p, n), fs[p + 1 + n..]);
    TotalOfConcat(Gone(fs, p, n), fs[p + 1 + n..]);
  }

  /** Whenever the loop stops, the list means what it meant before. */
  lemma MergeKeepsBytes(fs: seq<Extent>, p: nat, n: nat, g: Extent, trunc: bool, length: int)
    requires p < |fs| && Merged(fs, p, n, g, trunc, length)
    ensures Bytes(After(fs, p, n, g)) == Bytes(fs)
    ensures TotalLength(After(fs, p, n, g)) == TotalLength(fs) + |g.bytes| - |fs[p].bytes| - TotalLength(Gone(fs, p, n))
  {
    var f, r := fs[p], After(fs, p, n, g);
    SplitRest(fs, p, n);
    SplitAround(fs, p);
    SplitAround(r, p);
    assert r[..p] == fs[..p] && r[p + 1..] == fs[p + 1 + n..] && r[p] == g;
    MergedBytes(Bytes(fs[p + 1 + n..]), Bytes(Gone(fs, p, n)), Chunk(f.offset, f.bytes), Chunk(g.offset, g.bytes),
      Bytes(fs[..p]));
  }

  /** When it stops because nothing overlaps any more, every overlapped byte has been compared. */
  lemma MergeComparedAll(fs: seq<Extent>, p: nat, n: nat, g: Extent, trunc: bool, length: int)
    requires Mergeable(fs, p, length) && Merged(fs, p, n, g, trunc, length)
    requires p + 1 + n < |fs| ==> fs[p].End() <= fs[p + 1 + n].offset
    ensures trunc <==> Disagree(Bytes(fs[p + 1..]), Chunk(fs[p].offset, fs[p].bytes))
  {
    var rest := fs[p + 1 + n..];
    forall j | 0 <= j < |rest| ensures fs[p].End() <= rest[j].offset {
      if j > 0 { OrderAfter(fs, p, length, p + 1 + n, p + 1 + n + j); }
    }
    CoveredFrom(rest, fs[p].End());
    SplitRest(fs, p, n);
    DisagreeOverlay(Bytes(Gone(fs, p, n)), Bytes(rest), Chunk(fs[p].offset, fs[p].bytes));
  }

  lemma DisagreeOverlay(m: map<int, Byte>, b: map<int, Byte>, c: map<int, Byte>)
    requires forall k :: k in b ==> k !in c
    ensures Disagree(b + m, c) <==> Disagree(m, c)
  {
    if k :| k in m && k in c && m[k] != c[k] { assert (b + m)[k] == m[k]; }
    if k :| k in b + m && k in c && (b + m)[k] != c[k] { assert k in m; }
  }

  /** ... and the list is in order again. */
  lemma MergeOrdered(fs: seq<Extent>, p: nat, n: nat, g: Extent, trunc: bool, length: int)
    requires Mergeable(fs, p, length) && Merged(fs, p, n, g, trunc, length)
    requires p + 1 + n < |fs| ==> fs[p].End() <= fs[p + 1 + n].offset
    ensures WellFormed(After(fs, p, n, g), length)
  {
    var r := After(fs, p, n, g);
    forall i, j | 0 <= i < j < |r| ensures r[i].End() <= r[j].offset {
      if j < p {
        assert fs[..p + 1][i].End() <= fs[..p + 1][j].offset;
      } else if i < p {
        assert fs[..p + 1][i].End() <= fs[..p + 1][p].offset;
      } else if i == p {
        if j > p + 1 { OrderAfter(fs, p, length, p + 1 + n, j + n); }
      } else {
        OrderAfter(fs, p, length, i + n, j + n);
      }
    }
  }
}
