/** The document cache: the entries, their accounting, and the operations on the bytes of an
    entry (src/cache/cache.c). */
module CacheStore {
  import opened ByteMaps
  import opened FragmentEdits
  import opened Merging
  import opened FragmentLists
  import opened CacheEntries
  import opened GarbagePlan

  /** The data sizes of some entries, and their sum. */
  ghost function Sizes(es: seq<CacheEntry>): seq<int>
    reads es
  {
    seq(|es|, i requires 0 <= i < |es| reads es => es[i].dataSize)
  }

  function Sum(sizes: seq<int>): int {
    if sizes == [] then 0 else sizes[0] + Sum(sizes[1..])
  }

  lemma {:induction false} SumUpdate(sizes: seq<int>, i: nat, size: int)
    requires i < |sizes|
    ensures Sum(sizes[i := size]) == Sum(sizes) - sizes[i] + size
  {
    if i == 0 {
      assert sizes[i := size][1..] == sizes[1..];
    } else {
      assert sizes[i := size][1..] == sizes[1..][i - 1 := size];
      SumUpdate(sizes[1..], i - 1, size);
    }
  }

  lemma {:induction false} SumAtLeast(sizes: seq<int>, i: nat)
    requires i < |sizes| && forall j :: 0 <= j < |sizes| ==> 0 <= sizes[j]
    ensures 0 <= sizes[i] <= Sum(sizes)
  {
    SumNonNegative(sizes[1..]);
    if i > 0 { SumAtLeast(sizes[1..], i - 1); }
  }

  lemma {:induction false} SumNonNegative(sizes: seq<int>)
    requires forall j :: 0 <= j < |sizes| ==> 0 <= sizes[j]
    ensures 0 <= Sum(sizes)
  {
    if sizes != [] { SumNonNegative(sizes[1..]); }
  }

  class Cache {
    /** Most recently used first. */
    var entries: seq<CacheEntry>
    var cacheSize: int
    var idCounter: int
    /** The objects that the entries are made of. */
    ghost var Repr: set<object>

    /** Every entry is well formed and charged for, and no two entries share an object. */
    ghost predicate Sound()
      reads this, Repr
    {
      && this !in Repr
      && (forall i :: 0 <= i < |entries| ==> entries[i] in Repr && entries[i].Repr <= Repr && entries[i].Valid())
      && (forall i, j :: 0 <= i < j < |entries| ==> entries[i] != entries[j] && entries[i].Repr !! entries[j].Repr)
      && cacheSize == Sum(Sizes(entries))
    }

    /** The invariant between operations: also, no entry is marked for destruction. */
    ghost predicate Valid()
      reads this, Repr
    {
      Sound() && forall i :: 0 <= i < |entries| ==> !entries[i].gcTarget
    }

    /** All entries but `entries[at]` are as a sound cache has them, with the given data sizes. */
    ghost predicate OthersSound(at: nat, sizes: seq<int>)
      reads this, Repr
    {
      && this !in Repr && at < |entries| == |sizes|
      && (forall i :: 0 <= i < |entries| && i != at ==>
            && entries[i] in Repr && entries[i].Repr <= Repr && entries[i].Valid() && entries[i].dataSize == sizes[i])
      && (forall i, j :: 0 <= i < j < |entries| && i != at && j != at ==>
            entries[i] != entries[j] && entries[i].Repr !! entries[j].Repr)
    }

    /** The place of an entry, and what may be assumed when an operation on it begins. */
    lemma Enter(cached: CacheEntry) returns (at: nat, sizes: seq<int>)
      requires Sound() && cached in entries
      ensures at < |entries| && entries[at] == cached
      ensures sizes == Sizes(entries) && OthersSound(at, sizes)
      ensures Working(cached) && cached.Valid() && cached in Repr && cached.Repr <= Repr && cacheSize == Sum(sizes)
      ensures forall i :: 0 <= i < |entries| && i != at ==> entries[i] != cached && entries[i].Repr !! cached.Repr
      ensures forall i :: 0 <= i < |entries| && i != at ==> entries[i] in entries[i].Repr
    {
      hide Bytes, TotalLength, WellFormed;
      at :| 0 <= at < |entries| && entries[at] == cached;
      sizes := Sizes(entries);
      forall i | 0 <= i < |entries| ensures 0 <= sizes[i] { assert entries[i].Valid(); }
      SumAtLeast(sizes, at);
    }

    /** When the one entry is well formed and charged for again, the cache is sound. */
    lemma Leave(at: nat, sizes: seq<int>, cached: CacheEntry)
      requires OthersSound(at, sizes) && entries[at] == cached
      requires cached in Repr && cached.Repr <= Repr && cached.Valid()
      requires forall i :: 0 <= i < |entries| && i != at ==> entries[i] != cached && entries[i].Repr !! cached.Repr
      requires cacheSize - cached.dataSize == Sum(sizes) - sizes[at]
      ensures Sound()
    {
      hide Bytes, TotalLength, WellFormed;
      SumUpdate(sizes, at, cached.dataSize);
      assert Sizes(entries) == sizes[at := cached.dataSize];
    }

    /** What every operation on the bytes of one entry may assume half-way through. */
    ghost predicate Working(cached: CacheEntry)
      reads this, cached, cached.Repr
    {
      && cached.Shape() && this !in cached.Repr
      && TotalLength(cached.extents) <= cached.dataSize <= cacheSize
    }

    /** Charge `size` bytes to the entry and to the cache.  The preconditions are the two
        asserted conditions of the original. */
    method EnlargeEntry(cached: CacheEntry, size: int)
      requires 0 <= cached.dataSize + size && 0 <= cacheSize + size
      modifies cached`dataSize, this`cacheSize
      ensures cached.dataSize == old(cached.dataSize) + size
      ensures cacheSize == old(cacheSize) + size
    {
      cached.dataSize := cached.dataSize + size;
      cacheSize := cacheSize + size;
    }

    /** One round of remove_overlaps: fragment `p` takes over the next one, which it overlaps. */
    method AbsorbNext(cached: CacheEntry, p: nat) returns (differs: bool)
      requires Working(cached) && p + 1 < |cached.extents|
      requires cached.extents[p].offset <= cached.extents[p + 1].offset < cached.extents[p].End()
      modifies cached.Repr - {cached}, cached`frag, cached`extents, cached`Repr, cached`dataSize, this`cacheSize
      ensures Working(cached) && fresh(cached.Repr - old(cached.Repr))
      ensures cached.extents == Swallowed(old(cached.extents), p)
      ensures differs <==> OverlapDiffers(old(cached.extents)[p], old(cached.extents)[p + 1])
      ensures cached.dataSize - TotalLength(cached.extents) == old(cached.dataSize - TotalLength(cached.extents))
      ensures cacheSize - cached.dataSize == old(cacheSize - cached.dataSize)
    {
      hide Bytes, Sum, Chunk, OverlapDiffers, Swallowed, Absorbed, TotalLength, WellFormed, Sizes;
      SwallowedTotal(cached.extents, p);
      SwallowedAt(cached.extents, p);
      var grown, gone;
      differs, grown, gone := cached.Absorb(p);
      EnlargeEntry(cached, grown);
      EnlargeEntry(cached, -gone);
    }

    /** Concatenate overlapping fragments: fragment `p` takes over whatever it overlaps.  The
        bytes of `p` win; the result says whether any overlapped byte was different. */
    method RemoveOverlaps(cached: CacheEntry, p: nat) returns (trunc: bool)
      requires Working(cached) && Mergeable(cached.extents, p, cached.length)
      modifies cached.Repr - {cached}, cached`frag, cached`extents, cached`Repr, cached`dataSize, this`cacheSize
      ensures Working(cached) && fresh(cached.Repr - old(cached.Repr))
      ensures WellFormed(cached.extents, cached.length)
      ensures cached.extents == Overlapped(old(cached.extents), p, old(cached.extents)[p].End())
      ensures cached.Contents() == old(cached.Contents())
      ensures trunc <==> Disagree(Bytes(old(cached.extents)[p + 1..]),
                                  Chunk(old(cached.extents)[p].offset, old(cached.extents)[p].bytes))
      ensures cached.dataSize - TotalLength(cached.extents) == old(cached.dataSize - TotalLength(cached.extents))
      ensures cacheSize - cached.dataSize == old(cacheSize - cached.dataSize)
    {
      hide Bytes, TotalLength, Sum, Chunk, Overlapped, Swallowed, Disagree, OverlapDiffers;
      trunc := false;
      ghost var fs, n := cached.extents, 0;
      var fEnd := cached.frag[p].offset + cached.frag[p].length;
      NothingGone(fs, p, cached.length);
      while p + 1 < |cached.frag| && fEnd > cached.frag[p + 1].offset
        invariant Working(cached) && fresh(cached.Repr - old(cached.Repr))
        invariant MergeState(fs, p, n, cached.extents, trunc, cached.length)
        invariant Overlapped(fs, p, fEnd) == Overlapped(cached.extents, p, fEnd)
        invariant cached.dataSize - TotalLength(cached.extents) == old(cached.dataSize - TotalLength(cached.extents))
        invariant cacheSize - cached.dataSize == old(cacheSize - cached.dataSize)
        decreases |cached.frag|
      {
        MergeStateNext(fs, p, n, cached.extents, trunc, cached.length);
        OverlappedStep(cached.extents, p, fEnd);
        var differs := AbsorbNext(cached, p);
        trunc, n := trunc || differs, n + 1;
      }
      OverlappedStep(cached.extents, p, fEnd);
      MergeStateDone(fs, p, n, cached.extents, trunc, cached.length);
    }

    method DropFragment(cached: CacheEntry, i: nat)
      requires Working(cached) && i < |cached.extents|
      modifies cached`frag, cached`extents, cached`dataSize, this`cacheSize
      ensures Working(cached)
      ensures cached.extents == old(cached.extents)[..i] + old(cached.extents)[i + 1..]
      ensures cached.dataSize - TotalLength(cached.extents) == old(cached.dataSize - TotalLength(cached.extents))
      ensures cacheSize - cached.dataSize == old(cacheSize - cached.dataSize)
    {
      RemovedTotal(cached.extents, i);
      EnlargeEntry(cached, -cached.frag[i].length);
      cached.Remove(i);
    }

    method TrimFragment(cached: CacheEntry, i: nat, offset: int)
      requires Working(cached) && i < |cached.extents|
      requires cached.extents[i].offset <= offset <= cached.extents[i].End()
      modifies cached.Repr - {cached}, cached`extents, cached`dataSize, this`cacheSize
      ensures Working(cached)
      ensures cached.extents == old(cached.extents)[i := Trimmed(old(cached.extents)[i], offset)]
      ensures cached.dataSize - TotalLength(cached.extents) == old(cached.dataSize - TotalLength(cached.extents))
      ensures cacheSize - cached.dataSize == old(cacheSize - cached.dataSize)
    {
      var size := offset - cached.frag[i].offset;
      ReplacedTotal(cached.extents, i, Trimmed(cached.extents[i], offset));
      EnlargeEntry(cached, -size);
      cached.DropFront(i, size);
    }

    /** Remove fragment `i` and all later ones. */
    method DeleteFragment(cached: CacheEntry, i: nat)
      requires Working(cached) && i <= |cached.extents|
      modifies cached`frag, cached`extents, cached`dataSize, this`cacheSize
      ensures Working(cached)
      ensures cached.extents == old(cached.extents)[..i]
      ensures cached.dataSize - TotalLength(cached.extents) == old(cached.dataSize - TotalLength(cached.extents))
      ensures cacheSize - cached.dataSize == old(cacheSize - cached.dataSize)
    {
      hide Bytes, TotalLength, Sum;
      ghost var fs := cached.extents;
      assert fs == fs[..i] + fs[i..];
      while i < |cached.frag|
        invariant Working(cached) && i <= |cached.extents| <= |fs|
        invariant cached.extents == fs[..i] + fs[|fs| - (|cached.extents| - i)..]
        invariant cached.dataSize - TotalLength(cached.extents) == old(cached.dataSize - TotalLength(cached.extents))
        invariant cacheSize - cached.dataSize == old(cacheSize - cached.dataSize)
        decreases |cached.frag|
      {
        DropFragment(cached, i);
      }
    }

    /** Shorten fragment `i` to end at `offset`; when this is final, its buffer shrinks too. */
    method CutFragment(cached: CacheEntry, i: nat, offset: int, final: bool)
      requires Working(cached) && i < |cached.extents|
      requires cached.extents[i].offset < offset < cached.extents[i].End()
      requires |cached.extents[i].bytes| <= cached.extents[i].room
      modifies cached.Repr - {cached}, cached`extents, cached`Repr, cached`dataSize, this`cacheSize
      ensures Working(cached) && fresh(cached.Repr - old(cached.Repr))
      ensures i < |cached.extents|
      ensures cached.extents
              == old(cached.extents)[i := Shortened(old(cached.extents)[i], offset).(room := cached.extents[i].room)]
      ensures cached.extents[i].room == if final then |cached.extents[i].bytes| else old(cached.extents)[i].room
      ensures cached.dataSize - TotalLength(cached.extents) == old(cached.dataSize - TotalLength(cached.extents))
      ensures cacheSize - cached.dataSize == old(cacheSize - cached.dataSize)
    {
      hide Bytes, TotalLength, Sum, Chunk;
      ghost var fs := cached.extents;
      var size := offset - cached.frag[i].offset;
      ReplacedTotal(fs, i, Shortened(fs[i], offset));
      ReplacedTotal(fs, i, Shortened(fs[i], offset).(room := size));
      EnlargeEntry(cached, size - cached.frag[i].length);
      cached.SetLength(i, size);
      assert cached.extents[i].bytes == Shortened(fs[i], offset).bytes;
      assert cached.extents == fs[i := Shortened(fs[i], offset)];
      if final {
        cached.Reallocate(i, size);
        assert cached.extents == fs[i := Shortened(fs[i], offset).(room := size)];
      }
    }

    /** The first fragment that ends beyond `offset`. */
    method FirstBeyond(cached: CacheEntry, offset: int) returns (i: nat)
      requires Working(cached)
      ensures i <= |cached.extents| && forall j :: 0 <= j < i ==> cached.extents[j].End() <= offset
      ensures i < |cached.extents| ==> offset < cached.extents[i].End()
    {
      hide Bytes, TotalLength, Sum;
      i := 0;
      while i < |cached.frag| && offset - cached.frag[i].offset >= cached.frag[i].length
        invariant i <= |cached.extents| && forall j :: 0 <= j < i ==> cached.extents[j].End() <= offset
      {
        i := i + 1;
      }
    }

    /** Shorten the fragment that contains `offset` and remove the later ones. */
    method CutFragments(cached: CacheEntry, offset: int, final: bool, ghost length: int)
      requires Working(cached) && WellFormed(cached.extents, length)
      modifies cached.Repr - {cached}, cached`frag, cached`extents, cached`Repr, cached`dataSize, this`cacheSize
      ensures Working(cached) && fresh(cached.Repr - old(cached.Repr))
      ensures WellFormed(cached.extents, Min(length, offset))
      ensures cached.extents == CutAt(old(cached.extents), offset, final)
      ensures cached.Contents() == Below(old(cached.Contents()), offset)
      ensures cached.dataSize - TotalLength(cached.extents) == old(cached.dataSize - TotalLength(cached.extents))
      ensures cacheSize - cached.dataSize == old(cacheSize - cached.dataSize)
    {
      hide Bytes, TotalLength, Sum, Chunk, Below, CutAt;
      ghost var fs := cached.extents;
      var i := FirstBeyond(cached, offset);
      CutAtIs(fs, i, offset, final);
      if i < |cached.frag| && offset > cached.frag[i].offset {
        CutFragment(cached, i, offset, final);
        CutPart(fs, i, offset, cached.extents[i].room);
        CutPartWellFormed(fs, i, offset, cached.extents[i].room, length);
        assert cached.extents[..i + 1] == fs[..i] + [cached.extents[i]];
        i := i + 1;
      } else {
        CutWhole(fs, i, offset);
      }
      DeleteFragment(cached, i);
    }

    /** Cut the entry at `offset`. */
    method TruncateEntry(cached: CacheEntry, offset: int, final: bool)
      requires Working(cached) && WellFormed(cached.extents, cached.length)
      modifies cached.Repr - {cached}, cached`frag, cached`extents, cached`Repr, cached`dataSize, this`cacheSize,
               cached`length, cached`incomplete
      ensures Working(cached) && fresh(cached.Repr - old(cached.Repr))
      ensures WellFormed(cached.extents, cached.length)
      ensures cached.extents == CutAt(old(cached.extents), offset, final)
      ensures cached.Contents() == Below(old(cached.Contents()), offset)
      ensures cached.length == Min(old(cached.length), offset)
      ensures cached.incomplete <==> old(cached.incomplete) || offset < old(cached.length)
      ensures cached.dataSize - TotalLength(cached.extents) == old(cached.dataSize - TotalLength(cached.extents))
      ensures cacheSize - cached.dataSize == old(cacheSize - cached.dataSize)
    {
      ghost var before := cached.length;
      if cached.length > offset {
        cached.length := offset;
        cached.incomplete := true;
      }
      CutFragments(cached, offset, final, before);
    }

    /** memcpy of `data` into fragment `i`, which grows if the data ends beyond it. */
    method Overwrite(cached: CacheEntry, i: nat, offset: int, data: seq<Byte>)
      requires Working(cached) && i < |cached.extents| && |cached.extents[i].bytes| <= cached.extents[i].room
      requires cached.extents[i].offset <= offset <= cached.extents[i].End()
      requires offset + |data| <= cached.extents[i].End()
               || offset + |data| - cached.extents[i].offset <= cached.extents[i].room
      modifies cached.Repr - {cached}, cached`extents, cached`dataSize, this`cacheSize
      ensures Working(cached)
      ensures cached.extents == old(cached.extents)[i := Overwritten(old(cached.extents)[i], offset, data)]
      ensures cached.dataSize - TotalLength(cached.extents) == old(cached.dataSize - TotalLength(cached.extents))
      ensures cacheSize - cached.dataSize == old(cacheSize - cached.dataSize)
    {
      hide Bytes, TotalLength, Sum, Chunk, Ordered;
      ghost var fs := cached.extents;
      var f := cached.frag[i];
      var fEnd := f.offset + f.length;
      ReplacedTotal(fs, i, Overwritten(fs[i], offset, data));
      if offset + |data| > fEnd {
        EnlargeEntry(cached, offset + |data| - fEnd);
        cached.SetLength(i, offset + |data| - f.offset);
      }
      cached.Copy(i, offset - f.offset, data);
      assert cached.extents[i].bytes == Overwritten(fs[i], offset, data).bytes;
      assert cached.extents == fs[i := Overwritten(fs[i], offset, data)];
    }

    /** Allocate a fragment for `data` and link it before position `i`. */
    method InsertNew(cached: CacheEntry, i: nat, offset: int, data: seq<Byte>)
      requires Working(cached) && i <= |cached.extents|
      modifies cached`frag, cached`extents, cached`Repr, cached`dataSize, this`cacheSize
      ensures Working(cached) && fresh(cached.Repr - old(cached.Repr))
      ensures cached.extents
              == old(cached.extents)[..i] + [Extent(offset, data, CachePad(|data|))] + old(cached.extents)[i..]
      ensures cached.dataSize - TotalLength(cached.extents) == old(cached.dataSize - TotalLength(cached.extents))
      ensures cacheSize - cached.dataSize == old(cacheSize - cached.dataSize)
    {
      hide Bytes, TotalLength, Sum, Chunk;
      CachePadFits(|data|);
      InsertedTotal(cached.extents, i, Extent(offset, data, CachePad(|data|)));
      EnlargeEntry(cached, |data|);
      cached.Insert(i, offset, data, CachePad(|data|));
    }

    /** The end of add_fragment: fragment `p` holds the new data, which ends at `end`.  Merge what
        it overlaps, then cut the entry there if `inPlace` or if an overlapped byte was different. */
    method Settle(cached: CacheEntry, p: nat, end: int, inPlace: bool) returns (cut: bool)
      requires Working(cached) && Mergeable(cached.extents, p, cached.length)
      modifies cached.Repr - {cached}, cached`frag, cached`extents, cached`Repr, cached`dataSize, this`cacheSize,
               cached`length, cached`incomplete
      ensures Working(cached) && fresh(cached.Repr - old(cached.Repr))
      ensures WellFormed(cached.extents, cached.length)
      ensures cut <==> inPlace || Disagree(Bytes(old(cached.extents)[p + 1..]),
                                           Chunk(old(cached.extents)[p].offset, old(cached.extents)[p].bytes))
      ensures var merged := Overlapped(old(cached.extents), p, old(cached.extents)[p].End());
              cached.extents == if cut then CutAt(merged, end, false) else merged
      ensures cached.Contents() == if cut then Below(old(cached.Contents()), end) else old(cached.Contents())
      ensures cached.length == if cut then Min(old(cached.length), end) else old(cached.length)
      ensures cached.incomplete <==> old(cached.incomplete) || (cut && end < old(cached.length))
      ensures cached.dataSize - TotalLength(cached.extents) == old(cached.dataSize - TotalLength(cached.extents))
      ensures cacheSize - cached.dataSize == old(cacheSize - cached.dataSize)
    {
      hide Bytes, TotalLength, Sum, Chunk;
      var trunc := RemoveOverlaps(cached, p);
      cut := inPlace || trunc;
      if cut {
        TruncateEntry(cached, end, false);
      }
    }

    lemma Fragments(cached: CacheEntry)
      requires Working(cached)
      ensures |cached.frag| == |cached.extents|
      ensures forall i :: 0 <= i < |cached.frag| ==>
        var f, x := cached.frag[i], cached.extents[i];
        f.offset == x.offset && f.length == |x.bytes| <= x.room == f.data.Length
    {
      hide TotalLength;
    }

    /** The first part of add_fragment: put the data where it belongs, whatever it overlaps. */
    method Place(cached: CacheEntry, offset: int, data: seq<Byte>) returns (p: nat, inPlace: bool, ret: int)
      requires Working(cached) && WellFormed(cached.extents, cached.length)
      modifies cached.Repr - {cached}, cached`frag, cached`extents, cached`Repr, cached`dataSize, this`cacheSize
      ensures Working(cached) && fresh(cached.Repr - old(cached.Repr))
      ensures cached.extents == Placed(old(cached.extents), offset, data)
      ensures p == PlaceAt(old(cached.extents), offset, offset + |data|)
      ensures inPlace <==> InPlace(old(cached.extents), offset, offset + |data|)
      ensures ret == if inPlace && offset + |data| <= old(cached.extents)[p].End() then 0 else 1
      ensures cached.dataSize - TotalLength(cached.extents)
              == old(cached.dataSize - TotalLength(cached.extents))
                + Dropped(old(cached.extents), offset, offset + |data|)
      ensures cacheSize - cached.dataSize == old(cacheSize - cached.dataSize)
    {
      hide Bytes, TotalLength, Sum, Sizes, Chunk, Placed, InPlace, PlaceAt, Dropped, Touched, Stop, Overwritten,
           Ordered, CachePad, WellFormed, Shortened, Working;
      ghost var fs := cached.extents;
      Fragments(cached);
      var end := offset + |data|;
      p := 0;
      while p < |cached.frag| && cached.frag[p].offset <= offset
        && cached.frag[p].offset + cached.frag[p].length < offset
        invariant p <= |fs| && forall j :: 0 <= j < p ==> fs[j].End() < offset
      {
        p := p + 1;
      }
      PlacedCases(fs, p, offset, data);
      inPlace, ret := false, 1;
      if p < |cached.frag| && cached.frag[p].offset <= offset {
        var f := cached.frag[p];
        if end <= f.offset + f.length || end - f.offset <= f.data.Length {
          ret := if end > f.offset + f.length then 1 else 0;
          inPlace := true;
          Overwrite(cached, p, offset, data);
          return;
        }
        Shorten(cached, p, offset);
        p := p + 1;
      }
      InsertNew(cached, p, offset, data);
    }

    /** Shorten fragment `i` to end at `offset`.  Nothing is charged back for what is lost. */
    method Shorten(cached: CacheEntry, i: nat, offset: int)
      requires Working(cached) && i < |cached.extents| && |cached.extents[i].bytes| <= cached.extents[i].room
      requires cached.extents[i].offset <= offset <= cached.extents[i].End()
      modifies cached.Repr - {cached}, cached`extents
      ensures Working(cached)
      ensures cached.extents == old(cached.extents)[i := Shortened(old(cached.extents)[i], offset)]
      ensures TotalLength(cached.extents) == TotalLength(old(cached.extents)) - (old(cached.extents)[i].End() - offset)
    {
      ghost var fs := cached.extents;
      ReplacedTotal(fs, i, Shortened(fs[i], offset));
      cached.SetLength(i, offset - cached.frag[i].offset);
      assert cached.extents[i].bytes == Shortened(fs[i], offset).bytes;
      assert cached.extents == fs[i := Shortened(fs[i], offset)];
    }

    /** add_fragment on an entry: see AddFragment. */
    method Store(cached: CacheEntry, offset: int, data: seq<Byte>) returns (cut: bool, ret: int)
      requires Working(cached) && WellFormed(cached.extents, cached.length) && offset + |data| <= cached.length
      modifies cached.Repr - {cached}, cached`frag, cached`extents, cached`Repr, cached`dataSize, this`cacheSize,
               cached`length, cached`incomplete
      ensures Working(cached) && fresh(cached.Repr - old(cached.Repr))
      ensures WellFormed(cached.extents, cached.length)
      ensures cut <==> Cuts(old(cached.extents), offset, data)
      ensures cached.extents == Stored(old(cached.extents), offset, data)
      ensures cached.Contents() == Written(old(cached.Contents()), offset, data, cut)
      ensures cached.length == if cut then offset + |data| else old(cached.length)
      ensures cached.incomplete <==> old(cached.incomplete) || (cut && offset + |data| < old(cached.length))
      ensures ret == AddResult(old(cached.extents), offset, data)
      ensures cached.dataSize - TotalLength(cached.extents)
              == old(cached.dataSize - TotalLength(cached.extents))
                + Dropped(old(cached.extents), offset, offset + |data|)
      ensures cacheSize - cached.dataSize == old(cacheSize - cached.dataSize)
    {
      hide Bytes, TotalLength, Sum, Chunk, Stored, Overlapped, CutAt, Placed, PlaceAt, Disagree, Mergeable, Cuts,
           Dropped, AddResult, InPlace;
      PlacedMergeable(cached.extents, offset, data, cached.length);
      PlacedBytes(cached.extents, offset, data, cached.length);
      PlacedCuts(cached.extents, offset, data);
      var p, inPlace;
      ghost var fs := cached.extents;
      p, inPlace, ret := Place(cached, offset, data);
      StoredIs(fs, offset, data, p, cached.extents);
      ResultIs(fs, offset, data);
      cut := Settle(cached, p, offset + |data|, inPlace);
    }

    /** add_fragment without the bookkeeping of the proof that other entries stay as they are. */
    method AddTo(cached: CacheEntry, offset: int, data: seq<Byte>) returns (ret: int, ghost cut: bool)
      requires Working(cached) && cached.Valid() && data != []
      modifies cached.Repr - {cached}, cached`frag, cached`extents, cached`Repr, cached`dataSize, this`cacheSize,
               cached`length, cached`incomplete, cached`cacheId, this`idCounter
      ensures Working(cached) && cached.Valid() && fresh(cached.Repr - old(cached.Repr))
      ensures ret == AddResult(old(cached.extents), offset, data)
      ensures cut <==> Cuts(old(cached.extents), offset, data)
      ensures cached.extents == Stored(old(cached.extents), offset, data)
      ensures cached.Contents() == Written(old(cached.Contents()), offset, data, cut)
      ensures cached.length == if cut then offset + |data| else Max(old(cached.length), offset + |data|)
      ensures cached.incomplete <==> old(cached.incomplete) || (cut && offset + |data| < old(cached.length))
      ensures cached.dataSize - TotalLength(cached.extents)
              == old(cached.dataSize - TotalLength(cached.extents))
                + Dropped(old(cached.extents), offset, offset + |data|)
      ensures cacheSize - cached.dataSize == old(cacheSize - cached.dataSize)
      ensures cached.cacheId == old(idCounter) && idCounter == old(idCounter) + 1
    {
      hide Cuts, Written, Dropped, AddResult, InPlace, Bytes, Ordered, TotalLength, Stored;
      var end := offset + |data|;
      ghost var fs := cached.extents;
      if cached.length < end { cached.length := end; }
      cached.cacheId := idCounter;
      idCounter := idCounter + 1;
      WellFormedLonger(cached.extents, old(cached.length), cached.length);
      assert cached.extents == fs;
      cut, ret := Store(cached, offset, data);
      assert cut <==> Cuts(fs, offset, data);
    }

    /** free_entry_to on an entry: see FreeEntryTo. */
    method FreeFrom(cached: CacheEntry, offset: int)
      requires Working(cached) && cached.Valid()
      modifies cached.Repr - {cached}, cached`frag, cached`extents, cached`dataSize, this`cacheSize
      ensures Working(cached) && cached.Valid()
      ensures cached.extents == FreedTo(old(cached.extents), offset)
      ensures cached.Contents() == From(old(cached.Contents()), offset)
      ensures cached.dataSize - TotalLength(cached.extents) == old(cached.dataSize - TotalLength(cached.extents))
      ensures cacheSize - cached.dataSize == old(cacheSize - cached.dataSize)
    {
      hide Bytes, From, Sum, TotalLength, Working, Trimmed, Freeing, WellFormed, Ordered;
      ghost var fs, n := cached.extents, 0;
      FreeingFirst(fs, cached.length, offset);
      Fragments(cached);
      var i := 0;
      while i < |cached.frag|
        invariant Working(cached) && Freeing(fs, n, i, cached.extents, offset) && |cached.extents| == |cached.frag|
        invariant cached.dataSize - TotalLength(cached.extents) == old(cached.dataSize - TotalLength(cached.extents))
        invariant cacheSize - cached.dataSize == old(cacheSize - cached.dataSize)
        decreases |cached.frag| - i
      {
        Fragments(cached);
        var f := cached.frag[i];
        if f.offset + f.length <= offset {
          FreeingWhole(fs, n, i, cached.extents, offset);
          DropFragment(cached, i);
          n := n + 1;
        } else if f.offset < offset {
          FreeingPart(fs, n, i, cached.extents, offset);
          TrimFragment(cached, i, offset);
          i := i + 1;
        } else {
          break;
        }
        Fragments(cached);
      }
      FreeingDone(fs, n, i, cached.extents, offset, cached.length);
      FreedToIs(fs, n, i, cached.extents, offset);
      ValidAgain(cached);
    }

    lemma ValidAgain(cached: CacheEntry)
      requires Working(cached) && WellFormed(cached.extents, cached.length)
      ensures cached.Valid()
    {
      hide TotalLength, WellFormed;
    }

    /** delete_entry_content on an entry: see DeleteEntryContent. */
    method Clear(cached: CacheEntry)
      requires Working(cached)
      modifies cached`frag, cached`extents, cached`dataSize, cached`length, cached`incomplete, cached`cacheId,
               this`cacheSize, this`idCounter
      ensures Working(cached) && cached.Valid()
      ensures cached.extents == [] && cached.dataSize == 0 && cached.length == 0 && cached.incomplete
      ensures cacheSize - cached.dataSize == old(cacheSize - cached.dataSize)
      ensures cached.cacheId == old(idCounter) && idCounter == old(idCounter) + 1
    {
      EnlargeEntry(cached, -cached.dataSize);
      cached.RemoveAll();
      cached.cacheId := idCounter;
      idCounter := idCounter + 1;
      cached.length := 0;
      cached.incomplete := true;
    }

    /** The number of fragments before the first gap. */
    method BeforeGap(cached: CacheEntry) returns (adj: nat)
      requires cached.Valid() && 1 < |cached.frag|
      ensures 1 <= adj <= |cached.frag|
      ensures Gapless(cached.extents[..adj])
      ensures adj < |cached.frag| ==> cached.extents[adj - 1].End() < cached.extents[adj].offset
    {
      adj := 1;
      while adj < |cached.frag|
        invariant 1 <= adj <= |cached.frag|
        invariant forall j :: 1 <= j < adj ==> cached.extents[j - 1].End() == cached.extents[j].offset
      {
        var gap := cached.frag[adj].offset - (cached.frag[adj - 1].offset + cached.frag[adj - 1].length);
        if gap > 0 { return; }
        if gap != 0 {
          // "fragments overlap": the list is ordered, so this is not reached.
          assert false;
        }
        adj := adj + 1;
      }
    }

    /** get_cache_fragment on an entry: see GetCacheFragment. */
    method Defragment(cached: CacheEntry) returns (first: Fragment?)
      requires Working(cached) && cached.Valid()
      modifies cached`frag, cached`extents, cached`Repr
      ensures Working(cached) && cached.Valid() && fresh(cached.Repr - old(cached.Repr))
      ensures cached.Contents() == old(cached.Contents())
      ensures cached.extents == Defragmented(old(cached.extents))
      ensures TotalLength(cached.extents) == old(TotalLength(cached.extents))
      ensures first == null <==> old(cached.extents) == [] || old(cached.extents)[0].offset != 0
      ensures first != null ==> |cached.frag| > 0 && first == cached.frag[0] && cached.extents[0].offset == 0
      ensures first != null ==> LongestPrefix(old(cached.Contents()), cached.extents[0].bytes)
    {
      hide Bytes, Sum, TotalLength, Joined, LongestPrefix, Defragmented;
      ghost var fs := cached.extents;
      if |cached.frag| == 0 {
        DefragmentedOne(fs);
        return null;
      }
      if cached.frag[0].offset != 0 {
        DefragmentedOne(fs);
        return null;
      }
      if |cached.frag| == 1 {
        DefragmentedIs(fs, 1);
        PrefixBeforeGap(fs, 1);
        return cached.frag[0];
      }
      var adj := BeforeGap(cached);
      DefragmentedIs(fs, adj);
      PrefixBeforeGap(fs, adj);
      if adj == 1 { return cached.frag[0]; }
      JoinFront(cached, adj);
      first := cached.frag[0];
    }

    /** Put one fragment in the place of the first `adj` ones. */
    method JoinFront(cached: CacheEntry, adj: nat)
      requires Working(cached) && cached.Valid() && 0 < adj <= |cached.frag| && cached.frag[0].offset == 0
      requires Gapless(cached.extents[..adj])
      modifies cached`frag, cached`extents, cached`Repr
      ensures Working(cached) && cached.Valid() && fresh(cached.Repr - old(cached.Repr))
      ensures var bytes := Joined(old(cached.extents)[..adj]);
              cached.extents == [Extent(0, bytes, |bytes|)] + old(cached.extents)[adj..]
      ensures cached.Contents() == old(cached.Contents())
      ensures TotalLength(cached.extents) == old(TotalLength(cached.extents))
    {
      hide Bytes, Sum, TotalLength, Joined, Gapless, WellFormed;
      ghost var fs := cached.extents;
      JoinedFront(fs, adj, cached.length);
      var bytes := TakeFront(cached, adj);
      cached.Insert(0, 0, bytes, |bytes|);
      assert cached.extents == [Extent(0, bytes, |bytes|)] + fs[adj..];
    }

    /** Take the first `adj` fragments off the list, copying their bytes one after another. */
    method TakeFront(cached: CacheEntry, adj: nat) returns (bytes: seq<Byte>)
      requires cached.Shape() && adj <= |cached.frag|
      modifies cached`frag, cached`extents
      ensures cached.Shape()
      ensures cached.extents == old(cached.extents)[adj..]
      ensures bytes == Joined(old(cached.extents)[..adj])
    {
      hide Bytes;
      bytes := [];
      var n := 0;
      ghost var fs := cached.extents;
      assert fs[0..] == fs;
      while n < adj
        invariant cached.Shape() && n <= adj <= |fs|
        invariant cached.extents == fs[n..] && bytes == Joined(fs[..n])
      {
        bytes := bytes + cached.frag[0].data[..cached.frag[0].length];
        assert fs[..n + 1] == fs[..n] + [fs[n]];
        JoinedAppend(fs[..n], fs[n]);
        cached.Remove(0);
        n := n + 1;
      }
    }

    /** Store `data` at `offset` of the entry.  1 means the entry was enlarged, 0 that only old
        data was overwritten. */
    method AddFragment(cached: CacheEntry, offset: int, data: seq<Byte>) returns (ret: int, ghost cut: bool)
      requires Valid() && cached in entries
      modifies cached.Repr - {cached}, cached`frag, cached`extents, cached`Repr, cached`dataSize, this`cacheSize,
               cached`length, cached`incomplete, cached`cacheId, this`idCounter, this`Repr
      ensures Valid() && fresh(cached.Repr - old(cached.Repr))
      ensures data == [] ==> ret == 0 && !cut && cached.extents == old(cached.extents)
                             && cached.length == old(cached.length) && cached.dataSize == old(cached.dataSize)
      ensures data == [] ==> cached.cacheId == old(cached.cacheId) && idCounter == old(idCounter)
      ensures data != [] ==> cached.cacheId == old(idCounter) && idCounter == old(idCounter) + 1
      ensures data != [] ==> ret == AddResult(old(cached.extents), offset, data)
      ensures data != [] ==> (cut <==> Cuts(old(cached.extents), offset, data))
      ensures data != [] ==> cached.extents == Stored(old(cached.extents), offset, data)
      ensures cached.Contents() == Written(old(cached.Contents()), offset, data, cut)
      ensures data != [] ==> cached.length == if cut then offset + |data| else Max(old(cached.length), offset + |data|)
      ensures cached.incomplete <==> old(cached.incomplete) || (cut && offset + |data| < old(cached.length))
      ensures cached.dataSize - TotalLength(cached.extents)
              == old(cached.dataSize - TotalLength(cached.extents))
                 + if data == [] then 0 else Dropped(old(cached.extents), offset, offset + |data|)
    {
      hide Cuts, Dropped, AddResult, InPlace, Bytes, Ordered, TotalLength, Sum, WellFormed, Stored;
      if |data| == 0 {
        assert Chunk(offset, data) == map[];
        assert cached.Contents() + map[] == cached.Contents();
        return 0, false;
      }
      ghost var at, sizes := Enter(cached);
      ret, cut := AddTo(cached, offset, data);
      Repr := Repr + cached.Repr;
      forall i | 0 <= i < |entries| && i != at
        ensures entries[i].Repr == old(entries[i].Repr) && entries[i].Repr !! cached.Repr
        ensures entries[i].Valid() && !entries[i].gcTarget && entries[i].dataSize == sizes[i]
      {
        assert entries[i] !in old(cached.Repr);
      }
      Leave(at, sizes, cached);
    }

    /** Forget everything stored below `offset`. */
    method FreeEntryTo(cached: CacheEntry, offset: int)
      requires Valid() && cached in entries
      modifies cached.Repr - {cached}, cached`frag, cached`extents, cached`dataSize, this`cacheSize
      ensures Valid()
      ensures cached.extents == FreedTo(old(cached.extents), offset)
      ensures cached.Contents() == From(old(cached.Contents()), offset)
      ensures cached.dataSize - TotalLength(cached.extents) == old(cached.dataSize - TotalLength(cached.extents))
    {
      hide Bytes, Ordered, TotalLength, Sum, WellFormed;
      ghost var at, sizes := Enter(cached);
      FreeFrom(cached, offset);
      forall i | 0 <= i < |entries| && i != at
        ensures entries[i].Repr == old(entries[i].Repr) && entries[i].Repr !! cached.Repr
        ensures entries[i].Valid() && !entries[i].gcTarget && entries[i].dataSize == sizes[i]
      {
        assert entries[i] !in old(cached.Repr);
      }
      Leave(at, sizes, cached);
    }

    /** Join the fragments before the first gap into one and return it, or null when there is
        nothing at offset 0. */
    method GetCacheFragment(cached: CacheEntry) returns (first: Fragment?)
      requires Valid() && cached in entries
      modifies cached`frag, cached`extents, cached`Repr, this`Repr
      ensures Valid() && fresh(cached.Repr - old(cached.Repr))
      ensures cached.extents == Defragmented(old(cached.extents)) && cached.Contents() == old(cached.Contents())
      ensures first == null <==> old(cached.extents) == [] || old(cached.extents)[0].offset != 0
      ensures first != null ==> |cached.frag| > 0 && first == cached.frag[0] && cached.extents[0].offset == 0
      ensures first != null ==> LongestPrefix(cached.Contents(), cached.extents[0].bytes)
    {
      hide Bytes, Ordered, TotalLength, Sum, WellFormed, LongestPrefix;
      ghost var at, sizes := Enter(cached);
      first := Defragment(cached);
      Repr := Repr + cached.Repr;
      forall i | 0 <= i < |entries| && i != at
        ensures entries[i].Repr == old(entries[i].Repr) && entries[i].Repr !! cached.Repr
        ensures entries[i].Valid() && !entries[i].gcTarget && entries[i].dataSize == sizes[i]
      {
        assert entries[i] !in old(cached.Repr);
      }
      Leave(at, sizes, cached);
    }

    /** Forget everything stored in the entry. */
    method DeleteEntryContent(cached: CacheEntry)
      requires Valid() && cached in entries
      modifies cached`frag, cached`extents, cached`dataSize, cached`length, cached`incomplete, cached`cacheId,
               this`cacheSize, this`idCounter
      ensures Valid()
      ensures cached.extents == [] && cached.dataSize == 0 && cached.length == 0 && cached.incomplete
      ensures cached.cacheId == old(idCounter) && idCounter == old(idCounter) + 1
    {
      hide Bytes, Ordered, TotalLength, Sum, WellFormed;
      ghost var at, sizes := Enter(cached);
      Clear(cached);
      forall i | 0 <= i < |entries| && i != at
        ensures entries[i].Repr == old(entries[i].Repr) && entries[i].Repr !! cached.Repr
        ensures entries[i].Valid() && !entries[i].gcTarget && entries[i].dataSize == sizes[i]
      {
        assert entries[i] !in old(cached.Repr);
      }
      Leave(at, sizes, cached);
    }

    /** Called when an entry has been filled: cut it at its final length. */
    method NormalizeCacheEntry(cached: CacheEntry, truncateLength: int)
      requires Valid() && cached in entries
      modifies cached.Repr - {cached}, cached`frag, cached`extents, cached`Repr, cached`dataSize, this`cacheSize,
               cached`length, cached`incomplete, this`Repr
      ensures Valid() && fresh(cached.Repr - old(cached.Repr))
      ensures truncateLength < 0 ==> cached.Record() == old(cached.Record())
      ensures truncateLength >= 0 ==>
        && cached.extents == CutAt(old(cached.extents), truncateLength, true)
        && cached.Contents() == Below(old(cached.Contents()), truncateLength)
        && cached.length == Min(old(cached.length), truncateLength) && !cached.incomplete
      ensures cached.dataSize - TotalLength(cached.extents) == old(cached.dataSize - TotalLength(cached.extents))
    {
      hide Bytes, Ordered, TotalLength, Sum, WellFormed, Below;
      if truncateLength < 0 { return; }
      ghost var at, sizes := Enter(cached);
      TruncateTo(cached, truncateLength);
      Repr := Repr + cached.Repr;
      forall i | 0 <= i < |entries| && i != at
        ensures entries[i].Repr == old(entries[i].Repr) && entries[i].Repr !! cached.Repr
        ensures entries[i].Valid() && !entries[i].gcTarget && entries[i].dataSize == sizes[i]
      {
        assert entries[i] !in old(cached.Repr);
      }
      Leave(at, sizes, cached);
    }

    method TruncateTo(cached: CacheEntry, offset: int)
      requires Working(cached) && cached.Valid()
      modifies cached.Repr - {cached}, cached`frag, cached`extents, cached`Repr, cached`dataSize, this`cacheSize,
               cached`length, cached`incomplete
      ensures cached.Valid() && fresh(cached.Repr - old(cached.Repr)) && this !in cached.Repr
      ensures cached.extents == CutAt(old(cached.extents), offset, true)
      ensures cached.Contents() == Below(old(cached.Contents()), offset)
      ensures cached.length == Min(old(cached.length), offset) && !cached.incomplete
      ensures cached.dataSize - TotalLength(cached.extents) == old(cached.dataSize - TotalLength(cached.extents))
      ensures cacheSize - cached.dataSize == old(cacheSize - cached.dataSize)
    {
      hide Bytes, Below, TotalLength, WellFormed;
      TruncateEntry(cached, offset, true);
      cached.incomplete := false;
    }

    /** An empty cache. */
    constructor ()
      ensures Valid() && entries == [] && cacheSize == 0
    {
      entries, cacheSize, idCounter, Repr := [], 0, 1, {};
    }

    /** The first valid entry for `uri`, which becomes the first of the list. */
    method FindInCache(uri: int) returns (cached: CacheEntry?)
      requires Valid()
      modifies this`entries
      ensures Valid() && cacheSize == old(cacheSize)
      ensures cached == null
              <==> forall i :: 0 <= i < |old(entries)| ==> !(old(entries)[i].valid && old(entries)[i].uri == uri)
      ensures cached == null ==> entries == old(entries)
      ensures cached != null ==>
        exists i :: 0 <= i < |old(entries)| && old(entries)[i] == cached && cached.valid && cached.uri == uri
          && (forall j :: 0 <= j < i ==> !(old(entries)[j].valid && old(entries)[j].uri == uri))
          && entries == [cached] + old(entries)[..i] + old(entries)[i + 1..]
    {
      hide Bytes, Ordered, TotalLength, Sum, WellFormed, Valid;
      for i := 0 to |entries|
        invariant entries == old(entries)
        invariant forall j :: 0 <= j < i ==> !(entries[j].valid && entries[j].uri == uri)
      {
        if entries[i].valid && entries[i].uri == uri {
          cached := entries[i];
          MoveToTop(i);
          return;
        }
      }
      cached := null;
    }

    /** move_to_top_of_list. */
    method MoveToTop(i: nat)
      requires Valid() && i < |entries|
      modifies this`entries
      ensures Valid() && entries == [old(entries)[i]] + old(entries)[..i] + old(entries)[i + 1..]
    {
      hide Bytes, Ordered, TotalLength, Sum, WellFormed;
      ghost var sizes := Sizes(entries);
      SumToFront(sizes, i);
      entries := [entries[i]] + entries[..i] + entries[i + 1..];
      assert Sizes(entries) == [sizes[i]] + sizes[..i] + sizes[i + 1..];
    }

    /** The entry for `uri`, made if there is none. */
    method GetCacheEntry(uri: int, optCacheSize: nat, ghost items: seq<Item>) returns (cached: CacheEntry)
      requires Valid() && Matches(items)
      modifies this, entries
      ensures Valid() && |entries| > 0 && entries[0] == cached && cached.uri == uri && cached.valid
      ensures (exists i :: 0 <= i < |old(entries)| && old(entries[i].valid && entries[i].uri == uri)) ==>
        exists i :: 0 <= i < |old(entries)| && old(entries)[i] == cached
          && (forall j :: 0 <= j < i ==> !old(entries[j].valid && entries[j].uri == uri))
          && entries == [cached] + old(entries)[..i] + old(entries)[i + 1..] && cacheSize == old(cacheSize)
      ensures (forall i :: 0 <= i < |old(entries)| ==> !old(entries[i].valid && entries[i].uri == uri)) ==>
        fresh(cached) && cached.extents == [] && cached.length == 0 && cached.incomplete && !cached.used
          && entries[1..] == Keep(old(entries), Plan(items, optCacheSize, false))
      ensures forall e :: e in old(entries) && e in entries ==> e.Record() == old(e.Record())
    {
      hide Bytes, Ordered, TotalLength, WellFormed, Sum;
      var found := FindInCache(uri);
      if found != null { return found; }
      GarbageCollection(optCacheSize, false, items);
      cached := AddEntry(uri);
    }

    method AddEntry(uri: int) returns (cached: CacheEntry)
      requires Valid()
      modifies this
      ensures Valid() && cacheSize == old(cacheSize) && entries == [cached] + old(entries)
      ensures fresh(cached) && cached.uri == uri && cached.valid && cached.extents == [] && cached.incomplete
      ensures cached.length == 0 && !cached.used && cached.cacheId == old(idCounter) && idCounter == old(idCounter) + 1
    {
      hide Bytes, Ordered, TotalLength, WellFormed, Sum;
      cached := new CacheEntry(uri, idCounter);
      idCounter := idCounter + 1;
      ghost var sizes := Sizes(entries);
      entries := [cached] + entries;
      Repr := Repr + cached.Repr;
      SumOfConcat([0], sizes);
      SumOfOne(0);
      assert Sizes(entries) == [0] + sizes;
      forall i | 0 < i < |entries|
        ensures entries[i].Valid() && entries[i].Repr !! cached.Repr && entries[i] in Repr && entries[i].Repr <= Repr
        ensures !entries[i].gcTarget
      {
        assert entries[i] == old(entries)[i - 1];
      }
    }

    /** Unlink entry `i` and free it. */
    method DeleteAt(i: nat)
      requires Sound() && i < |entries| && !entries[i].used
      modifies this`entries, this`cacheSize, this`idCounter, entries[i]
      ensures Sound() && entries == old(entries)[..i] + old(entries)[i + 1..]
      ensures forall j :: 0 <= j < |entries| ==>
              entries[j].gcTarget == old(entries[if j < i then j else j + 1].gcTarget)
      ensures cacheSize == old(cacheSize - entries[i].dataSize)
    {
      hide Bytes, Ordered, TotalLength, Sum, WellFormed;
      var cached := entries[i];
      ghost var at, sizes := Enter(cached);
      entries := entries[..i] + entries[i + 1..];
      Clear(cached);
      forall j | 0 <= j < |entries|
        ensures entries[j] in Repr && entries[j].Repr <= Repr && entries[j].Valid()
        ensures entries[j].dataSize == (sizes[..i] + sizes[i + 1..])[j]
        ensures entries[j].gcTarget == old(entries[if j < i then j else j + 1].gcTarget)
      {
        assert entries[j] == old(entries)[if j < i then j else j + 1] && entries[j] != cached;
      }
      SumWithout(sizes, i);
      assert Sizes(entries) == sizes[..i] + sizes[i + 1..];
    }

    /** delete_cache_entry. */
    method DeleteCacheEntry(cached: CacheEntry)
      requires Valid() && cached in entries && !cached.used
      modifies this`entries, this`cacheSize, this`idCounter, cached
      ensures Valid()
      ensures exists i :: 0 <= i < |old(entries)| && old(entries)[i] == cached
                && entries == old(entries)[..i] + old(entries)[i + 1..]
      ensures cacheSize == old(cacheSize - cached.dataSize)
    {
      hide Bytes, Ordered, TotalLength, Sum, WellFormed, Sound, Sizes;
      var i := 0;
      while entries[i] != cached
        invariant i < |entries| && cached in entries[i..]
        decreases |entries| - i
      {
        assert entries[i..] == [entries[i]] + entries[i + 1..];
        i := i + 1;
      }
      DeleteAt(i);
    }

    /** Mark an entry for destruction, or let it off. */
    method SetTarget(i: nat, target: bool, ghost items: seq<Item>)
      requires Sound() && Matches(items) && i < |entries|
      modifies entries`gcTarget
      ensures Sound() && Matches(items) && entries[i].gcTarget == target
      ensures forall j :: 0 <= j < |entries| && j != i ==> entries[j].gcTarget == old(entries[j].gcTarget)
    {
      hide Bytes, Ordered, TotalLength, WellFormed, Sum;
      entries[i].SetTarget(target);
      assert Sizes(entries) == old(Sizes(entries));
      forall j | 0 <= j < |entries| && j != i ensures entries[j].Valid() { assert old(entries[j].Valid()); }
    }

    /** Pass 1: what is left of the cache size without the used entries.  The sizes of all
        entries add up to the cache size, as the original asserts. */
    method CountUnused(ghost items: seq<Item>) returns (unused: int)
      requires Sound() && Matches(items)
      ensures unused == Unused(items)
    {
      hide Bytes, Ordered, TotalLength, WellFormed;
      ItemsTotal(items);
      var all := 0;
      unused := cacheSize;
      for i := 0 to |entries|
        invariant all == Total(items[..i])
        invariant unused == cacheSize - (Total(items[..i]) - Unused(items[..i]))
      {
        assert items[..i + 1] == items[..i] + [items[i]];
        TotalOfAppend(items[..i], items[i]);
        all := all + entries[i].dataSize;
        if entries[i].used {
          unused := unused - entries[i].dataSize;
        }
      }
      assert items[..|items|] == items;
      assert all == cacheSize;
    }

    /** Pass 2: from the oldest entry on, mark the unused ones until the rest fits. */
    method MarkOldest(unused: int, low: nat, whole: bool, ghost items: seq<Item>) returns (k: nat, left: int)
      requires Sound() && Matches(items) && unused == Unused(items)
      modifies entries`gcTarget
      ensures Sound() && Matches(items) && k <= |entries|
      ensures k == if whole then 0 else Cutoff(items, low)
      ensures left == Unused(items[..k])
      ensures forall i :: 0 <= i < k ==> entries[i].gcTarget == old(entries[i].gcTarget)
      ensures forall i :: k <= i < |entries| ==> entries[i].gcTarget == !items[i].used
    {
      hide Bytes, Ordered, TotalLength, WellFormed, Sum, Sound, Unused, Cutoff;
      k, left := |entries|, unused;
      assert items[..|items|] == items;
      while k > 0 && (whole || left > low)
        invariant Sound() && Matches(items) && k <= |entries|
        invariant left == Unused(items[..k])
        invariant !whole && k < |items| ==> low < Unused(items[..k + 1])
        invariant forall i :: 0 <= i < k ==> entries[i].gcTarget == old(entries[i].gcTarget)
        invariant forall i :: k <= i < |entries| ==> entries[i].gcTarget == !items[i].used
      {
        UnusedBefore(items, k);
        k := k - 1;
        if entries[k].used {
          SetTarget(k, false, items);
        } else {
          SetTarget(k, true, items);
          left := left - entries[k].dataSize;
        }
      }
      // If everything was scanned, nothing unused is left.
      NoneUnused(items);
      if !whole { CutoffIs(items, low, k); }
    }

    /** Pass 3: let off marked entries, oldest last, as long as they still fit. */
    method LetOffNewest(k: nat, left: int, low: nat, ghost items: seq<Item>)
      requires Sound() && Matches(items) && k <= |entries| && 0 <= left
      requires forall i :: k <= i < |entries| ==> entries[i].gcTarget == !items[i].used
      modifies entries`gcTarget
      ensures Sound() && Matches(items)
      ensures forall i :: 0 <= i < k ==> entries[i].gcTarget == old(entries[i].gcTarget)
      ensures forall i :: k <= i < |entries| ==> entries[i].gcTarget == !LetOff(items[k..], left, low)[i - k]
    {
      hide Bytes, Ordered, TotalLength, WellFormed, Sum, Sound, LetOff;
      var size := left;
      ghost var flags := LetOff(items[k..], left, low);
      for i := k to |entries|
        invariant Sound() && Matches(items) && 0 <= size
        invariant forall j :: 0 <= j < k ==> entries[j].gcTarget == old(entries[j].gcTarget)
        invariant forall j :: k <= j < i ==> entries[j].gcTarget == !flags[j - k]
        invariant forall j :: i <= j < |entries| ==> entries[j].gcTarget == !items[j].used
        invariant flags[i - k..] == LetOff(items[i..], size, low)
      {
        var newer := size + entries[i].dataSize;
        LetOffStep(items, i, size, low);
        assert flags[i - k] == flags[i - k..][0] && flags[i + 1 - k..] == flags[i - k..][1..];
        if newer <= low {
          size := newer;
          SetTarget(i, false, items);
        }
      }
    }

    /** Pass 4: delete the marked entries from position `k` on. */
    method DeleteMarked(k: nat, ghost flags: seq<bool>)
      requires Sound() && k <= |entries| == |flags|
      requires forall i :: 0 <= i < |entries| ==> entries[i].gcTarget == !flags[i]
      requires forall i :: 0 <= i < k ==> flags[i]
      requires forall i :: 0 <= i < |entries| && !flags[i] ==> !entries[i].used
      modifies this`entries, this`cacheSize, this`idCounter, entries
      ensures Valid() && entries == Keep(old(entries), flags)
      ensures forall e :: e in entries ==> e.Record() == old(e.Record())
    {
      hide Bytes, Ordered, TotalLength, WellFormed, Sum, Sound, Keep;
      ghost var was := entries;
      ghost var i := k;
      var j := k;
      Distinct();
      assert flags[..k] == All(k) && was[..k] + was[k..] == was;
      KeepAll(was[..k]);
      while j < |entries|
        invariant Sound() && k <= i <= |was| && j == |Keep(was[..i], flags[..i])|
        invariant entries == Keep(was[..i], flags[..i]) + was[i..]
        invariant forall x :: 0 <= x < |was| && (flags[x] || i <= x) ==>
          was[x].gcTarget == !flags[x] && was[x].Record() == old(was[x].Record())
        decreases |was| - i
      {
        KeepAdvance(was, flags, i);
        if entries[j].gcTarget {
          DeleteAt(j);
        } else {
          j := j + 1;
        }
        i := i + 1;
      }
      assert was[..i] == was && flags[..i] == flags;
      KeepFrom(was, flags);
      forall x | x in was && x in entries
        ensures !x.gcTarget && x.Record() == old(x.Record())
      {
        KeepIndex(was, flags, x);
      }
    }

    /** Passes 2 and 3: mark what is to go. */
    method MarkTargets(unused: int, optCacheSize: nat, whole: bool, ghost items: seq<Item>) returns (k: nat)
      requires Valid() && Matches(items) && unused == Unused(items) && Marks(items, optCacheSize, whole)
      modifies entries`gcTarget
      ensures Sound() && Matches(items) && k <= |entries|
      ensures forall i :: 0 <= i < |items| && !Plan(items, optCacheSize, whole)[i] ==> !items[i].used && k <= i
      ensures forall i :: 0 <= i < |entries| ==> entries[i].gcTarget == !Plan(items, optCacheSize, whole)[i]
    {
      hide Bytes, Ordered, TotalLength, WellFormed, Sum, Sound, LetOff, Total, Unused, Cutoff, Plan, Marks;
      var low := optCacheSize * MEMORY_CACHE_GC_PERCENT / 100;
      var left: int;
      PlanIs(items, optCacheSize, whole);
      k, left := MarkOldest(unused, low, whole, items);
      forall i | 0 <= i < |items| && !Plan(items, optCacheSize, whole)[i] ensures !items[i].used && k <= i {
        PlanDeletes(items, optCacheSize, whole, i);
      }
      if k < |entries| && !whole {
        LetOffNewest(k, left, low, items);
      }
    }

    /** The last three passes. */
    method Sweep(unused: int, optCacheSize: nat, whole: bool, ghost items: seq<Item>)
      requires Valid() && Matches(items) && unused == Unused(items) && Marks(items, optCacheSize, whole)
      modifies this`entries, this`cacheSize, this`idCounter, entries
      ensures Valid()
      ensures entries == Keep(old(entries), Plan(items, optCacheSize, whole))
      ensures Matches(Keep(items, Plan(items, optCacheSize, whole)))
      ensures forall e :: e in entries ==> e.Record() == old(e.Record())
    {
      hide Bytes, Ordered, TotalLength, WellFormed, Sum, Sound, LetOff, Keep, Total, Unused, Plan, Marks;
      ghost var was, flags := entries, Plan(items, optCacheSize, whole);
      var k := MarkTargets(unused, optCacheSize, whole, items);
      if k == |entries| {
        KeepsWhole(entries, flags);
        KeepsWhole(items, flags);
        return;
      }
      DeleteMarked(k, flags);
      KeepFrom(was, flags);
      KeptMatch(was, flags, items);
    }

    /** Delete unused entries until the unused data fits below the low mark; with `whole`, all of
        them.  The entries that stay are those of the plan, in their order.  Nothing is deleted exactly
        if the unused data is no more than what is allowed, or with `whole`, if nothing is unused. */
    method GarbageCollection(optCacheSize: nat, whole: bool, ghost items: seq<Item>)
      requires Valid() && Matches(items)
      modifies this`entries, this`cacheSize, this`idCounter, entries
      ensures Valid()
      ensures entries == Keep(old(entries), Plan(items, optCacheSize, whole))
      ensures Matches(Keep(items, Plan(items, optCacheSize, whole)))
      ensures entries == old(entries)
              <==> if whole then forall e :: e in old(entries) ==> old(e.used) else Unused(items) <= optCacheSize
      ensures entries == old(entries) ==> cacheSize == old(cacheSize)
      ensures forall left: seq<Item> :: Matches(left) ==> InBounds(left, items, optCacheSize, whole)
      ensures forall e :: e in entries ==> e.Record() == old(e.Record())
    {
      hide Bytes, Ordered, TotalLength, WellFormed, Sum, Sound, Keep, Total, Unused, Plan, InBounds;
      ghost var flags := Plan(items, optCacheSize, whole);
      ItemsTotal(items);
      UsedAlike(items);
      UnusedAtMostTotal(items);
      CollectsWhen(items, optCacheSize, whole);
      KeepsWhole(entries, flags);
      KeepsWhole(items, flags);
      KeepFrom(entries, flags);
      LeftOver(items, optCacheSize, whole);
      if whole || cacheSize > optCacheSize {
        var unused := CountUnused(items);
        if whole || unused > optCacheSize {
          Sweep(unused, optCacheSize, whole, items);
        }
      }
      ItemsTotal(Keep(items, flags));
      MatchesOnce(Keep(items, flags));
    }

    predicate Matches(items: seq<Item>)
      reads this, entries
    {
      |items| == |entries| && forall i :: 0 <= i < |entries| ==>
        items[i].size == entries[i].dataSize && items[i].used == entries[i].used
    }

    lemma KeptMatch(was: seq<CacheEntry>, flags: seq<bool>, items: seq<Item>)
      requires |was| == |flags| == |items| && entries == Keep(was, flags)
      requires forall i :: 0 <= i < |was| && was[i] in entries ==>
        items[i].size == was[i].dataSize && items[i].used == was[i].used
      ensures Matches(Keep(items, flags))
    {
      hide Keep;
      KeepSameLength(was, items, flags);
      forall j | 0 <= j < |entries|
        ensures Keep(items, flags)[j].size == entries[j].dataSize && Keep(items, flags)[j].used == entries[j].used
      {
        var i := KeepPairs(was, items, flags, j);
        assert entries[j] in entries;
      }
    }

    lemma UsedAlike(items: seq<Item>)
      requires Matches(items)
      ensures (forall e :: e in entries ==> e.used) <==> forall i :: 0 <= i < |items| ==> items[i].used
    {
      if forall e :: e in entries ==> e.used {
        forall i | 0 <= i < |items| ensures items[i].used { assert entries[i] in entries; }
      }
    }

    lemma MatchesOnce(items: seq<Item>)
      requires Matches(items)
      ensures forall left: seq<Item> :: Matches(left) ==> left == items
    {
    }

    lemma Distinct()
      requires Sound()
      ensures forall i, j :: 0 <= i < j < |entries| ==> entries[i] != entries[j]
    {
    }

    lemma ItemsTotal(items: seq<Item>)
      requires Sound() && Matches(items)
      ensures Total(items) == cacheSize
    {
      TotalIsSum(items, Sizes(entries));
    }
  }

  lemma {:induction false} TotalIsSum(items: seq<Item>, sizes: seq<int>)
    requires |items| == |sizes| && forall i :: 0 <= i < |items| ==> items[i].size == sizes[i]
    ensures Total(items) == Sum(sizes)
  {
    if items != [] { TotalIsSum(items[1..], sizes[1..]); }
  }

  lemma {:induction false} SumOfConcat(a: seq<int>, b: seq<int>)
    ensures Sum(a + b) == Sum(a) + Sum(b)
  {
    if a == [] {
      assert a + b == b;
    } else {
      assert (a + b)[1..] == a[1..] + b;
      SumOfConcat(a[1..], b);
    }
  }

  lemma SumOfOne(x: int)
    ensures Sum([x]) == x
  {
    assert [x][1..] == [];
  }

  lemma SumWithout(sizes: seq<int>, i: nat)
    requires i < |sizes|
    ensures Sum(sizes[..i] + sizes[i + 1..]) == Sum(sizes) - sizes[i]
  {
    hide Sum;
    SumOfOne(sizes[i]);
    assert sizes == sizes[..i] + ([sizes[i]] + sizes[i + 1..]);
    SumOfConcat(sizes[..i], [sizes[i]] + sizes[i + 1..]);
    SumOfConcat([sizes[i]], sizes[i + 1..]);
    SumOfConcat(sizes[..i], sizes[i + 1..]);
  }

  lemma SumToFront(sizes: seq<int>, i: nat)
    requires i < |sizes|
    ensures Sum([sizes[i]] + sizes[..i] + sizes[i + 1..]) == Sum(sizes)
  {
    SumWithout(sizes, i);
    assert [sizes[i]] + sizes[..i] + sizes[i + 1..] == [sizes[i]] + (sizes[..i] + sizes[i + 1..]);
    SumOfConcat([sizes[i]], sizes[..i] + sizes[i + 1..]);
    assert Sum([sizes[i]]) == sizes[i];
  }
}
