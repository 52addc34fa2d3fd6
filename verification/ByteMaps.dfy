/** What a list of fragments means: a partial map from offsets to bytes.

    An `Extent` is the value of one fragment.  `Bytes` reads a list of extents from the
    front, so where two extents cover the same offset the earlier one wins; for an ordered
    list no offset is covered twice and the order of reading does not matter. */
module ByteMaps {

  newtype Byte = b: int | 0 <= b < 256

  datatype Extent = Extent(offset: int, bytes: seq<Byte>, room: nat) {
    function End(): int { offset + |bytes| }
  }

  /** The `n` offsets from `offset` on. */
  function Span(offset: int, n: nat): (s: set<int>)
    ensures forall k :: k in s <==> offset <= k < offset + n
  {
    if n == 0 then {} else Span(offset, n - 1) + {offset + n - 1}
  }

  /** The map that holds `bytes` from `offset` on, and nothing else. */
  function Chunk(offset: int, bytes: seq<Byte>): map<int, Byte> {
    map k | k in Span(offset, |bytes|) :: bytes[k - offset]
  }

  function Bytes(fs: seq<Extent>): map<int, Byte> {
    if fs == [] then map[] else Bytes(fs[1..]) + Chunk(fs[0].offset, fs[0].bytes)
  }

  function TotalLength(fs: seq<Extent>): nat {
    if fs == [] then 0 else |fs[0].bytes| + TotalLength(fs[1..])
  }

  /** Each fragment ends at or before the offset of every later one. */
  ghost predicate Ordered(fs: seq<Extent>) {
    forall i, j :: 0 <= i < j < |fs| ==> fs[i].End() <= fs[j].offset
  }

  /** Lengths fit the buffers and nothing lies beyond the length of the entry. */
  ghost predicate Fits(fs: seq<Extent>, length: int) {
    forall i :: 0 <= i < |fs| ==> |fs[i].bytes| <= fs[i].room && fs[i].End() <= length
  }

  /** The invariant of a fragment list. */
  ghost predicate WellFormed(fs: seq<Extent>, length: int) {
    Ordered(fs) && Fits(fs, length)
  }

  /** The part of a map below an offset, and the part from an offset on. */
  ghost function Below(m: map<int, Byte>, offset: int): map<int, Byte> {
    map k | k in m && k < offset :: m[k]
  }

  ghost function From(m: map<int, Byte>, offset: int): map<int, Byte> {
    map k | k in m && offset <= k :: m[k]
  }

  /** Two maps give different bytes to some offset that both cover. */
  ghost predicate Disagree(m: map<int, Byte>, n: map<int, Byte>) {
    exists k :: k in m && k in n && m[k] != n[k]
  }

  lemma OverlayAssociative(a: map<int, Byte>, b: map<int, Byte>, c: map<int, Byte>)
    ensures (a + b) + c == a + (b + c)
  {
  }

  lemma BelowOverlay(m: map<int, Byte>, n: map<int, Byte>, offset: int)
    ensures Below(m + n, offset) == Below(m, offset) + Below(n, offset)
  {
  }

  lemma FromOverlay(m: map<int, Byte>, n: map<int, Byte>, offset: int)
    ensures From(m + n, offset) == From(m, offset) + From(n, offset)
  {
  }

  lemma {:induction false} BytesOfConcat(a: seq<Extent>, b: seq<Extent>)
    ensures Bytes(a + b) == Bytes(b) + Bytes(a)
  {
    if a == [] {
      assert a + b == b;
    } else {
      assert (a + b)[0] == a[0] && (a + b)[1..] == a[1..] + b;
      BytesOfConcat(a[1..], b);
      OverlayAssociative(Bytes(b), Bytes(a[1..]), Chunk(a[0].offset, a[0].bytes));
    }
  }

  lemma BytesOfAppend(a: seq<Extent>, e: Extent)
    ensures Bytes(a + [e]) == Chunk(e.offset, e.bytes) + Bytes(a)
  {
    BytesOfConcat(a, [e]);
    assert Bytes([e]) == Chunk(e.offset, e.bytes);
  }

  lemma BytesOfPrepend(e: Extent, a: seq<Extent>)
    ensures Bytes([e] + a) == Bytes(a) + Chunk(e.offset, e.bytes)
  {
    assert ([e] + a)[1..] == a;
  }

  lemma {:induction false} TotalOfConcat(a: seq<Extent>, b: seq<Extent>)
    ensures TotalLength(a + b) == TotalLength(a) + TotalLength(b)
  {
    if a == [] {
      assert a + b == b;
    } else {
      assert (a + b)[0] == a[0] && (a + b)[1..] == a[1..] + b;
      TotalOfConcat(a[1..], b);
    }
  }

  /** An offset is covered exactly when it lies inside some extent. */
  lemma {:induction false} CoveredByAnExtent(fs: seq<Extent>, k: int)
    ensures k in Bytes(fs) <==> exists i :: 0 <= i < |fs| && fs[i].offset <= k < fs[i].End()
  {
    if fs != [] {
      CoveredByAnExtent(fs[1..], k);
      if i :| 0 <= i < |fs| && fs[i].offset <= k < fs[i].End() {
        assert i > 0 ==> fs[i] == fs[1..][i - 1];
      }
      if k in Bytes(fs[1..]) {
        var i :| 0 <= i < |fs[1..]| && fs[1..][i].offset <= k < fs[1..][i].End();
        assert fs[i + 1] == fs[1..][i];
      }
    }
  }

  lemma CoveredFrom(fs: seq<Extent>, lo: int)
    requires forall i :: 0 <= i < |fs| ==> lo <= fs[i].offset
    ensures forall k :: k in Bytes(fs) ==> lo <= k
  {
    forall k | k in Bytes(fs) ensures lo <= k { CoveredByAnExtent(fs, k); }
  }

  lemma CoveredBelow(fs: seq<Extent>, hi: int)
    requires forall i :: 0 <= i < |fs| ==> fs[i].End() <= hi
    ensures forall k :: k in Bytes(fs) ==> k < hi
  {
    forall k | k in Bytes(fs) ensures k < hi { CoveredByAnExtent(fs, k); }
  }

  /** A list cut at position `i`: what its two halves cover. */
  lemma SplitAt(fs: seq<Extent>, i: nat)
    requires i <= |fs|
    ensures Bytes(fs) == Bytes(fs[i..]) + Bytes(fs[..i])
    ensures TotalLength(fs) == TotalLength(fs[..i]) + TotalLength(fs[i..])
  {
    assert fs[..i] + fs[i..] == fs;
    BytesOfConcat(fs[..i], fs[i..]);
    TotalOfConcat(fs[..i], fs[i..]);
  }

  lemma SplitAround(fs: seq<Extent>, i: nat)
    requires i < |fs|
    ensures Bytes(fs) == Bytes(fs[i + 1..]) + Chunk(fs[i].offset, fs[i].bytes) + Bytes(fs[..i])
    ensures TotalLength(fs) == TotalLength(fs[..i]) + |fs[i].bytes| + TotalLength(fs[i + 1..])
  {
    SplitAt(fs, i);
    assert fs[i..][0] == fs[i] && fs[i..][1..] == fs[i + 1..];
  }
}
