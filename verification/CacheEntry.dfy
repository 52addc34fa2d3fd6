/** A cache entry and the fragments it owns (src/cache/cache.h). */
module CacheEntries {
  import opened ByteMaps
  import opened FragmentEdits

  /** One run of downloaded bytes.  `data` is the allocated buffer; only its first `length`
      bytes are meaningful. */
  class Fragment {
    var offset: int
    var length: int
    var data: array<Byte>

    constructor (offset: int, bytes: seq<Byte>, room: nat)
      requires |bytes| <= room
      ensures this.offset == offset && this.length == |bytes|
      ensures fresh(data) && data.Length == room && data[..|bytes|] == bytes
    {
      this.offset := offset;
      this.length := |bytes|;
      var buffer := new Byte[room](i requires 0 <= i => if i < |bytes| then bytes[i] else 0);
      this.data := buffer;
    }
  }

  class CacheEntry {
    const uri: int
    var frag: seq<Fragment>
    var length: int
    var dataSize: int
    var cacheId: int
    var incomplete: bool
    var valid: bool
    var used: bool
    var gcTarget: bool

    /** The value of every fragment in `frag`, and the objects the entry is made of. */
    ghost var extents: seq<Extent>
    ghost var Repr: set<object>

    /** The fragments are separate objects with separate buffers, and `extents` is their value. */
    ghost predicate Shape()
      reads this, Repr
      ensures Shape() ==> this in Repr
    {
      && this in Repr
      && |extents| == |frag|
      && (forall i :: 0 <= i < |frag| ==>
            && frag[i] in Repr && frag[i].data in Repr
            && 0 <= frag[i].length <= frag[i].data.Length
            && extents[i] == Extent(frag[i].offset, frag[i].data[..frag[i].length], frag[i].data.Length))
      && (forall i, j :: 0 <= i < j < |frag| ==> frag[i] != frag[j] && frag[i].data != frag[j].data)
    }

    ghost predicate Valid()
      reads this, Repr
      ensures Valid() ==> Shape()
    {
      Shape() && WellFormed(extents, length) && TotalLength(extents) <= dataSize
    }

    /** All that is known of the entry, but for its mark. */
    ghost function Record(): (seq<Extent>, int, int, int, bool, bool, bool)
      reads this
    {
      (extents, length, dataSize, cacheId, incomplete, valid, used)
    }

    /** The bytes that have been downloaded so far. */
    ghost function Contents(): map<int, Byte>
      reads this
    {
      Bytes(extents)
    }

    constructor (uri: int, id: int)
      ensures Valid() && fresh(Repr) && Repr == {this} && this.uri == uri && cacheId == id
      ensures extents == [] && length == 0 && dataSize == 0
      ensures incomplete && valid && !used && !gcTarget
    {
      this.uri, cacheId := uri, id;
      frag, extents := [], [];
      length, dataSize := 0, 0;
      incomplete, valid, used, gcTarget := true, true, false, false;
      Repr := {this};
    }

    /** del_from_list and frag_free. */
    method Remove(i: nat)
      requires Shape() && i < |frag|
      modifies this`frag, this`extents
      ensures Shape()
      ensures frag == old(frag)[..i] + old(frag)[i + 1..]
      ensures extents == old(extents)[..i] + old(extents)[i + 1..]
    {
      frag := frag[..i] + frag[i + 1..];
      extents := extents[..i] + extents[i + 1..];
    }

    /** frag_alloc, memcpy and add_at_pos: link a new fragment before position `i`. */
    method Insert(i: nat, offset: int, bytes: seq<Byte>, room: nat)
      requires Shape() && i <= |frag| && |bytes| <= room
      modifies this`frag, this`extents, this`Repr
      ensures Shape() && fresh(Repr - old(Repr)) && old(Repr) <= Repr
      ensures extents == old(extents)[..i] + [Extent(offset, bytes, room)] + old(extents)[i..]
      ensures |frag| == |old(frag)| + 1
    {
      var f := new Fragment(offset, bytes, room);
      frag := frag[..i] + [f] + frag[i..];
      extents := extents[..i] + [Extent(offset, bytes, room)] + extents[i..];
      Repr := Repr + {f, f.data};
    }

    /** Set the length of fragment `i`; bytes that become visible this way are unspecified. */
    method SetLength(i: nat, n: nat)
      requires Shape() && i < |frag| && n <= extents[i].room
      modifies frag[i], this`extents
      ensures Shape()
      ensures |extents| == |old(extents)| && extents[..i] == old(extents)[..i]
      ensures extents[i + 1..] == old(extents)[i + 1..]
      ensures extents[i].offset == old(extents)[i].offset && extents[i].room == old(extents)[i].room
      ensures |extents[i].bytes| == n
      ensures forall k :: 0 <= k < n && k < |old(extents)[i].bytes| ==> extents[i].bytes[k] == old(extents)[i].bytes[k]
    {
      var f := frag[i];
      f.length := n;
      extents := extents[i := Extent(f.offset, f.data[..n], f.data.Length)];
    }

    /** memcpy of `src` to position `at` of the buffer of fragment `i`. */
    method Copy(i: nat, at: nat, src: seq<Byte>)
      requires Shape() && i < |frag| && at + |src| <= |extents[i].bytes|
      modifies frag[i].data, this`extents
      ensures Shape()
      ensures extents == old(extents)[i := old(extents)[i].(bytes :=
                old(extents)[i].bytes[..at] + src + old(extents)[i].bytes[at + |src|..])]
    {
      ghost var before := extents[i].bytes;
      CopyTo(frag[i].data, frag[i].length, at, src);
      extents := extents[i := extents[i].(bytes := before[..at] + src + before[at + |src|..])];
    }

    static method CopyTo(data: array<Byte>, ghost n: nat, at: nat, src: seq<Byte>)
      requires at + |src| <= n <= data.Length
      modifies data
      ensures data[..n] == old(data[..n])[..at] + src + old(data[..n])[at + |src|..]
    {
      for k := 0 to |src|
        invariant data[..n] == old(data[..n])[..at] + src[..k] + old(data[..n])[at + k..]
      {
        data[at + k] := src[k];
      }
    }

    /** memmove of the tail of fragment `i` to the front of its buffer, dropping `n` bytes. */
    method DropFront(i: nat, n: nat)
      requires Shape() && i < |frag| && n <= |extents[i].bytes|
      modifies frag[i], frag[i].data, this`extents
      ensures Shape()
      ensures var e := old(extents)[i];
              extents == old(extents)[i := Extent(e.offset + n, e.bytes[n..], e.room)]
    {
      var f := frag[i];
      ghost var before := extents[i].bytes;
      var rest := f.length - n;
      for k := 0 to rest
        invariant forall j :: 0 <= j < k ==> f.data[j] == before[n + j]
        invariant forall j :: n + k <= j < n + rest ==> f.data[j] == before[j]
        modifies f.data
      {
        f.data[k] := f.data[n + k];
      }
      assert f.data[..rest] == before[n..];
      f.length := rest;
      f.offset := f.offset + n;
      extents := extents[i := Extent(f.offset, before[n..], f.data.Length)];
    }

    /** frag_realloc: move fragment `i` to a buffer of `room` bytes. */
    method Reallocate(i: nat, room: nat)
      requires Shape() && i < |frag| && |extents[i].bytes| <= room
      modifies frag[i], this`extents, this`Repr
      ensures Shape() && fresh(Repr - old(Repr)) && old(Repr) <= Repr
      ensures extents == old(extents)[i := old(extents)[i].(room := room)]
    {
      var f := frag[i];
      var buffer := new Byte[room];
      for k := 0 to f.length
        invariant buffer[..k] == f.data[..k]
        modifies buffer
      {
        buffer[k] := f.data[k];
      }
      f.data := buffer;
      extents := extents[i := Extent(f.offset, buffer[..f.length], room)];
      Repr := Repr + {buffer};
    }

    /** frag_realloc to hold `src` after the present bytes of fragment `i`, and memcpy of `src`. */
    method Append(i: nat, src: seq<Byte>)
      requires Shape() && i < |frag|
      modifies Repr - {this}, this`frag, this`extents, this`Repr
      ensures Shape() && fresh(Repr - old(Repr)) && old(Repr) <= Repr
      ensures extents == old(extents)[i := Extent(old(extents)[i].offset, old(extents)[i].bytes + src,
                                                  |old(extents)[i].bytes| + |src|)]
    {
      ghost var e := extents[i];
      var n := frag[i].length;
      Reallocate(i, n + |src|);
      SetLength(i, n + |src|);
      Copy(i, n, src);
      assert extents[i].bytes == e.bytes + src;
    }

    method RemoveAll()
      requires Shape()
      modifies this`frag, this`extents
      ensures Shape() && extents == []
    {
      while |frag| > 0
        invariant Shape()
        decreases |frag|
      {
        Remove(0);
      }
    }

    method SetTarget(target: bool)
      requires Valid()
      modifies this`gcTarget
      ensures Valid() && gcTarget == target
    {
      hide WellFormed, TotalLength;
      gcTarget := target;
    }

    /** Bytes of a fragment, out of its buffer. */
    function Part(i: nat, a: nat, b: nat): (s: seq<Byte>)
      requires Shape() && i < |frag| && a <= b <= frag[i].length
      ensures b <= |extents[i].bytes| && s == extents[i].bytes[a..b]
      reads this, Repr
    {
      assert frag[i].data[..frag[i].length][a..b] == frag[i].data[a..b];
      frag[i].data[a..b]
    }

    /** memcmp of the overlapped bytes of fragment `p` and the one after it. */
    method Compare(p: nat) returns (differs: bool, common: nat)
      requires Shape() && p + 1 < |extents|
      requires extents[p].offset <= extents[p + 1].offset < extents[p].End()
      ensures common == Common(extents[p], extents[p + 1])
      ensures differs <==> OverlapDiffers(extents[p], extents[p + 1])
    {
      var at := frag[p + 1].offset - frag[p].offset;
      var end := frag[p].length - at;
      common := if end < frag[p + 1].length then end else frag[p + 1].length;
      differs := Part(p, at, at + common) != Part(p + 1, 0, common);
    }

    /** Fragment `p` takes over the one after it: the overlapped bytes are compared, the bytes
        beyond the end of `p` are appended to it, and the other fragment is removed. */
    method Absorb(p: nat) returns (differs: bool, grown: int, gone: int)
      requires Shape() && p + 1 < |extents|
      requires extents[p].offset <= extents[p + 1].offset < extents[p].End()
      modifies Repr - {this}, this`frag, this`extents, this`Repr
      ensures Shape() && fresh(Repr - old(Repr)) && old(Repr) <= Repr
      ensures extents == Swallowed(old(extents), p)
      ensures differs <==> OverlapDiffers(old(extents)[p], old(extents)[p + 1])
      ensures grown == |extents[p].bytes| - |old(extents)[p].bytes| && gone == |old(extents)[p + 1].bytes|
    {
      hide OverlapDiffers;
      gone := frag[p + 1].length;
      var common;
      differs, common := Compare(p);
      grown := gone - common;
      if common < gone { Append(p, Part(p + 1, common, gone)); }
      Remove(p + 1);
    }
  }
}
