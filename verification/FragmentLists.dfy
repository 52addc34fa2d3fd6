/** What the operations on an entry leave of its fragments, one by one: with the room of their buffers,
    on which later writes depend. */
module FragmentLists {
  import opened ByteMaps
  import opened FragmentEdits
  import opened Merging

  // ---- truncate_entry

  /** Fragments that end by `offset` stay, the one around it is shortened, and the rest goes.  If this is
      final, the shortened one has no spare room left. */
  function CutAt(fs: seq<Extent>, offset: int, final: bool): seq<Extent> {
    if fs == [] then []
    else if fs[0].End() <= offset then [fs[0]] + CutAt(fs[1..], offset, final)
    else if fs[0].offset < offset then [CutOff(fs[0], offset, final)]
    else []
  }

  function CutOff(f: Extent, offset: int, final: bool): Extent
    requires f.offset < offset < f.End()
  {
    Shortened(f, offset).(room := if final then offset - f.offset else f.room)
  }

  lemma {:induction false} CutAtIs(fs: seq<Extent>, i: nat, offset: int, final: bool)
    requires i <= |fs| && (forall j :: 0 <= j < i ==> fs[j].End() <= offset) && (i < |fs| ==> offset < fs[i].End())
    ensures CutAt(fs, offset, final)
            == fs[..i] + if i < |fs| && fs[i].offset < offset then [CutOff(fs[i], offset, final)] else []
  {
    hide CutOff;
    if i > 0 {
      assert forall j :: 0 <= j < i - 1 ==> fs[1..][j] == fs[j + 1];
      CutAtIs(fs[1..], i - 1, offset, final);
      assert fs[..i] == [fs[0]] + fs[1..][..i - 1];
    }
  }

  // ---- free_entry_to

  function FreedTo(fs: seq<Extent>, offset: int): seq<Extent> {
    if fs == [] then []
    else if fs[0].End() <= offset then FreedTo(fs[1..], offset)
    else if fs[0].offset < offset then [Trimmed(fs[0], offset)] + fs[1..]
    else fs
  }

  lemma {:induction false} FreedToIs(fs: seq<Extent>, n: nat, i: nat, now: seq<Extent>, offset: int)
    requires Freeing(fs, n, i, now, offset) && (i < |now| ==> offset <= now[i].offset)
    requires forall j :: 0 <= j < |fs| ==> fs[j].offset <= fs[j].End()
    requires i == 0 && now != [] ==> offset < now[0].End()
    ensures FreedTo(fs, offset) == now
  {
    if n > 0 {
      assert fs[1..][n - 1..] == fs[n..] && (n < |fs| ==> fs[1..][n - 1] == fs[n] && fs[1..][n..] == fs[n + 1..]);
      FreedToIs(fs[1..], n - 1, i, now, offset);
    } else {
      assert fs[0..] == fs;
    }
  }

  // ---- remove_overlaps and add_fragment

  /** Fragment `p` takes over all that start before `end`. */
  function Overlapped(fs: seq<Extent>, p: nat, end: int): seq<Extent>
    decreases |fs|
  {
    if p + 1 < |fs| && fs[p + 1].offset < end && fs[p + 1].offset <= fs[p].End()
    then Overlapped(Swallowed(fs, p), p, end)
    else fs
  }

  /** The list after storing `data`. */
  ghost function Stored(fs: seq<Extent>, offset: int, data: seq<Byte>): seq<Extent> {
    var end := offset + |data|;
    var placed, p := Placed(fs, offset, data), PlaceAt(fs, offset, end);
    var merged := if p < |placed| then Overlapped(placed, p, placed[p].End()) else placed;
    if Cuts(fs, offset, data) then CutAt(merged, end, false) else merged
  }

  lemma OverlappedStep(fs: seq<Extent>, p: nat, end: int)
    ensures p + 1 < |fs| && fs[p + 1].offset < end && fs[p + 1].offset <= fs[p].End() ==>
            Overlapped(fs, p, end) == Overlapped(Swallowed(fs, p), p, end)
    ensures (p + 1 < |fs| ==> end <= fs[p + 1].offset) ==> Overlapped(fs, p, end) == fs
  {
    hide Swallowed;
  }

  lemma ResultIs(fs: seq<Extent>, offset: int, data: seq<Byte>)
    ensures var end := offset + |data|; var p := PlaceAt(fs, offset, end);
            && (InPlace(fs, offset, end) ==> p < |fs|)
            && AddResult(fs, offset, data) == if InPlace(fs, offset, end) && end <= fs[p].End() then 0 else 1
  {
  }

  lemma PlacedThere(fs: seq<Extent>, offset: int, data: seq<Byte>)
    ensures PlaceAt(fs, offset, offset + |data|) < |Placed(fs, offset, data)|
  {
  }

  lemma StoredIs(fs: seq<Extent>, offset: int, data: seq<Byte>, p: nat, placed: seq<Extent>)
    requires placed == Placed(fs, offset, data) && p == PlaceAt(fs, offset, offset + |data|)
    ensures p < |placed|
    ensures var merged := Overlapped(placed, p, placed[p].End());
            Stored(fs, offset, data) == if Cuts(fs, offset, data) then CutAt(merged, offset + |data|, false) else merged
  {
    hide Placed, PlaceAt, Overlapped, Cuts, CutAt;
    PlacedThere(fs, offset, data);
  }

  // ---- get_cache_fragment

  /** The number of fragments before the first gap. */
  function GapAt(fs: seq<Extent>): (n: nat)
    ensures n <= |fs|
  {
    if |fs| < 2 || fs[0].End() < fs[1].offset then (if fs == [] then 0 else 1) else 1 + GapAt(fs[1..])
  }

  lemma {:induction false} GapIs(fs: seq<Extent>, n: nat)
    requires 0 < n <= |fs| && Gapless(fs[..n]) && (n < |fs| ==> fs[n - 1].End() < fs[n].offset)
    ensures GapAt(fs) == n
  {
    if n > 1 {
      var g := fs[1..][..n - 1];
      assert fs[..n][0] == fs[0] && fs[..n][1] == fs[1];
      forall j | 1 <= j < |g| ensures g[j - 1].End() == g[j].offset {
        assert g[j - 1] == fs[..n][j] && g[j] == fs[..n][j + 1];
      }
      GapIs(fs[1..], n - 1);
    }
  }

  /** The fragments before the first gap become one without spare room. */
  function Defragmented(fs: seq<Extent>): seq<Extent> {
    var n := GapAt(fs);
    if fs == [] || fs[0].offset != 0 || n == 1 then fs else [Extent(0, Joined(fs[..n]), |Joined(fs[..n])|)] + fs[n..]
  }

  lemma DefragmentedIs(fs: seq<Extent>, n: nat)
    requires 0 < n <= |fs| && Gapless(fs[..n]) && (n < |fs| ==> fs[n - 1].End() < fs[n].offset) && fs[0].offset == 0
    ensures Defragmented(fs) == if n == 1 then fs else [Extent(0, Joined(fs[..n]), |Joined(fs[..n])|)] + fs[n..]
    ensures n == 1 ==> Joined(fs[..n]) == fs[0].bytes
  {
    hide Gapless, GapAt, Joined;
    GapIs(fs, n);
    if n == 1 {
      JoinedOne(fs[0]);
      assert fs[..1] == [fs[0]];
    }
  }

  lemma DefragmentedOne(fs: seq<Extent>)
    requires fs == [] || fs[0].offset != 0
    ensures Defragmented(fs) == fs
  {
  }
}
