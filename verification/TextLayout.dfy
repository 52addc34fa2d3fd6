/** Splitting text into the lines of a dialog (src/bfu/text.c:40-292), for texts that are not
    UTF-8.  A text stands for a NUL-terminated string. */
module TextLayout {
  import opened OptionText

  predicate IsPunct(c: char) { '!' <= c <= '/' || ':' <= c <= '@' || '[' <= c <= '`' || '{' <= c <= '~' }

  predicate IsUnsplitable(t: string, i: nat) { i < |t| && !IsSpace(t[i]) }

  // ---- one line

  /** The first place after `i` where a line may end. */
  function NextBreak(t: string, i: nat): (j: nat)
    requires i < |t|
    ensures i < j <= |t| && !IsUnsplitable(t, j)
    ensures forall k :: i < k < j ==> IsUnsplitable(t, k)
    decreases |t| - i
  {
    if IsUnsplitable(t, i + 1) then NextBreak(t, i + 1) else i + 1
  }

  /** The last place where a line from the start may end that is not wider than `w`, from a place `i`
      where it may end. */
  function LastFit(t: string, w: nat, i: nat): (n: nat)
    requires i <= |t| && i <= w
    ensures i <= n <= |t| && n <= w
    decreases |t| - i
  {
    if i == |t| || t[i] == '\n' || NextBreak(t, i) > w then i else LastFit(t, w, NextBreak(t, i))
  }

  /** The place after the last punctuation character of the first `n`, but for the very first, or
      else `w`. */
  function AfterPunct(t: string, n: nat, w: nat): (r: nat)
    requires 1 <= n <= w < |t|
    ensures 1 <= r <= w
  {
    if n == 1 then w else if IsPunct(t[n - 1]) then n else AfterPunct(t, n - 1, w)
  }

  /** The length of the first line of a text. */
  function Split(t: string, maxWidth: int): (n: nat)
    ensures n <= |t| && (n > 0 ==> n <= maxWidth)
  {
    if maxWidth <= 0 then 0
    else if t == "" || t[0] == '\n' || NextBreak(t, 0) <= maxWidth then LastFit(t, maxWidth, 0)
    else AfterPunct(t, maxWidth, maxWidth)
  }

  method SplitLine(text: string, maxWidth: int) returns (width: nat, cells: int)
    ensures width == Split(text, maxWidth) && cells == width
  {
    var split := 0;
    var cellsSave := 0;
    cells := 0;
    if maxWidth <= 0 { return 0, 0; }
    assert text != "" && text[0] != '\n' && NextBreak(text, 0) <= maxWidth ==>
      LastFit(text, maxWidth, 0) == LastFit(text, maxWidth, NextBreak(text, 0));
    while split < |text| && text[split] != '\n'
      invariant split <= |text| && split <= maxWidth && cellsSave == split
      invariant split > 0 ==> NextBreak(text, 0) <= maxWidth && text[0] != '\n'
      invariant LastFit(text, maxWidth, 0) == LastFit(text, maxWidth, split)
      decreases |text| - split
    {
      var nextSplit := split + 1;
      while IsUnsplitable(text, nextSplit)
        invariant split < nextSplit <= NextBreak(text, split)
        decreases |text| - nextSplit
      {
        nextSplit := nextSplit + 1;
      }
      assert nextSplit == NextBreak(text, split);
      cells := nextSplit;
      if cells > maxWidth {
        if split == 0 {
          split, cellsSave := maxWidth, maxWidth;
          split := split - 1;
          while split != 0
            invariant 0 <= split < maxWidth && cellsSave == split + 1
            invariant AfterPunct(text, maxWidth, maxWidth) == AfterPunct(text, split + 1, maxWidth)
          {
            cellsSave := cellsSave - 1;
            if IsPunct(text[split]) {
              split, cellsSave := split + 1, cellsSave + 1;
              break;
            }
            split := split - 1;
          }
          if split == 0 { return maxWidth, maxWidth; }
        }
        break;
      }
      cellsSave := cells;
      split := nextSplit;
    }
    cells, width := cellsSave, split;
  }

  /** A line may end before white space and at the end of the text. */
  predicate IsBreak(t: string, i: nat) { i == |t| || (i < |t| && IsSpace(t[i])) }

  predicate OneLine(t: string, n: nat)
    requires n <= |t|
  {
    forall i :: 0 <= i < n ==> t[i] != '\n'
  }

  lemma {:induction false} LastFitWidest(t: string, w: nat, i: nat)
    requires i <= |t| && i <= w && OneLine(t, i)
    ensures var n := LastFit(t, w, i);
            && OneLine(t, n) && (n > i ==> IsBreak(t, n))
            && forall k :: n < k <= |t| && k <= w && OneLine(t, k) ==> !IsBreak(t, k)
    decreases |t| - i
  {
    var n := LastFit(t, w, i);
    if i == |t| {
    } else if t[i] == '\n' {
      assert forall k :: i < k <= |t| ==> !OneLine(t, k) by {
        forall k | i < k <= |t| ensures !OneLine(t, k) { assert t[i] == '\n' && 0 <= i < k; }
      }
    } else {
      var j := NextBreak(t, i);
      assert forall k :: i < k < j ==> !IsBreak(t, k) by {
        forall k | i < k < j ensures !IsBreak(t, k) { assert IsUnsplitable(t, k); }
      }
      if j <= w {
        forall k | 0 <= k < j ensures t[k] != '\n' { if k > i { assert IsUnsplitable(t, k); } }
        LastFitWidest(t, w, j);
      }
    }
  }

  lemma {:induction false} AfterPunctLast(t: string, n: nat, w: nat)
    requires 1 <= n <= w < |t|
    ensures var r := AfterPunct(t, n, w);
            if exists k :: 1 <= k < n && IsPunct(t[k]) then
              1 < r <= n && IsPunct(t[r - 1]) && forall k :: r <= k < n ==> !IsPunct(t[k])
            else r == w
  {
    if n > 1 && !IsPunct(t[n - 1]) { AfterPunctLast(t, n - 1, w); }
  }

  /** What the length of the first line means, for a positive width: the line has no line end in it;
      it is the longest one that ends at a break and is not too wide; and if the first word alone is
      too wide, the line ends after the last punctuation character that fits, not counting the first
      character, or is as wide as it may be. */
  lemma SplitWidest(t: string, w: nat)
    requires w > 0
    ensures var n := Split(t, w);
      && n <= w && OneLine(t, n)
      && (n == 0 <==> t == "" || t[0] == '\n')
      && if forall k :: 0 < k <= w && k <= |t| && OneLine(t, k) ==> !IsBreak(t, k) then
           n > 0 ==>
             (w < |t| && OneLine(t, w)
              && if exists k :: 1 <= k < w && IsPunct(t[k]) then
                   1 < n && IsPunct(t[n - 1]) && forall k :: n <= k < w ==> !IsPunct(t[k])
                 else n == w)
         else IsBreak(t, n) && forall k :: n < k <= w && k <= |t| && OneLine(t, k) ==> !IsBreak(t, k)
  {
    hide LastFit, AfterPunct, IsSpace, IsPunct;
    LastFitWidest(t, w, 0);
    if t == "" || t[0] == '\n' {
      LastFitStops(t, w);
      assert t != "" ==> forall k :: 0 < k <= |t| ==> !OneLine(t, k);
    } else {
      var j := NextBreak(t, 0);
      forall k | 0 <= k < j ensures t[k] != '\n' { if k > 0 { assert IsUnsplitable(t, k); NotNewline(t, k); } }
      assert IsBreak(t, j);
      if j > w {
        AfterPunctLast(t, w, w);
        forall k | 0 < k <= w ensures !IsBreak(t, k) { assert IsUnsplitable(t, k); }
      } else {
        assert OneLine(t, j);
        LastFitMoves(t, w);
      }
    }
  }

  lemma SplitPlain(t: string, w: nat)
    requires w > 0
    ensures Split(t, w) <= w && (Split(t, w) == 0 <==> t == "" || t[0] == '\n')
    ensures forall i :: 0 <= i < Split(t, w) ==> t[i] != '\n'
  {
    hide Split, IsBreak;
    SplitWidest(t, w);
  }

  lemma NotNewline(t: string, k: nat)
    requires IsUnsplitable(t, k)
    ensures t[k] != '\n'
  {
  }

  lemma LastFitStops(t: string, w: nat)
    requires t == "" || t[0] == '\n'
    ensures LastFit(t, w, 0) == 0
  {
  }

  lemma LastFitMoves(t: string, w: nat)
    requires t != "" && t[0] != '\n' && NextBreak(t, 0) <= w
    ensures LastFit(t, w, 0) > 0
  {
  }

  // ---- all lines

  datatype Line = Line(start: nat, width: nat)

  function AtLeastOne(n: nat): nat { if n < 1 then 1 else n }

  /** The lines from position `i` on; one white-space character is skipped before each, but not before
      the first one if `first` is set. */
  function Lines(t: string, i: nat, first: bool, w: int): seq<Line>
    requires i <= |t|
    decreases |t| - i
  {
    if i == |t| then []
    else
      var start := if !first && IsSpace(t[i]) then i + 1 else i;
      if start == |t| then []
      else
        var width := AtLeastOne(Split(t[start..], w));
        [Line(start, width)] + Lines(t, start + width, false, w)
  }

  /** The text of the lines, and what is between them, make up the text: between two lines, before
      the first and after the last there is at most one character, a white-space one. */
  ghost predicate Covers(t: string, i: nat, ls: seq<Line>)
    decreases |ls|
  {
    if ls == [] then i <= |t| && Dropped(t, i, |t|)
    else
      && i <= ls[0].start && ls[0].start + ls[0].width <= |t| && ls[0].width > 0 && Dropped(t, i, ls[0].start)
      && Covers(t, ls[0].start + ls[0].width, ls[1..])
  }

  predicate Dropped(t: string, a: nat, b: nat)
    requires a <= b <= |t|
  {
    a == b || (a + 1 == b && IsSpace(t[a]))
  }

  lemma {:induction false} LinesCover(t: string, i: nat, first: bool, w: int)
    requires i <= |t|
    ensures Covers(t, i, Lines(t, i, first, w))
    decreases |t| - i
  {
    hide Split, IsSpace, Lines;
    NoLines(t, i, first, w);
    var start := if i < |t| && !first && IsSpace(t[i]) then i + 1 else i;
    if start < |t| {
      LinesStep(t, i, first, w, start);
      var width := AtLeastOne(Split(t[start..], w));
      var rest := Lines(t, start + width, false, w);
      LinesCover(t, start + width, false, w);
      assert Lines(t, i, first, w)[1..] == rest;
    }
  }

  /** No line is wider than it may be, and a line that contains a line end is just that. */
  lemma {:induction false} LinesFit(t: string, i: nat, first: bool, w: nat, k: nat)
    requires i <= |t| && w > 0 && k < |Lines(t, i, first, w)|
    ensures var l := Lines(t, i, first, w)[k];
      && l.start < l.start + l.width <= |t| && l.width <= w
      && if t[l.start] == '\n' then l.width == 1 && Split(t[l.start..], w) == 0
         else l.width == Split(t[l.start..], w) && forall j :: l.start <= j < l.start + l.width ==> t[j] != '\n'
    decreases |t| - i
  {
    hide Split, IsSpace;
    var start := if !first && IsSpace(t[i]) then i + 1 else i;
    var rest := t[start..];
    var width := AtLeastOne(Split(rest, w));
    if k == 0 {
      SplitPlain(rest, w);
      assert forall j :: start <= j < |t| ==> t[j] == rest[j - start];
    } else {
      assert Lines(t, i, first, w)[k] == Lines(t, start + width, false, w)[k - 1];
      LinesFit(t, start + width, false, w, k - 1);
    }
  }

  /** Scrolling: the lines from the k-th one on are the lines of the text that starts there. */
  lemma {:induction false} ScrolledLines(t: string, i: nat, first: bool, w: int, k: nat)
    requires i <= |t| && k < |Lines(t, i, first, w)|
    ensures var ls := Lines(t, i, first, w); ls[k].start <= |t| && Lines(t, ls[k].start, true, w) == ls[k..]
    decreases |t| - i
  {
    hide Split, IsSpace, Lines;
    NoLines(t, i, first, w);
    var start := if !first && IsSpace(t[i]) then i + 1 else i;
    LinesStep(t, i, first, w, start);
    var width := AtLeastOne(Split(t[start..], w));
    var ls := Lines(t, i, first, w);
    if k == 0 {
      LinesStep(t, start, true, w, start);
    } else {
      assert ls[1..] == Lines(t, start + width, false, w);
      ScrolledLines(t, start + width, false, w, k - 1);
      assert ls[k..] == ls[1..][k - 1..] && ls[k] == ls[1..][k - 1];
    }
  }

  // ---- the end of a window

  predicate NoLineEnd(t: string, a: nat, b: nat)
    requires a <= b <= |t|
  {
    forall i :: a <= i < b ==> t[i] != '\n'
  }

  lemma {:induction false} NextBreakOfCut(t: string, n: nat, i: nat)
    requires i < n <= |t|
    ensures NextBreak(t[..n], i) == if NextBreak(t, i) <= n then NextBreak(t, i) else n
    decreases n - i
  {
    assert IsUnsplitable(t[..n], i + 1) <==> IsUnsplitable(t, i + 1) && i + 1 < n;
    if i + 1 < n && IsUnsplitable(t, i + 1) { NextBreakOfCut(t, n, i + 1); }
  }

  lemma {:induction false} LastFitOfCut(t: string, w: nat, n: nat, i: nat)
    requires i <= n <= |t| && i <= w && OneLine(t, i)
    ensures LastFit(t[..n], w, i) == if n <= w && OneLine(t, n) then n else LastFit(t, w, i)
    decreases n - i
  {
    if i < n && t[i] != '\n' {
      NextBreakOfCut(t, n, i);
      var j := NextBreak(t[..n], i);
      forall k | 0 <= k < j ensures t[k] != '\n' { if k > i { assert IsUnsplitable(t, k); } }
      if j <= w { LastFitOfCut(t, w, n, j); }
    }
  }

  lemma {:induction false} AfterPunctOfCut(t: string, w: nat, n: nat, k: nat)
    requires 1 <= k <= w < n <= |t|
    ensures AfterPunct(t[..n], k, w) == AfterPunct(t, k, w)
    decreases k
  {
    if k > 1 && !IsPunct(t[k - 1]) { AfterPunctOfCut(t, w, n, k - 1); }
  }

  /** Cutting a text does not change its first line, unless all that is left fits into one line. */
  lemma SplitOfCut(t: string, w: nat, n: nat)
    requires w > 0 && 0 < n <= |t|
    ensures Split(t[..n], w) == if n <= w && OneLine(t, n) then n else Split(t, w)
  {
    if t[0] != '\n' {
      NextBreakOfCut(t, n, 0);
      var j := NextBreak(t, 0);
      if NextBreak(t[..n], 0) <= w {
        LastFitOfCut(t, w, n, 0);
        if j > n { forall k | 0 <= k < n ensures t[k] != '\n' { if k > 0 { assert IsUnsplitable(t, k); } } }
      } else {
        AfterPunctOfCut(t, w, n, w);
      }
    }
  }

  /** The text from a line on, cut at `e`, fits into one line. */
  predicate FitsBefore(t: string, l: Line, e: nat, w: nat)
    requires l.start <= e <= |t|
  {
    e - l.start <= w && NoLineEnd(t, l.start, e)
  }

  lemma {:induction false} LinesAfter(t: string, i: nat, first: bool, w: int, k: nat)
    requires i <= |t| && k < |Lines(t, i, first, w)|
    ensures var l := Lines(t, i, first, w)[k];
            i <= l.start < |t| && l.width == AtLeastOne(Split(t[l.start..], w)) && l.start + l.width <= |t|
    decreases |t| - i
  {
    hide Split, IsSpace, Lines;
    NoLines(t, i, first, w);
    var start := if !first && IsSpace(t[i]) then i + 1 else i;
    LinesStep(t, i, first, w, start);
    if k > 0 { LinesAfter(t, start + AtLeastOne(Split(t[start..], w)), false, w, k - 1); }
  }

  /** Lines start one after the other, behind at most one white-space character. */
  lemma {:induction false} NextLine(t: string, i: nat, first: bool, w: int, k: nat)
    requires i <= |t| && k + 1 < |Lines(t, i, first, w)|
    ensures var (l, next) := (Lines(t, i, first, w)[k], Lines(t, i, first, w)[k + 1]);
            var p := l.start + l.width;
            p < |t| && next.start == if IsSpace(t[p]) then p + 1 else p
    decreases |t| - i
  {
    hide Split, IsSpace, Lines;
    NoLines(t, i, first, w);
    var start := if !first && IsSpace(t[i]) then i + 1 else i;
    LinesStep(t, i, first, w, start);
    var end := start + AtLeastOne(Split(t[start..], w));
    var rest := Lines(t, end, false, w);
    if k > 0 {
      NextLine(t, end, false, w, k - 1);
    } else {
      NoLines(t, end, false, w);
      LinesStep(t, end, false, w, if IsSpace(t[end]) then end + 1 else end);
    }
  }

  lemma LinesStep(t: string, i: nat, first: bool, w: int, start: nat)
    requires i < |t| && start == (if !first && IsSpace(t[i]) then i + 1 else i) && start < |t|
    ensures var width := AtLeastOne(Split(t[start..], w));
            Lines(t, i, first, w) == [Line(start, width)] + Lines(t, start + width, false, w)
  {
    hide Split, IsSpace;
  }

  lemma NoLines(t: string, i: nat, first: bool, w: int)
    requires i <= |t|
    ensures Lines(t, i, first, w) == [] <==> i == |t| || (!first && IsSpace(t[i]) && i + 1 == |t|)
  {
    hide Split, IsSpace;
  }

  /** The width of a line of a cut text. */
  lemma CutWidth(t: string, start: nat, e: nat, w: nat)
    requires w > 0 && start < e <= |t|
    ensures Split(t[..e][start..], w) == if FitsBefore(t, Line(start, 1), e, w) then e - start else Split(t[start..], w)
  {
    hide Split;
    var s := t[start..];
    assert t[..e][start..] == s[..e - start];
    SplitOfCut(s, w, e - start);
    assert forall i :: start <= i < e ==> t[i] == s[i - start];
    assert OneLine(s, e - start) <==> NoLineEnd(t, start, e) by {
      if OneLine(s, e - start) { forall i | start <= i < e ensures t[i] != '\n' { assert s[i - start] == t[i]; } }
    }
  }

  /** A text that is cut at or behind the end of line `k`, with at most a white-space character more,
      has the same lines up to there, but if one of them fits before the cut with all the rest, it
      is the last. */
  lemma {:induction false} CutLines(t: string, i: nat, first: bool, w: nat, k: nat, e: nat)
    requires i <= |t| && w > 0 && k < |Lines(t, i, first, w)|
    requires var l := Lines(t, i, first, w)[k]; var p := l.start + l.width;
             i <= e && p <= e <= |t| && (e == p || (e == p + 1 && IsSpace(t[p])))
    ensures var ls := Lines(t, i, first, w); var l := ls[k]; var r := Lines(t[..e], i, first, w);
      if k > 0 && ls[k - 1].start <= e && FitsBefore(t, ls[k - 1], e, w) then |r| <= k
      else l.start <= e && r == ls[..k] + [Line(l.start, if FitsBefore(t, l, e, w) then e - l.start else l.width)]
    decreases |t| - i
  {
    hide Split, IsSpace, Lines, FitsBefore;
    NoLines(t, i, first, w);
    LinesAfter(t, i, first, w, k);
    var ls, cut := Lines(t, i, first, w), t[..e];
    var start := if !first && IsSpace(t[i]) then i + 1 else i;
    LinesStep(t, i, first, w, start);
    var width := AtLeastOne(Split(t[start..], w));
    var rest := Lines(t, start + width, false, w);
    assert ls[0] == Line(start, width) && ls[1..] == rest;
    if k > 0 { LinesAfter(t, start + width, false, w, k - 1); }
    CutWidth(t, start, e, w);
    LinesStep(cut, i, first, w, start);
    var cutWidth := AtLeastOne(Split(cut[start..], w));
    SameFit(t, ls[0], Line(start, 1), e, w);
    if FitsBefore(t, ls[0], e, w) {
      CutEnds(cut, start + cutWidth, w);
      if k > 0 {
        LaterFits(t, i, first, w, k, e);
      } else {
        assert ls[..0] + [Line(start, cutWidth)] == [Line(start, cutWidth)];
      }
    } else {
      assert cutWidth == width;
      if k == 0 {
        CutEnds(cut, start + width, w);
        assert ls[..0] + [ls[0]] == [ls[0]];
      } else {
        CutLines(t, start + width, false, w, k - 1, e);
        assert ls[k] == rest[k - 1] && ls[..k] == [ls[0]] + rest[..k - 1];
        if k > 1 { assert ls[k - 1] == rest[k - 2]; }
      }
    }
  }

  lemma SameFit(t: string, l: Line, m: Line, e: nat, w: nat)
    requires l.start == m.start <= e <= |t|
    ensures FitsBefore(t, l, e, w) <==> FitsBefore(t, m, e, w)
  {
  }

  lemma CutEnds(t: string, i: nat, w: nat)
    requires i == |t| || (i + 1 == |t| && IsSpace(t[i]))
    ensures Lines(t, i, false, w) == []
  {
  }

  /** If the first line fits before the cut with all the rest, so do all later ones. */
  lemma LaterFits(t: string, i: nat, first: bool, w: nat, k: nat, e: nat)
    requires i <= |t| && w > 0 && 0 < k < |Lines(t, i, first, w)|
    requires var ls := Lines(t, i, first, w); ls[k].start + ls[k].width <= e <= |t|
    requires var ls := Lines(t, i, first, w); ls[0].start <= e && FitsBefore(t, ls[0], e, w)
    ensures var ls := Lines(t, i, first, w); ls[k - 1].start <= e && FitsBefore(t, ls[k - 1], e, w)
  {
    hide Split, IsSpace, Lines;
    InOrder(t, i, first, w, k - 1);
    NextLine(t, i, first, w, k - 1);
    LinesAfter(t, i, first, w, k - 1);
  }

  lemma {:induction false} InOrder(t: string, i: nat, first: bool, w: int, k: nat)
    requires i <= |t| && k < |Lines(t, i, first, w)|
    ensures Lines(t, i, first, w)[0].start <= Lines(t, i, first, w)[k].start
    decreases k
  {
    hide Split, IsSpace, Lines;
    if k > 0 {
      InOrder(t, i, first, w, k - 1);
      NextLine(t, i, first, w, k - 1);
    }
  }

  /** Where the text is cut for a window whose next line would be `next`: there, or before a line end
      in front of it (src/bfu/text.c:331-345). */
  function CutAt(t: string, next: Line): nat
    requires 0 < next.start <= |t|
  {
    if t[next.start - 1] == '\n' then next.start - 1 else next.start
  }

  /** The last line of a window: a space that it was cut behind belongs to it if it still fits. */
  function LastShown(t: string, l: Line, w: nat): Line
    requires l.start < |t|
  {
    var p := l.start + l.width;
    if p < |t| && IsSpace(t[p]) && t[p] != '\n' && l.width < w && t[l.start] != '\n' then
      Line(l.start, l.width + 1)
    else l
  }

  /** A window of the lines up to the k-th ends inside of a word or with an empty line, and either
      that line is empty, or what is left of the word fits into the line before. */
  predicate Disturbed(t: string, ls: seq<Line>, k: nat, w: nat)
    requires k < |ls| && ls[k].start < |t| && ls[k].start + ls[k].width <= |t|
    requires k > 0 ==> ls[k - 1].start <= ls[k].start
  {
    var p := ls[k].start + ls[k].width;
    && !IsBreak(t, p)
    && (t[ls[k].start] == '\n' || (k > 0 && NoLineEnd(t, ls[k - 1].start, ls[k].start) && p - ls[k - 1].start <= w))
  }

  /** A line ends at the last break that fits: if the text up to a break behind it has no line end,
      that is too wide. */
  lemma BreakBlocks(t: string, l: Line, w: nat, p: nat)
    requires w > 0 && l.start < |t| && l.width == AtLeastOne(Split(t[l.start..], w))
    requires l.start + l.width < p <= |t| && IsBreak(t, p) && NoLineEnd(t, l.start, p)
    ensures p - l.start > w
  {
    hide Split, IsSpace;
    var s, n := t[l.start..], p - l.start;
    assert forall i :: 0 <= i < |s| ==> s[i] == t[l.start + i];
    assert IsBreak(s, n) && OneLine(s, n);
    SplitWidest(s, w);
  }

  /** Exactly when a window shows its lines: from the start of a line, cut so that the k-th line is the
      last one, the text has just the lines up to there, that one with at most a white-space
      character more, unless the window is disturbed. */
  lemma WindowExactly(t: string, i: nat, w: nat, k: nat)
    requires i <= |t| && w > 0 && k + 1 < |Lines(t, i, true, w)|
    ensures var ls := Lines(t, i, true, w);
      && 0 < ls[k + 1].start <= |t| && ls[k].start < |t| && ls[k].start + ls[k].width <= |t|
      && (k > 0 ==> ls[k - 1].start <= ls[k].start) && i <= CutAt(t, ls[k + 1]) <= |t|
      && (Lines(t[..CutAt(t, ls[k + 1])], i, true, w) == ls[..k] + [LastShown(t, ls[k], w)]
          <==> !Disturbed(t, ls, k, w))
  {
    hide Split, IsSpace, Lines, FitsBefore, Disturbed, LastShown, CutAt;
    var ls := Lines(t, i, true, w);
    NextLine(t, i, true, w, k);
    LinesAfter(t, i, true, w, k);
    LinesAfter(t, i, true, w, k + 1);
    LinesFit(t, i, true, w, k);
    if k > 0 {
      NextLine(t, i, true, w, k - 1);
      LinesAfter(t, i, true, w, k - 1);
    }
    var l, p, e := ls[k], ls[k].start + ls[k].width, CutAt(t, ls[k + 1]);
    if IsSpace(t[p]) {
      WindowAtBreak(t, i, w, k);
    } else if t[l.start] == '\n' {
      WindowAtEmpty(t, i, w, k);
    } else {
      WindowInWord(t, i, w, k);
    }
  }

  lemma WindowAtBreak(t: string, i: nat, w: nat, k: nat)
    requires i <= |t| && w > 0 && k + 1 < |Lines(t, i, true, w)|
    requires var ls := Lines(t, i, true, w);
      && 0 < ls[k + 1].start <= |t| && i <= ls[k].start < |t| && ls[k].start + ls[k].width < |t|
      && (k > 0 ==> ls[k - 1].start <= ls[k].start) && IsSpace(t[ls[k].start + ls[k].width])
    ensures var ls := Lines(t, i, true, w);
      && i <= CutAt(t, ls[k + 1]) <= |t| && !Disturbed(t, ls, k, w)
      && Lines(t[..CutAt(t, ls[k + 1])], i, true, w) == ls[..k] + [LastShown(t, ls[k], w)]
  {
    hide Split, IsSpace, Lines;
    var ls := Lines(t, i, true, w);
    var l, p := ls[k], ls[k].start + ls[k].width;
    NextLine(t, i, true, w, k);
    LinesFit(t, i, true, w, k);
    var e := CutAt(t, ls[k + 1]);
    CutLines(t, i, true, w, k, e);
    if k > 0 && ls[k - 1].start <= e && FitsBefore(t, ls[k - 1], e, w) {
      NextLine(t, i, true, w, k - 1);
      LinesAfter(t, i, true, w, k - 1);
      BreakBlocks(t, ls[k - 1], w, p);
      assert false;
    }
  }

  lemma WindowAtEmpty(t: string, i: nat, w: nat, k: nat)
    requires i <= |t| && w > 0 && k + 1 < |Lines(t, i, true, w)|
    requires var ls := Lines(t, i, true, w);
      && 0 < ls[k + 1].start <= |t| && i <= ls[k].start < |t| && ls[k].start + ls[k].width < |t|
      && (k > 0 ==> ls[k - 1].start <= ls[k].start) && !IsSpace(t[ls[k].start + ls[k].width]) && t[ls[k].start] == '\n'
    ensures var ls := Lines(t, i, true, w);
      && i <= CutAt(t, ls[k + 1]) <= |t| && Disturbed(t, ls, k, w)
      && |Lines(t[..CutAt(t, ls[k + 1])], i, true, w)| <= k
  {
    hide Split, IsSpace, Lines, FitsBefore;
    var ls := Lines(t, i, true, w);
    NextLine(t, i, true, w, k);
    LinesFit(t, i, true, w, k);
    var e := CutAt(t, ls[k + 1]);
    assert e == ls[k].start;
    if k == 0 {
      NoLines(t, i, true, w);
      LinesStep(t, i, true, w, i);
      NoLines(t[..e], i, true, w);
    } else {
      NextLine(t, i, true, w, k - 1);
      CutLines(t, i, true, w, k - 1, e);
    }
  }

  lemma WindowInWord(t: string, i: nat, w: nat, k: nat)
    requires i <= |t| && w > 0 && k + 1 < |Lines(t, i, true, w)|
    requires var ls := Lines(t, i, true, w);
      && 0 < ls[k + 1].start <= |t| && i <= ls[k].start < |t| && ls[k].start + ls[k].width < |t|
      && (k > 0 ==> ls[k - 1].start <= ls[k].start) && !IsSpace(t[ls[k].start + ls[k].width]) && t[ls[k].start] != '\n'
    ensures var ls := Lines(t, i, true, w);
      && i <= CutAt(t, ls[k + 1]) <= |t|
      && (Lines(t[..CutAt(t, ls[k + 1])], i, true, w) == ls[..k] + [LastShown(t, ls[k], w)]
          <==> !Disturbed(t, ls, k, w))
  {
    hide Split, IsSpace, Lines;
    var ls := Lines(t, i, true, w);
    var l, p := ls[k], ls[k].start + ls[k].width;
    NextLine(t, i, true, w, k);
    LinesFit(t, i, true, w, k);
    LinesAfter(t, i, true, w, k);
    var e := CutAt(t, ls[k + 1]);
    assert e == p;
    CutLines(t, i, true, w, k, e);
    if k > 0 {
      NextLine(t, i, true, w, k - 1);
      assert NoLineEnd(t, ls[k - 1].start, p) <==> NoLineEnd(t, ls[k - 1].start, l.start);
    }
  }

  /** The windows of a text that has been split into lines: from line `j` to line `k`. */
  lemma WindowShows(t: string, w: nat, j: nat, k: nat)
    requires w > 0 && j <= k && k + 1 < |Lines(t, 0, false, w)|
    ensures var ls := Lines(t, 0, false, w);
      && 0 < ls[k + 1].start <= |t| && ls[k].start < |t| && ls[k].start + ls[k].width <= |t|
      && ls[j].start <= CutAt(t, ls[k + 1]) <= |t| && (k > j ==> ls[j..][k - j - 1].start <= ls[j..][k - j].start)
      && (Lines(t[..CutAt(t, ls[k + 1])], ls[j].start, true, w) == ls[j..k] + [LastShown(t, ls[k], w)]
          <==> !Disturbed(t, ls[j..], k - j, w))
  {
    hide Split, IsSpace, Lines, Disturbed, LastShown, CutAt;
    var ls := Lines(t, 0, false, w);
    ScrolledLines(t, 0, false, w, j);
    assert ls[j..][k - j] == ls[k] && ls[j..][k - j + 1] == ls[k + 1] && ls[j..][..k - j] == ls[j..k];
    WindowExactly(t, ls[j].start, w, k - j);
  }

  /** A window that ends inside of a word shows another line: what is left of the word fits into the
      line before. */
  lemma CutWordMoves()
    ensures var t := "a b,cdefg"; var ls := Lines(t, 0, true, 5);
            |ls| > 2 && ls[0] == Line(0, 1) && ls[1] == Line(2, 2) && ls[2].start == 4 && Disturbed(t, ls, 1, 5)
  {
    var t := "a b,cdefg";
    var s, r := t[2..], t[4..];
    WordBreaks(t, 1, 9);
    WordBreaks(s, 0, 7);
    WordBreaks(r, 0, 5);
    hide NextBreak, Lines;
    assert NextBreak(t, 0) == 1 by { WordBreaks(t, 0, 1); }
    assert t[0..] == t;
    assert Split(t, 5) == 1 by { assert LastFit(t, 5, 0) == LastFit(t, 5, 1) == 1; }
    assert Split(s, 5) == 2 by {
      assert s[4] == 'e' && s[3] == 'd' && s[2] == 'c' && s[1] == ',';
      assert AfterPunct(s, 5, 5) == AfterPunct(s, 4, 5) == AfterPunct(s, 3, 5) == AfterPunct(s, 2, 5) == 2;
    }
    hide Split;
    LinesStep(t, 0, true, 5, 0);
    LinesStep(t, 1, false, 5, 2);
    LinesStep(t, 4, false, 5, 4);
  }

  lemma WordBreaks(t: string, i: nat, j: nat)
    requires i < j <= |t| && !IsUnsplitable(t, j) && forall k :: i < k < j ==> IsUnsplitable(t, k)
    ensures NextBreak(t, i) == j
  {
  }

  /** A window that ends with an empty line directly in front of text loses that line. */
  lemma EmptyLineLost()
    ensures var t := "\n\nb"; var ls := Lines(t, 0, false, 2);
            |ls| == 2 && ls[0] == Line(1, 1) && ls[1] == Line(2, 1) && CutAt(t, ls[1]) == 1 && Disturbed(t, ls, 0, 2)
  {
    var t := "\n\nb";
    assert t[1..][0] == '\n' && t[2..] == "b";
    assert Split("b", 2) == 1 by {
      assert NextBreak("b", 0) == 1;
      assert LastFit("b", 2, 0) == LastFit("b", 2, 1) == 1;
    }
    hide Split, Lines;
    assert Split(t[1..], 2) == 0 by { SplitPlain(t[1..], 2); }
    LinesStep(t, 0, false, 2, 1);
    LinesStep(t, 2, false, 2, 2);
    NoLines(t, 3, false, 2);
  }

  // ---- the loops

  function Starts(ls: seq<Line>): (r: seq<nat>)
    ensures |r| == |ls| && forall k :: 0 <= k < |ls| ==> r[k] == ls[k].start
  {
    if ls == [] then [] else [ls[0].start] + Starts(ls[1..])
  }

  function Widest(ls: seq<Line>): nat {
    if ls == [] then 0 else if ls[0].width > Widest(ls[1..]) then ls[0].width else Widest(ls[1..])
  }

  datatype Align = Left | Center | Right

  /** A call to draw `len` characters from `start` on. */
  datatype Drawn = Drawn(shift: int, y: int, start: nat, len: nat)

  function Shift(align: Align, width: int, cells: int): int {
    match align
    case Center => (width - cells) / 2
    case Right => width - cells
    case Left => 0
  }

  /** A line stands at the left or right margin, or with as much room on both sides, or one cell more on
      the right. */
  lemma ShiftAligns(align: Align, width: int, cells: int)
    requires 0 <= cells <= width
    ensures var left, right := Shift(align, width, cells), width - cells - Shift(align, width, cells);
            && 0 <= left && 0 <= right
            && match align
               case Center => left <= right <= left + 1
               case Right => right == 0
               case Left => left == 0
  {
  }

  /** The lines that are drawn, from row `y` on; a line that is just a line end takes a row but is not
      drawn. */
  function Draws(t: string, ls: seq<Line>, y: int, width: int, align: Align): seq<Drawn>
    requires forall k :: 0 <= k < |ls| ==> ls[k].start <= |t|
  {
    if ls == [] then []
    else
      (if Split(t[ls[0].start..], width) < 1 then []
       else [Drawn(Shift(align, width, ls[0].width), y, ls[0].start, ls[0].width)])
      + Draws(t, ls[1..], y + 1, width, align)
  }

  lemma AllAfter(t: string, i: nat, first: bool, w: int)
    requires i <= |t|
    ensures forall k :: 0 <= k < |Lines(t, i, first, w)| ==> Lines(t, i, first, w)[k].start <= |t|
  {
    forall k | 0 <= k < |Lines(t, i, first, w)| ensures Lines(t, i, first, w)[k].start <= |t| {
      LinesAfter(t, i, first, w, k);
    }
  }

  /** dlg_format_text_do. */
  method FormatText(text: string, y0: int, width: int, align: Align) returns (y: int, drawn: seq<Drawn>)
    ensures y == y0 + |Lines(text, 0, true, width)|
    ensures drawn == LinesDrawn(text, y0, width, align)
  {
    hide Lines, Draws, Split, IsSpace, Shift;
    y, drawn := y0, [];
    var pos, firstline := 0, true;
    ghost var all := LinesDrawn(text, y0, width, align);
    while pos < |text|
      invariant pos <= |text|
      invariant y + |Lines(text, pos, firstline, width)| == y0 + |Lines(text, 0, true, width)|
      invariant all == drawn + DrawnFrom(text, pos, firstline, y, width, align)
      decreases |text| - pos
    {
      NoLines(text, pos, firstline, width);
      DrawnNone(text, pos, firstline, y, width, align);
      ghost var start := if !firstline && IsSpace(text[pos]) then pos + 1 else pos;
      if start < |text| {
        LinesStep(text, pos, firstline, width, start);
        DrawnStep(text, pos, firstline, y, width, align, start);
      }
      if !firstline && IsSpace(text[pos]) { pos := pos + 1; } else { firstline := false; }
      if pos == |text| { break; }
      var lineWidth, cells := SplitLine(text[pos..], width);
      if lineWidth < 1 {
        lineWidth := 1;
      } else {
        var shift := Shift(align, width, cells);
        ShiftFits(align, width, cells);
        assert cells <= width && shift < width;
        drawn := drawn + [Drawn(shift, y, pos, lineWidth)];
      }
      pos, y := pos + lineWidth, y + 1;
      firstline := false;
    }
    NoLines(text, pos, firstline, width);
    DrawnNone(text, pos, firstline, y, width, align);
  }

  lemma ShiftFits(align: Align, width: int, cells: int)
    requires 1 <= cells <= width
    ensures 0 <= Shift(align, width, cells) < width
  {
  }

  function DrawnFrom(t: string, i: nat, first: bool, y: int, w: int, align: Align): seq<Drawn>
    requires i <= |t|
  {
    AllAfter(t, i, first, w);
    Draws(t, Lines(t, i, first, w), y, w, align)
  }

  function LinesDrawn(t: string, y: int, w: int, align: Align): seq<Drawn> { DrawnFrom(t, 0, true, y, w, align) }

  lemma DrawnNone(t: string, i: nat, first: bool, y: int, w: int, align: Align)
    requires i <= |t|
    ensures Lines(t, i, first, w) == [] ==> DrawnFrom(t, i, first, y, w, align) == []
  {
    hide Lines;
  }

  lemma DrawnStep(t: string, i: nat, first: bool, y: int, w: int, align: Align, start: nat)
    requires i < |t| && start == (if !first && IsSpace(t[i]) then i + 1 else i) && start < |t|
    ensures var n := Split(t[start..], w);
            DrawnFrom(t, i, first, y, w, align)
            == (if n < 1 then [] else [Drawn(Shift(align, w, n), y, start, n)])
               + DrawnFrom(t, start + AtLeastOne(n), false, y + 1, w, align)
  {
    hide Split, IsSpace, Lines, Shift;
    LinesStep(t, i, first, w, start);
    AllAfter(t, i, first, w);
    var ls := Lines(t, i, first, w);
    assert ls[1..] == Lines(t, start + AtLeastOne(Split(t[start..], w)), false, w);
  }

  // ---- drawing from a line on

  predicate LinesIn(ls: seq<Line>, s: nat, n: nat) { forall k :: 0 <= k < |ls| ==> s <= ls[k].start <= n }

  predicate DrawnAfter(ds: seq<Drawn>, s: nat) { forall k :: 0 <= k < |ds| ==> s <= ds[k].start }

  /** Lines and drawing of a text that starts at `s` in another one. */
  function LinesBack(ls: seq<Line>, s: nat, n: nat): (r: seq<Line>)
    requires LinesIn(ls, s, n)
    ensures |r| == |ls| && forall k :: 0 <= k < |ls| ==> r[k] == Line(ls[k].start - s, ls[k].width)
  {
    if ls == [] then [] else [Line(ls[0].start - s, ls[0].width)] + LinesBack(ls[1..], s, n)
  }

  function DrawsBack(ds: seq<Drawn>, s: nat): (r: seq<Drawn>)
    requires DrawnAfter(ds, s)
    ensures |r| == |ds|
    ensures forall k :: 0 <= k < |ds| ==> r[k] == Drawn(ds[k].shift, ds[k].y, ds[k].start - s, ds[k].len)
  {
    if ds == [] then [] else [Drawn(ds[0].shift, ds[0].y, ds[0].start - s, ds[0].len)] + DrawsBack(ds[1..], s)
  }

  lemma AllFrom(t: string, i: nat, first: bool, w: int)
    requires i <= |t|
    ensures LinesIn(Lines(t, i, first, w), i, |t|)
  {
    hide Lines;
    var ls := Lines(t, i, first, w);
    forall k | 0 <= k < |ls| ensures i <= ls[k].start <= |t| { LinesAfter(t, i, first, w, k); }
  }

  lemma BackStep(l: Line, ls: seq<Line>, s: nat, n: nat)
    requires s <= l.start <= n && LinesIn(ls, s, n)
    ensures LinesIn([l] + ls, s, n)
    ensures LinesBack([l] + ls, s, n) == [Line(l.start - s, l.width)] + LinesBack(ls, s, n)
  {
    assert ([l] + ls)[1..] == ls;
  }

  /** The lines of a part of a text up to its end are those of the text. */
  lemma {:induction false} LinesShift(t: string, s: nat, i: nat, first: bool, w: int)
    requires s + i <= |t|
    ensures LinesIn(Lines(t, s + i, first, w), s, |t|)
    ensures Lines(t[s..], i, first, w) == LinesBack(Lines(t, s + i, first, w), s, |t|)
    decreases |t| - i
  {
    hide Split, IsSpace, Lines, LinesBack;
    AllFrom(t, s + i, first, w);
    var u := t[s..];
    NoLines(u, i, first, w);
    NoLines(t, s + i, first, w);
    if Lines(u, i, first, w) != [] {
      var start := if !first && IsSpace(u[i]) then i + 1 else i;
      LinesStep(u, i, first, w, start);
      LinesStep(t, s + i, first, w, s + start);
      assert u[start..] == t[s + start..];
      var width := AtLeastOne(Split(u[start..], w));
      LinesAfter(u, i, first, w, 0);
      LinesShift(t, s, start + width, false, w);
      BackStep(Line(s + start, width), Lines(t, s + start + width, false, w), s, |t|);
    }
  }

  /** One line of what is drawn. */
  function DrawOne(t: string, l: Line, y: int, w: int, align: Align): (r: seq<Drawn>)
    requires l.start <= |t|
    ensures DrawnAfter(r, l.start)
  {
    if Split(t[l.start..], w) < 1 then [] else [Drawn(Shift(align, w, l.width), y, l.start, l.width)]
  }

  lemma DrawsStep(t: string, ls: seq<Line>, y: int, w: int, align: Align)
    requires ls != [] && LinesIn(ls, 0, |t|)
    ensures Draws(t, ls, y, w, align) == DrawOne(t, ls[0], y, w, align) + Draws(t, ls[1..], y + 1, w, align)
  {
    hide Split, Shift;
  }

  lemma DrawsNone(t: string, y: int, w: int, align: Align)
    ensures Draws(t, [], y, w, align) == []
  {
  }

  lemma DrawsBackConcat(a: seq<Drawn>, b: seq<Drawn>, s: nat)
    requires DrawnAfter(a, s) && DrawnAfter(b, s)
    ensures DrawnAfter(a + b, s) && DrawsBack(a + b, s) == DrawsBack(a, s) + DrawsBack(b, s)
  {
    hide DrawsBack;
  }

  lemma {:induction false} DrawsShift(t: string, ls: seq<Line>, y: int, w: int, align: Align, s: nat)
    requires s <= |t| && LinesIn(ls, s, |t|)
    ensures DrawnAfter(Draws(t, ls, y, w, align), s)
    ensures Draws(t[s..], LinesBack(ls, s, |t|), y, w, align) == DrawsBack(Draws(t, ls, y, w, align), s)
  {
    hide Draws, DrawOne, DrawsBack, LinesBack;
    var back := LinesBack(ls, s, |t|);
    if ls == [] {
      DrawsNone(t, y, w, align);
      DrawsNone(t[s..], y, w, align);
    } else {
      DrawsShift(t, ls[1..], y + 1, w, align, s);
      DrawsStep(t, ls, y, w, align);
      DrawsStep(t[s..], back, y, w, align);
      assert back[1..] == LinesBack(ls[1..], s, |t|);
      OneShift(t, ls[0], y, w, align, s);
      DrawsBackConcat(DrawOne(t, ls[0], y, w, align), Draws(t, ls[1..], y + 1, w, align), s);
    }
  }

  lemma OneShift(t: string, l: Line, y: int, w: int, align: Align, s: nat)
    requires s <= l.start <= |t|
    ensures DrawnAfter(DrawOne(t, l, y, w, align), s)
    ensures DrawOne(t[s..], Line(l.start - s, l.width), y, w, align) == DrawsBack(DrawOne(t, l, y, w, align), s)
  {
    hide Split, Shift;
    assert t[s..][l.start - s..] == t[l.start..];
  }

  /** Formatting the text from the start of line `j` draws line `j` and the later ones, each where it
      is in the text, on the rows from `y` on. */
  lemma ScrolledDraws(t: string, w: int, j: nat, y: int, align: Align)
    requires j < |Lines(t, 0, false, w)|
    ensures var ls := Lines(t, 0, false, w);
      && ls[j].start <= |t| && LinesIn(ls[j..], 0, |t|) && |Lines(t[ls[j].start..], 0, true, w)| == |ls| - j
      && DrawnAfter(Draws(t, ls[j..], y, w, align), ls[j].start)
      && LinesDrawn(t[ls[j].start..], y, w, align) == DrawsBack(Draws(t, ls[j..], y, w, align), ls[j].start)
  {
    hide Split, IsSpace, Lines, Draws;
    var ls := Lines(t, 0, false, w);
    ScrolledLines(t, 0, false, w, j);
    var s := ls[j].start;
    AllFrom(t, s, true, w);
    LinesShift(t, s, 0, true, w);
    DrawsShift(t, ls[j..], y, w, align, s);
  }

  /** What is drawn of lines does not depend on what is behind them. */
  lemma {:induction false} DrawsOfCut(t: string, e: nat, ls: seq<Line>, y: int, w: nat, align: Align)
    requires w > 0 && e <= |t| && LinesIn(ls, 0, e) && forall k :: 0 <= k < |ls| ==> ls[k].start < e
    ensures LinesIn(ls, 0, |t|) && Draws(t[..e], ls, y, w, align) == Draws(t, ls, y, w, align)
  {
    hide Split, Shift;
    if ls != [] {
      DrawsOfCut(t, e, ls[1..], y + 1, w, align);
      SplitPlain(t[..e][ls[0].start..], w);
      SplitPlain(t[ls[0].start..], w);
    }
  }

  predicate Undisturbed(t: string, w: nat, j: nat, k: nat)
    requires w > 0 && j <= k && k + 1 < |Lines(t, 0, false, w)|
  {
    WindowShows(t, w, j, k);
    !Disturbed(t, Lines(t, 0, false, w)[j..], k - j, w)
  }

  /** A window that is not disturbed: formatting the text from the start of line `j`, cut so that line
      `k` is the last one, draws the lines from `j` to `k`. */
  lemma WindowDraws(t: string, w: nat, j: nat, k: nat, y: int, align: Align)
    requires w > 0 && j <= k && k + 1 < |Lines(t, 0, false, w)| && Undisturbed(t, w, j, k)
    ensures var ls := Lines(t, 0, false, w);
      && 0 < ls[k + 1].start <= |t| && ls[k].start < |t| && ls[j].start <= CutAt(t, ls[k + 1]) <= |t|
      && var (s, e, shown) := (ls[j].start, CutAt(t, ls[k + 1]), ls[j..k] + [LastShown(t, ls[k], w)]);
      && LinesIn(shown, 0, |t|) && DrawnAfter(Draws(t, shown, y, w, align), s)
      && LinesDrawn(t[s..e], y, w, align) == DrawsBack(Draws(t, shown, y, w, align), s)
  {
    hide Split, IsSpace, Lines, Draws, Disturbed, LastShown, CutAt;
    WindowShows(t, w, j, k);
    var ls := Lines(t, 0, false, w);
    var s, e, shown := ls[j].start, CutAt(t, ls[k + 1]), ls[j..k] + [LastShown(t, ls[k], w)];
    var cut := t[..e];
    AllFrom(cut, s, true, w);
    forall n | 0 <= n < |shown| ensures shown[n].start < e { LinesAfter(cut, s, true, w, n); }
    LinesShift(cut, s, 0, true, w);
    DrawsShift(cut, shown, y, w, align, s);
    DrawsOfCut(t, e, shown, y, w, align);
    assert cut[s..] == t[s..e];
  }

  class TextWidget {
    const text: string
    /** The starts of the lines, for the width they were split for. */
    var lines: seq<nat>
    var maxWidth: int
    var boxWidth: int

    ghost predicate Valid()
      reads this
    {
      maxWidth != 0 ==> lines == Starts(Lines(text, 0, false, maxWidth))
    }

    constructor (text: string)
      ensures Valid() && this.text == text
    {
      this.text, lines, maxWidth, boxWidth := text, [], 0, 0;
    }

    /** split_lines. */
    method SplitLines(newWidth: int)
      requires Valid()
      modifies this
      ensures Valid() && maxWidth == newWidth
      ensures newWidth != 0 || old(maxWidth) != 0 ==> lines == Starts(Lines(text, 0, false, newWidth))
      ensures boxWidth == if old(maxWidth) == newWidth then old(boxWidth) else Widest(Lines(text, 0, false, newWidth))
    {
      if maxWidth == newWidth { return; }
      lines, boxWidth := FindLines(text, newWidth);
      maxWidth := newWidth;
    }
  }

  /** The loop of split_lines. */
  method FindLines(text: string, maxWidth: int) returns (lines: seq<nat>, widest: int)
    ensures lines == Starts(Lines(text, 0, false, maxWidth)) && widest == Widest(Lines(text, 0, false, maxWidth))
  {
    hide Progress, IsSpace, Split, Lines, Starts, Widest;
    lines, widest := [], 0;
    var pos := 0;
    ProgressFirst(text, maxWidth);
    while pos < |text|
      invariant pos <= |text| && Progress(text, maxWidth, pos, lines, widest)
      decreases |text| - pos
    {
      ProgressStep(text, maxWidth, pos, lines, widest);
      if IsSpace(text[pos]) { pos := pos + 1; }
      if pos == |text| { break; }
      var width, cells := SplitLine(text[pos..], maxWidth);
      if width < 1 { width := 1; }
      if cells < 1 { cells := 1; }
      if widest < cells { widest := cells; }
      lines := lines + [pos];
      pos := pos + width;
    }
    ProgressLast(text, maxWidth, lines, widest);
  }

  /** The lines found so far and the largest width, with what is still to come, are those of the
      text. */
  ghost predicate Progress(t: string, w: int, i: nat, found: seq<nat>, widest: int)
    requires i <= |t|
  {
    && widest >= 0 && StartsFrom(t, 0, w) == found + StartsFrom(t, i, w)
    && WidestFrom(t, 0, w) == Larger(widest, WidestFrom(t, i, w))
  }

  lemma ProgressFirst(t: string, w: int)
    ensures Progress(t, w, 0, [], 0)
  {
    hide StartsFrom, WidestFrom;
  }

  lemma ProgressStep(t: string, w: int, i: nat, found: seq<nat>, widest: int)
    requires i < |t| && Progress(t, w, i, found, widest)
    ensures var start := if IsSpace(t[i]) then i + 1 else i;
            if start == |t| then Progress(t, w, start, found, widest)
            else
              var width := AtLeastOne(Split(t[start..], w));
              Progress(t, w, start + width, found + [start], if widest < width then width else widest)
  {
    hide StartsFrom, WidestFrom, IsSpace, Split;
    StartsStep(t, i, w);
    var start := if IsSpace(t[i]) then i + 1 else i;
    if start < |t| {
      OneMore(found, start, StartsFrom(t, start + AtLeastOne(Split(t[start..], w)), w));
    }
  }

  lemma ProgressLast(t: string, w: int, found: seq<nat>, widest: int)
    requires Progress(t, w, |t|, found, widest)
    ensures found == Starts(Lines(t, 0, false, w)) && widest == Widest(Lines(t, 0, false, w))
  {
    NoStarts(t, w);
    assert found + [] == found;
  }

  function StartsFrom(t: string, i: nat, w: int): seq<nat>
    requires i <= |t|
  {
    Starts(Lines(t, i, false, w))
  }

  function WidestFrom(t: string, i: nat, w: int): nat
    requires i <= |t|
  {
    Widest(Lines(t, i, false, w))
  }

  lemma StartsStep(t: string, i: nat, w: int)
    requires i < |t|
    ensures var start := if IsSpace(t[i]) then i + 1 else i;
            if start == |t| then
              && StartsFrom(t, i, w) == [] == StartsFrom(t, start, w)
              && WidestFrom(t, i, w) == 0 == WidestFrom(t, start, w)
            else
              var width := AtLeastOne(Split(t[start..], w));
              StartsFrom(t, i, w) == [start] + StartsFrom(t, start + width, w)
              && WidestFrom(t, i, w) == Larger(width, WidestFrom(t, start + width, w))
  {
    hide Split, IsSpace, Lines;
    var start := if IsSpace(t[i]) then i + 1 else i;
    NoLines(t, i, false, w);
    NoLines(t, |t|, false, w);
    if start < |t| {
      LinesStep(t, i, false, w, start);
      var rest := Lines(t, start + AtLeastOne(Split(t[start..], w)), false, w);
      assert Lines(t, i, false, w)[1..] == rest;
    }
  }

  lemma OneMore(found: seq<nat>, pos: nat, rest: seq<nat>)
    ensures found + ([pos] + rest) == found + [pos] + rest
  {
  }

  lemma NoStarts(t: string, w: int)
    ensures StartsFrom(t, |t|, w) == [] && WidestFrom(t, |t|, w) == 0
  {
  }

  function Larger(a: int, b: int): int { if a > b then a else b }
}
