/** Wrapping the description of an option into the lines of a comment (src/config/conf.c:896-937). */
module Descriptions {
  import opened Basics

  predicate IsBreak(c: char) { c == ' ' || c == '\n' }

  /** Where the first line of a text ends, looked for from `i` on, with the last space before that. */
  function Scan(s: string, w: int, i: nat, last: Option<nat>): (r: Option<nat>)
    requires i <= |s| && (last.Some? ==> last.value < i && s[last.value] == ' ')
    ensures r.Some? ==> r.value < |s| && IsBreak(s[r.value])
    decreases |s| - i
  {
    if i == |s| then None
    else if s[i] == '\n' then Some(i)
    else
      var space := if s[i] == ' ' then Some(i) else last;
      if i >= w && space.Some? then space else Scan(s, w, i + 1, space)
  }

  function Wrapped(s: string, w: int): seq<string>
    decreases |s|
  {
    if s == "" then []
    else match Scan(s, w, 0, None)
      case None => [s]
      case Some(k) => [s[..k]] + Wrapped(s[k + 1..], w)
  }

  function Emitted(lines: seq<string>, indent: string): string {
    if lines == [] then "" else indent + lines[0] + "\n" + Emitted(lines[1..], indent)
  }

  predicate Has(s: string, a: int, b: int, c: char)
    requires 0 <= a && b <= |s|
  {
    exists i :: a <= i < b && s[i] == c
  }

  /** What `last` is while the end of a line is looked for. */
  predicate Scanning(s: string, w: int, i: nat, last: Option<nat>) {
    && i <= |s| && !Has(s, 0, i, '\n')
    && (last == None ==> !Has(s, 0, i, ' '))
    && (last.Some? ==> last.value < i <= w && s[last.value] == ' ' && !Has(s, last.value + 1, i, ' '))
  }

  /** A line ends at the first line end, or at the last space that is not too far, or if there is none
      at the first one; and it does not end before the text does if the text fits or has no break. */
  lemma {:induction false} ScanFinds(s: string, w: int, i: nat, last: Option<nat>)
    requires Scanning(s, w, i, last)
    ensures match Scan(s, w, i, last)
      case None => !Has(s, 0, |s|, '\n') && (|s| <= w || !Has(s, 0, |s|, ' '))
      case Some(k) =>
        && k < |s| && IsBreak(s[k]) && !Has(s, 0, k, '\n') && (k <= w || !Has(s, 0, k, ' '))
        && (s[k] == ' ' ==> w < |s| && (k < w ==> !Has(s, k + 1, w + 1, ' ') && !Has(s, k + 1, w + 1, '\n')))
    decreases |s| - i
  {
    if i < |s| && s[i] != '\n' {
      var space := if s[i] == ' ' then Some(i) else last;
      if !(i >= w && space.Some?) { ScanFinds(s, w, i + 1, space); }
    }
  }

  /** Every line is no longer than `w`, or has no space in it; and no line has a line end in it. */
  lemma {:induction false} WrappedFits(s: string, w: int, k: nat)
    requires k < |Wrapped(s, w)|
    ensures var l := Wrapped(s, w)[k]; !Has(l, 0, |l|, '\n') && (|l| <= w || !Has(l, 0, |l|, ' '))
    decreases |s|
  {
    hide Scan, Has;
    HasNone(s);
    ScanFinds(s, w, 0, None);
    match Scan(s, w, 0, None) {
      case None =>
      case Some(n) =>
        if k == 0 { HasPrefix(s, n); } else { WrappedFits(s[n + 1..], w, k - 1); }
    }
  }

  lemma HasNone(s: string)
    ensures forall c :: !Has(s, 0, 0, c)
  {
  }

  lemma HasPrefix(s: string, n: nat)
    requires n <= |s|
    ensures forall c :: Has(s[..n], 0, n, c) <==> Has(s, 0, n, c)
  {
    assert forall i :: 0 <= i < n ==> s[..n][i] == s[i];
  }

  /** The text is the lines, each followed by a line end instead of a space or line end of the text;
      behind the last line there need not be one in the text. */
  ghost predicate SameText(s: string, body: string) {
    && |s| <= |body| <= |s| + 1
    && (|body| == |s| + 1 ==> body[|s|] == '\n')
    && forall i :: 0 <= i < |s| ==> body[i] == s[i] || (IsBreak(s[i]) && body[i] == '\n')
  }

  /** Nothing is lost: without the indentation, the output is the text with some spaces turned into
      line ends, and one line end more if the text does not end in a break that was used. */
  lemma {:induction false} WrappedKeeps(s: string, w: int)
    ensures SameText(s, Emitted(Wrapped(s, w), ""))
    decreases |s|
  {
    hide Scan;
    if s != "" {
      match Scan(s, w, 0, None) {
        case None =>
          assert [s][1..] == [];
          assert Emitted([s], "") == s + "\n";
        case Some(k) =>
          var rest := s[k + 1..];
          WrappedKeeps(rest, w);
          var body := Emitted(Wrapped(rest, w), "");
          assert Wrapped(s, w)[1..] == Wrapped(rest, w);
          var all := s[..k] + "\n" + body;
          assert Emitted(Wrapped(s, w), "") == all;
          forall i | 0 <= i < |s| ensures all[i] == s[i] || (IsBreak(s[i]) && all[i] == '\n') {
            if i > k { assert all[i] == body[i - k - 1] && s[i] == rest[i - k - 1]; }
          }
      }
    }
  }

  lemma {:induction false} EmittedConcat(a: seq<string>, b: seq<string>, indent: string)
    ensures Emitted(a + b, indent) == Emitted(a, indent) + Emitted(b, indent)
  {
    if a == [] {
      assert a + b == b;
    } else {
      assert (a + b)[0] == a[0] && (a + b)[1..] == a[1..] + b;
      EmittedConcat(a[1..], b, indent);
    }
  }

  lemma EmittedOne(line: string, indent: string)
    ensures Emitted([line], indent) == indent + line + "\n"
  {
    assert [line][1..] == [];
  }

  method WrapOptionDesc(out0: string, src: string, indent: string, maxwidth: int) returns (out: string)
    ensures out == out0 + Emitted(Wrapped(src, maxwidth), indent)
  {
    hide Emitted, Progress, Wrapped;
    out := out0;
    var lastSpace: Option<nat> := None;
    var uncopied: nat, pos: nat, width := 0, 0, 0;
    ghost var done: seq<string> := [];
    ProgressFirst(src, maxwidth);
    assert Emitted([], indent) == "" by { NoLines(indent); }
    while pos < |src|
      invariant uncopied <= pos <= |src| && width == pos - uncopied
      invariant lastSpace.Some? ==> uncopied <= lastSpace.value < pos
      invariant Progress(src, maxwidth, done, uncopied, pos, lastSpace)
      invariant out == out0 + Emitted(done, indent)
    {
      ghost var before := lastSpace;
      var split;
      if src[pos] == '\n' {
        lastSpace := Some(pos);
        split := true;
      } else {
        if src[pos] == ' ' { lastSpace := Some(pos); }
        split := width >= maxwidth && lastSpace.Some?;
        ProgressOn(src, maxwidth, done, uncopied, pos, before);
      }
      if split {
        ProgressSplit(src, maxwidth, done, uncopied, pos, before, lastSpace.value);
        OneMore(out0, done, src[uncopied..lastSpace.value], indent);
        done := done + [src[uncopied..lastSpace.value]];
        out := out + indent;
        out := out + src[uncopied..lastSpace.value];
        out := out + "\n";
        uncopied := lastSpace.value + 1;
        width := pos - uncopied;
        lastSpace := None;
      }
      pos, width := pos + 1, width + 1;
    }
    ProgressLast(src, maxwidth, done, uncopied, lastSpace);
    if uncopied < |src| {
      OneMore(out0, done, src[uncopied..], indent);
      out := out + indent;
      out := out + src[uncopied..];
      out := out + "\n";
    } else {
      assert done + [] == done;
    }
  }

  lemma NoLines(indent: string)
    ensures Emitted([], indent) == ""
  {
  }

  lemma OneMore(out: string, done: seq<string>, line: string, indent: string)
    ensures out + Emitted(done + [line], indent) == out + Emitted(done, indent) + indent + line + "\n"
  {
    hide Emitted;
    EmittedConcat(done, [line], indent);
    EmittedOne(line, indent);
  }

  /** A place in the whole text as one in the text that has not been copied. */
  function Relative(x: Option<nat>, start: nat): Option<nat>
    requires x.Some? ==> start <= x.value
  {
    if x.Some? then Some(x.value - start) else None
  }

  lemma {:induction false} ScanSkips(s: string, w: int, i: nat, n: nat)
    requires i <= n <= |s| && forall j :: i <= j < n ==> !IsBreak(s[j])
    ensures Scan(s, w, i, None) == Scan(s, w, n, None)
    decreases n - i
  {
    if i < n { ScanSkips(s, w, i + 1, n); }
  }

  /** What is known while the lines are found: the lines that are done and the rest make up all. */
  ghost predicate Progress(src: string, w: int, done: seq<string>, uncopied: nat, pos: nat, last: Option<nat>) {
    && uncopied <= pos <= |src| && (last.Some? ==> uncopied <= last.value < pos && src[last.value] == ' ')
    && Wrapped(src, w) == done + Wrapped(src[uncopied..], w)
    && Scanning(src[uncopied..], w, pos - uncopied, Relative(last, uncopied))
    && Scan(src[uncopied..], w, 0, None) == Scan(src[uncopied..], w, pos - uncopied, Relative(last, uncopied))
  }

  lemma ProgressFirst(src: string, w: int)
    ensures Progress(src, w, [], 0, 0, None)
  {
    assert src[0..] == src && [] + Wrapped(src, w) == Wrapped(src, w);
  }

  lemma ProgressOn(src: string, w: int, done: seq<string>, uncopied: nat, pos: nat, last: Option<nat>)
    requires Progress(src, w, done, uncopied, pos, last) && pos < |src| && src[pos] != '\n'
    ensures var space := if src[pos] == ' ' then Some(pos) else last;
            !(pos - uncopied >= w && space.Some?) ==> Progress(src, w, done, uncopied, pos + 1, space)
  {
    hide Wrapped;
    var s := src[uncopied..];
    assert s[pos - uncopied] == src[pos];
  }

  predicate SplitsAt(src: string, w: int, uncopied: nat, pos: nat, last: Option<nat>, k: nat)
    requires uncopied <= pos < |src|
  {
    if src[pos] == '\n' then k == pos
    else Some(k) == (if src[pos] == ' ' then Some(pos) else last) && pos - uncopied >= w
  }

  lemma SplitFound(src: string, w: int, done: seq<string>, uncopied: nat, pos: nat, last: Option<nat>, k: nat)
    requires Progress(src, w, done, uncopied, pos, last) && pos < |src| && SplitsAt(src, w, uncopied, pos, last, k)
    ensures uncopied <= k <= pos && Scan(src[uncopied..], w, 0, None) == Some(k - uncopied)
    ensures forall j :: k < j <= pos ==> !IsBreak(src[j])
  {
    hide Wrapped;
    var s, n := src[uncopied..], pos - uncopied;
    assert forall j :: uncopied <= j < |src| ==> src[j] == s[j - uncopied];
    ScanHere(s, w, n, Relative(last, uncopied));
    if last.Some? && k == last.value && k < pos {
      forall j | k < j <= pos ensures !IsBreak(src[j]) {
        if j < pos { assert s[j - uncopied] == src[j]; }
      }
    }
  }

  lemma ProgressSplit(src: string, w: int, done: seq<string>, uncopied: nat, pos: nat, last: Option<nat>, k: nat)
    requires Progress(src, w, done, uncopied, pos, last) && pos < |src| && SplitsAt(src, w, uncopied, pos, last, k)
    ensures uncopied <= k <= pos && Progress(src, w, done + [src[uncopied..k]], k + 1, pos + 1, None)
  {
    hide Scan, SplitsAt, Wrapped;
    SplitFound(src, w, done, uncopied, pos, last, k);
    LineDone(src, w, done, uncopied, k);
    NoBreaks(src, k, pos);
    ScanSkips(src[k + 1..], w, 0, pos - k);
  }

  /** The lines that are done, with one more. */
  lemma LineDone(src: string, w: int, done: seq<string>, uncopied: nat, k: nat)
    requires uncopied <= k < |src| && Wrapped(src, w) == done + Wrapped(src[uncopied..], w)
    requires Scan(src[uncopied..], w, 0, None) == Some(k - uncopied)
    ensures Wrapped(src, w) == done + [src[uncopied..k]] + Wrapped(src[k + 1..], w)
  {
    hide Scan, Wrapped;
    var s, rest := src[uncopied..], src[k + 1..];
    WrappedStep(s, w, k - uncopied);
    assert s[k - uncopied + 1..] == rest && s[..k - uncopied] == src[uncopied..k];
    assert done + ([src[uncopied..k]] + Wrapped(rest, w)) == done + [src[uncopied..k]] + Wrapped(rest, w);
  }

  lemma NoBreaks(src: string, k: nat, pos: nat)
    requires k <= pos < |src| && forall j :: k < j <= pos ==> !IsBreak(src[j])
    ensures var rest := src[k + 1..];
            (forall j :: 0 <= j < pos - k ==> !IsBreak(rest[j])) && !Has(rest, 0, pos - k, '\n')
              && !Has(rest, 0, pos - k, ' ')
  {
    var rest := src[k + 1..];
    forall j | 0 <= j < pos - k ensures !IsBreak(rest[j]) { assert rest[j] == src[k + 1 + j]; }
  }

  lemma WrappedStep(s: string, w: int, k: nat)
    requires s != "" && Scan(s, w, 0, None) == Some(k)
    ensures k < |s| && Wrapped(s, w) == [s[..k]] + Wrapped(s[k + 1..], w)
  {
    hide Scan;
  }

  lemma ScanHere(s: string, w: int, i: nat, last: Option<nat>)
    requires i < |s| && (last.Some? ==> last.value < i && s[last.value] == ' ')
    ensures s[i] == '\n' ==> Scan(s, w, i, last) == Some(i)
    ensures var space := if s[i] == ' ' then Some(i) else last;
            s[i] != '\n' && i >= w && space.Some? ==> Scan(s, w, i, last) == space
  {
  }

  lemma ProgressLast(src: string, w: int, done: seq<string>, uncopied: nat, last: Option<nat>)
    requires Progress(src, w, done, uncopied, |src|, last)
    ensures Wrapped(src, w) == done + if uncopied < |src| then [src[uncopied..]] else []
  {
  }
}
