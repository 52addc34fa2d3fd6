/** The scanners only look at what they pass and at the character they stop at. */
module Scanning {
  import opened Basics
  import opened OptionText
  import opened ConfigText

  /** White space and finished comments: exactly this is skipped before whatever follows. */
  ghost predicate Blank(a: string) {
    forall z :: White(a + z) == |a| + White(z)
  }

  /** No character that continues a name, or a value, comes first. */
  predicate NoName(r: string) { r == [] || !IsNameChar(r[0]) }

  predicate NoValue(r: string) { r == [] || !InValue(r[0]) }

  lemma NameEnds(x: string)
    ensures NoName(x[NameLength(x)..])
  {
  }

  predicate LineEnds(r: string) { r != [] && (r[0] == '\n' || r[0] == '#') }

  lemma {:induction false} ToNewlineStop(x: string, z: string)
    requires ToNewline(x) < |x|
    ensures ToNewline(x[..ToNewline(x) + 1] + z) == ToNewline(x)
  {
    var n := ToNewline(x);
    if x[0] != '\n' {
      assert (x[..n + 1] + z)[1..] == x[1..][..n] + z;
      ToNewlineStop(x[1..], z);
    }
  }

  lemma {:induction false} ToNewlineIsNewline(x: string)
    requires ToNewline(x) < |x|
    ensures x[ToNewline(x)] == '\n'
  {
    if x[0] != '\n' { ToNewlineIsNewline(x[1..]); }
  }

  lemma WhiteSpaceStep(x: string)
    requires x != [] && IsSpace(x[0])
    ensures White(x) == 1 + White(x[1..])
  {
  }

  lemma WhiteCommentStep(x: string)
    requires x != [] && x[0] == '#'
    ensures White(x) == 1 + ToNewline(x[1..]) + White(x[1 + ToNewline(x[1..])..])
  {
  }

  lemma WhiteNone(x: string)
    requires x == [] || Solid(x[0])
    ensures White(x) == 0
  {
  }

  /** The comment that starts `x` is finished, and the white space after it begins with its newline. */
  lemma CommentFinished(x: string)
    requires x != [] && x[0] == '#' && White(x) < |x|
    ensures var k := 1 + ToNewline(x[1..]); k < |x| && x[k] == '\n' && k < White(x) && White(x) == k + White(x[k..])
  {
    hide White, ToNewline;
    var k := 1 + ToNewline(x[1..]);
    WhiteCommentStep(x);
    ToNewlineIsNewline(x[1..]);
    WhiteSpaceStep(x[k..]);
  }

  lemma {:induction false} WhiteStop(x: string, z: string)
    requires White(x) < |x|
    ensures White(x[..White(x)] + z) == White(x) + White(z)
    decreases |x|
  {
    hide White, ToNewline;
    var w := White(x);
    var y := x[..w] + z;
    if IsSpace(x[0]) {
      WhiteSpaceStep(x);
      WhiteStop(x[1..], z);
      assert y[1..] == x[1..][..w - 1] + z;
      WhiteSpaceStep(y);
    } else if x[0] == '#' {
      var k := 1 + ToNewline(x[1..]);
      CommentFinished(x);
      WhiteStop(x[k..], z);
      assert y[k..] == x[k..][..w - k] + z;
      assert y[1..] == x[1..][..k] + (x[k + 1..w] + z);
      ToNewlineStop(x[1..], x[k + 1..w] + z);
      WhiteCommentStep(y);
    } else {
      WhiteNone(x);
      assert y == z;
    }
  }

  /** What skip_white passes before something else is blank. */
  lemma WhiteIsBlank(x: string)
    requires White(x) < |x|
    ensures Blank(x[..White(x)])
  {
    forall z ensures White(x[..White(x)] + z) == |x[..White(x)]| + White(z) { WhiteStop(x, z); }
  }

  /** A text that is all white space and comments, and what comes after it on a new line. */
  lemma {:induction false} WhiteAll(x: string, z: string)
    requires White(x) == |x| && (z == [] || z[0] == '\n')
    ensures White(x + z) == |x| + White(z)
    decreases |x|
  {
    hide White, ToNewline;
    if x == [] {
      assert x + z == z;
    } else if IsSpace(x[0]) {
      WhiteSpaceStep(x);
      assert (x + z)[1..] == x[1..] + z;
      WhiteAll(x[1..], z);
      WhiteSpaceStep(x + z);
    } else {
      if x[0] != '#' { WhiteNone(x); }
      var k := 1 + ToNewline(x[1..]);
      WhiteCommentStep(x);
      WhiteCommentStep(x + z);
      assert (x + z)[1..] == x[1..] + z;
      ToNewlineAll(x[1..], z);
      assert (x + z)[k..] == x[k..] + z;
      WhiteAll(x[k..], z);
    }
  }

  lemma {:induction false} ToNewlineAll(x: string, z: string)
    requires z == [] || z[0] == '\n'
    ensures ToNewline(x + z) == ToNewline(x)
  {
    if x == [] {
      assert x + z == z;
    } else if x[0] != '\n' {
      assert (x + z)[1..] == x[1..] + z;
      ToNewlineAll(x[1..], z);
    }
  }

  lemma SpacesBlank(a: string)
    requires a == "" || a == " " || a == "\n"
    ensures Blank(a)
  {
    hide White;
    forall z ensures White(a + z) == |a| + White(z) {
      if a == "" {
        assert a + z == z;
      } else {
        assert (a + z)[1..] == z;
        WhiteSpaceStep(a + z);
      }
    }
  }

  lemma {:induction false} NameStop(m: string, z: string)
    requires (forall i :: 0 <= i < |m| ==> IsNameChar(m[i])) && NoName(z)
    ensures NameLength(m + z) == |m|
  {
    if m == [] {
      assert m + z == z;
    } else {
      assert (m + z)[1..] == m[1..] + z;
      NameStop(m[1..], z);
    }
  }

  lemma {:induction false} ValueStop(m: string, z: string)
    requires ValueLength(m) == |m| && NoValue(z)
    ensures ValueLength(m + z) == |m|
  {
    if m == [] {
      assert m + z == z;
    } else {
      assert (m + z)[1..] == m[1..] + z;
      ValueStop(m[1..], z);
    }
  }

  lemma {:induction false} ValuePrefix(x: string)
    ensures ValueLength(x[..ValueLength(x)]) == ValueLength(x)
    ensures forall i :: 0 <= i < ValueLength(x) ==> InValue(x[i])
  {
    if ValueLength(x) > 0 {
      var n := ValueLength(x);
      ValuePrefix(x[1..]);
      assert x[..n][1..] == x[1..][..n - 1];
      forall i | 0 < i < n ensures InValue(x[i]) { assert x[i] == x[1..][i - 1]; }
    }
  }

  lemma StrStep(t: string)
    requires t != [] && !IsQuote(t[0])
    ensures StrBody(t) == StrBody(t[StepSize(t)..]).Prepend([StepChar(t)], StepSize(t), StepLines(t))
  {
    StrBodyStep(t);
  }

  /** A string that is closed reads the same whatever follows it. */
  lemma {:induction false} StrBodyStop(x: string, z: string)
    requires StrBody(x).closed
    ensures StrBody(x[..StrBody(x).used] + z) == StrBody(x)
    decreases |x|
  {
    hide StrBody;
    if x == [] || IsQuote(x[0]) {
      StrBodyEnd(x);
      assert x != [];
      StrBodyEnd(x[..1] + z);
    } else {
      var n := StepSize(x);
      StrStep(x);
      StrBodyStop(x[n..], z);
      var u := StrBody(x).used;
      var y := x[..u] + z;
      ClosedUses(x[n..]);
      assert y[n..] == x[n..][..u - n] + z;
      SameStep(x, y);
      StrStep(y);
    }
  }

  lemma ClosedUses(x: string)
    ensures StrBody(x).used <= |x| && (StrBody(x).closed ==> 0 < StrBody(x).used)
  {
  }

  lemma SameStep(x: string, y: string)
    requires x != [] && y != [] && x[0] == y[0]
    requires |x| > 1 && |y| > 1 && x[1] == y[1]
    ensures StepSize(y) == StepSize(x) && StepChar(y) == StepChar(x) && StepLines(y) == StepLines(x)
  {
  }

  lemma LineEndStep(x: string)
    requires x != [] && x[0] != '#' && x[0] != '\n'
    ensures var k := if IsQuote(x[0]) then 1 + StrBody(x[1..]).used else 1;
            ToLineEnd(x) == k + ToLineEnd(x[k..])
            && (QuoteOpen(x) <==> (IsQuote(x[0]) && !StrBody(x[1..]).closed) || QuoteOpen(x[k..]))
  {
    if IsQuote(x[0]) && !StrBody(x[1..]).closed { assert x[1 + StrBody(x[1..]).used..] == ""; }
  }

  /** What follows a line: nothing, or its end. */
  predicate EndsLine(r: string) { r == "" || LineEnds(r) }

  lemma LineEndAt(x: string)
    ensures EndsLine(x[ToLineEnd(x)..])
  {
  }

  /** The rest of a line is skipped alike whatever follows the line end, or the text, unless a quote
      is open. */
  lemma {:induction false} LineEndStop(x: string, z: string)
    requires !QuoteOpen(x) && EndsLine(z)
    ensures ToLineEnd(x[..ToLineEnd(x)] + z) == ToLineEnd(x) && !QuoteOpen(x[..ToLineEnd(x)] + z)
    decreases |x|
  {
    hide StrBody, ToLineEnd, QuoteOpen;
    var n := ToLineEnd(x);
    var y := x[..n] + z;
    if EndsLine(x) {
      LineEndNone(x);
      assert y == z;
      LineEndNone(z);
    } else {
      LineEndStep(x);
      var k := if IsQuote(x[0]) then 1 + StrBody(x[1..]).used else 1;
      LineEndStop(x[k..], z);
      assert y[k..] == x[k..][..n - k] + z;
      if IsQuote(x[0]) {
        StrBodyStop(x[1..], x[k..n] + z);
        assert y[1..] == x[1..][..k - 1] + (x[k..n] + z);
      }
      LineEndStep(y);
    }
  }

  lemma LineEndNone(x: string)
    requires EndsLine(x)
    ensures ToLineEnd(x) == 0 && !QuoteOpen(x)
  {
  }

  lemma LineEndEmpty()
    ensures ToLineEnd([]) == 0
  {
  }

  lemma Unclosed(x: string)
    ensures !StrBody(x).closed ==> StrBody(x).used == |x|
  {
  }

  // ---- after a string has been read

  /** A string that is closed leaves what is behind it alone, and one that is not reaches the end. */
  lemma OverRest(x: string)
    requires x != "" && IsQuote(x[0])
    ensures var n := 1 + StrBody(x[1..]).used;
            && ReadOver(x)[n..] == x[n..] && ReadOver(x)[0] == x[0]
            && StrBody(ReadOver(x)[1..]).used == StrBody(x[1..]).used
            && StrBody(ReadOver(x)[1..]).closed == StrBody(x[1..]).closed
  {
    hide StrBody, Blanked;
    var t := x[1..];
    ContinuationNotKept(t);
    assert ReadOver(x)[1..] == Blanked(t);
    if StrBody(t).closed {
      BlankedPart(t, "");
      var n := 1 + StrBody(t).used;
      assert x[n..] == t[n - 1..] && ReadOver(x)[n..] == Blanked(t)[n - 1..];
    } else {
      Unclosed(t);
    }
  }

  /** Skipping the line or the value afterwards ends at the same place, and nothing behind it has
      changed. */
  lemma SkipOver(x: string)
    ensures ToLineEnd(ReadOver(x)) == ToLineEnd(x) && ReadOver(x)[ToLineEnd(x)..] == x[ToLineEnd(x)..]
    ensures SkipValue(ReadOver(x)) == SkipValue(x) && ReadOver(x)[SkipValue(x)..] == x[SkipValue(x)..]
  {
    hide StrBody, ToLineEnd, QuoteOpen;
    if x != "" && IsQuote(x[0]) {
      hide ReadOver;
      OverRest(x);
      var n := 1 + StrBody(x[1..]).used;
      LineEndStep(x);
      LineEndStep(ReadOver(x));
      TailsAgree(x, ReadOver(x), n, ToLineEnd(x[n..]));
    }
  }

  lemma TailsAgree(x: string, y: string, n: nat, m: nat)
    requires |x| == |y| && n + m <= |x| && x[n..] == y[n..]
    ensures x[n + m..] == y[n + m..]
  {
    assert x[n..][m..] == x[n + m..] && y[n..][m..] == y[n + m..];
  }

  lemma OverRead(x: string)
    requires ReadStr(x, 0).Some?
    ensures ReadOver(x)[ReadStr(x, 0).value.1..] == x[ReadStr(x, 0).value.1..]
  {
    hide StrBody;
    OverRest(x);
  }

  // ---- items behind other text

  lemma AfterSays(i: Item, h: string)
    ensures i.After(h).said == i.said && i.After(h).used == |h| + i.used
  {
  }

  lemma AfterTwice(i: Item, a: string, b: string)
    ensures i.After(b).After(a) == i.After(a + b)
  {
    assert a + (b + i.left) == a + b + i.left;
  }

  // ---- the parts of a set command

  lemma SetItemNone(u: string, kinds: Kinds)
    requires White(u) == |u|
    ensures SetItem(u, kinds) == Plain(Nothing(true), u, |u|)
  {
    hide White, NameLength, NamedItem;
  }

  lemma SetItemParts(u: string, kinds: Kinds, p1: nat, p2: nat, p3: nat)
    requires p1 == White(u) < |u| && p2 == p1 + NameLength(u[p1..]) && p3 == p2 + White(u[p2..])
    ensures SetItem(u, kinds) == NamedItem(u[p1..p2], u[p3..], kinds).After(u[..p3])
  {
    hide White, NameLength, NamedItem, Item.After, Plain;
  }

  lemma NamedItemEquals(name: string, z: string, kinds: Kinds)
    ensures NamedItem(name, "=" + z, kinds) == EqualsItem(name, z, kinds).After("=")
  {
    hide EqualsItem;
    assert ("=" + z)[1..] == z;
  }

  lemma EqualsItemValue(name: string, d: string, x: string, kinds: Kinds)
    requires x != "" && White(d + x) == |d|
    ensures EqualsItem(name, d + x, kinds) == ValueItem(name, x, kinds).After(d)
  {
    hide White, ValueItem;
    assert (d + x)[|d|..] == x && (d + x)[..|d|] == d;
  }
}
