/** When the lines that saving appends are read at all: exactly if the old text, as it is rewritten and
    with the comments in front of the first line, does not end in a command that only the end of the
    text ended. */
module OpenEnds {
  import opened Basics
  import opened OptionText
  import opened ConfigSave
  import opened ConfigText
  import opened Scanning
  import opened CommandShapes
  import opened CopiedCommands
  import opened ConfigRoundTrip

  /** A command of the text starts at `p`. */
  predicate CommandAt(t: string, p: nat, kinds: Kinds)
    decreases |t|
  {
    var w := White(t);
    w < |t| &&
    var i := CommandItem(t[w..], kinds);
    p == w || (w + i.used <= p && CommandAt(t[w..][i.used..], p - w - i.used, kinds))
  }

  /** Some command is ended by the end of the text only; it is the last one. */
  predicate OpenEnd(t: string, kinds: Kinds)
    decreases |t|
  {
    var w := White(t);
    w < |t| &&
    var i := CommandItem(t[w..], kinds);
    i.said == Nothing(true) || OpenEnd(t[w..][i.used..], kinds)
  }

  predicate NoQuotesBefore(t: string, k: nat)
    requires k <= |t|
  {
    forall i :: 0 <= i < k ==> !IsQuote(t[i])
  }

  /** Lines as they are appended: on a new line, with comments, and commands. */
  predicate IsTail(tail: string) {
    var w := White(tail);
    tail != "" && tail[0] == '\n' && w < |tail| && IsAlnum(tail[w])
  }

  /** Lines without a quote before the first command. */
  predicate QuietTail(tail: string) { IsTail(tail) && NoQuotesBefore(tail, White(tail)) }

  // ---- what runs on

  lemma TailParts(tail: string)
    requires QuietTail(tail)
    ensures var x := tail[White(tail)..];
            && 0 < White(tail) && SolidText(x) && IsNameChar(x[0]) && InValue(x[0]) && !IsQuote(x[0]) && x[0] != '='
            && IsSpace(tail[0]) && NoName(tail) && NoValue(tail) && EndsLine(tail)
  {
    hide White;
    WhiteSpaceStep(tail);
  }

  lemma WhiteOn(u: string, tail: string)
    requires QuietTail(tail)
    ensures White(u) == |u| ==> White(u + tail) == |u| + White(tail)
    ensures White(u) < |u| ==> White(u + tail) == White(u)
  {
    hide White;
    var w := White(u);
    if w == |u| {
      WhiteAll(u, tail);
    } else {
      WhiteStop(u, u[w..] + tail);
      WhiteNone(u[w..] + tail);
      assert u[..w] + (u[w..] + tail) == u + tail;
    }
  }

  /** A text with more lines behind it, from a place on. */
  lemma SliceOn(u: string, tail: string, p: nat)
    requires p <= |u| + |tail|
    ensures (u + tail)[p..] == if p < |u| then u[p..] + tail else tail[p - |u|..]
  {
  }

  lemma {:induction false} NoQuoteUses(s: string, k: nat)
    requires k < |s| && NoQuotesBefore(s, k)
    ensures StrBody(s).used > k
    decreases |s|
  {
    hide StrBody;
    if IsQuote(s[0]) {
      StrBodyEnd(s);
    } else {
      StrBodyStep(s);
      var n := StepSize(s);
      if n <= k {
        NoQuoteUses(s[n..], k - n);
      }
    }
  }

  lemma {:induction false} StringOn(t: string, tail: string)
    requires !StrBody(t).closed && QuietTail(tail)
    ensures StrBody(t + tail).used > |t| + White(tail)
    decreases |t|
  {
    hide StrBody, White;
    var s, w := t + tail, White(tail);
    if t == "" {
      assert s == tail;
      NoQuoteUses(tail, w);
    } else {
      if IsQuote(t[0]) { StrBodyEnd(t); }
      StrBodyStep(s);
      if t == "\\" {
        TailParts(tail);
        assert s[2..] == tail[1..];
        NoQuoteUses(tail[1..], w - 1);
      } else {
        var n := StepSize(t);
        StrBodyStep(t);
        assert s[n..] == t[n..] + tail && s[0] == t[0] && (|t| > 1 ==> s[1] == t[1]);
        StringOn(t[n..], tail);
      }
    }
  }

  lemma {:induction false} LineOn(x: string, tail: string)
    requires QuoteOpen(x) && QuietTail(tail)
    ensures ToLineEnd(x + tail) > |x| + White(tail)
    decreases |x|
  {
    hide StrBody, White, ToLineEnd, QuoteOpen;
    if EndsLine(x) { LineEndNone(x); }
    var y := x + tail;
    LineEndStep(x);
    LineEndStep(y);
    assert y[1..] == x[1..] + tail && y[0] == x[0];
    if IsQuote(x[0]) {
      var b := StrBody(x[1..]);
      if b.closed {
        var k := 1 + b.used;
        StrBodyStop(x[1..], x[k..] + tail);
        assert x[1..][..b.used] + (x[k..] + tail) == x[1..] + tail;
        assert y[k..] == x[k..] + tail;
        LineOn(x[k..], tail);
      } else {
        StringOn(x[1..], tail);
      }
    } else {
      LineOn(x[1..], tail);
    }
  }

  /** Where a string is missing because it is not closed, or something is wrong with an open quote
      behind it, the line and the string run on. */
  lemma TornOn(x: string, tail: string)
    requires ReadStr(x, 0) == None && QuoteOpen(x) && QuietTail(tail)
    ensures ToLineEnd(x + tail) > |x| + White(tail)
    ensures ReadStr(x + tail, 0).Some? ==> ReadStr(x + tail, 0).value.1 > |x| + White(tail)
  {
    hide StrBody, White, ToLineEnd, QuoteOpen, QuietTail;
    OpenIsSome(x);
    LineOn(x, tail);
    var y := x + tail;
    assert y[0] == x[0] && y[1..] == x[1..] + tail;
    if IsQuote(x[0]) { StringOn(x[1..], tail); }
  }

  lemma OpenIsSome(x: string)
    requires QuoteOpen(x)
    ensures x != ""
  {
    hide StrBody;
  }

  /** A line that starts where the appended commands do is not empty. */
  lemma FirstLine(tail: string)
    requires QuietTail(tail)
    ensures var x := tail[White(tail)..]; ReadStr(x, 0) == None && 0 < ToLineEnd(x)
  {
    hide White, ToLineEnd;
    TailParts(tail);
    LineEndPositive(tail[White(tail)..]);
  }

  // ---- open commands with a name

  lemma ValueOn(name: string, x: string, kinds: Kinds, tail: string)
    requires x != "" && ValueItem(name, x, kinds).said == Nothing(true) && QuietTail(tail)
    ensures ValueItem(name, x + tail, kinds).used > |x| + White(tail)
  {
    hide StrBody, White, ReadNum, ReadOver;
    var y := x + tail;
    assert y[0] == x[0] && y[1..] == x[1..] + tail;
    StringOn(x[1..], tail);
    if name in kinds && kinds[name].Num? { QuoteIsNoNumber(y, kinds[name].min, kinds[name].max); }
  }

  lemma FirstValue(name: string, kinds: Kinds, tail: string)
    requires QuietTail(tail)
    ensures ValueItem(name, tail[White(tail)..], kinds).used > 0
  {
    hide StrBody, White, ReadNum, ReadOver, ReadStr;
    TailParts(tail);
    FirstLine(tail);
    var x := tail[White(tail)..];
    if name in kinds {
      match kinds[name]
      case Num(min, max) => if ReadNum(x, min, max).Some? { NumberChars(x, min, max); }
      case Str(limit) => NoString(x, limit);
    }
  }

  lemma NoString(x: string, limit: nat)
    requires x == "" || !IsQuote(x[0])
    ensures ReadStr(x, limit) == None
  {
  }

  lemma EqualsIs(name: string, z: string, kinds: Kinds)
    ensures White(z) == |z| ==> EqualsItem(name, z, kinds).said == Nothing(true)
    ensures White(z) < |z| ==>
      var i := ValueItem(name, z[White(z)..], kinds);
      EqualsItem(name, z, kinds).said == i.said && EqualsItem(name, z, kinds).used == White(z) + i.used
  {
    hide White, ValueItem;
  }

  lemma EqualsOn(name: string, z: string, kinds: Kinds, tail: string)
    requires EqualsItem(name, z, kinds).said == Nothing(true) && QuietTail(tail)
    ensures EqualsItem(name, z + tail, kinds).used > |z| + White(tail)
  {
    hide White, ValueItem, QuietTail, EqualsItem;
    WhiteOn(z, tail);
    TailShorter(tail);
    EqualsIs(name, z, kinds);
    EqualsIs(name, z + tail, kinds);
    SliceOn(z, tail, White(z + tail));
    if White(z) == |z| { FirstValue(name, kinds, tail); } else { ValueOn(name, z[White(z)..], kinds, tail); }
  }

  lemma TailShorter(tail: string)
    requires QuietTail(tail)
    ensures White(tail) < |tail|
  {
  }

  lemma NamedOn(name: string, y: string, kinds: Kinds, tail: string)
    requires y != "" && NamedItem(name, y, kinds).said == Nothing(true) && QuietTail(tail)
    ensures NamedItem(name, y + tail, kinds).used > |y| + White(tail)
  {
    hide White, EqualsItem, QuoteOpen, ToLineEnd, QuietTail;
    assert (y + tail)[0] == y[0] && (y + tail)[1..] == y[1..] + tail;
    if y[0] == '=' { EqualsOn(name, y[1..], kinds, tail); } else { LineOn(y, tail); }
  }

  lemma NameOn(x: string, tail: string)
    requires QuietTail(tail)
    ensures NameLength(x + tail) == NameLength(x)
  {
    hide White, NameLength, IsNameChar;
    TailParts(tail);
    var n := NameLength(x);
    NameStop(x[..n], x[n..] + tail) by { NameEnds(x); }
    assert x[..n] + (x[n..] + tail) == x + tail;
  }

  lemma SetOn(u: string, kinds: Kinds, tail: string)
    requires SetItem(u, kinds).said == Nothing(true) && QuietTail(tail)
    ensures SetItem(u + tail, kinds).used > |u| + White(tail)
  {
    hide White, NameLength, NamedItem, QuietTail, SetItem;
    WhiteOn(u, tail);
    if White(u) == |u| { SetNothingOn(u, kinds, tail); } else { SetNameOn(u, kinds, tail); }
  }

  lemma SetNothingOn(u: string, kinds: Kinds, tail: string)
    requires White(u) == |u| && QuietTail(tail)
    ensures SetItem(u + tail, kinds).used > |u| + White(tail)
  {
    hide White, NameLength, NamedItem, QuietTail, SetItem;
    var z := u + tail;
    WhiteOn(u, tail);
    TailShorter(tail);
    var q1 := |u| + White(tail);
    assert z[q1..] == tail[White(tail)..];
    FirstName(tail);
    var q2 := q1 + NameLength(z[q1..]);
    SetItemParts(z, kinds, q1, q2, q2 + White(z[q2..]));
  }

  lemma SetNameOn(u: string, kinds: Kinds, tail: string)
    requires White(u) < |u| && SetItem(u, kinds).said == Nothing(true) && QuietTail(tail)
    ensures SetItem(u + tail, kinds).used > |u| + White(tail)
  {
    hide White, NameLength, NamedItem, QuietTail, SetItem, Named, NoName, Blank, Solid;
    var a, name, b, y := NameParts(u);
    if y == "" {
      AllRead(u);
      SetEndOn(a, name, b, kinds, tail);
      assert a + name + b == u;
    } else {
      SetPartsOn(a, name, b, y, kinds, tail);
    }
  }

  /** A text that ends with a name and white space. */
  lemma AllRead(u: string)
    requires White(u) < |u|
    requires var p2 := White(u) + NameLength(u[White(u)..]); u[p2 + White(u[p2..])..] == ""
    ensures var p1 := White(u); var p2 := p1 + NameLength(u[p1..]); var p3 := p2 + White(u[p2..]);
            u[p1..p2] != "" && White(u[p2..p3]) == |u[p2..p3]| && NoName(u[p2..p3])
  {
    hide White, NameLength, IsNameChar;
    var p1 := White(u);
    var p2 := p1 + NameLength(u[p1..]);
    var p3 := p2 + White(u[p2..]);
    assert p3 == |u| && u[p2..p3] == u[p2..] == u[p1..][NameLength(u[p1..])..];
    NameEnds(u[p1..]);
    if p2 == p1 { WhiteNone(u[p1..]); }
  }

  lemma SetPartsOn(a: string, name: string, b: string, y: string, kinds: Kinds, tail: string)
    requires Blank(a) && Named(name) && Blank(b) && NoName(b + y) && SolidText(y) && (name == "" ==> b == "")
    requires SetItem(a + name + b + y, kinds).said == Nothing(true) && QuietTail(tail)
    ensures SetItem(a + name + b + y + tail, kinds).used > |a + name + b + y| + White(tail)
  {
    hide White, NamedItem, QuietTail, SetItem, Named, NoName, Blank, Solid;
    SetNameShape(a, name, b, y, kinds);
    NamedOn(name, y, kinds, tail);
    NoNameStays(b, y, y + tail);
    SetNameShape(a, name, b, y + tail, kinds);
    assert a + name + b + (y + tail) == a + name + b + y + tail;
  }

  lemma SetEndOn(a: string, name: string, b: string, kinds: Kinds, tail: string)
    requires Blank(a) && Named(name) && name != "" && White(b) == |b| && NoName(b) && QuietTail(tail)
    ensures SetItem(a + name + b + tail, kinds).used > |a + name + b| + White(tail)
  {
    hide White, NamedItem, QuietTail, SetItem, Named, NoName, Blank, Solid;
    BlankOn(b, tail);
    var w := White(tail);
    var h := a + name + (b + tail[..w]);
    SetNameShape(a, name, b + tail[..w], tail[w..], kinds);
    FirstNamed(name, kinds, tail);
    assert h + tail[w..] == a + name + b + tail;
  }

  /** White space up to the end of the text runs on. */
  lemma BlankOn(b: string, tail: string)
    requires White(b) == |b| && NoName(b) && QuietTail(tail)
    ensures var w := White(tail); var c := b + tail[..w];
            w < |tail| && Blank(c) && NoName(c + tail[w..]) && SolidText(tail[w..])
  {
    hide White, Blank, IsNameChar;
    var w := White(tail);
    TailParts(tail);
    WhiteOn(b, tail);
    WhiteIsBlank(b + tail);
    assert (b + tail)[..|b| + w] == b + tail[..w] && b + tail[..w] + tail[w..] == b + tail;
    NoNameBefore(b, tail);
  }

  lemma FirstName(tail: string)
    requires QuietTail(tail)
    ensures NameLength(tail[White(tail)..]) > 0
  {
    hide White;
    TailParts(tail);
  }

  lemma FirstNamed(name: string, kinds: Kinds, tail: string)
    requires QuietTail(tail)
    ensures NamedItem(name, tail[White(tail)..], kinds).used > 0
  {
    hide White, ToLineEnd, QuoteOpen, EqualsItem;
    TailParts(tail);
    FirstLine(tail);
  }

  lemma DomainIs(u: string)
    ensures White(u) == |u| ==> DomainItem(u).used == |u|
    ensures White(u) < |u| ==>
      var p2 := White(u) + NameLength(u[White(u)..]);
      p2 <= |u| && DomainItem(u).said == SetItem(u[p2..], map[]).said
        && DomainItem(u).used == p2 + SetItem(u[p2..], map[]).used
  {
    hide White, NameLength, SetItem, Item.After, Plain, Item.In;
    var p1 := White(u);
    if p1 < |u| {
      var p2 := p1 + NameLength(u[p1..]);
      AfterSays(SetItem(u[p2..], map[]), u[..p2]);
    } else {
      PlainIs(Nothing(true), u, |u|);
    }
  }

  lemma PlainIs(s: Said, t: string, n: nat)
    requires n <= |t|
    ensures Plain(s, t, n).said == s && Plain(s, t, n).used == n
  {
  }

  lemma DomainOn(u: string, tail: string)
    requires DomainItem(u).said == Nothing(true) && QuietTail(tail)
    ensures DomainItem(u + tail).used > |u| + White(tail)
  {
    hide White, NameLength, SetItem, QuietTail, DomainItem, Item.After, Item.In, Plain;
    var z, p1 := u + tail, White(u);
    DomainIs(u);
    DomainIs(z);
    WhiteOn(u, tail);
    TailShorter(tail);
    if p1 == |u| {
      assert z[|u| + White(tail)..] == tail[White(tail)..];
      FirstName(tail);
    } else {
      var p2 := p1 + NameLength(u[p1..]);
      assert z[p1..] == u[p1..] + tail && z[p2..] == u[p2..] + tail;
      NameOn(u[p1..], tail);
      SetOn(u[p2..], map[], tail);
    }
  }

  lemma UnsetOn(u: string, kinds: Kinds, tail: string)
    requires UnsetItem(u, kinds).said == Nothing(true) && QuietTail(tail)
    ensures UnsetItem(u + tail, kinds).used > |u| + White(tail)
  {
    hide White, NameLength, QuietTail;
    WhiteOn(u, tail);
    TailShorter(tail);
    FirstName(tail);
    assert (u + tail)[|u| + White(tail)..] == tail[White(tail)..];
  }

  // ---- open commands with strings

  lemma FileOn(x: string, tail: string)
    requires FileItem(x).said == Nothing(true) && QuietTail(tail)
    ensures FileItem(x + tail).used > |x| + White(tail)
  {
    hide White, ReadStr, ReadOver, ToLineEnd, QuoteOpen, QuietTail;
    TornOn(x, tail);
  }

  lemma IncludeIs(u: string)
    ensures White(u) == |u| ==> IncludeItem(u).said == Nothing(true)
    ensures White(u) < |u| ==>
      var i := FileItem(u[White(u)..]); IncludeItem(u).said == i.said && IncludeItem(u).used == White(u) + i.used
  {
    hide White, FileItem;
  }

  lemma IncludeOn(u: string, tail: string)
    requires IncludeItem(u).said == Nothing(true) && QuietTail(tail)
    ensures IncludeItem(u + tail).used > |u| + White(tail)
  {
    hide White, FileItem, QuietTail, IncludeItem;
    WhiteOn(u, tail);
    TailShorter(tail);
    IncludeIs(u);
    IncludeIs(u + tail);
    SliceOn(u, tail, White(u + tail));
    if White(u) == |u| { FirstFile(tail); } else { FileOn(u[White(u)..], tail); }
  }

  lemma FirstFile(tail: string)
    requires QuietTail(tail)
    ensures FileItem(tail[White(tail)..]).used > 0
  {
    hide White, ReadStr, ReadOver, ToLineEnd, QuoteOpen, QuietTail;
    TailShorter(tail);
    FirstLine(tail);
  }

  lemma ActionOn(keymap: string, keystroke: string, x: string, tail: string)
    requires ActionItem(keymap, keystroke, x).said == Nothing(true) && QuietTail(tail)
    ensures ActionItem(keymap, keystroke, x + tail).used > |x| + White(tail)
  {
    hide White, ReadStr, ReadOver, ToLineEnd, QuoteOpen, QuietTail;
    TornOn(x, tail);
  }

  lemma BindEqualsIs(keymap: string, keystroke: string, y: string)
    requires y != ""
    ensures var i, z := BindEqualsItem(keymap, keystroke, y), y[1..];
            if y[0] != '=' then i == LineItem(y)
            else if White(z) == |z| then i.used == |y|
            else var a := ActionItem(keymap, keystroke, z[White(z)..]);
                 i.said == a.said && i.used == 1 + White(z) + a.used
  {
    hide White, ActionItem, LineItem, Item.In;
  }

  lemma FirstAction(keymap: string, keystroke: string, tail: string)
    requires QuietTail(tail)
    ensures ActionItem(keymap, keystroke, tail[White(tail)..]).used > 0
  {
    hide White, ReadStr, ReadOver, ToLineEnd, QuoteOpen, QuietTail;
    FirstLine(tail);
  }

  lemma BindEqualsOn(keymap: string, keystroke: string, y: string, tail: string)
    requires y != "" && BindEqualsItem(keymap, keystroke, y).said == Nothing(true) && QuietTail(tail)
    ensures BindEqualsItem(keymap, keystroke, y + tail).used > |y| + White(tail)
  {
    hide White, ToLineEnd, QuoteOpen, QuietTail, ActionItem, BindEqualsItem, Item.After, Item.In;
    var z := y[1..];
    assert (y + tail)[0] == y[0] && (y + tail)[1..] == z + tail;
    BindEqualsIs(keymap, keystroke, y);
    BindEqualsIs(keymap, keystroke, y + tail);
    if y[0] != '=' {
      LineOn(y, tail);
    } else {
      WhiteOn(z, tail);
      TailShorter(tail);
      if White(z) == |z| {
        FirstAction(keymap, keystroke, tail);
        assert (z + tail)[|z| + White(tail)..] == tail[White(tail)..];
      } else {
        ActionOn(keymap, keystroke, z[White(z)..], tail);
        assert (z + tail)[White(z)..] == z[White(z)..] + tail;
      }
    }
  }

  /** A string at the start of a text lies within its first line, as lines are skipped. */
  lemma StringInLine(x: string)
    requires ReadStr(x, 0).Some?
    ensures ReadStr(x, 0).value.1 <= ToLineEnd(x)
  {
    hide StrBody, ToLineEnd, QuoteOpen;
    LineEndStep(x);
  }

  /** A string and the white space behind it, with more lines behind them. */
  lemma StringThen(x: string, tail: string)
    requires ReadStr(x, 0).Some? && QuietTail(tail)
    ensures var n := ReadStr(x, 0).value.1;
            && ReadStr(x + tail, 0) == ReadStr(x, 0) && (x + tail)[n..] == x[n..] + tail
            && White((x + tail)[n..]) == White(x[n..]) + (if White(x[n..]) == |x[n..]| then White(tail) else 0)
  {
    hide StrBody, White, ReadStr, QuietTail;
    var n := ReadStr(x, 0).value.1;
    StringBefore(x, tail);
    WhiteOn(x[n..], tail);
  }

  lemma StringBefore(x: string, tail: string)
    requires ReadStr(x, 0).Some?
    ensures var n := ReadStr(x, 0).value.1;
            ReadStr(x + tail, 0) == ReadStr(x, 0) && n <= |x| && (x + tail)[n..] == x[n..] + tail
  {
    hide ReadStr, StrBody;
    var n := ReadStr(x, 0).value.1;
    StringWithin(x);
    StringCopied(x, x[n..] + tail);
    CutMore(x, tail, n);
  }

  lemma StringWithin(x: string)
    ensures ReadStr(x, 0).Some? ==> ReadStr(x, 0).value.1 <= |x|
  {
  }

  lemma CutMore(x: string, tail: string, n: nat)
    requires n <= |x|
    ensures x[..n] + (x[n..] + tail) == x + tail && (x + tail)[n..] == x[n..] + tail
  {
  }

  lemma KeystrokeIs(keymap: string, x: string)
    ensures ReadStr(x, 0) == None ==>
            KeystrokeItem(keymap, x).used == ToLineEnd(x) && KeystrokeItem(keymap, x).said == Nothing(QuoteOpen(x))
    ensures var s := ReadStr(x, 0);
            s.Some? ==>
              var w := s.value.1 + White(x[s.value.1..]);
              if w == |x| then KeystrokeItem(keymap, x).used == ToLineEnd(x)
              else
                var i := BindEqualsItem(keymap, s.value.0, x[w..]);
                KeystrokeItem(keymap, x).used == w + i.used && KeystrokeItem(keymap, x).said == i.said
  {
    hide White, ReadStr, ReadOver, ToLineEnd, QuoteOpen, BindEqualsItem, QuietTail;
    match ReadStr(x, 0) {
      case None =>
      case Some((keystroke, n)) => assert n <= |x|;
    }
  }

  lemma KeystrokeOn(keymap: string, x: string, tail: string)
    requires KeystrokeItem(keymap, x).said == Nothing(true) && QuietTail(tail)
    ensures KeystrokeItem(keymap, x + tail).used > |x| + White(tail)
  {
    hide White, ReadStr, ReadOver, ToLineEnd, QuoteOpen, QuietTail, BindEqualsItem, KeystrokeItem;
    var z := x + tail;
    KeystrokeIs(keymap, x);
    KeystrokeIs(keymap, z);
    match ReadStr(x, 0) {
      case None =>
        TornOn(x, tail);
        if ReadStr(z, 0).Some? { StringInLine(z); }
      case Some((keystroke, n)) =>
        StringThen(x, tail);
        TailShorter(tail);
        var w := n + White(x[n..]);
        if w == |x| {
          FirstBindEquals(keymap, keystroke, tail);
          SliceOn(x, tail, |x| + White(tail));
        } else {
          SliceOn(x, tail, w);
          BindEqualsOn(keymap, keystroke, x[w..], tail);
        }
    }
  }

  lemma FirstBindEquals(keymap: string, keystroke: string, tail: string)
    requires QuietTail(tail)
    ensures White(tail) < |tail| && BindEqualsItem(keymap, keystroke, tail[White(tail)..]).used > 0
  {
    hide White, ToLineEnd, QuoteOpen, ActionItem;
    TailParts(tail);
    FirstLine(tail);
  }

  lemma KeymapIs(x: string)
    ensures ReadStr(x, 0) == None ==> KeymapItem(x).used == ToLineEnd(x) && KeymapItem(x).said == Nothing(QuoteOpen(x))
    ensures var s := ReadStr(x, 0);
            s.Some? ==>
              var w := s.value.1 + White(x[s.value.1..]);
              if w == |x| then KeymapItem(x).used == ToLineEnd(x)
              else
                var i := KeystrokeItem(s.value.0, x[w..]);
                KeymapItem(x).used == w + i.used && KeymapItem(x).said == i.said
  {
    hide White, ReadStr, ReadOver, ToLineEnd, QuoteOpen, KeystrokeItem, QuietTail;
    match ReadStr(x, 0) {
      case None =>
      case Some((keymap, n)) => assert n <= |x|;
    }
  }

  lemma KeymapOn(x: string, tail: string)
    requires KeymapItem(x).said == Nothing(true) && QuietTail(tail)
    ensures KeymapItem(x + tail).used > |x| + White(tail)
  {
    hide White, ReadStr, ReadOver, ToLineEnd, QuoteOpen, QuietTail, KeystrokeItem, KeymapItem;
    var z := x + tail;
    KeymapIs(x);
    KeymapIs(z);
    match ReadStr(x, 0) {
      case None =>
        TornOn(x, tail);
        if ReadStr(z, 0).Some? { StringInLine(z); }
      case Some((keymap, n)) =>
        StringThen(x, tail);
        TailShorter(tail);
        var w := n + White(x[n..]);
        if w == |x| {
          FirstKeystroke(keymap, tail);
          SliceOn(x, tail, |x| + White(tail));
        } else {
          SliceOn(x, tail, w);
          KeystrokeOn(keymap, x[w..], tail);
        }
    }
  }

  lemma FirstKeystroke(keymap: string, tail: string)
    requires QuietTail(tail)
    ensures KeystrokeItem(keymap, tail[White(tail)..]).used > 0 && KeymapItem(tail[White(tail)..]).used > 0
  {
    hide White, ReadStr, ReadOver, ToLineEnd, QuoteOpen, QuietTail;
    FirstLine(tail);
  }

  lemma BindIs(u: string)
    ensures White(u) == |u| ==> BindItem(u).said == Nothing(true)
    ensures White(u) < |u| ==>
      var i := KeymapItem(u[White(u)..]); BindItem(u).said == i.said && BindItem(u).used == White(u) + i.used
  {
    hide White, KeymapItem;
  }

  lemma BindOn(u: string, tail: string)
    requires BindItem(u).said == Nothing(true) && QuietTail(tail)
    ensures BindItem(u + tail).used > |u| + White(tail)
  {
    hide White, KeymapItem, QuietTail, BindItem, KeystrokeItem;
    WhiteOn(u, tail);
    TailShorter(tail);
    BindIs(u);
    BindIs(u + tail);
    var w := White(u + tail);
    SliceOn(u, tail, w);
    if White(u) == |u| {
      FirstKeystroke("", tail);
      assert (u + tail)[w..] == tail[White(tail)..];
    } else {
      KeymapOn(u[w..], tail);
      assert (u + tail)[w..] == u[w..] + tail;
    }
  }

  // ---- any open command

  lemma StartsOn(c: string, word: string, tail: string)
    requires Starts(c, word)
    ensures c == word + c[|word|..] && c + tail == word + (c[|word|..] + tail)
    ensures var u := c[|word|..] + tail; u != "" && IsSpace(u[0])
  {
    assert c == word + c[|word|..];
  }

  lemma WordOn(c: string, kinds: Kinds, tail: string)
    requires IsWord(c) && QuietTail(tail)
    ensures SolidText(c + tail) && CommandItem(c + tail, kinds).used > |c| + White(tail)
  {
    hide SetItem, UnsetItem, BindItem, IncludeItem, DomainItem, CommandItem, White, QuietTail;
    SpaceFirst(tail);
    EmptyOpen(kinds);
    assert "" + tail == tail;
    if c == "set_domain" {
      DomainWord(tail, kinds);
      DomainOn("", tail);
    } else if c == "set" {
      SetWord(tail, kinds);
      SetOn("", kinds, tail);
    } else if c == "unset" {
      UnsetWord(tail, kinds);
      UnsetOn("", kinds, tail);
    } else if c == "bind" {
      BindWord(tail, kinds);
      BindOn("", tail);
    } else {
      IncludeWord(tail, kinds);
      IncludeOn("", tail);
    }
  }

  lemma SpaceFirst(tail: string)
    requires QuietTail(tail)
    ensures tail != "" && IsSpace(tail[0]) && EndsLine(tail)
  {
  }

  lemma EmptyOpen(kinds: Kinds)
    ensures DomainItem("").said == SetItem("", kinds).said == UnsetItem("", kinds).said == Nothing(true)
    ensures BindItem("").said == IncludeItem("").said == Nothing(true)
  {
  }

  lemma HandledOn(c: string, kinds: Kinds, tail: string)
    requires SolidText(c) && CommandItem(c, kinds).said == Nothing(true) && QuietTail(tail)
    requires Starts(c, "set_domain") || Starts(c, "set") || Starts(c, "unset") || Starts(c, "bind")
             || Starts(c, "include")
    ensures SolidText(c + tail) && CommandItem(c + tail, kinds).used > |c| + White(tail)
  {
    hide SetItem, UnsetItem, BindItem, IncludeItem, DomainItem, Starts, White, QuietTail;
    assert (c + tail)[0] == c[0];
    if Starts(c, "set_domain") {
      StartsOn(c, "set_domain", tail);
      DomainWord(c[10..] + tail, kinds);
      DomainOn(c[10..], tail);
    } else if Starts(c, "set") {
      StartsOn(c, "set", tail);
      SetWord(c[3..] + tail, kinds);
      SetOn(c[3..], kinds, tail);
    } else if Starts(c, "unset") {
      StartsOn(c, "unset", tail);
      UnsetWord(c[5..] + tail, kinds);
      UnsetOn(c[5..], kinds, tail);
    } else if Starts(c, "bind") {
      StartsOn(c, "bind", tail);
      BindWord(c[4..] + tail, kinds);
      BindOn(c[4..], tail);
    } else {
      StartsOn(c, "include", tail);
      IncludeWord(c[7..] + tail, kinds);
      IncludeOn(c[7..], tail);
    }
  }

  /** No command word, whole or followed by a space. */
  predicate IsUnknown(c: string) {
    && !IsWord(c) && !Starts(c, "set_domain") && !Starts(c, "set") && !Starts(c, "unset") && !Starts(c, "bind")
    && !Starts(c, "include")
  }

  lemma UnknownMore(c: string, z: string)
    requires IsUnknown(c) && EndsLine(z)
    ensures IsUnknown(c + z)
  {
    hide Starts, IsWord, EndsLine, InLine;
    WordsInLine();
    assert c[..|c|] == c;
    NotWord(c);
    NotStarts(c, |c|, z, "set_domain");
    NotStarts(c, |c|, z, "set");
    NotStarts(c, |c|, z, "unset");
    NotStarts(c, |c|, z, "bind");
    NotStarts(c, |c|, z, "include");
    NoWord(c, |c|, z);
  }

  lemma NotWord(c: string)
    requires !IsWord(c)
    ensures c != "set_domain" && c != "set" && c != "unset" && c != "bind" && c != "include"
  {
  }

  lemma UnknownItem(c: string, kinds: Kinds)
    requires SolidText(c) && IsUnknown(c)
    ensures CommandItem(c, kinds) == Plain(Nothing(QuoteOpen(c)), c, ToLineEnd(c))
  {
    hide Starts, IsWord, ToLineEnd, QuoteOpen;
  }

  lemma UnknownOn(c: string, kinds: Kinds, tail: string)
    requires SolidText(c) && IsUnknown(c) && QuoteOpen(c) && QuietTail(tail)
    ensures SolidText(c + tail) && CommandItem(c + tail, kinds).used > |c| + White(tail)
  {
    hide White, QuietTail, ToLineEnd, QuoteOpen, CommandItem, IsUnknown;
    TailParts(tail);
    LineOn(c, tail);
    assert (c + tail)[0] == c[0];
    UnknownMore(c, tail);
    UnknownItem(c + tail, kinds);
  }

  /** An open command runs on into what is appended, beyond the start of the first command there. */
  lemma OpenRunsOn(c: string, kinds: Kinds, tail: string)
    requires SolidText(c) && CommandItem(c, kinds).said == Nothing(true) && QuietTail(tail)
    ensures SolidText(c + tail) && CommandItem(c + tail, kinds).used > |c| + White(tail)
  {
    hide Starts, White, QuietTail, ToLineEnd, QuoteOpen, DomainItem, SetItem, UnsetItem, BindItem, IncludeItem;
    if Starts(c, "set_domain") || Starts(c, "set") || Starts(c, "unset") || Starts(c, "bind") || Starts(c, "include") {
      HandledOn(c, kinds, tail);
    } else if IsWord(c) {
      WordOn(c, kinds, tail);
    } else {
      UnknownOn(c, kinds, tail);
    }
  }

  lemma FollowsMore(r: string, tail: string)
    requires QuietTail(tail)
    ensures Follows(r, r + tail)
  {
  }

  lemma EndStep(t: string, p: nat, kinds: Kinds)
    ensures White(t) == |t| ==> !OpenEnd(t, kinds) && !CommandAt(t, p, kinds) && Sayings(t, kinds) == []
    ensures White(t) < |t| ==>
      var c := t[White(t)..]; var i := CommandItem(c, kinds); var n := White(t) + i.used;
      && (OpenEnd(t, kinds) <==> i.said == Nothing(true) || OpenEnd(c[i.used..], kinds))
      && (CommandAt(t, p, kinds) <==> p == White(t) || (n <= p && CommandAt(c[i.used..], p - n, kinds)))
      && Sayings(t, kinds) == [i.said] + Sayings(c[i.used..], kinds)
  {
    hide CommandItem, White;
  }

  lemma EndStep0(t: string, kinds: Kinds)
    requires White(t) == |t|
    ensures !OpenEnd(t, kinds) && Sayings(t, kinds) == []
  {
    hide White;
  }

  /** A text that is only white space and comments. */
  lemma AppendedToNothing(t: string, tail: string, kinds: Kinds)
    requires QuietTail(tail) && White(t) == |t|
    ensures CommandAt(t + tail, |t| + White(tail), kinds) && !OpenEnd(t, kinds)
    ensures Sayings(t + tail, kinds) == Sayings(t, kinds) + Sayings(tail, kinds)
  {
    hide CommandItem, White, QuietTail, CommandAt, OpenEnd, Sayings;
    WhiteOn(t, tail);
    TailShorter(tail);
    EndStep0(t, kinds);
    EndStep(t + tail, |t| + White(tail), kinds);
    EndStep(tail, 0, kinds);
    SliceOn(t, tail, |t| + White(tail));
  }

  /** The first command with what follows it, and more lines. */
  lemma CommandOn(c: string, tail: string, kinds: Kinds)
    requires SolidText(c) && QuietTail(tail)
    ensures SolidText(c + tail)
    ensures var i := CommandItem(c, kinds);
            if i.said == Nothing(true) then CommandItem(c + tail, kinds).used > |c| + White(tail)
            else CommandItem(c + tail, kinds) == i && (c + tail)[i.used..] == c[i.used..] + tail
  {
    hide CommandItem, White, QuietTail, Follows;
    var i := CommandItem(c, kinds);
    if i.said == Nothing(true) {
      OpenRunsOn(c, kinds, tail);
    } else {
      var r := c[i.used..];
      FollowsMore(r, tail);
      CommandCopied(c, kinds, r + tail);
      assert c[..i.used] + (r + tail) == c + tail;
    }
  }

  /** Where there are no quotes before the first of the commands that are appended to a text, it is
      read as a command exactly if the text has no open end. */
  lemma {:induction false} QuietIsRead(t: string, tail: string, kinds: Kinds)
    requires QuietTail(tail)
    ensures CommandAt(t + tail, |t| + White(tail), kinds) <==> !OpenEnd(t, kinds)
    ensures !OpenEnd(t, kinds) ==> Sayings(t + tail, kinds) == Sayings(t, kinds) + Sayings(tail, kinds)
    decreases |t|
  {
    hide CommandItem, White, QuietTail, CommandAt, OpenEnd, Sayings;
    var w, p := White(t), |t| + White(tail);
    if w == |t| {
      AppendedToNothing(t, tail, kinds);
    } else {
      EndStep(t, 0, kinds);
      EndStep(t + tail, p, kinds);
      WhiteOn(t, tail);
      SliceOn(t, tail, w);
      var c := t[w..];
      var i := CommandItem(c, kinds);
      CommandOn(c, tail, kinds);
      if i.said != Nothing(true) { QuietIsRead(c[i.used..], tail, kinds); }
    }
  }

  // ---- comments with quotes

  function LastNewline(t: string): (n: nat)
    requires t != "" && t[0] == '\n'
    ensures n < |t| && t[n] == '\n' && forall i :: n < i < |t| ==> t[i] != '\n'
  {
    if t[|t| - 1] == '\n' then |t| - 1 else LastNewline(t[..|t| - 1])
  }

  /** The comments that stand before the first command, up to the end of the last of them. */
  function Comments(tail: string): string
    requires IsTail(tail)
  {
    WhiteSpaceStep(tail);
    tail[..LastNewline(tail[..White(tail)])]
  }

  lemma {:induction false} NoNewlineBefore(x: string, i: nat)
    requires i < ToNewline(x)
    ensures x[i] != '\n'
  {
    if i > 0 { NoNewlineBefore(x[1..], i - 1); }
  }

  lemma {:induction false} NewlineFrom(x: string, j: nat)
    requires j <= ToNewline(x)
    ensures ToNewline(x[j..]) == ToNewline(x) - j
  {
    if j > 0 {
      NewlineFrom(x[1..], j - 1);
      assert x[j..] == x[1..][j - 1..];
    }
  }

  /** White space and comments from the end of a line, or the start of a comment, on. */
  lemma {:induction false} WhiteFrom(x: string, j: nat)
    requires j < White(x) && LineEnds(x[j..])
    ensures White(x[j..]) == White(x) - j
    decreases |x|
  {
    hide White, ToNewline;
    if j > 0 {
      if IsSpace(x[0]) {
        WhiteSpaceStep(x);
        WhiteFrom(x[1..], j - 1);
        assert x[j..] == x[1..][j - 1..];
      } else {
        if x[0] != '#' { WhiteNone(x); }
        CommentFrom(x, j);
        var k := 1 + ToNewline(x[1..]);
        if j >= k {
          if j < |x| { WhiteCommentStep(x); }
          WhiteFrom(x[k..], j - k);
          assert x[j..] == x[k..][j - k..];
        }
      }
    }
  }

  lemma CommentFrom(x: string, j: nat)
    requires 0 < j < |x| && x[0] == '#' && LineEnds(x[j..])
    ensures var k := 1 + ToNewline(x[1..]); j < k ==> White(x[j..]) == White(x) - j
  {
    hide White, ToNewline;
    var k := 1 + ToNewline(x[1..]);
    if j < k {
      NoNewlineBefore(x[1..], j - 1);
      assert x[j..][0] == x[1..][j - 1];
      NewlineFrom(x[1..], j);
      assert x[1..][j..] == x[j..][1..];
      WhiteCommentStep(x);
      WhiteCommentStep(x[j..]);
      assert x[j..][k - j..] == x[k..];
    }
  }

  /** White space and comments up to the end of a line. */
  lemma {:induction false} WhiteUpTo(x: string, j: nat)
    requires j < White(x) && x[j] == '\n'
    ensures White(x[..j]) == j
    decreases |x|
  {
    hide White, ToNewline;
    if j > 0 {
      var y := x[..j];
      if IsSpace(x[0]) {
        WhiteSpaceStep(x);
        WhiteUpTo(x[1..], j - 1);
        WhiteSpaceStep(y);
        assert y[1..] == x[1..][..j - 1];
      } else {
        if x[0] != '#' { WhiteNone(x); }
        var k := 1 + ToNewline(x[1..]);
        WhiteCommentStep(x);
        WhiteCommentStep(y);
        if j < k { NoNewlineBefore(x[1..], j - 1); }
        NewlineUpTo(x[1..], j - 1);
        assert y[1..] == x[1..][..j - 1];
        WhiteUpTo(x[k..], j - k);
        assert y[k..] == x[k..][..j - k];
      }
    } else {
      NothingWhite();
      assert x[..0] == "";
    }
  }

  lemma NothingWhite()
    ensures White("") == 0
  {
  }

  lemma {:induction false} NewlineUpTo(x: string, j: nat)
    requires ToNewline(x) <= j <= |x|
    ensures ToNewline(x[..j]) == ToNewline(x)
  {
    if x != "" && x[0] != '\n' {
      NewlineUpTo(x[1..], j - 1);
      assert x[..j][1..] == x[1..][..j - 1];
    }
  }

  /** White space and comments without a line end, before something else, are white space only. */
  lemma {:induction false} NoNewlineNoComment(u: string)
    requires White(u) < |u| && forall i :: 0 <= i < White(u) ==> u[i] != '\n'
    ensures NoQuotesBefore(u, White(u))
    decreases |u|
  {
    hide White, ToNewline;
    if IsSpace(u[0]) {
      WhiteSpaceStep(u);
      NoNewlineNoComment(u[1..]);
      forall i | 0 <= i < White(u) ensures !IsQuote(u[i]) {
        if i > 0 { assert u[i] == u[1..][i - 1]; }
      }
    } else if u[0] == '#' {
      CommentFinished(u);
    } else {
      WhiteNone(u);
    }
  }

  /** The comments, and a line without quotes before its command. */
  lemma TailSplits(tail: string)
    requires IsTail(tail)
    ensures var a := Comments(tail); var z := tail[|a|..];
            && tail == a + z && QuietTail(z) && White(z) == White(tail) - |a| && White(a) == |a|
            && (a == "" || a[0] == '\n')
  {
    hide White, IsAlnum;
    WhiteSpaceStep(tail);
    var w := White(tail);
    var j := LastNewline(tail[..w]);
    assert tail[j] == tail[..w][j];
    var z := tail[j..];
    WhiteFrom(tail, j);
    WhiteUpTo(tail, j);
    WhiteSpaceStep(z);
    forall i | 0 <= i < White(z[1..]) ensures z[1..][i] != '\n' { assert z[1..][i] == tail[..w][j + 1 + i]; }
    NoNewlineNoComment(z[1..]);
    forall i | 0 <= i < White(z) ensures !IsQuote(z[i]) {
      if i > 0 { assert z[i] == z[1..][i - 1]; }
    }
  }

  /** Comments behind a text without an open end say nothing. */
  lemma {:induction false} CommentsSayNothing(t: string, a: string, kinds: Kinds)
    requires White(a) == |a| && (a == "" || a[0] == '\n') && !OpenEnd(t, kinds)
    ensures !OpenEnd(t + a, kinds) && Sayings(t + a, kinds) == Sayings(t, kinds)
    decreases |t|
  {
    hide CommandItem, White, OpenEnd, Sayings, Follows, CommandAt;
    var w := White(t);
    if w == |t| {
      WhiteAll(t, a);
      EndStep0(t, kinds);
      EndStep0(t + a, kinds);
    } else {
      var c := t[w..];
      var i := CommandItem(c, kinds);
      var r := c[i.used..];
      EndStep(t, 0, kinds);
      FollowsItself(r, a);
      CommandCopied(c, kinds, r + a);
      assert c[..i.used] + (r + a) == c + a && (c + a)[i.used..] == r + a;
      WhiteStop(t, c + a);
      WhiteNone(c + a);
      assert t[..w] + (c + a) == t + a && (t + a)[w..] == c + a;
      EndStep(t + a, 0, kinds);
      CommentsSayNothing(r, a, kinds);
    }
  }

  /** The first of the commands that are appended to any text is read as a command exactly if the text
      with the comments before that command has no open end; and then the whole says what both parts
      say. */
  lemma AppendedIsRead(t: string, tail: string, kinds: Kinds)
    requires IsTail(tail)
    ensures CommandAt(t + tail, |t| + White(tail), kinds) <==> !OpenEnd(t + Comments(tail), kinds)
    ensures !OpenEnd(t + Comments(tail), kinds) ==>
      Sayings(t + tail, kinds) == Sayings(t + Comments(tail), kinds) + Sayings(tail, kinds)
  {
    hide White, CommandAt, OpenEnd, Sayings, Comments, QuietTail, IsTail, Clean, Blank;
    TailSplits(tail);
    var a := Comments(tail);
    var z := tail[|a|..];
    TailSays(tail, kinds);
    QuietIsRead(t + a, z, kinds);
    assert t + a + z == t + tail;
  }

  lemma TailSays(tail: string, kinds: Kinds)
    requires IsTail(tail)
    ensures |Comments(tail)| <= |tail| && Sayings(tail[|Comments(tail)|..], kinds) == Sayings(tail, kinds)
  {
    hide White, Sayings, Comments, QuietTail, IsTail, Clean;
    TailSplits(tail);
    SkippedSays(Comments(tail), tail[|Comments(tail)|..], kinds, {});
  }

  /** So it is if the text has no open end; and only then, if no quote stands in the comments. */
  lemma CommentsMatter(t: string, tail: string, kinds: Kinds)
    requires IsTail(tail)
    ensures !OpenEnd(t, kinds) ==>
      !OpenEnd(t + Comments(tail), kinds) && Sayings(t + Comments(tail), kinds) == Sayings(t, kinds)
    ensures QuietTail(tail) ==> (OpenEnd(t + Comments(tail), kinds) <==> OpenEnd(t, kinds))
  {
    hide White, CommandAt, OpenEnd, Sayings, Comments, QuietTail, IsTail;
    TailSplits(tail);
    if !OpenEnd(t, kinds) { CommentsSayNothing(t, Comments(tail), kinds); }
    if QuietTail(tail) {
      AppendedIsRead(t, tail, kinds);
      QuietIsRead(t, tail, kinds);
    }
  }

  // ---- open lines

  predicate NoQuotes(t: string) { NoQuotesBefore(t, |t|) }

  lemma {:induction false} NoQuoteNoClose(t: string)
    requires NoQuotes(t)
    ensures !StrBody(t).closed
    decreases |t|
  {
    hide StrBody;
    if t == "" {
      StrBodyEnd(t);
    } else {
      StrBodyStep(t);
      NoQuoteNoClose(t[StepSize(t)..]);
    }
  }

  lemma {:induction false} StringStaysOpen(t: string, s: string)
    requires !StrBody(t).closed && NoQuotes(s)
    ensures !StrBody(t + s).closed
    decreases |t|
  {
    hide StrBody;
    if t == "" || s == "" {
      assert t + s == if t == "" then s else t;
      NoQuoteNoClose(s);
    } else {
      if IsQuote(t[0]) { StrBodyEnd(t); }
      StrBodyStep(t + s);
      if t == "\\" {
        assert (t + s)[2..] == s[1..] && (t + s)[1..] == s;
        NoQuoteNoClose(s);
        NoQuoteNoClose(s[1..]);
      } else {
        var n := StepSize(t);
        StrBodyStep(t);
        assert (t + s)[n..] == t[n..] + s && (t + s)[0] == t[0] && (|t| > 1 ==> (t + s)[1] == t[1]);
        StringStaysOpen(t[n..], s);
      }
    }
  }

  /** A line with an open quote goes on to the end of the text, if no quote follows. */
  lemma {:induction false} LineStaysOpen(x: string, s: string)
    requires QuoteOpen(x) && NoQuotes(s)
    ensures ToLineEnd(x + s) == |x + s| && QuoteOpen(x + s)
    decreases |x|
  {
    hide StrBody, ToLineEnd, QuoteOpen;
    if EndsLine(x) { LineEndNone(x); }
    var y := x + s;
    LineEndStep(x);
    LineEndStep(y);
    assert y[1..] == x[1..] + s && y[0] == x[0];
    if IsQuote(x[0]) {
      var b := StrBody(x[1..]);
      if b.closed {
        var k := 1 + b.used;
        StrBodyStop(x[1..], x[k..] + s);
        assert x[1..][..b.used] + (x[k..] + s) == x[1..] + s;
        assert y[k..] == x[k..] + s;
        LineStaysOpen(x[k..], s);
      } else {
        StringStaysOpen(x[1..], s);
        Unclosed(y[1..]);
        LineEndEmpty();
        assert y[|y|..] == "";
      }
    } else {
      LineStaysOpen(x[1..], s);
    }
  }

  /** A line with an open quote goes beyond the end of the text. */
  lemma {:induction false} LinePast(x: string, z: string)
    requires QuoteOpen(x)
    ensures ToLineEnd(x + z) >= |x|
    decreases |x|
  {
    hide StrBody, ToLineEnd, QuoteOpen;
    if EndsLine(x) { LineEndNone(x); }
    var y := x + z;
    LineEndStep(x);
    LineEndStep(y);
    assert y[1..] == x[1..] + z && y[0] == x[0];
    if IsQuote(x[0]) {
      var b := StrBody(x[1..]);
      if b.closed {
        var k := 1 + b.used;
        StrBodyStop(x[1..], x[k..] + z);
        assert x[1..][..b.used] + (x[k..] + z) == x[1..] + z;
        assert y[k..] == x[k..] + z;
        LinePast(x[k..], z);
      } else {
        StringPast(x[1..], z);
      }
    } else {
      LinePast(x[1..], z);
    }
  }

  lemma {:induction false} StringPast(t: string, z: string)
    requires !StrBody(t).closed
    ensures StrBody(t + z).used >= |t|
    decreases |t|
  {
    hide StrBody;
    if t != "" {
      if IsQuote(t[0]) { StrBodyEnd(t); }
      StrBodyStep(t + z);
      if |t| > 1 || t[0] != '\\' {
        var n := StepSize(t);
        StrBodyStep(t);
        assert (t + z)[n..] == t[n..] + z && (t + z)[0] == t[0] && (|t| > 1 ==> (t + z)[1] == t[1]);
        StringPast(t[n..], z);
      }
    }
  }

  /** Behind a line that is no command and has an open quote, the first appended command is read
      exactly if the line ends within the comments before it. */
  lemma OpenLineIsClosed(c: string, tail: string, kinds: Kinds)
    requires SolidText(c) && IsUnknown(c) && QuoteOpen(c) && IsTail(tail)
    ensures CommandAt(c + tail, |c| + White(tail), kinds)
            <==> ToLineEnd(c + tail[..White(tail)]) < |c| + White(tail)
  {
    hide White, CommandAt, OpenEnd, Sayings, Comments, QuietTail, IsTail, ToLineEnd, QuoteOpen, IsUnknown, Solid;
    TailSplits(tail);
    LastSpaces(tail);
    AppendedIsRead(c, tail, kinds);
    var a, s := Comments(tail), tail[|Comments(tail)|..White(tail)];
    assert a + s == tail[..White(tail)] && c + a + s == c + (a + s);
    OpenLineMore(c, a, kinds);
    SpacesClose(c + a, s);
  }

  /** Whether a line is open shows in where it ends when a new line without quotes follows. */
  lemma SpacesClose(x: string, s: string)
    requires s != "" && s[0] == '\n' && NoQuotes(s)
    ensures QuoteOpen(x) <==> ToLineEnd(x + s) == |x + s|
  {
    hide ToLineEnd, QuoteOpen;
    if QuoteOpen(x) {
      LineStaysOpen(x, s);
    } else {
      var n := ToLineEnd(x);
      LineEndAt(x);
      LineEndStop(x, x[n..] + s);
      CutMore(x, s, n);
    }
  }

  lemma LastSpaces(tail: string)
    requires IsTail(tail)
    ensures |Comments(tail)| < White(tail)
    ensures var s := tail[|Comments(tail)|..White(tail)]; s != "" && s[0] == '\n' && NoQuotes(s)
  {
    hide White, Comments, IsTail;
    TailSplits(tail);
    var z := tail[|Comments(tail)|..];
    TailParts(z);
    assert tail[|Comments(tail)|..White(tail)] == z[..White(z)];
  }

  lemma OpenLineMore(c: string, a: string, kinds: Kinds)
    requires SolidText(c) && IsUnknown(c) && QuoteOpen(c) && White(a) == |a| && (a == "" || a[0] == '\n')
    ensures OpenEnd(c + a, kinds) <==> QuoteOpen(c + a)
  {
    hide White, OpenEnd, Sayings, CommandAt, CommandItem, ToLineEnd, QuoteOpen, IsUnknown, Solid;
    var x := c + a;
    assert x[0] == c[0];
    UnknownMore(c, a);
    UnknownItem(x, kinds);
    WhiteNone(x);
    EndStep(x, 0, kinds);
    assert x[0..] == x;
    if !QuoteOpen(x) {
      var n := ToLineEnd(x);
      LinePast(c, a);
      LineEndAt(x);
      assert x[n..] == a[n - |c|..];
      if n < |x| { WhiteFrom(a, n - |c|); }
      NothingWhite();
      EndStep0(x[n..], kinds);
    }
  }

  /** A quote in a comment closes an open end: the appended command is read. */
  lemma QuoteInComment(kinds: Kinds)
    ensures var tail := "\n# don't\nset n = 2\n";
            && OpenEnd("'", kinds) && IsTail(tail) && White(tail) == 9 && CommandAt("'" + tail, 1 + 9, kinds)
  {
    hide CommandAt, OpenEnd, IsUnknown, StrBody, White, ToLineEnd, QuoteOpen;
    var tail := "\n# don't\nset n = 2\n";
    QuoteLine();
    CommentedTail();
    assert "'" + "" == "'";
    OpenLineMore("'", "", kinds);
    OpenLineIsClosed("'", tail, kinds);
    assert "'" + tail[..9] == "'\n# don't\n";
  }

  lemma QuoteLine()
    ensures IsUnknown("'") && QuoteOpen("'") && White("") == 0 && ToLineEnd("'\n# don't\n") == 9
  {
    hide StrBody, White;
    NothingWhite();
    var x := "'\n# don't\n";
    NoQuoteNoClose("");
    assert "'"[1..] == "";
    var c := "\n# don'";
    assert x[1..] == c + "t\n";
    QuoteCloses();
    StrBodyStop(c, "t\n");
    assert c[..7] == c && StrBody(x[1..]).used == 7;
    LineEndStep(x);
    assert x[8..] == "t\n" && "t\n"[1..] == "\n";
    LineEndStep("t\n");
    LineEndNone("\n");
  }

  lemma QuoteCloses()
    ensures var c := "\n# don'"; StrBody(c).closed && StrBody(c).used == |c| == 7
  {
    var c := "\n# don'";
    assert c[1..] == "# don'" && c[1..][1..] == " don'" && " don'"[1..] == "don'" && "don'"[1..] == "on'";
    assert "on'"[1..] == "n'" && "n'"[1..] == "'";
  }

  lemma CommentedTail()
    ensures var tail := "\n# don't\nset n = 2\n"; IsTail(tail) && White(tail) == 9
  {
    hide White;
    CommentWhite("\n# don't\nset n = 2\n");
  }

  lemma CommentWhite(tail: string)
    requires |tail| > 9 && tail[0] == '\n' && tail[1] == '#' && tail[8] == '\n' && IsAlnum(tail[9])
    requires forall i :: 2 <= i < 8 ==> tail[i] != '\n'
    ensures White(tail) == 9
  {
    hide White;
    var x := tail[1..];
    WhiteSpaceStep(tail);
    FirstNewline(x[1..], 6);
    WhiteCommentStep(x);
    var y := x[7..];
    WhiteSpaceStep(y);
    assert y[1..][0] == tail[9];
    WhiteNone(y[1..]);
  }

  lemma {:induction false} FirstNewline(x: string, n: nat)
    requires n < |x| && x[n] == '\n' && forall i :: 0 <= i < n ==> x[i] != '\n'
    ensures ToNewline(x) == n
  {
    if n > 0 { FirstNewline(x[1..], n - 1); }
  }
}
