/** Commands that are copied as they are read as before, although what follows them may have been
    rewritten. */
module CopiedCommands {
  import opened Basics
  import opened OptionText
  import opened ConfigText
  import opened Scanning
  import opened CommandShapes

  predicate CommandLetter(c: char) { c == 's' || c == 'u' }

  /** `r'` has replaced `r` behind a command.  What is behind the last command can only grow by a
      new line; elsewhere the first character stays, unless one command follows another without
      anything between them and is rewritten. */
  predicate Follows(r: string, r': string) {
    if r == "" then r' == "" || r'[0] == '\n'
    else r' != "" && (r'[0] == r[0] || (CommandLetter(r[0]) && CommandLetter(r'[0])))
  }

  lemma FollowsKeeps(r: string, r': string)
    requires Follows(r, r')
    ensures EndsToken(r) ==> EndsToken(r')
    ensures NoName(r) ==> NoName(r')
    ensures NoValue(r) ==> NoValue(r') && (EndsToken(r) <==> EndsToken(r'))
    ensures EndsLine(r) ==> EndsLine(r')
    ensures r != "" ==> r' != ""
    ensures SolidText(r) && (NoName(r) || NoValue(r)) ==> SolidText(r') && r'[0] == r[0]
  {
  }

  // ---- numbers that cannot be read

  predicate ValueChars(m: string) { forall i :: 0 <= i < |m| ==> InValue(m[i]) }

  lemma {:induction false} DigitsStop(m: string, r: string)
    requires NoValue(r)
    ensures Digits(m + r) == Digits(m)
  {
    if m == "" {
      assert m + r == r;
    } else if IsDigit(m[0]) {
      assert (m + r)[1..] == m[1..] + r;
      DigitsStop(m[1..], r);
    }
  }

  lemma StrtolStop(m: string, r: string)
    requires ValueChars(m) && NoValue(r) && (m != "" || SolidText(r))
    ensures Strtol(m + r) == Strtol(m)
  {
    hide Digits, Decimal;
    var t := m + r;
    if m != "" { assert InValue(m[0]); }
    assert Spaces(t) == 0 && Spaces(m) == 0;
    var s := if m != "" && (m[0] == '-' || m[0] == '+') then 1 else 0;
    assert t[s..] == m[s..] + r;
    DigitsStop(m[s..], r);
    assert t[s..][..Digits(m[s..])] == m[s..][..Digits(m[s..])];
  }

  lemma StrtolxStop(m: string, r: string)
    requires ValueChars(m) && NoValue(r) && (m != "" || SolidText(r))
    ensures Strtolx(m + r) == Strtolx(m)
  {
    hide Strtol;
    StrtolStop(m, r);
  }

  lemma ReadNumStop(m: string, r: string, r': string, min: int, max: int)
    requires ValueChars(m) && NoValue(r) && Follows(r, r') && (m != "" || SolidText(r))
    ensures ReadNum(m + r, min, max) == None <==> ReadNum(m + r', min, max) == None
  {
    hide Strtolx;
    FollowsKeeps(r, r');
    StrtolxStop(m, r);
    StrtolxStop(m, r');
    var end := Strtolx(m).1;
    if end < |m| { assert InValue(m[end]); }
    assert (m + r)[end..] == m[end..] + r && (m + r')[end..] == m[end..] + r';
  }

  lemma QuoteIsNoNumber(x: string, min: int, max: int)
    requires x != "" && IsQuote(x[0])
    ensures ReadNum(x, min, max) == None
  {
    assert Spaces(x) == 0 && x[0..] == x;
    assert Digits(x) == 0;
  }

  lemma ReadNumStays(m: string, r: string, r': string, min: int, max: int)
    requires ValueChars(m) && m != "" && EndsToken(r) && Follows(r, r') && Strtolx(m + r).1 == |m|
    ensures ReadNum(m + r', min, max) == ReadNum(m + r, min, max)
  {
    hide Strtolx;
    FollowsKeeps(r, r');
    StrtolxStop(m, r);
    StrtolxStop(m, r');
    assert (m + r)[|m|..] == r && (m + r')[|m|..] == r';
  }

  /** A number that can be read is made of characters of values. */
  lemma NumberChars(x: string, min: int, max: int)
    requires SolidText(x) && ReadNum(x, min, max).Some?
    ensures var n := ReadNum(x, min, max).value.1;
            0 < n && ValueChars(x[..n]) && EndsToken(x[n..]) && Strtolx(x).1 == n
  {
    hide Strtol, Scaled;
    StrtolChars(x);
    var end := Strtol(x).1;
    if end < |x| && (x[end] == 'k' || x[end] == 'K' || x[end] == 'm' || x[end] == 'M') {
      assert x[..end + 1] == x[..end] + [x[end]];
    }
  }

  lemma StrtolChars(x: string)
    requires SolidText(x)
    ensures ValueChars(x[..Strtol(x).1])
  {
    hide Decimal, Signed;
    assert Spaces(x) == 0;
    var s := SignEnd(x);
    var d := Digits(x[s..]);
    assert forall i :: s <= i < s + d ==> x[i] == x[s..][i - s];
  }

  // ---- values

  lemma SkippedQuote(name: string, x: string, kinds: Kinds, z: string)
    requires x != "" && IsQuote(x[0]) && StrBody(x[1..]).closed
    requires name in kinds ==> Read(kinds[name], x) == None
    ensures ValueItem(name, x[..SkipValue(x)] + z, kinds) == ValueItem(name, x, kinds)
  {
    hide StrBody, Blanked;
    var n := SkipValue(x);
    var y := x[..n] + z;
    StrBodyStop(x[1..], z);
    BlankedPart(x[1..], z);
    assert y[1..] == x[1..][..n - 1] + z;
    assert ReadOver(y)[..n] == ReadOver(x)[..n];
    if name in kinds {
      match kinds[name]
      case Num(min, max) => QuoteIsNoNumber(y, min, max);
      case Str(_) =>
    }
  }

  lemma SkippedWord(name: string, x: string, kinds: Kinds, r': string)
    requires SolidText(x) && !IsQuote(x[0]) && Follows(x[ValueLength(x)..], r')
    requires name in kinds ==> Read(kinds[name], x) == None
    ensures var y := x[..ValueLength(x)] + r';
            SolidText(y) && ValueItem(name, y, kinds) == ValueItem(name, x, kinds)
  {
    hide ValueLength, ReadNum;
    var n := ValueLength(x);
    var m, r := x[..n], x[n..];
    var y := m + r';
    ValuePrefix(x);
    FollowsKeeps(r, r');
    ValueStop(m, r');
    assert x == m + r;
    assert y[0] == x[0];
    if name in kinds {
      match kinds[name]
      case Num(min, max) => ReadNumStop(m, r, r', min, max);
      case Str(_) =>
    }
  }

  lemma ReadValue(name: string, x: string, kinds: Kinds, r': string)
    requires SolidText(x) && name in kinds && Read(kinds[name], x).Some?
    requires Follows(x[Read(kinds[name], x).value.1..], r')
    ensures var y := x[..Read(kinds[name], x).value.1] + r';
            SolidText(y) && ValueItem(name, y, kinds) == ValueItem(name, x, kinds)
  {
    hide StrBody, ReadNum, Follows, ReadOver, ValueChars;
    var n := Read(kinds[name], x).value.1;
    match kinds[name]
    case Num(min, max) =>
      NumberChars(x, min, max);
      assert x == x[..n] + x[n..];
      ReadNumStays(x[..n], x[n..], r', min, max);
    case Str(limit) =>
      ClosedPart(x);
      StringStop(x[..n], ReadStr(x, 0).value.0, r');
      StringStop(x[..n], ReadStr(x, 0).value.0, x[n..]);
      assert x == x[..n] + x[n..];
      SameLimit(x, x[..n] + r', limit);
  }

  /** The limit of an option decides alike on strings that are read alike. */
  lemma SameLimit(x: string, y: string, limit: nat)
    requires ReadStr(x, 0) == ReadStr(y, 0)
    ensures ReadStr(x, 0).Some? ==> ReadStr(x, limit) == ReadStr(y, limit)
    ensures ReadStr(x, limit).Some? ==> ReadStr(x, limit) == ReadStr(x, 0)
  {
    hide StrBody;
  }

  lemma ValueCopied(name: string, x: string, kinds: Kinds, r': string)
    requires SolidText(x) && ValueItem(name, x, kinds).said != Nothing(true)
    requires Follows(x[ValueItem(name, x, kinds).used..], r')
    ensures var i := ValueItem(name, x, kinds);
            SolidText(x[..i.used] + r') && ValueItem(name, x[..i.used] + r', kinds) == i
  {
    hide StrBody, Read, ValueLength, Follows, ReadOver;
    if name in kinds && Read(kinds[name], x).Some? {
      ReadValue(name, x, kinds, r');
    } else if IsQuote(x[0]) {
      SkippedQuote(name, x, kinds, r');
    } else {
      SkippedWord(name, x, kinds, r');
    }
  }

  // ---- lines that are skipped

  /** A line that is skipped as a whole. */
  lemma LineCopied(x: string, r': string)
    requires SolidText(x) && !QuoteOpen(x) && Follows(x[ToLineEnd(x)..], r')
    ensures var n := ToLineEnd(x);
            0 < n && SolidText(x[..n] + r') && LineItem(x[..n] + r') == LineItem(x)
  {
    hide ToLineEnd, Follows, QuoteOpen;
    var n := ToLineEnd(x);
    LineEndPositive(x);
    LineEndAt(x);
    FollowsKeeps(x[n..], r');
    LineEndStop(x, r');
    var y := x[..n] + r';
    assert y[..n] == x[..n] && y[0] == x[0];
  }

  lemma LineEndPositive(x: string)
    requires SolidText(x)
    ensures 0 < ToLineEnd(x)
  {
  }

  /** Where a string is missing: the text starts otherwise, or the string is not closed. */
  lemma TornCopied(x: string, r': string)
    requires SolidText(x) && ReadStr(x, 0) == None && TornItem(x).said != Nothing(true)
    requires Follows(x[TornItem(x).used..], r')
    ensures var y := x[..TornItem(x).used] + r';
            SolidText(y) && ReadStr(y, 0) == None && TornItem(y) == TornItem(x)
  {
    hide StrBody, ToLineEnd, Follows, QuoteOpen;
    if IsQuote(x[0]) { LineEndStep(x); }
    LineCopied(x, r');
  }

  // ---- the parts of commands

  lemma ShiftedParts(h: string, x: string, n: nat, z: string)
    requires n <= |x|
    ensures (h + x)[..|h| + n] + z == h + (x[..n] + z) && (h + x)[|h| + n..] == x[n..]
  {
  }

  lemma TakeSet(u: string, kinds: Kinds) returns (value: bool, a: string, name: string, b: string, d: string, x: string)
    requires SetItem(u, kinds).said != Nothing(true)
    ensures Blank(a) && Named(name) && (name == "" ==> b == "") && Blank(b) && SolidText(x)
    ensures u != "" && IsSpace(u[0]) ==> Gap(a)
    ensures value ==>
      && Blank(d) && NoName(b) && u == a + name + b + ("=" + d) + x
      && SetItem(u, kinds) == ValueItem(name, x, kinds).After(a + name + b + ("=" + d))
    ensures !value ==>
      && NoName(b + x) && x[0] != '=' && u == a + name + b + x
      && SetItem(u, kinds) == LineItem(x).After(a + name + b)
  {
    hide White, NameLength, Blank, NamedItem, Gap, IsNameChar, Named, NoName, Solid, SetItem, ValueItem, LineItem;
    a, name, b, x := TakeName(u, kinds);
    value, d := false, "";
    NamedSplit(name, b, x, kinds);
    if x[0] == '=' {
      value := true;
      d, x := x[1..][..White(x[1..])], x[1..][White(x[1..])..];
      AfterTwice(ValueItem(name, x, kinds), a + name + b, "=" + d);
    }
  }

  lemma TakeName(u: string, kinds: Kinds) returns (a: string, name: string, b: string, y: string)
    requires SetItem(u, kinds).said != Nothing(true)
    ensures u == a + name + b + y && SetItem(u, kinds) == NamedItem(name, y, kinds).After(a + name + b)
    ensures Blank(a) && Named(name) && (y != "" ==> SolidText(y) && Blank(b)) && NoName(b + y)
    ensures name == "" ==> b == ""
    ensures u != "" && IsSpace(u[0]) ==> Gap(a)
  {
    hide White, NameLength, Blank, NamedItem, Gap, IsNameChar;
    a, name, b, y := NameParts(u);
    var p2 := White(u) + NameLength(u[White(u)..]);
    assert u[..p2 + White(u[p2..])] == a + name + b;
  }

  lemma NamedSplit(name: string, b: string, y: string, kinds: Kinds)
    requires NamedItem(name, y, kinds).said != Nothing(true) && NoName(b + y) && (y != "" ==> SolidText(y))
    ensures y != ""
    ensures y[0] != '=' ==> NamedItem(name, y, kinds) == LineItem(y)
    ensures y[0] == '=' ==>
      var w := White(y[1..]);
      && w < |y[1..]| && Blank(y[1..][..w]) && SolidText(y[1..][w..]) && y == "=" + y[1..][..w] + y[1..][w..]
      && NamedItem(name, y, kinds) == ValueItem(name, y[1..][w..], kinds).After("=" + y[1..][..w]) && NoName(b)
  {
    hide White, ValueItem, Blank;
    if y[0] == '=' {
      var z := y[1..];
      WhiteIsBlank(z);
      AfterTwice(ValueItem(name, z[White(z)..], kinds), "=", z[..White(z)]);
    }
  }

  // ---- commands that are copied

  lemma SetItemCopied(u: string, kinds: Kinds, r': string)
    requires SetItem(u, kinds).said != Nothing(true) && Follows(u[SetItem(u, kinds).used..], r')
    ensures var i := SetItem(u, kinds);
            var y := u[..i.used] + r';
            0 < i.used && y[0] == u[0] && SetItem(y, kinds) == i
  {
    hide SetItem, ValueItem, LineItem, Follows, Blank, IsNameChar, Named, NoName;
    var value, a, name, b, d, x := TakeSet(u, kinds);
    if value {
      var h := a + name + b + ("=" + d);
      var i := ValueItem(name, x, kinds);
      ShiftedParts(h, x, i.used, r');
      ValueCopied(name, x, kinds, r');
      SetItemShape(a, name, b, d, x[..i.used] + r', kinds);
      assert 0 < |h|;
    } else {
      var h := a + name + b;
      var i := LineItem(x);
      LineSays(x);
      ShiftedParts(h, x, i.used, r');
      LineCopied(x, r');
      NoNameStays(b, x, x[..i.used] + r');
      SetItemErrorShape(a, name, b, x[..i.used] + r', kinds);
    }
  }

  lemma LineSays(x: string)
    ensures LineItem(x) == Plain(Nothing(QuoteOpen(x)), x, ToLineEnd(x))
  {
  }

  lemma NoNameStays(b: string, x: string, y: string)
    requires NoName(b + x) && x != "" && y != "" && y[0] == x[0]
    ensures NoName(b + y)
  {
  }

  /** A text that starts with a command word and then is read as `j`. */
  lemma WordCopied(word: string, u: string, j: Item, r': string)
    requires j.used <= |u| && j.used > 0
    ensures var y := u[..j.used] + r';
            (word + u)[..j.After(word).used] + r' == word + y && y != "" && y[0] == u[0]
            && (word + u)[j.After(word).used..] == u[j.used..]
  {
    ShiftedParts(word, u, j.used, r');
  }

  lemma SetCopied(c: string, kinds: Kinds, r': string)
    requires Starts(c, "set") && CommandItem(c, kinds) == SetItem(c[3..], kinds).After("set")
    requires CommandItem(c, kinds).said != Nothing(true) && Follows(c[CommandItem(c, kinds).used..], r')
    ensures var y := c[..CommandItem(c, kinds).used] + r';
            SolidText(y) && CommandItem(y, kinds) == CommandItem(c, kinds)
  {
    hide Starts, SetItem, CommandItem, Follows;
    var u := WordParts(c, "set");
    var j := SetItem(u, kinds);
    ShiftedParts("set", u, j.used, r');
    SetItemCopied(u, kinds, r');
    WordCopied("set", u, j, r');
    SetWord(u[..j.used] + r', kinds);
  }

  lemma TakeDomain(u: string) returns (a: string, domain: string, v: string)
    requires u != "" && IsSpace(u[0]) && DomainItem(u).said != Nothing(true)
    ensures u == a + domain + v && DomainItem(u) == SetItem(v, map[]).After(a + domain)
    ensures Gap(a) && Named(domain) && NoName(v) && v != "" && (domain == "" ==> SolidText(v))
  {
    hide White, NameLength, SetItem, Gap, IsNameChar;
    var p1 := White(u);
    var n := NameLength(u[p1..]);
    a, domain, v := u[..p1], u[p1..][..n], u[p1..][n..];
    SpaceGap(u);
    assert u[p1..p1 + n] == domain && u[p1 + n..] == v && u[..p1 + n] == a + domain;
    if v == "" { SetItemEmpty(); }
    if domain == "" { assert v == u[p1..]; }
  }

  lemma SetItemEmpty()
    ensures SetItem("", map[]).said == Nothing(true)
  {
  }

  lemma DomainCopied(c: string, kinds: Kinds, r': string)
    requires Starts(c, "set_domain") && CommandItem(c, kinds) == DomainItem(c[10..]).After("set_domain")
    requires CommandItem(c, kinds).said != Nothing(true) && Follows(c[CommandItem(c, kinds).used..], r')
    ensures var y := c[..CommandItem(c, kinds).used] + r';
            SolidText(y) && CommandItem(y, kinds) == CommandItem(c, kinds)
  {
    hide Starts, SetItem, DomainItem, CommandItem, Follows, Gap, Named;
    var u := WordParts(c, "set_domain");
    var a, domain, v := TakeDomain(u);
    var h := "set_domain" + (a + domain);
    var j := SetItem(v, map[]);
    assert c == h + v;
    AfterTwice(j, "set_domain", a + domain);
    ShiftedParts(h, v, j.used, r');
    SetItemCopied(v, map[], r');
    DomainShape(a, domain, v[..j.used] + r', kinds);
  }

  lemma TakeUnset(u: string, kinds: Kinds) returns (a: string, name: string, r: string)
    requires u != "" && IsSpace(u[0]) && UnsetItem(u, kinds).said != Nothing(true)
    ensures u == a + name + r && Gap(a) && Named(name) && NoName(r) && (name == "" ==> SolidText(r))
  {
    hide White, NameLength, Gap, IsNameChar, Named, NoName;
    var p1 := White(u);
    var v := u[p1..];
    var n := NameLength(v);
    a, name, r := u[..p1], v[..n], v[n..];
    SpaceGap(u);
    NameEnds(v);
    NameIs(v);
    if name == "" { assert r == v; }
  }

  lemma UnsetCopied(c: string, kinds: Kinds, r': string)
    requires Starts(c, "unset") && CommandItem(c, kinds) == UnsetItem(c[5..], kinds).After("unset")
    requires CommandItem(c, kinds).said != Nothing(true) && Follows(c[CommandItem(c, kinds).used..], r')
    ensures var y := c[..CommandItem(c, kinds).used] + r';
            SolidText(y) && CommandItem(y, kinds) == CommandItem(c, kinds)
  {
    hide Starts, CommandItem, Follows, UnsetItem, Gap, Named, NoName;
    var u := WordParts(c, "unset");
    var a, name, r := TakeUnset(u, kinds);
    var h := "unset" + (a + name);
    assert c == h + r;
    UnsetShape(a, name, r, kinds);
    FollowsKeeps(r, r');
    UnsetShape(a, name, r', kinds);
    assert c[..|h|] == h && c[|h|..] == r;
  }

  lemma FileCopied(x: string, r': string)
    requires SolidText(x) && FileItem(x).said != Nothing(true) && Follows(x[FileItem(x).used..], r')
    ensures var i := FileItem(x);
            SolidText(x[..i.used] + r') && FileItem(x[..i.used] + r') == i
  {
    hide StrBody, ToLineEnd, Follows, ReadStr, ReadOver, TornItem;
    match ReadStr(x, 0) {
      case Some((name, n)) => StringCopied(x, r');
      case None => TornCopied(x, r');
    }
  }

  /** The string at the start of a text is read alike whatever follows. */
  lemma StringCopied(x: string, z: string)
    requires ReadStr(x, 0).Some?
    ensures var n := ReadStr(x, 0).value.1;
            var y := x[..n] + z;
            SolidText(y) && ReadStr(y, 0) == ReadStr(x, 0) && ReadOver(y)[..n] == ReadOver(x)[..n]
  {
    hide StrBody, ReadStr, ReadOver;
    var (v, n) := ReadStr(x, 0).value;
    ClosedPart(x);
    StringStop(x[..n], v, z);
    StringStop(x[..n], v, x[n..]);
    assert x == x[..n] + x[n..];
  }

  lemma IncludeCopied(c: string, kinds: Kinds, r': string)
    requires Starts(c, "include") && CommandItem(c, kinds) == IncludeItem(c[7..]).After("include")
    requires CommandItem(c, kinds).said != Nothing(true) && Follows(c[CommandItem(c, kinds).used..], r')
    ensures var y := c[..CommandItem(c, kinds).used] + r';
            SolidText(y) && CommandItem(y, kinds) == CommandItem(c, kinds)
  {
    hide Starts, CommandItem, Follows, White, FileItem, Gap;
    var u := WordParts(c, "include");
    var p1 := White(u);
    var a, x := u[..p1], u[p1..];
    SpaceGap(u);
    var h := "include" + a;
    assert c == h + x;
    AfterTwice(FileItem(x), "include", a);
    ShiftedParts(h, x, FileItem(x).used, r');
    FileCopied(x, r');
    IncludeShape(a, x[..FileItem(x).used] + r', kinds);
  }

  // ---- bind commands

  lemma ActionCopied(keymap: string, keystroke: string, x: string, r': string)
    requires SolidText(x)
    requires var i := ActionItem(keymap, keystroke, x); i.said != Nothing(true) && Follows(x[i.used..], r')
    ensures var i := ActionItem(keymap, keystroke, x);
            SolidText(x[..i.used] + r') && ActionItem(keymap, keystroke, x[..i.used] + r') == i
  {
    hide StrBody, ToLineEnd, Follows, ReadStr, ReadOver, TornItem;
    match ReadStr(x, 0) {
      case Some((action, n)) => StringCopied(x, r');
      case None => TornCopied(x, r');
    }
  }

  lemma BindEqualsCopied(keymap: string, keystroke: string, y: string, r': string)
    requires SolidText(y)
    requires var i := BindEqualsItem(keymap, keystroke, y); i.said != Nothing(true) && Follows(y[i.used..], r')
    ensures var i := BindEqualsItem(keymap, keystroke, y);
            SolidText(y[..i.used] + r') && BindEqualsItem(keymap, keystroke, y[..i.used] + r') == i
  {
    hide White, Follows, ActionItem, LineItem, Blank;
    var i := BindEqualsItem(keymap, keystroke, y);
    if y[0] != '=' {
      LineSays(y);
      LineCopied(y, r');
    } else {
      var z := y[1..];
      var d, x := z[..White(z)], z[White(z)..];
      WhiteIsBlank(z);
      assert y == "=" + d + x;
      var j := ActionItem(keymap, keystroke, x);
      ShiftedParts("=" + d, x, j.used, r');
      ActionCopied(keymap, keystroke, x, r');
      BindEqualsShape(keymap, keystroke, d, x[..j.used] + r');
    }
  }

  lemma KeystrokeCopied(keymap: string, x: string, r': string)
    requires SolidText(x)
    requires var i := KeystrokeItem(keymap, x); i.said != Nothing(true) && Follows(x[i.used..], r')
    ensures var i := KeystrokeItem(keymap, x);
            SolidText(x[..i.used] + r') && KeystrokeItem(keymap, x[..i.used] + r') == i
  {
    hide White, Follows, BindEqualsItem, TornItem, Blank, ReadStr, ReadOver;
    if ReadStr(x, 0) == None {
      TornCopied(x, r');
    } else {
      var s, v, b, y := StringParts(x);
      OverParts(x, s, b, y);
      var j := BindEqualsItem(keymap, v, y);
      ShiftedParts(s + b, y, j.used, r');
      BindEqualsCopied(keymap, v, y, r');
      KeystrokeShape(keymap, s, v, b, y[..j.used] + r');
      assert (s + b + (y[..j.used] + r'))[0] == x[0];
    }
  }

  /** The part of a text up to what follows the string and the white space, after reading. */
  lemma OverParts(x: string, s: string, b: string, y: string)
    requires x == s + b + y && ReadOver(x) == ReadOver(s) + b + y
    ensures ReadOver(x)[..|s| + |b|] == ReadOver(s) + b && x[|s| + |b|..] == y
  {
    hide ReadOver;
  }

  lemma KeymapCopied(x: string, r': string)
    requires SolidText(x)
    requires KeymapItem(x).said != Nothing(true) && Follows(x[KeymapItem(x).used..], r')
    ensures var i := KeymapItem(x);
            SolidText(x[..i.used] + r') && KeymapItem(x[..i.used] + r') == i
  {
    hide White, Follows, KeystrokeItem, TornItem, Blank, ReadStr, ReadOver;
    if ReadStr(x, 0) == None {
      TornCopied(x, r');
    } else {
      var s, v, b, y := StringParts(x);
      OverParts(x, s, b, y);
      var j := KeystrokeItem(v, y);
      ShiftedParts(s + b, y, j.used, r');
      KeystrokeCopied(v, y, r');
      KeymapShape(s, v, b, y[..j.used] + r');
      assert (s + b + (y[..j.used] + r'))[0] == x[0];
    }
  }

  lemma BindCopied(c: string, kinds: Kinds, r': string)
    requires Starts(c, "bind") && CommandItem(c, kinds) == BindItem(c[4..]).After("bind")
    requires CommandItem(c, kinds).said != Nothing(true) && Follows(c[CommandItem(c, kinds).used..], r')
    ensures var y := c[..CommandItem(c, kinds).used] + r';
            SolidText(y) && CommandItem(y, kinds) == CommandItem(c, kinds)
  {
    hide Starts, CommandItem, Follows, White, KeymapItem, Gap;
    var u := WordParts(c, "bind");
    var p1 := White(u);
    var a, x := u[..p1], u[p1..];
    SpaceGap(u);
    var h := "bind" + a;
    assert c == h + x;
    AfterTwice(KeymapItem(x), "bind", a);
    ShiftedParts(h, x, KeymapItem(x).used, r');
    KeymapCopied(x, r');
    BindShape(a, x[..KeymapItem(x).used] + r', kinds);
  }

  // ---- other lines

  predicate InLine(word: string) { forall i :: 0 <= i < |word| ==> word[i] != '\n' && word[i] != '#' }

  lemma WordsInLine()
    ensures InLine("set_domain") && InLine("bind") && InLine("set") && InLine("unset") && InLine("include")
  {
  }

  lemma NotStarts(c: string, n: nat, r': string, word: string)
    requires n <= |c| && (n == |c| ==> c != word) && (n < |c| ==> c[n] == '\n' || c[n] == '#') && EndsLine(r')
    requires n < |c| ==> Follows(c[n..], r')
    requires InLine(word) && !Starts(c, word)
    ensures !Starts(c[..n] + r', word)
  {
    var y := c[..n] + r';
    if |y| > |word| {
      if n < |word| {
        assert y[..|word|][n] == y[n];
      } else if |word| < n {
        assert y[..|word|] == c[..|word|] && y[|word|] == c[|word|];
      } else {
        assert y[..|word|] == c[..n] && y[|word|] == r'[0];
        if n < |c| { assert c[n..][0] == c[n]; } else { assert c[..n] == c; }
      }
    }
  }

  lemma UnknownCopied(c: string, kinds: Kinds, r': string)
    requires SolidText(c) && !QuoteOpen(c) && !IsWord(c) && Follows(c[ToLineEnd(c)..], r')
    requires !Starts(c, "set_domain") && !Starts(c, "bind") && !Starts(c, "set") && !Starts(c, "unset")
    requires !Starts(c, "include")
    ensures var y := c[..ToLineEnd(c)] + r';
            SolidText(y) && CommandItem(y, kinds) == CommandItem(c, kinds)
  {
    hide Starts, ToLineEnd, Follows, QuoteOpen, InLine, EndsLine;
    var n := ToLineEnd(c);
    WordsInLine();
    LineCopied(c, r');
    var y := c[..n] + r';
    LineEndAt(c);
    FollowsKeeps(c[n..], r');
    LineSays(c);
    LineSays(y);
    if n < |c| { assert c[n..][0] == c[n]; }
    NotStarts(c, n, r', "set_domain");
    NotStarts(c, n, r', "bind");
    NotStarts(c, n, r', "set");
    NotStarts(c, n, r', "unset");
    NotStarts(c, n, r', "include");
    NoWord(c, n, r');
  }

  lemma NoWord(c: string, n: nat, r': string)
    requires n <= |c| && !IsWord(c) && EndsLine(r') && (n < |c| ==> r' != "")
    ensures !IsWord(c[..n] + r')
  {
    var y := c[..n] + r';
    if r' == "" {
      assert y == c;
    } else {
      assert y[n] == '\n' || y[n] == '#';
    }
  }

  /** Whatever a command says, copied it says the same in its new surroundings, and is of the same
      length: unless the end of the text ended it. */
  lemma CommandCopied(c: string, kinds: Kinds, r': string)
    requires SolidText(c)
    requires var i := CommandItem(c, kinds); i.said != Nothing(true) && Follows(c[i.used..], r')
    ensures var i := CommandItem(c, kinds);
            SolidText(c[..i.used] + r') && CommandItem(c[..i.used] + r', kinds) == i
  {
    hide Starts, SetItem, UnsetItem, IncludeItem, DomainItem, BindItem, ToLineEnd, QuoteOpen, Follows;
    if Starts(c, "set_domain") {
      DomainCopied(c, kinds, r');
    } else if Starts(c, "set") {
      SetCopied(c, kinds, r');
    } else if Starts(c, "unset") {
      UnsetCopied(c, kinds, r');
    } else if Starts(c, "bind") {
      BindCopied(c, kinds, r');
    } else if Starts(c, "include") {
      IncludeCopied(c, kinds, r');
    } else {
      UnknownCopied(c, kinds, r');
    }
  }

  lemma SetSays(u: string, kinds: Kinds)
    ensures SetItem(u, kinds).said.Assign? || SetItem(u, kinds).said.Nothing?
    ensures SetItem(u, kinds).said.Nothing? ==> SetItem(u, kinds).at == 0
  {
  }
}
