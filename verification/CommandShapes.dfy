/** Commands put together from their parts are read as those parts. */
module CommandShapes {
  import opened Basics
  import opened OptionText
  import opened ConfigText
  import opened Scanning

  /** White space as it stands after a command word. */
  ghost predicate Gap(a: string) { a != "" && IsSpace(a[0]) && Blank(a) }

  predicate Named(name: string) { forall i :: 0 <= i < |name| ==> IsNameChar(name[i]) }

  predicate SolidText(x: string) { x != "" && Solid(x[0]) }

  lemma BlankThen(a: string, z: string)
    requires Blank(a) && SolidText(z)
    ensures White(a + z) == |a|
  {
    WhiteNone(z);
  }

  lemma NameIsSolid(name: string)
    requires Named(name) && name != ""
    ensures Solid(name[0])
  {
    assert IsNameChar(name[0]);
  }

  /** The beginning common to both commands with a name: white space, the name, white space. */
  lemma NameShape(a: string, name: string, b: string, x: string)
    requires Blank(a) && Named(name) && Blank(b) && NoName(b + x) && SolidText(x)
    requires name == "" ==> b == ""
    ensures var t := a + name + b + x;
            && White(t) == |a| && NameLength(t[|a|..]) == |name| && White(t[|a| + |name|..]) == |b|
            && t[|a|..|a| + |name|] == name && t[|a| + |name| + |b|..] == x
  {
    hide White, NameLength, Blank, Solid, NoName;
    FourJoined(a, name, b, x);
    if name != "" { NameIsSolid(name); }
    assert SolidText(name + (b + x));
    BlankThen(a, name + (b + x));
    NameStop(name, b + x);
    BlankThen(b, x);
  }

  lemma FourJoined(a: string, b: string, c: string, d: string)
    ensures var t := a + b + c + d;
            && t == a + (b + (c + d)) && t[|a|..] == b + (c + d) && t[|a|..|a| + |b|] == b
            && t[|a| + |b|..] == c + d && t[|a| + |b| + |c|..] == d
  {
  }

  lemma OtherWord(t: string, word: string, i: nat)
    requires i < |word| && i < |t| && t[i] != word[i]
    ensures !Starts(t, word)
  {
    if |t| > |word| { assert t[..|word|][i] == t[i]; }
  }

  lemma StartsWith(word: string, u: string)
    requires u != "" && IsSpace(u[0])
    ensures Starts(word + u, word) && (word + u)[|word|..] == u
  {
    assert (word + u)[..|word|] == word;
  }

  lemma DomainWord(u: string, kinds: Kinds)
    requires u != "" && IsSpace(u[0])
    ensures CommandItem("set_domain" + u, kinds) == DomainItem(u).After("set_domain")
  {
    hide DomainItem, Starts;
    StartsWith("set_domain", u);
  }

  lemma SetWord(u: string, kinds: Kinds)
    requires u != "" && IsSpace(u[0])
    ensures CommandItem("set" + u, kinds) == SetItem(u, kinds).After("set")
  {
    hide SetItem, Starts;
    StartsWith("set", u);
    assert ("set" + u)[3] == u[0];
    OtherWord("set" + u, "set_domain", 3);
  }

  lemma UnsetWord(u: string, kinds: Kinds)
    requires u != "" && IsSpace(u[0])
    ensures CommandItem("unset" + u, kinds) == UnsetItem(u, kinds).After("unset")
  {
    hide UnsetItem, Starts;
    StartsWith("unset", u);
    OtherWord("unset" + u, "set_domain", 0);
    OtherWord("unset" + u, "set", 0);
  }

  lemma BindWord(u: string, kinds: Kinds)
    requires u != "" && IsSpace(u[0])
    ensures CommandItem("bind" + u, kinds) == BindItem(u).After("bind")
  {
    hide BindItem, Starts;
    StartsWith("bind", u);
    OtherWord("bind" + u, "set_domain", 0);
    OtherWord("bind" + u, "set", 0);
    OtherWord("bind" + u, "unset", 0);
  }

  lemma IncludeWord(u: string, kinds: Kinds)
    requires u != "" && IsSpace(u[0])
    ensures CommandItem("include" + u, kinds) == IncludeItem(u).After("include")
  {
    hide IncludeItem, Starts;
    StartsWith("include", u);
    OtherWord("include" + u, "set_domain", 0);
    OtherWord("include" + u, "set", 0);
    OtherWord("include" + u, "unset", 0);
    OtherWord("include" + u, "bind", 0);
  }

  lemma NoNameBefore(b: string, r: string)
    requires NoName(b) && NoName(r)
    ensures NoName(b + r)
  {
  }

  lemma SetItemShape(a: string, name: string, b: string, d: string, x: string, kinds: Kinds)
    requires Blank(a) && Named(name) && Blank(b) && NoName(b) && Blank(d) && SolidText(x)
    requires name == "" ==> b == ""
    ensures var h := a + name + b + ("=" + d);
            SetItem(h + x, kinds) == ValueItem(name, x, kinds).After(h)
  {
    hide White, NameLength, Blank, Starts, ValueItem, NamedItem, EqualsItem, SetItem;
    var rest := "=" + (d + x);
    assert NoName(b + rest) by { NoNameBefore(b, rest); }
    SetNameShape(a, name, b, rest, kinds);
    BlankThen(d, x);
    NamedItemEquals(name, d + x, kinds);
    EqualsItemValue(name, d, x, kinds);
    var i := ValueItem(name, x, kinds);
    AfterTwice(i, "=", d);
    AfterTwice(i, a + name + b, "=" + d);
    assert a + name + b + ("=" + d) + x == a + name + b + rest;
  }

  lemma SetNameShape(a: string, name: string, b: string, y: string, kinds: Kinds)
    requires Blank(a) && Named(name) && Blank(b) && NoName(b + y) && SolidText(y)
    requires name == "" ==> b == ""
    ensures SetItem(a + name + b + y, kinds) == NamedItem(name, y, kinds).After(a + name + b)
  {
    hide White, NameLength, Blank, NamedItem, SetItem, IsNameChar;
    NameShape(a, name, b, y);
    var u, p2 := a + name + b + y, |a| + |name|;
    SetItemParts(u, kinds, |a|, p2, p2 + |b|);
    assert u[..p2 + |b|] == a + name + b && u[p2..] == b + y;
  }

  /** set name = value */
  lemma SetShape(a: string, name: string, b: string, d: string, x: string, kinds: Kinds)
    requires Gap(a) && Named(name) && Blank(b) && NoName(b) && Blank(d) && SolidText(x)
    requires name == "" ==> b == ""
    ensures var h := "set" + (a + name + b + ("=" + d));
            CommandItem(h + x, kinds) == ValueItem(name, x, kinds).After(h)
  {
    hide White, NameLength, Blank, Starts, ValueItem, CommandItem, SetItem, IsNameChar, IsSpace;
    var h := a + name + b + ("=" + d);
    assert "set" + h + x == "set" + (h + x) && (h + x)[0] == a[0];
    SetWord(h + x, kinds);
    SetItemShape(a, name, b, d, x, kinds);
    AfterTwice(ValueItem(name, x, kinds), "set", h);
  }

  lemma SetItemErrorShape(a: string, name: string, b: string, x: string, kinds: Kinds)
    requires Blank(a) && Named(name) && Blank(b) && NoName(b + x) && SolidText(x) && x[0] != '='
    requires name == "" ==> b == ""
    ensures SetItem(a + name + b + x, kinds) == LineItem(x).After(a + name + b)
  {
    hide White, NameLength, Blank, ToLineEnd, QuoteOpen, SetItem, IsNameChar;
    SetNameShape(a, name, b, x, kinds);
  }

  /** set_domain domain, and what follows */
  lemma DomainShape(a: string, domain: string, v: string, kinds: Kinds)
    requires Gap(a) && Named(domain) && NoName(v) && (domain == "" ==> SolidText(v))
    ensures var h := "set_domain" + (a + domain);
            CommandItem(h + v, kinds) == SetItem(v, map[]).After(h)
  {
    hide White, NameLength, Blank, Starts, SetItem, CommandItem, Solid, IsNameChar;
    var u := a + (domain + v);
    if domain != "" { NameIsSolid(domain); }
    assert "set_domain" + (a + domain) + v == "set_domain" + u;
    DomainWord(u, kinds);
    BlankThen(a, domain + v);
    assert u[|a|..] == domain + v;
    NameStop(domain, v);
    var p2 := |a| + |domain|;
    assert u[p2..] == v && u[..p2] == a + domain;
    AfterTwice(SetItem(v, map[]), "set_domain", a + domain);
  }

  /** unset name */
  lemma UnsetShape(a: string, name: string, r: string, kinds: Kinds)
    requires Gap(a) && Named(name) && NoName(r)
    requires name == "" ==> SolidText(r)
    ensures var h := "unset" + (a + name);
            CommandItem(h + r, kinds) == Plain(if name in kinds then Remove(name) else Nothing(false), h, |h|)
  {
    hide White, NameLength, Blank, Starts, Solid, IsNameChar, CommandItem;
    var u := a + (name + r);
    if name != "" { NameIsSolid(name); }
    assert "unset" + (a + name) + r == "unset" + u;
    UnsetWord(u, kinds);
    BlankThen(a, name + r);
    assert u[|a|..] == name + r;
    NameStop(name, r);
    var p2 := |a| + |name|;
    assert u[|a|..p2] == name && u[..p2] == a + name;
    var h := "unset" + (a + name);
    assert h[..|h|] == h;
  }

  /** include, and what follows */
  lemma IncludeShape(a: string, x: string, kinds: Kinds)
    requires Gap(a) && SolidText(x)
    ensures var h := "include" + a;
            CommandItem(h + x, kinds) == FileItem(x).After(h)
  {
    hide White, Blank, Starts, FileItem, Solid, CommandItem;
    var u := a + x;
    assert "include" + a + x == "include" + u;
    IncludeWord(u, kinds);
    BlankThen(a, x);
    assert u[|a|..] == x && u[..|a|] == a;
    AfterTwice(FileItem(x), "include", a);
  }

  /** bind, and what follows */
  lemma BindShape(a: string, x: string, kinds: Kinds)
    requires Gap(a) && SolidText(x)
    ensures var h := "bind" + a;
            CommandItem(h + x, kinds) == KeymapItem(x).After(h)
  {
    hide White, Blank, Starts, KeymapItem, Solid, CommandItem;
    var u := a + x;
    assert "bind" + a + x == "bind" + u;
    BindWord(u, kinds);
    BlankThen(a, x);
    assert u[|a|..] == x && u[..|a|] == a;
    AfterTwice(KeymapItem(x), "bind", a);
  }

  /** A string that is closed, alone, reads as `v`. */
  predicate IsString(s: string, v: string) { ReadStr(s, 0) == Some((v, |s|)) }

  /** Such a string is read alike, and alone is blanked, whatever follows. */
  lemma StringStop(s: string, v: string, z: string)
    requires IsString(s, v)
    ensures ReadStr(s + z, 0) == Some((v, |s|)) && ReadOver(s + z) == ReadOver(s) + z
    ensures s != "" && Solid(s[0])
  {
    hide StrBody, Blanked;
    var t := s[1..];
    assert t[..|t|] == t;
    StrBodyStop(t, z);
    BlankedPart(t, z);
    assert (s + z)[1..] == t + z;
    assert Blanked(t)[..|t|] == Blanked(t);
  }

  lemma KeymapShape(s: string, keymap: string, b: string, y: string)
    requires IsString(s, keymap) && Blank(b) && SolidText(y)
    ensures KeymapItem(s + b + y) == KeystrokeItem(keymap, y).After(ReadOver(s) + b)
  {
    hide White, Blank, StrBody, ReadStr, ReadOver, KeystrokeItem;
    StringStop(s, keymap, b + y);
    var x := s + (b + y);
    assert s + b + y == x && x[|s|..] == b + y;
    BlankThen(b, y);
    assert x[|s| + |b|..] == y;
    assert (ReadOver(s) + (b + y))[..|s| + |b|] == ReadOver(s) + b;
  }

  lemma KeystrokeShape(keymap: string, s: string, keystroke: string, b: string, y: string)
    requires IsString(s, keystroke) && Blank(b) && SolidText(y)
    ensures KeystrokeItem(keymap, s + b + y) == BindEqualsItem(keymap, keystroke, y).After(ReadOver(s) + b)
  {
    hide White, Blank, StrBody, ReadStr, ReadOver, BindEqualsItem;
    StringStop(s, keystroke, b + y);
    var x := s + (b + y);
    assert s + b + y == x && x[|s|..] == b + y;
    BlankThen(b, y);
    assert x[|s| + |b|..] == y;
    assert (ReadOver(s) + (b + y))[..|s| + |b|] == ReadOver(s) + b;
  }

  lemma BindEqualsShape(keymap: string, keystroke: string, d: string, x: string)
    requires Blank(d) && SolidText(x)
    ensures BindEqualsItem(keymap, keystroke, "=" + d + x) == ActionItem(keymap, keystroke, x).After("=" + d)
  {
    hide White, Blank, ActionItem;
    var y := "=" + d + x;
    assert y[1..] == d + x;
    BlankThen(d, x);
    assert (d + x)[|d|..] == x && (d + x)[..|d|] == d;
  }

  // ---- taking commands apart

  lemma SpaceGap(x: string)
    requires x != "" && IsSpace(x[0]) && White(x) < |x|
    ensures Gap(x[..White(x)])
  {
    WhiteIsBlank(x);
    WhiteSpaceStep(x);
  }

  /** A text that starts with a command word. */
  lemma WordParts(c: string, word: string) returns (u: string)
    requires Starts(c, word)
    ensures c == word + u && u == c[|word|..] && u != "" && IsSpace(u[0])
  {
    u := c[|word|..];
  }

  /** The white space, name and white space at the start of a text. */
  lemma NameParts(u: string) returns (a: string, name: string, b: string, x: string)
    requires White(u) < |u|
    ensures var p1 := White(u); var p2 := p1 + NameLength(u[p1..]); var p3 := p2 + White(u[p2..]);
            && a == u[..p1] && name == u[p1..p2] && b == u[p2..p3] && x == u[p3..] && u == a + name + b + x
            && Blank(a) && Named(name) && (x != "" ==> SolidText(x) && Blank(b)) && NoName(b + x)
            && (name == "" ==> b == "")
            && (IsSpace(u[0]) ==> Gap(a))
  {
    hide White, NameLength, Blank, IsNameChar, Solid, NoName, Named, Gap, SolidText;
    var p1 := White(u);
    var n := NameLength(u[p1..]);
    var w := White(u[p1 + n..]);
    a, name, b, x := u[..p1], u[p1..p1 + n], u[p1 + n..p1 + n + w], u[p1 + n + w..];
    FourParts(u, p1, n, w);
    WhiteIsBlank(u);
    if IsSpace(u[0]) { SpaceGap(u); }
    WhiteThenSolid(u);
    NameThenWhite(u[p1..]);
  }

  lemma WhiteThenSolid(u: string)
    requires White(u) < |u|
    ensures SolidText(u[White(u)..])
  {
  }

  lemma NameThenWhite(v: string)
    requires SolidText(v)
    ensures var n := NameLength(v); var y := v[n..]; var w := White(y);
            && Named(v[..n]) && NoName(y) && (n == 0 ==> w == 0)
            && (y[w..] != "" ==> SolidText(y[w..]) && Blank(y[..w]))
  {
    hide White, NameLength, Blank, IsNameChar, Solid, NoName, Named, SolidText;
    var n := NameLength(v);
    var y := v[n..];
    NameEnds(v);
    NameIs(v);
    if White(y) < |y| {
      WhiteIsBlank(y);
      WhiteThenSolid(y);
    }
    if n == 0 { NoWhite(v); }
  }

  lemma NoWhite(v: string)
    requires SolidText(v)
    ensures White(v) == 0 && v[0..] == v
  {
    WhiteNone(v);
  }

  lemma FourParts(u: string, p1: nat, n: nat, w: nat)
    requires p1 + n + w <= |u|
    ensures u[p1..p1 + n] == u[p1..][..n] && u[p1 + n..] == u[p1..][n..]
    ensures u[p1 + n..p1 + n + w] == u[p1 + n..][..w] && u[p1 + n + w..] == u[p1 + n..][w..]
    ensures u == u[..p1] + u[p1..p1 + n] + u[p1 + n..p1 + n + w] + u[p1 + n + w..]
    ensures u[p1 + n..] == u[p1 + n..p1 + n + w] + u[p1 + n + w..]
  {
  }

  lemma NameIs(v: string)
    ensures Named(v[..NameLength(v)])
  {
    hide NameLength, IsNameChar;
  }

  /** The string at the start of a text, the white space behind it and the rest. */
  lemma StringParts(x: string) returns (s: string, v: string, b: string, y: string)
    requires ReadStr(x, 0).Some?
    ensures var n := ReadStr(x, 0).value.1;
            && s == x[..n] && v == ReadStr(x, 0).value.0 && IsString(s, v)
            && b == x[n..][..White(x[n..])] && y == x[n + White(x[n..])..] && x == s + b + y
            && ReadOver(x) == ReadOver(s) + b + y
            && (y != "" ==> Blank(b) && SolidText(y)) && s != ""
  {
    hide White, StrBody, Blanked, Blank, ReadStr, ReadOver;
    var n := ReadStr(x, 0).value.1;
    v, s := ReadStr(x, 0).value.0, x[..n];
    ClosedPart(x);
    b, y := x[n..][..White(x[n..])], x[n..][White(x[n..])..];
    StringStop(s, v, b + y);
    assert x == s + (b + y) && s + b + y == s + (b + y);
    if y != "" { WhiteIsBlank(x[n..]); }
  }

  lemma ClosedPart(x: string)
    requires ReadStr(x, 0).Some?
    ensures var (v, n) := ReadStr(x, 0).value; IsString(x[..n], v)
  {
    hide StrBody;
    var n := ReadStr(x, 0).value.1;
    StrBodyStop(x[1..], "");
    assert x[..n][1..] == x[1..][..n - 1] + "";
  }
}
