/** A configuration file that was rewritten is cut into commands where the old one was, and says
    what the options and the key bindings say; so saving text and loading it gives every option
    back. */
module ConfigRoundTrip {
  import opened Basics
  import opened OptionText
  import opened ConfigSave
  import opened ConfigText
  import opened Scanning
  import opened CommandShapes
  import opened CopiedCommands

  /** Names are words, values fit their options, and live values are ones that read back. */
  ghost predicate GoodOptions(o: Options, kinds: Kinds) {
    && o.Keys == kinds.Keys
    && forall n :: n in o ==>
      && n != "" && Named(n) && GoodKind(kinds[n]) && Fits(kinds[n], o[n].value)
      && (!o[n].deleted ==> Faithful(o[n].value))
  }

  predicate PlainText(s: string) { forall i :: 0 <= i < |s| ==> !IsQuote(s[i]) && s[i] != '\\' }

  /** The names of keymaps and actions need no escaping. */
  predicate GoodKeys(keys: Keys) {
    && (forall k :: k in keys.acts ==> PlainText(keys.acts[k]))
    && (forall i :: 0 <= i < |keys.more| ==> PlainText(keys.more[i].keymap) && PlainText(keys.more[i].action))
  }

  /** What must follow a command so that it can become the opposite one.  `doomed` are the options
      that are deleted, or may be later. */
  predicate Room(s: Said, r: string, kinds: Kinds, doomed: set<string>) {
    match s
    case Assign(n, _) => n in doomed ==> NoName(r)
    case Remove(n) => n in kinds && kinds[n].Num? ==> EndsToken(r)
    case _ => true
  }

  /** A command that saving may rewrite or copy without changing how its neighbours or itself read:
      it is not ended by the end of the text only; no name character follows a value of an option that
      may be deleted, and white space, a comment or nothing the name of a number that is unset; and no
      string that is copied from it is continued over a line end. */
  predicate CleanItem(i: Item, c: string, kinds: Kinds, doomed: set<string>)
    requires i.In(c)
  {
    && i.said != Nothing(true) && Room(i.said, c[i.used..], kinds, doomed)
    && (i.said.Assign? || i.left == c[..i.used])
  }

  predicate Clean(t: string, kinds: Kinds, doomed: set<string>)
    decreases |t|
  {
    var w := White(t);
    w == |t| ||
    var i := CommandItem(t[w..], kinds);
    CleanItem(i, t[w..], kinds, doomed) && Clean(t[w..][i.used..], kinds, doomed)
  }

  predicate AllDoomed(o: Options, doomed: set<string>) { forall n :: n in o && o[n].deleted ==> n in doomed }

  /** What a command says after saving. */
  function SaidNow(s: Said, o: Options, acts: Acts): Said {
    match s
    case Assign(n, _) => if n !in o then s else if o[n].deleted then Remove(n) else Assign(n, o[n].value)
    case Remove(n) => if n !in o || o[n].deleted then s else Assign(n, o[n].value)
    case Bound(line) => Bound(BindNow(line, acts))
    case _ => s
  }

  function BindNow(line: BindLine, acts: Acts): BindLine {
    match ActOf(line, acts)
    case Some(action) => line.(action := action)
    case None => line
  }

  function Now(said: seq<Said>, o: Options, acts: Acts): seq<Said> {
    if said == [] then [] else [SaidNow(said[0], o, acts)] + Now(said[1..], o, acts)
  }

  function BindsNow(lines: seq<BindLine>, acts: Acts): (r: seq<BindLine>)
    ensures |r| == |lines|
  {
    if lines == [] then [] else [BindNow(lines[0], acts)] + BindsNow(lines[1..], acts)
  }

  // ---- values

  lemma WriteSolid(k: Kind, v: Value)
    requires Fits(k, v)
    ensures SolidText(Write(k, v))
  {
    hide PrintNat;
    match v
    case N(n) =>
      assert IsDigit(PrintNat(0)[0]);
      NumSolid(n);
    case S(s) =>
  }

  lemma NumSolid(n: int)
    ensures SolidText(WriteNum(n))
  {
    hide PrintNat;
    IntSolid(n);
    IntSolid(n / MEBI);
    IntSolid(n / KIBI);
  }

  lemma IntSolid(n: int)
    ensures PrintInt(n) != "" && SolidText(PrintInt(n))
  {
    hide PrintNat;
    if n >= 0 { assert IsDigit(PrintNat(n)[0]); }
  }

  /** A live option written behind an equals sign is read as what it is. */
  lemma WrittenItem(n: string, o: Options, kinds: Kinds, r: string)
    requires GoodOptions(o, kinds) && n in o && !o[n].deleted && MayFollow(o[n].value, r)
    ensures var i := ValueItem(n, Write(kinds[n], o[n].value) + r, kinds);
            i.said == Assign(n, o[n].value) && i.used == |Write(kinds[n], o[n].value)|
  {
    hide Read, Write, ReadOver;
    WriteSolid(kinds[n], o[n].value);
    ValueRoundTrip(kinds[n], o[n].value, r);
  }

  // ---- rewritten commands

  lemma SetLineReads(n: string, o: Options, kinds: Kinds, r: string)
    requires GoodOptions(o, kinds) && n in o && !o[n].deleted && MayFollow(o[n].value, r)
    ensures var p := "set " + n + " = " + Write(kinds[n], o[n].value);
            var i := CommandItem(p + r, kinds);
            i.said == Assign(n, o[n].value) && i.used == |p|
  {
    hide Write, ValueItem, CommandItem, Blank;
    var v := Write(kinds[n], o[n].value);
    SpacesBlank(" ");
    WriteSolid(kinds[n], o[n].value);
    SetShape(" ", n, " ", " ", v + r, kinds);
    WrittenItem(n, o, kinds, r);
    var h := "set" + (" " + n + " " + ("=" + " "));
    assert h == "set " + n + " = ";
    assert h + (v + r) == "set " + n + " = " + v + r;
  }

  lemma UnsetLineReads(n: string, kinds: Kinds, r: string)
    requires n in kinds && n != "" && Named(n) && NoName(r)
    ensures CommandItem("unset " + n + r, kinds) == Item(Remove(n), |"unset " + n|, 0, "unset " + n)
  {
    hide CommandItem, Blank;
    SpacesBlank(" ");
    UnsetShape(" ", n, r, kinds);
    var h := "unset" + (" " + n);
    assert h == "unset " + n && h[..|h|] == h;
  }

  /** A set command with a value it can read, taken apart. */
  lemma AssignParts(c: string, kinds: Kinds) returns (a: string, name: string, b: string, d: string, x: string)
    requires SolidText(c) && CommandItem(c, kinds).said.Assign?
    ensures var i := CommandItem(c, kinds);
            var h := "set" + (a + name + b + ("=" + d));
            && Gap(a) && Named(name) && (name == "" ==> b == "") && Blank(b) && NoName(b) && Blank(d) && SolidText(x)
            && c == h + x && i.at == |h| && i.left[..i.at] == h
            && name == i.said.name && name in kinds
  {
    hide Starts, SetItem, LineItem, Blank, Gap, IsNameChar, Named, NoName, Read, ValueItem;
    CommandSays(c, kinds);
    var u := WordParts(c, "set");
    var value;
    value, a, name, b, d, x := TakeSet(u, kinds);
    LineSays(x);
    ValueSays(name, x, kinds);
    AfterTwice(ValueItem(name, x, kinds), "set", a + name + b + ("=" + d));
  }

  lemma ValueSays(name: string, x: string, kinds: Kinds)
    requires x != ""
    ensures ValueItem(name, x, kinds).said.Nothing?
            || (name in kinds && ValueItem(name, x, kinds).said.Assign? && ValueItem(name, x, kinds).said.name == name)
    ensures ValueItem(name, x, kinds).at == 0
  {
    hide Read, SkipValue, StrBody, ReadOver;
  }

  lemma DomainSays(u: string)
    ensures DomainItem(u).said.Nothing?
  {
    hide White, NameLength, SetItem;
    var v := u[White(u) + NameLength(u[White(u)..])..];
    SetSays(v, map[]);
    if SetItem(v, map[]).said.Assign? {
      var value, a, name, b, d, x := TakeSet(v, map[]);
      ValueSays(name, x, map[]);
      LineSays(x);
    }
  }

  lemma IncludeSays(u: string)
    ensures IncludeItem(u).said.Included? || IncludeItem(u).said.Nothing?
  {
    hide White, ReadStr, ReadOver, ToLineEnd, QuoteOpen;
  }

  predicate BindSays(s: Said) { s.Bound? || s.Nothing? }

  lemma BindItemSays(u: string)
    ensures BindSays(BindItem(u).said)
  {
    hide White, KeymapItem;
    if White(u) < |u| { KeymapSays(u[White(u)..]); }
  }

  lemma KeymapSays(x: string)
    ensures BindSays(KeymapItem(x).said)
  {
    hide White, ReadStr, ReadOver, ToLineEnd, QuoteOpen, BindEqualsItem;
    forall keymap, y ensures BindSays(KeystrokeItem(keymap, y).said) { KeystrokeSays(keymap, y); }
  }

  lemma KeystrokeSays(keymap: string, x: string)
    ensures BindSays(KeystrokeItem(keymap, x).said)
  {
    hide White, ReadStr, ReadOver, ToLineEnd, QuoteOpen;
  }

  /** Only the set command assigns, and so on. */
  lemma CommandSays(c: string, kinds: Kinds)
    requires SolidText(c)
    ensures var i := CommandItem(c, kinds);
      && (i.said.Assign? ==> Starts(c, "set") && i == SetItem(c[3..], kinds).After("set"))
      && (i.said.Remove? ==> Starts(c, "unset") && i.said.name in kinds && i == UnsetItem(c[5..], kinds).After("unset"))
      && (i.said.Bound? ==> Starts(c, "bind") && i == BindItem(c[4..]).After("bind"))
  {
    hide SetItem, DomainItem, BindItem, IncludeItem, ToLineEnd, White, NameLength, QuoteOpen;
    if Starts(c, "set_domain") {
      DomainSays(c[10..]);
    } else if Starts(c, "set") {
      SetSays(c[3..], kinds);
    } else if Starts(c, "unset") {
    } else if Starts(c, "bind") {
      BindItemSays(c[4..]);
    } else if Starts(c, "include") {
      IncludeSays(c[7..]);
    }
  }

  // ---- rewritten bind commands

  /** Another text where the action of a bind command was. */
  lemma EqualsWith(keymap: string, keystroke: string, y: string, z: string)
    requires SolidText(y) && SolidText(z) && BindEqualsItem(keymap, keystroke, y).said.Bound?
    ensures var i := BindEqualsItem(keymap, keystroke, y);
            && i.said.line.keymap == keymap && i.said.line.keystroke == keystroke
            && SolidText(y[..i.at] + z)
            && BindEqualsItem(keymap, keystroke, y[..i.at] + z)
                 == ActionItem(keymap, keystroke, z).After(i.left[..i.at])
  {
    hide White, ActionItem, LineItem, Blank;
    var d, x := y[1..][..White(y[1..])], y[1..][White(y[1..])..];
    LineSays(y);
    WhiteIsBlank(y[1..]);
    assert y == "=" + d + x;
    ActionAt(keymap, keystroke, x);
    BindEqualsShape(keymap, keystroke, d, z);
  }

  lemma ActionAt(keymap: string, keystroke: string, x: string)
    ensures var i := ActionItem(keymap, keystroke, x);
            i.at == 0 && (i.said.Bound? ==> i.said.line.keymap == keymap && i.said.line.keystroke == keystroke)
  {
    hide ReadStr, ReadOver, ToLineEnd, QuoteOpen;
  }

  /** What is read behind a string and white space, with another text `z` where its action was. */
  lemma ItemWith(s: string, b: string, y: string, j: Item, z: string, k: Item)
    requires j.In(y) && s != ""
    ensures var x := s + b + y; var i := j.After(ReadOver(s) + b); var m := |s| + |b| + j.at;
            && m <= |x| && x[..m] + z == s + b + (y[..j.at] + z) && x[..m] + z != "" && (x[..m] + z)[0] == s[0]
            && k.After(j.left[..j.at]).After(ReadOver(s) + b) == k.After(i.left[..m])
  {
    hide ReadOver;
    ShiftedParts(s + b, y, j.at, z);
    AfterTwice(k, ReadOver(s) + b, j.left[..j.at]);
    assert (ReadOver(s) + b + j.left)[..|s| + |b| + j.at] == ReadOver(s) + b + j.left[..j.at];
  }

  lemma KeystrokeWith(keymap: string, x: string, z: string)
    requires SolidText(x) && SolidText(z) && KeystrokeItem(keymap, x).said.Bound?
    ensures var i := KeystrokeItem(keymap, x);
            && i.said.line.keymap == keymap
            && SolidText(x[..i.at] + z)
            && KeystrokeItem(keymap, x[..i.at] + z)
                 == ActionItem(keymap, i.said.line.keystroke, z).After(i.left[..i.at])
  {
    hide White, BindEqualsItem, ActionItem, Blank, ReadStr, ReadOver, ToLineEnd, QuoteOpen;
    var s, v, b, y := StringParts(x);
    OverParts(x, s, b, y);
    var j := BindEqualsItem(keymap, v, y);
    EqualsWith(keymap, v, y, z);
    ItemWith(s, b, y, j, z, ActionItem(keymap, v, z));
    KeystrokeShape(keymap, s, v, b, y[..j.at] + z);
  }

  lemma KeymapWith(x: string, z: string)
    requires SolidText(x) && SolidText(z) && KeymapItem(x).said.Bound?
    ensures var i := KeymapItem(x);
            && SolidText(x[..i.at] + z)
            && KeymapItem(x[..i.at] + z)
                 == ActionItem(i.said.line.keymap, i.said.line.keystroke, z).After(i.left[..i.at])
  {
    hide White, KeystrokeItem, ActionItem, Blank, ReadStr, ReadOver, ToLineEnd, QuoteOpen;
    var s, v, b, y := StringParts(x);
    OverParts(x, s, b, y);
    var j := KeystrokeItem(v, y);
    KeystrokeWith(v, y, z);
    ItemWith(s, b, y, j, z, ActionItem(v, j.said.line.keystroke, z));
    KeymapShape(s, v, b, y[..j.at] + z);
  }

  lemma BindWith(c: string, kinds: Kinds, z: string)
    requires SolidText(c) && SolidText(z) && CommandItem(c, kinds).said.Bound?
    ensures var i := CommandItem(c, kinds);
            && 0 < i.at && SolidText(c[..i.at] + z)
            && CommandItem(c[..i.at] + z, kinds)
                 == ActionItem(i.said.line.keymap, i.said.line.keystroke, z).After(i.left[..i.at])
  {
    hide Starts, CommandItem, White, KeymapItem, ActionItem, Gap;
    CommandSays(c, kinds);
    var u := WordParts(c, "bind");
    var a, x := u[..White(u)], u[White(u)..];
    SpaceGap(u);
    var h := "bind" + a;
    assert c == h + x;
    var j := KeymapItem(x);
    AfterTwice(j, "bind", a);
    KeymapWith(x, z);
    ShiftedParts(h, x, j.at, z);
    BindShape(a, x[..j.at] + z, kinds);
    AfterTwice(ActionItem(j.said.line.keymap, j.said.line.keystroke, z), h, j.left[..j.at]);
    assert (h + j.left)[..|h| + j.at] == h + j.left[..j.at];
  }

  /** An action as bind_act writes it. */
  lemma ActionReads(keymap: string, keystroke: string, action: string, r: string)
    requires PlainText(action)
    ensures var q := "\"" + action + "\"";
            SolidText(q + r)
            && ActionItem(keymap, keystroke, q + r) == Item(Bound(BindLine(keymap, keystroke, action)), |q|, 0, q)
  {
    hide StrBody, ReadStr, ReadOver;
    QuotedPlain(action);
    StrRoundTrip(action, 0, r);
    PlainOver(action, r);
    var q := "\"" + action + "\"";
    assert (q + r)[..|q|] == q;
  }

  lemma PlainOver(s: string, r: string)
    requires PlainText(s)
    ensures ReadOver("\"" + s + "\"" + r) == "\"" + s + "\"" + r
  {
    var t := "\"" + s + "\"" + r;
    assert t[1..] == s + "\"" + r;
    NeverContinued(s, r);
    ReadOverSame(t);
  }

  lemma {:induction false} NeverContinued(s: string, r: string)
    requires PlainText(s)
    ensures !Continued(s + "\"" + r)
    decreases |s|
  {
    var t := s + "\"" + r;
    if s != "" {
      assert t[0] == s[0] && t[1..] == s[1..] + "\"" + r;
      NeverContinued(s[1..], r);
    }
  }

  // ---- commands, rewritten or copied

  /** A number that was read is followed by white space, a comment or the end. */
  lemma NumberAlone(c: string, kinds: Kinds)
    requires SolidText(c) && CommandItem(c, kinds).said.Assign?
    ensures var i := CommandItem(c, kinds);
            i.said.name in kinds && (kinds[i.said.name].Num? ==> EndsToken(c[i.used..]))
  {
    hide CommandItem, EndsToken, ValueItem, Blank, Gap, Strtolx, Named, NoName;
    var a, n, b, d, x := AssignParts(c, kinds);
    SetShape(a, n, b, d, x, kinds);
    var h := "set" + (a + n + b + ("=" + d));
    var j := ValueItem(n, x, kinds);
    if kinds[n].Num? { ValueAlone(n, x, kinds); }
    assert c[|h| + j.used..] == x[j.used..];
  }

  lemma ValueAlone(n: string, x: string, kinds: Kinds)
    requires x != "" && n in kinds && kinds[n].Num? && ValueItem(n, x, kinds).said.Assign?
    ensures EndsToken(x[ValueItem(n, x, kinds).used..])
  {
    hide Strtolx, StrBody, EndsToken;
  }

  lemma UnsetAlone(c: string, kinds: Kinds)
    requires SolidText(c) && CommandItem(c, kinds).said.Remove?
    ensures NoName(c[CommandItem(c, kinds).used..])
  {
    hide CommandItem, White, Starts;
    CommandSays(c, kinds);
    var u := c[5..];
    var v := u[White(u)..];
    NameEnds(v);
    assert c[CommandItem(c, kinds).used..] == v[NameLength(v)..];
  }

  /** A command, rewritten or copied, says what the options and bindings say now. */
  lemma PieceReads(c: string, o: Options, kinds: Kinds, acts: Acts, r': string, doomed: set<string>)
    requires GoodOptions(o, kinds) && AllDoomed(o, doomed) && SolidText(c)
    requires forall k :: k in acts ==> PlainText(acts[k])
    requires var i := CommandItem(c, kinds); CleanItem(i, c, kinds, doomed) && Follows(c[i.used..], r')
    ensures var i := CommandItem(c, kinds);
            var p := Piece(i, o, kinds, acts);
            && SolidText(p + r') && (p + r')[|p|..] == r'
            && var j := CommandItem(p + r', kinds);
            && CleanItem(j, p + r', kinds, doomed) && j.said == SaidNow(i.said, o, acts) && j.used == |p|
            && p != "" && (p[0] == c[0] || (CommandLetter(c[0]) && CommandLetter(p[0])))
  {
    hide Write, CommandItem, Follows, EndsToken, ValueItem, Blank, Gap, Starts, NoName, Fits, Faithful, GoodKind,
         Named, PlainText, Piece, SaidNow, Item.After, Plain, SetItem, UnsetItem, BindItem;
    var i := CommandItem(c, kinds);
    var p := Piece(i, o, kinds, acts);
    FollowsKeeps(c[i.used..], r');
    CommandSays(c, kinds);
    assert (p + r')[..|p|] == p && (p + r')[|p|..] == r';
    match i.said {
      case Assign(_, _) =>
        NumberAlone(c, kinds);
        AssignPiece(c, o, kinds, acts, r');
      case Remove(_) =>
        UnsetAlone(c, kinds);
        RemovePiece(c, o, kinds, acts, r');
      case Bound(line) => BoundPiece(c, o, kinds, acts, r');
      case _ => OtherPiece(c, o, kinds, acts, r');
    }
  }

  lemma OtherPiece(c: string, o: Options, kinds: Kinds, acts: Acts, r': string)
    requires SolidText(c)
    requires var i := CommandItem(c, kinds);
             (i.said.Included? || i.said == Nothing(false)) && Follows(c[i.used..], r') && i.left == c[..i.used]
    ensures var i := CommandItem(c, kinds);
            var p := Piece(i, o, kinds, acts);
            && SolidText(p + r') && p != "" && p[0] == c[0]
            && CommandItem(p + r', kinds) == i && SaidNow(i.said, o, acts) == i.said && i.used == |p| && i.left == p
  {
    hide CommandItem, Follows, Item.After, Plain;
    CommandCopied(c, kinds, r');
  }

  lemma TokenEndsName(r: string)
    ensures EndsToken(r) ==> NoName(r)
  {
  }

  /** Live numbers are followed by white space, a comment or the end. */
  lemma ValueMayFollow(n: string, o: Options, kinds: Kinds, r: string)
    requires GoodOptions(o, kinds) && n in o && (kinds[n].Num? ==> EndsToken(r))
    ensures MayFollow(o[n].value, r)
  {
    hide EndsToken, Faithful, Named;
  }

  lemma AssignPiece(c: string, o: Options, kinds: Kinds, acts: Acts, r': string)
    requires GoodOptions(o, kinds) && SolidText(c) && CommandItem(c, kinds).said.Assign?
    requires var n := CommandItem(c, kinds).said.name;
             n in kinds && (if o[n].deleted then NoName(r') else kinds[n].Num? ==> EndsToken(r'))
    ensures var i := CommandItem(c, kinds);
            var p := Piece(i, o, kinds, acts);
            && SolidText(p + r') && p != "" && CommandLetter(c[0]) && CommandLetter(p[0])
            && var j := CommandItem(p + r', kinds);
            && j.said == SaidNow(i.said, o, acts) && j.used == |p|
            && (j.said.Assign? || (j.said.Remove? && j.left == p))
            && j.said.name == i.said.name
  {
    hide Write, CommandItem, EndsToken, ValueItem, Blank, Gap, Starts, Fits, Faithful, GoodKind, IsNameChar;
    var i := CommandItem(c, kinds);
    var a, n, b, d, x := AssignParts(c, kinds);
    if o[n].deleted {
      UnsetLineReads(n, kinds, r');
    } else {
      var h := "set" + (a + n + b + ("=" + d));
      var v := Write(kinds[n], o[n].value);
      assert h + v + r' == h + (v + r');
      WriteSolid(kinds[n], o[n].value);
      SetShape(a, n, b, d, v + r', kinds);
      ValueMayFollow(n, o, kinds, r');
      WrittenItem(n, o, kinds, r');
    }
  }

  lemma RemovePiece(c: string, o: Options, kinds: Kinds, acts: Acts, r': string)
    requires GoodOptions(o, kinds) && SolidText(c) && CommandItem(c, kinds).said.Remove?
    requires var n := CommandItem(c, kinds).said.name; n in kinds && (kinds[n].Num? ==> EndsToken(r'))
    requires Follows(c[CommandItem(c, kinds).used..], r')
    requires CommandItem(c, kinds).left == c[..CommandItem(c, kinds).used]
    ensures var i := CommandItem(c, kinds);
            var p := Piece(i, o, kinds, acts);
            && SolidText(p + r') && p != "" && CommandLetter(c[0]) && CommandLetter(p[0])
            && var j := CommandItem(p + r', kinds);
            && j.said == SaidNow(i.said, o, acts) && j.used == |p|
            && (j.said.Assign? || (j.said.Remove? && j.left == p))
            && j.said.name == i.said.name
  {
    hide Write, CommandItem, EndsToken, ValueItem, Blank, Gap, Fits, Faithful, GoodKind, IsNameChar, Follows;
    CommandSays(c, kinds);
    assert c[..5] == "unset" && c[0] == c[..5][0];
    var n := CommandItem(c, kinds).said.name;
    if o[n].deleted {
      CommandCopied(c, kinds, r');
    } else {
      ValueMayFollow(n, o, kinds, r');
      SetLineReads(n, o, kinds, r');
    }
  }

  lemma BoundPiece(c: string, o: Options, kinds: Kinds, acts: Acts, r': string)
    requires SolidText(c) && CommandItem(c, kinds).said.Bound? && (forall k :: k in acts ==> PlainText(acts[k]))
    requires Follows(c[CommandItem(c, kinds).used..], r')
    requires CommandItem(c, kinds).left == c[..CommandItem(c, kinds).used]
    ensures var i := CommandItem(c, kinds);
            var p := Piece(i, o, kinds, acts);
            && SolidText(p + r') && p != "" && p[0] == c[0]
            && var j := CommandItem(p + r', kinds);
            && j.said == SaidNow(i.said, o, acts) && j.said.Bound? && j.used == |p| && j.left == p
  {
    hide CommandItem, Follows, PlainText, ActionItem;
    var i := CommandItem(c, kinds);
    var line := i.said.line;
    if ActOf(line, acts).Some? {
      var action := ActOf(line, acts).value;
      var q := "\"" + action + "\"";
      ActionReads(line.keymap, line.keystroke, action, r');
      BindWith(c, kinds, q + r');
      assert i.left[..i.at] == c[..i.at];
      assert i.left[..i.at] + "\"" + action + "\"" == i.left[..i.at] + q;
      assert i.left[..i.at] + q + r' == c[..i.at] + (q + r');
    } else {
      CommandCopied(c, kinds, r');
    }
  }

  // ---- whole files

  lemma SayingsStep(t: string, kinds: Kinds)
    requires White(t) < |t|
    ensures var c := t[White(t)..]; var i := CommandItem(c, kinds);
            Sayings(t, kinds) == [i.said] + Sayings(c[i.used..], kinds)
  {
    hide CommandItem, White;
  }

  lemma CleanStep(t: string, kinds: Kinds, doomed: set<string>)
    requires White(t) < |t|
    ensures var c := t[White(t)..]; var i := CommandItem(c, kinds);
            Clean(t, kinds, doomed) <==> CleanItem(i, c, kinds, doomed) && Clean(c[i.used..], kinds, doomed)
  {
    hide CommandItem, White, CleanItem;
  }

  lemma SayingsEnd(t: string, kinds: Kinds)
    requires White(t) == |t|
    ensures Sayings(t, kinds) == []
    ensures forall doomed :: Clean(t, kinds, doomed)
  {
    hide White;
  }

  /** Nothing but white space and comments says nothing, whatever comes after it on a new line. */
  lemma WhiteSays(t: string, tail: string, kinds: Kinds, doomed: set<string>)
    requires White(t) == |t| && (tail == "" || tail[0] == '\n')
    ensures Sayings(t + tail, kinds) == Sayings(tail, kinds)
    ensures Clean(t + tail, kinds, doomed) <==> Clean(tail, kinds, doomed)
  {
    hide White;
    WhiteAll(t, tail);
    SkippedSays(t, tail, kinds, doomed);
  }

  /** What is skipped at the start says nothing. */
  lemma SkippedSays(a: string, z: string, kinds: Kinds, doomed: set<string>)
    requires White(a + z) == |a| + White(z)
    ensures Sayings(a + z, kinds) == Sayings(z, kinds) && (Clean(a + z, kinds, doomed) <==> Clean(z, kinds, doomed))
  {
    hide CommandItem, White, Sayings, Clean, CleanItem;
    var all, w := a + z, White(z);
    assert all[|a| + w..] == z[w..];
    if w < |z| {
      SayingsStep(all, kinds);
      SayingsStep(z, kinds);
      CleanStep(all, kinds, doomed);
      CleanStep(z, kinds, doomed);
    } else {
      SayingsEnd(all, kinds);
      SayingsEnd(z, kinds);
    }
  }

  lemma MirrorTextStep(t: string, o: Options, kinds: Kinds, acts: Acts)
    requires White(t) < |t|
    ensures var w := White(t); var c := t[w..]; var i := CommandItem(c, kinds);
            MirrorText(t, o, kinds, acts) == t[..w] + Piece(i, o, kinds, acts) + MirrorText(c[i.used..], o, kinds, acts)
  {
    hide CommandItem, White, Piece;
  }

  /** The rewritten file, with more lines after it, says what the rewritten commands say and then
      what the lines say; it is clean again, and cut into commands at the same places. */
  lemma {:induction false} MirrorReads(t: string, tail: string, o: Options, kinds: Kinds, acts: Acts,
                                       doomed: set<string>)
    requires GoodOptions(o, kinds) && AllDoomed(o, doomed) && Clean(t, kinds, doomed)
    requires forall k :: k in acts ==> PlainText(acts[k])
    requires (tail == "" || tail[0] == '\n') && Clean(tail, kinds, doomed)
    ensures var m := MirrorText(t, o, kinds, acts) + tail;
            && Sayings(m, kinds) == Now(Sayings(t, kinds), o, acts) + Sayings(tail, kinds)
            && Clean(m, kinds, doomed) && Follows(t, m)
    decreases |t|
  {
    hide CommandItem, White, Piece, Sayings, Clean, MirrorText, CleanItem, GoodOptions, PlainText, Follows, Now;
    var w := White(t);
    if w == |t| {
      MirrorNothing(t, o, kinds, acts);
      FollowsItself(t, tail);
      WhiteSays(t, tail, kinds, doomed);
    } else {
      var c := t[w..];
      var i := CommandItem(c, kinds);
      var r := c[i.used..];
      var p := Piece(i, o, kinds, acts);
      var r' := MirrorText(r, o, kinds, acts) + tail;
      SayingsStep(t, kinds);
      CleanStep(t, kinds, doomed);
      MirrorTextStep(t, o, kinds, acts);
      MirrorReads(r, tail, o, kinds, acts, doomed);
      PieceReads(c, o, kinds, acts, r', doomed);
      var m := MirrorText(t, o, kinds, acts) + tail;
      assert m == t[..w] + (p + r');
      WhiteStop(t, p + r');
      WhiteNone(p + r');
      assert m[w..] == p + r';
      SayingsStep(m, kinds);
      CleanStep(m, kinds, doomed);
      NowFirst(i.said, Sayings(r, kinds), Sayings(tail, kinds), o, acts);
      FirstStays(t, m, w, p);
    }
  }

  lemma NowFirst(s: Said, rest: seq<Said>, tail: seq<Said>, o: Options, acts: Acts)
    ensures Now([s] + rest, o, acts) + tail == [SaidNow(s, o, acts)] + (Now(rest, o, acts) + tail)
  {
    assert ([s] + rest)[1..] == rest;
  }

  lemma FirstStays(t: string, m: string, w: nat, p: string)
    requires w < |t| && w < |m| && m[..w] == t[..w] && p != "" && m[w] == p[0]
    requires p[0] == t[w] || (CommandLetter(t[w]) && CommandLetter(p[0]))
    ensures Follows(t, m)
  {
    if w > 0 { assert m[0] == m[..w][0] && t[0] == t[..w][0]; }
  }

  lemma FollowsItself(t: string, tail: string)
    requires tail == "" || tail[0] == '\n'
    ensures Follows(t, t + tail)
  {
  }

  lemma MirrorNothing(t: string, o: Options, kinds: Kinds, acts: Acts)
    requires White(t) == |t|
    ensures MirrorText(t, o, kinds, acts) == t && Sayings(t, kinds) == [] && Now([], o, acts) == []
  {
  }

  // ---- from what commands say to what they do

  lemma {:induction false} MeantOfConcat(a: seq<Said>, b: seq<Said>, files: Files)
    ensures Meant(a + b, files) == Meant(a, files) + Meant(b, files)
  {
    hide Says;
    if a == [] {
      assert a + b == b;
    } else {
      assert (a + b)[0] == a[0] && (a + b)[1..] == a[1..] + b;
      MeantOfConcat(a[1..], b, files);
    }
  }

  lemma {:induction false} BindsOfConcat(a: seq<Said>, b: seq<Said>)
    ensures BindsOf(a + b) == BindsOf(a) + BindsOf(b)
  {
    if a == [] {
      assert a + b == b;
    } else {
      assert (a + b)[0] == a[0] && (a + b)[1..] == a[1..] + b;
      BindsOfConcat(a[1..], b);
    }
  }

  lemma {:induction false} RewriteOfConcat(a: seq<Command>, b: seq<Command>, o: Options)
    ensures Rewrite(a + b, o) == Rewrite(a, o) + Rewrite(b, o)
  {
    if a == [] {
      assert a + b == b;
    } else {
      assert (a + b)[0] == a[0] && (a + b)[1..] == a[1..] + b;
      RewriteOfConcat(a[1..], b, o);
    }
  }

  /** Only options that are known are set and unset. */
  predicate Known(said: seq<Said>, o: Options) {
    forall i :: 0 <= i < |said| && (said[i].Assign? || said[i].Remove?) ==> said[i].name in o
  }

  lemma SaysNow(s: Said, o: Options, acts: Acts, files: Files)
    requires s.Assign? || s.Remove? ==> s.name in o
    ensures Says(SaidNow(s, o, acts), files) == Rewrite(Says(s, files), o)
  {
    if Says(s, files) != [] { assert Says(s, files)[1..] == []; }
  }

  lemma {:induction false} MeantNow(said: seq<Said>, o: Options, acts: Acts, files: Files)
    requires Known(said, o)
    ensures Meant(Now(said, o, acts), files) == Rewrite(Meant(said, files), o)
    ensures BindsOf(Now(said, o, acts)) == BindsNow(BindsOf(said), acts)
  {
    hide Says, Rewrite;
    EmptyRewrite(o);
    if said != [] {
      MeantNow(said[1..], o, acts, files);
      SaysNow(said[0], o, acts, files);
      RewriteOfConcat(Says(said[0], files), Meant(said[1..], files), o);
      BindsFirst(said, o, acts);
      NowStep(said, o, acts);
    }
  }

  lemma NowStep(said: seq<Said>, o: Options, acts: Acts)
    requires said != []
    ensures var n := Now(said, o, acts);
            n != [] && n[0] == SaidNow(said[0], o, acts) && n[1..] == Now(said[1..], o, acts)
  {
  }

  lemma BindsFirst(said: seq<Said>, o: Options, acts: Acts)
    requires said != []
    ensures BindsNow(BindsOf(said), acts)
            == (if said[0].Bound? then [SaidNow(said[0], o, acts).line] else []) + BindsNow(BindsOf(said[1..]), acts)
  {
    var rest := BindsOf(said[1..]);
    if said[0].Bound? {
      assert BindsOf(said)[1..] == rest;
    } else {
      assert BindsOf(said) == rest && [] + BindsNow(rest, acts) == BindsNow(rest, acts);
    }
  }

  lemma {:induction false} SayingsKnown(t: string, o: Options, kinds: Kinds)
    requires o.Keys == kinds.Keys
    ensures Known(Sayings(t, kinds), o)
    decreases |t|
  {
    hide CommandItem, White, Sayings;
    if White(t) == |t| {
      SayingsEnd(t, kinds);
    } else {
      var c := t[White(t)..];
      SayingsStep(t, kinds);
      CommandSays(c, kinds);
      if CommandItem(c, kinds).said.Assign? { var a, n, b, d, x := AssignParts(c, kinds); }
      SayingsKnown(c[CommandItem(c, kinds).used..], o, kinds);
    }
  }

  // ---- the lines that are appended

  lemma BlankSays(a: string, z: string, kinds: Kinds, doomed: set<string>)
    requires Blank(a)
    ensures Sayings(a + z, kinds) == Sayings(z, kinds) && (Clean(a + z, kinds, doomed) <==> Clean(z, kinds, doomed))
  {
    hide White;
    assert White(a + z) == |a| + White(z);
    SkippedSays(a, z, kinds, doomed);
  }

  ghost predicate GoodLayout(layout: Layout, kinds: Kinds) {
    && (forall n :: n in layout.order <==> n in kinds)
    && (forall n :: n in layout.order ==> n in layout.notes && Blank(layout.notes[n]))
    && Blank(layout.header) && layout.header != "" && layout.header[0] == '\n'
    && Blank(layout.bindHeader) && layout.bindHeader != "" && layout.bindHeader[0] == '\n'
    && White(layout.preamble) == |layout.preamble|
  }

  /** A line that is a command, and what comes after it. */
  lemma LineSaysOnce(p: string, rest: string, kinds: Kinds, doomed: set<string>)
    requires var t := p + ("\n" + rest);
             SolidText(t) && CommandItem(t, kinds).used == |p| && CleanItem(CommandItem(t, kinds), t, kinds, doomed)
    ensures Sayings(p + "\n" + rest, kinds) == [CommandItem(p + ("\n" + rest), kinds).said] + Sayings(rest, kinds)
    ensures Clean(p + "\n" + rest, kinds, doomed) <==> Clean(rest, kinds, doomed)
  {
    hide CommandItem, White, Sayings, Clean, CleanItem, Blank;
    var t := p + ("\n" + rest);
    assert p + "\n" + rest == t && t[0..] == t && t[|p|..] == "\n" + rest;
    WhiteNone(t);
    SayingsStep(t, kinds);
    CleanStep(t, kinds, doomed);
    SpacesBlank("\n");
    BlankSays("\n", rest, kinds, doomed);
  }

  function SaidBy(c: Command): Said
    requires !c.Include?
  {
    if c.Set? then Assign(c.name, c.value) else Remove(c.name)
  }

  function SaidByAll(cmds: seq<Command>): seq<Said>
    requires forall c :: c in cmds ==> !c.Include?
  {
    if cmds == [] then [] else [SaidBy(cmds[0])] + SaidByAll(cmds[1..])
  }

  lemma {:induction false} SaidByMeans(cmds: seq<Command>, files: Files)
    requires forall c :: c in cmds ==> !c.Include?
    ensures Meant(SaidByAll(cmds), files) == cmds && BindsOf(SaidByAll(cmds)) == []
  {
    if cmds != [] {
      SaidByMeans(cmds[1..], files);
      assert SaidByAll(cmds)[1..] == SaidByAll(cmds[1..]);
      assert cmds == [cmds[0]] + cmds[1..];
    }
  }

  lemma LineReads(n: string, o: Options, kinds: Kinds, r: string, doomed: set<string>)
    requires GoodOptions(o, kinds) && n in o && EndsToken(r)
    ensures var p := Line(n, o, kinds);
            SolidText(p + r) &&
            var i := CommandItem(p + r, kinds);
            i.used == |p| && i.said == SaidBy(Current(n, o)) && CleanItem(i, p + r, kinds, doomed)
  {
    hide CommandItem, Write, EndsToken, Fits, Faithful, GoodKind, Named;
    TokenEndsName(r);
    var p := Line(n, o, kinds);
    assert (p + r)[..|p|] == p && (p + r)[|p|..] == r;
    if o[n].deleted {
      UnsetLineReads(n, kinds, r);
    } else {
      ValueMayFollow(n, o, kinds, r);
      SetLineReads(n, o, kinds, r);
    }
  }

  /** A comment, the line of an option and what comes after it on a new line. */
  lemma NotedLineSays(note: string, n: string, o: Options, kinds: Kinds, rest: string, doomed: set<string>)
    requires GoodOptions(o, kinds) && n in o && Blank(note)
    ensures var t := note + Line(n, o, kinds) + "\n" + rest;
            && Sayings(t, kinds) == [SaidBy(Current(n, o))] + Sayings(rest, kinds)
            && (Clean(t, kinds, doomed) <==> Clean(rest, kinds, doomed))
  {
    hide CommandItem, White, Line, Fits, Faithful, GoodKind, Named, Sayings, Clean, CleanItem;
    var p := Line(n, o, kinds);
    assert note + p + "\n" + rest == note + (p + "\n" + rest);
    BlankSays(note, p + "\n" + rest, kinds, doomed);
    LineReads(n, o, kinds, "\n" + rest, doomed);
    LineSaysOnce(p, rest, kinds, doomed);
  }

  lemma {:induction false} AppendedReads(order: seq<string>, o: Options, kinds: Kinds, notes: map<string, string>,
                                         z: string, doomed: set<string>)
    requires GoodOptions(o, kinds)
    requires forall n :: n in order ==> n in o && n in notes && Blank(notes[n])
    ensures forall c :: c in Appended(order, o) ==> !c.Include?
    ensures var t := AppendedText(order, o, kinds, notes) + z;
            Sayings(t, kinds) == SaidByAll(Appended(order, o)) + Sayings(z, kinds)
              && (Clean(t, kinds, doomed) <==> Clean(z, kinds, doomed))
  {
    hide CommandItem, White, Line, Fits, Faithful, GoodKind, Named, Blank, Sayings, Clean;
    if order == [] {
      assert "" + z == z;
    } else {
      var n, rest := order[0], AppendedText(order[1..], o, kinds, notes) + z;
      AppendedReads(order[1..], o, kinds, notes, z, doomed);
      if o[n].mustSave {
        NotedLineSays(notes[n], n, o, kinds, rest, doomed);
        assert notes[n] + Line(n, o, kinds) + "\n" + AppendedText(order[1..], o, kinds, notes) + z
               == notes[n] + Line(n, o, kinds) + "\n" + rest;
        assert Appended(order, o)[1..] == Appended(order[1..], o);
      } else {
        assert "" + AppendedText(order[1..], o, kinds, notes) == AppendedText(order[1..], o, kinds, notes);
        assert [] + Appended(order[1..], o) == Appended(order[1..], o);
      }
    }
  }

  /** An equals sign and an action, as a line of bind_config_string ends. */
  lemma ActionLineReads(b: BindLine, r: string)
    requires PlainText(b.action)
    ensures var p := "= \"" + b.action + "\"";
            SolidText(p + r) && BindEqualsItem(b.keymap, b.keystroke, p + r) == Item(Bound(b), |p|, 2, p)
  {
    hide BindEqualsItem, ActionItem, PlainText;
    var q := "\"" + b.action + "\"";
    SpacesBlank(" ");
    ActionReads(b.keymap, b.keystroke, b.action, r);
    BindEqualsShape(b.keymap, b.keystroke, " ", q + r);
    assert "=" + " " == "= " && "= " + q == "= \"" + b.action + "\"" && "= " + (q + r) == "= " + q + r;
  }

  lemma KeystrokeLineReads(b: BindLine, r: string)
    requires PlainText(b.action)
    ensures var h := OptString(b.keystroke) + " ";
            var p := h + ("= \"" + b.action + "\"");
            SolidText(p + r) && KeystrokeItem(b.keymap, p + r) == Item(Bound(b), |p|, |h| + 2, p)
  {
    hide KeystrokeItem, BindEqualsItem, PlainText, Quoted, ReadStr, ReadOver, Blank;
    var q := "= \"" + b.action + "\"";
    var h := OptString(b.keystroke) + " ";
    SpacesBlank(" ");
    WrittenIsString(b.keystroke);
    ActionLineReads(b, r);
    KeystrokeShape(b.keymap, OptString(b.keystroke), b.keystroke, " ", q + r);
    assert h + (q + r) == h + q + r && (h + q + r)[0] == '"';
  }

  lemma KeymapLineReads(b: BindLine, r: string)
    requires PlainText(b.keymap) && PlainText(b.action)
    ensures var h := "\"" + b.keymap + "\" ";
            var p := h + (OptString(b.keystroke) + " " + ("= \"" + b.action + "\""));
            SolidText(p + r) && KeymapItem(p + r) == Item(Bound(b), |p|, |h| + |OptString(b.keystroke)| + 3, p)
  {
    hide KeymapItem, KeystrokeItem, PlainText, OptString, ReadStr, ReadOver, Blank;
    var q := OptString(b.keystroke) + " " + ("= \"" + b.action + "\"");
    var s := "\"" + b.keymap + "\"";
    SpacesBlank(" ");
    PlainIsString(b.keymap);
    KeystrokeLineReads(b, r);
    KeymapShape(s, b.keymap, " ", q + r);
    var h := "\"" + b.keymap + "\" ";
    assert s + " " == h && h + (q + r) == h + q + r && (h + q + r)[0] == '"';
  }

  /** A line of bind_config_string. */
  lemma BindLineReads(b: BindLine, kinds: Kinds, r: string, doomed: set<string>)
    requires PlainText(b.keymap) && PlainText(b.action)
    ensures var p := LineOfBind(b);
            SolidText(p + r) &&
            var i := CommandItem(p + r, kinds);
            i.used == |p| && i.said == Bound(b) && CleanItem(i, p + r, kinds, doomed)
  {
    hide CommandItem, KeymapItem, PlainText, Quoted, Blank, OptString, LineOfBind;
    var x := "\"" + b.keymap + "\" " + (OptString(b.keystroke) + " " + ("= \"" + b.action + "\""));
    SpacesBlank(" ");
    KeymapLineReads(b, r);
    BindShape(" ", x + r, kinds);
    var p := LineOfBind(b);
    LineOfBindIs(b);
    assert "bind" + " " + (x + r) == "bind" + " " + x + r;
    assert (p + r)[..|p|] == p;
  }

  lemma LineOfBindIs(b: BindLine)
    ensures LineOfBind(b)
            == "bind" + " " + ("\"" + b.keymap + "\" " + (OptString(b.keystroke) + " " + ("= \"" + b.action + "\"")))
  {
    hide Quoted;
  }

  lemma PlainIsString(s: string)
    requires PlainText(s)
    ensures var t := "\"" + s + "\""; IsString(t, s) && ReadOver(t) == t && SolidText(t)
  {
    hide StrBody, Blanked;
    QuotedPlain(s);
    WrittenIsString(s);
  }

  /** What add_quoted_to_string writes between quotes is a string, and never a continued one. */
  lemma WrittenIsString(s: string)
    ensures var t := OptString(s); IsString(t, s) && ReadOver(t) == t && SolidText(t)
  {
    hide StrBody, Blanked, Quoted;
    var t := OptString(s);
    StrRoundTrip(s, 0, "");
    assert t + "" == t;
    QuotedContinues(s, "\"");
    assert t[1..] == Quoted(s) + "\"";
    ReadOverSame(t);
  }

  lemma {:induction false} QuotedContinues(s: string, z: string)
    requires z != "" && IsQuote(z[0])
    ensures !Continued(Quoted(s) + z)
    decreases |s|
  {
    if s == "" {
      assert Quoted(s) + z == z;
    } else {
      QuotedContinues(s[1..], z);
      var q := QuotedChar(s[0]);
      QuotedFirst(s);
      var t := Quoted(s) + z;
      assert t == q + (Quoted(s[1..]) + z);
      assert t[|q|..] == Quoted(s[1..]) + z;
    }
  }

  function BoundAll(more: seq<BindLine>): seq<Said> {
    if more == [] then [] else [Bound(more[0])] + BoundAll(more[1..])
  }

  lemma {:induction false} BoundAllMeans(more: seq<BindLine>, files: Files)
    ensures Meant(BoundAll(more), files) == [] && BindsOf(BoundAll(more)) == more
  {
    if more != [] {
      BoundAllMeans(more[1..], files);
      assert BoundAll(more)[1..] == BoundAll(more[1..]);
    }
  }

  lemma {:induction false} BindTextReads(more: seq<BindLine>, kinds: Kinds, doomed: set<string>)
    requires forall i :: 0 <= i < |more| ==> PlainText(more[i].keymap) && PlainText(more[i].action)
    ensures Sayings(BindText(more), kinds) == BoundAll(more) && Clean(BindText(more), kinds, doomed)
  {
    hide CommandItem, White, LineOfBind, PlainText;
    if more != [] {
      var rest := BindText(more[1..]);
      assert forall i :: 0 <= i < |more| - 1 ==> more[1..][i] == more[i + 1];
      BindTextReads(more[1..], kinds, doomed);
      BindLineReads(more[0], kinds, "\n" + rest, doomed);
      LineSaysOnce(LineOfBind(more[0]), rest, kinds, doomed);
    } else {
      SayingsEnd("", kinds);
    }
  }

  /** All that is appended says the options and bindings that were to be appended. */
  lemma TailReads(flags: Options, kinds: Kinds, layout: Layout, keys: Keys, doomed: set<string>)
    requires GoodOptions(flags, kinds) && GoodLayout(layout, kinds) && GoodKeys(keys)
    ensures forall c :: c in Appended(layout.order, flags) ==> !c.Include?
    ensures var t := TailText(flags, kinds, layout, keys);
            && Sayings(t, kinds) == SaidByAll(Appended(layout.order, flags)) + BoundAll(keys.more)
            && Clean(t, kinds, doomed) && (t == "" || t[0] == '\n')
  {
    hide AppendedText, Appended, BindText, Sayings, Clean, White, Fits, Faithful, GoodKind, Named, PlainText, Blank;
    var z := if keys.more == [] then "" else layout.bindHeader + BindText(keys.more);
    assert Sayings(z, kinds) == BoundAll(keys.more) && Clean(z, kinds, doomed) by {
      if keys.more == [] {
        SayingsNone(kinds, doomed);
      } else {
        BindTextReads(keys.more, kinds, doomed);
        BlankSays(layout.bindHeader, BindText(keys.more), kinds, doomed);
      }
    }
    var lines := AppendedText(layout.order, flags, kinds, layout.notes);
    AppendedReads(layout.order, flags, kinds, layout.notes, z, doomed);
    if Appended(layout.order, flags) == [] {
      assert "" + z == z && SaidByAll([]) + BoundAll(keys.more) == BoundAll(keys.more);
    } else {
      BlankSays(layout.header, lines + z, kinds, doomed);
      assert layout.header + lines + z == layout.header + (lines + z);
    }
  }

  lemma SayingsNone(kinds: Kinds, doomed: set<string>)
    ensures Sayings("", kinds) == [] && Clean("", kinds, doomed) && BoundAll([]) == []
  {
  }

  // ---- the theorem

  lemma FlagsGood(style: Style, text: string, o: Options, kinds: Kinds, files: Files)
    requires GoodOptions(o, kinds)
    ensures var flags := FlagsAfter(style, text, o, kinds, files); SameButFlags(o, flags) && GoodOptions(flags, kinds)
  {
    hide Commands, Fits, Faithful, GoodKind, Named;
    var cmds := if style == Fresh then [] else Commands(text, kinds, files);
    var prepared := Prepare(o, SetsAll(style));
    forall n | n in o ensures Mirror(cmds, prepared)[n] == o[n].(mustSave := Mirror(cmds, prepared)[n].mustSave) {
      MirrorKeeps(cmds, prepared, n);
    }
  }

  /** The lines behind the old ones, and what they say. */
  lemma AppendedSays(style: Style, flags: Options, kinds: Kinds, layout: Layout, keys: Keys, doomed: set<string>)
    requires GoodOptions(flags, kinds) && GoodLayout(layout, kinds) && GoodKeys(keys)
    ensures forall c :: c in Appended(layout.order, flags) ==> !c.Include?
    ensures var t := if style == Alter then "" else TailText(flags, kinds, layout, keys);
            && Sayings(t, kinds)
                 == (if style == Alter then [] else SaidByAll(Appended(layout.order, flags)) + BoundAll(keys.more))
            && Clean(t, kinds, doomed) && (t == "" || t[0] == '\n')
  {
    hide TailText, Sayings, Clean, Appended;
    TailReads(flags, kinds, layout, keys, doomed);
    SayingsNone(kinds, doomed);
  }

  /** What the whole of the saved text says. */
  lemma SavedTextSays(style: Style, text: string, o: Options, kinds: Kinds, files: Files, layout: Layout, keys: Keys,
                      doomed: set<string>)
    requires GoodOptions(o, kinds) && AllDoomed(o, doomed) && Clean(text, kinds, doomed) && GoodLayout(layout, kinds)
    requires GoodKeys(keys)
    ensures var s := SavedText(style, text, o, kinds, files, layout, keys);
            var flags := FlagsAfter(style, text, o, kinds, files);
            && (forall c :: c in Appended(layout.order, flags) ==> !c.Include?)
            && Sayings(s, kinds) == Now(if style == Fresh then [] else Sayings(text, kinds), o, keys.acts)
                                    + (if style == Alter then []
                                       else SaidByAll(Appended(layout.order, flags)) + BoundAll(keys.more))
            && Clean(s, kinds, doomed)
  {
    hide Sayings, Clean, MirrorText, TailText, FlagsAfter, Appended, Blank, White, Fits, Faithful, GoodKind, Named,
         PlainText, SaidByAll, BoundAll, GoodKeys, AllDoomed;
    var flags := FlagsAfter(style, text, o, kinds, files);
    FlagsGood(style, text, o, kinds, files);
    var tail := if style == Alter then "" else TailText(flags, kinds, layout, keys);
    AppendedSays(style, flags, kinds, layout, keys, doomed);
    NothingBefore();
    WhiteSays(layout.preamble, tail, kinds, doomed);
    SayingsNone(kinds, doomed);
    if style != Fresh {
      hide GoodOptions, GoodLayout;
      MirrorSays(text, tail, o, kinds, keys, doomed);
    }
  }

  lemma MirrorSays(text: string, tail: string, o: Options, kinds: Kinds, keys: Keys, doomed: set<string>)
    requires GoodOptions(o, kinds) && AllDoomed(o, doomed) && Clean(text, kinds, doomed) && GoodKeys(keys)
    requires (tail == "" || tail[0] == '\n') && Clean(tail, kinds, doomed)
    ensures var m := MirrorText(text, o, kinds, keys.acts);
            && Sayings(m + tail, kinds) == Now(Sayings(text, kinds), o, keys.acts) + Sayings(tail, kinds)
            && Sayings(m, kinds) == Now(Sayings(text, kinds), o, keys.acts) && Clean(m + tail, kinds, doomed)
  {
    hide Sayings, Clean, MirrorText, GoodOptions, PlainText, Now, AllDoomed;
    var m := MirrorText(text, o, kinds, keys.acts);
    MirrorReads(text, tail, o, kinds, keys.acts, doomed);
    SayingsNone(kinds, doomed);
    MirrorReads(text, "", o, kinds, keys.acts, doomed);
    var now := Now(Sayings(text, kinds), o, keys.acts);
    assert m + "" == m && now + [] == now;
  }

  lemma NothingBefore()
    ensures forall said: seq<Said> :: [] + said == said
  {
  }

  /** Cutting the saved text into commands gives exactly the commands that were to be saved, and
      the bind commands with the actions of now and those that were appended; and the text is clean
      again. */
  lemma SavedTextReads(style: Style, text: string, o: Options, kinds: Kinds, files: Files, layout: Layout, keys: Keys,
                       doomed: set<string>)
    requires GoodOptions(o, kinds) && AllDoomed(o, doomed) && Clean(text, kinds, doomed) && GoodLayout(layout, kinds)
    requires GoodKeys(keys)
    ensures var s := SavedText(style, text, o, kinds, files, layout, keys);
            && Commands(s, kinds, files) == Saved(style, Commands(text, kinds, files), layout.order, o)
            && Binds(s, kinds) == BindsNow(if style == Fresh then [] else Binds(text, kinds), keys.acts)
                                  + (if style == Alter then [] else keys.more)
            && Clean(s, kinds, doomed)
  {
    hide Sayings, Clean, SavedText, Appended, Blank, White, Fits, Faithful, GoodKind, Named, Mirror, Rewrite, Meant,
         BindsOf, Now, SaidByAll, BoundAll, BindsNow, GoodKeys, Known;
    SavedTextSays(style, text, o, kinds, files, layout, keys, doomed);
    var old' := if style == Fresh then [] else Sayings(text, kinds);
    SayingsKnown(text, o, kinds);
    KnownNone(o);
    NothingMeant(o, files);
    var more := Appended(layout.order, FlagsAfter(style, text, o, kinds, files));
    AllMeant(old', if style == Alter then [] else more, o, files, if style == Alter then Keys(keys.acts, []) else keys);
    if style == Alter { SaidNothing(); }
  }

  /** What the rewritten commands, the appended options and the appended bindings mean. */
  lemma AllMeant(said: seq<Said>, cmds: seq<Command>, o: Options, files: Files, keys: Keys)
    requires Known(said, o) && forall c :: c in cmds ==> !c.Include?
    ensures var all := Now(said, o, keys.acts) + (SaidByAll(cmds) + BoundAll(keys.more));
            && Meant(all, files) == Rewrite(Meant(said, files), o) + cmds
            && BindsOf(all) == BindsNow(BindsOf(said), keys.acts) + keys.more
  {
    hide Meant, BindsOf, Now, SaidByAll, BoundAll, BindsNow, Rewrite, Known;
    MeantOfConcat(Now(said, o, keys.acts), SaidByAll(cmds) + BoundAll(keys.more), files);
    MeantOfConcat(SaidByAll(cmds), BoundAll(keys.more), files);
    BindsOfConcat(Now(said, o, keys.acts), SaidByAll(cmds) + BoundAll(keys.more));
    BindsOfConcat(SaidByAll(cmds), BoundAll(keys.more));
    SaidByMeans(cmds, files);
    BoundAllMeans(keys.more, files);
    MeantNow(said, o, keys.acts, files);
  }

  lemma SaidNothing()
    ensures SaidByAll([]) + BoundAll([]) == []
  {
  }

  lemma KnownNone(o: Options)
    ensures Known([], o)
  {
  }

  lemma NothingMeant(o: Options, files: Files)
    ensures Meant([], files) == [] && BindsOf([]) == [] && Rewrite([], o) == []
  {
  }

  lemma EmptyRewrite(o: Options)
    ensures Rewrite([], o) == []
  {
  }

  /** Saving the options as text and loading that text gives an option back exactly when saving and
      loading the commands does: see ConfigSave.SavedOptionLoads. */
  lemma SavedTextLoads(style: Style, text: string, o: Options, base: Options, kinds: Kinds, files: Files,
                       layout: Layout, keys: Keys, n: string, doomed: set<string>)
    requires GoodOptions(o, kinds) && AllDoomed(o, doomed) && Clean(text, kinds, doomed) && GoodLayout(layout, kinds)
    requires GoodKeys(keys)
    requires o.Keys == base.Keys && n in o
    ensures Agrees(o[n], Load(Commands(SavedText(style, text, o, kinds, files, layout, keys), kinds, files), base)[n])
            <==> Restorable(style, Commands(text, kinds, files), o, base, n)
  {
    hide Commands, Clean, MirrorText, Blank, White, Fits, Faithful, GoodKind, Named, SavedText, Saved, Binds, PlainText;
    SavedTextReads(style, text, o, kinds, files, layout, keys, doomed);
    SavedOptionLoads(style, Commands(text, kinds, files), layout.order, o, base, n);
  }

  // ---- whole runs

  datatype TextState = TextState(text: string, options: Options)

  /** A step of the run, and for a save what the keymaps have to save then and how the options are
      written then: both change with the options themselves, with the style and with what is appended. */
  datatype Step = Step(act: Action, keys: Keys, layout: Layout)

  /** A step that is not a save. */
  function Quietly(act: Action): Step { Step(act, Keys(map[], []), Layout([], map[], "", "", "")) }

  predicate Writable(e: Step, names: set<string>, kinds: Kinds) {
    e.act.Save? ==> forall n :: n in e.layout.order ==> n in names && n in kinds && n in e.layout.notes
  }

  function ActText(e: Step, s: TextState, kinds: Kinds, files: Files): (r: TextState)
    requires Writable(e, s.options.Keys, kinds)
    ensures r.options.Keys == s.options.Keys
  {
    match e.act
    case Change(n, v) =>
      if n in s.options then s.(options := s.options[n := s.options[n].(value := v, touched := true)]) else s
    case Delete(n) =>
      if n in s.options then s.(options := s.options[n := s.options[n].(deleted := true, touched := true)]) else s
    case Save(style, written) =>
      var flags := FlagsAfter(style, s.text, s.options, kinds, files);
      if written then TextState(SavedText(style, s.text, s.options, kinds, files, e.layout, e.keys), Untouch(flags))
      else s.(options := flags)
  }

  function RunText(steps: seq<Step>, s: TextState, kinds: Kinds, files: Files): (r: TextState)
    requires forall e :: e in steps ==> Writable(e, s.options.Keys, kinds)
    ensures r.options.Keys == s.options.Keys
  {
    if steps == [] then s else RunText(steps[1..], ActText(steps[0], s, kinds, files), kinds, files)
  }

  function ActsOf(steps: seq<Step>): seq<Action> {
    if steps == [] then [] else [steps[0].act] + ActsOf(steps[1..])
  }

  /** Options are changed to values that fit them and that read back, and deleted if they may be.
      They are written in the order of the tree of options, between any comments. */
  ghost predicate GoodStep(e: Step, kinds: Kinds, order: seq<string>, doomed: set<string>) {
    && (e.act.Change? && e.act.name in kinds ==> Fits(kinds[e.act.name], e.act.value) && Faithful(e.act.value))
    && (e.act.Delete? ==> e.act.name in doomed)
    && (e.act.Save? ==> GoodKeys(e.keys) && GoodLayout(e.layout, kinds) && e.layout.order == order)
  }

  ghost predicate GoodState(s: TextState, kinds: Kinds, doomed: set<string>) {
    GoodOptions(s.options, kinds) && AllDoomed(s.options, doomed) && Clean(s.text, kinds, doomed)
  }

  /** The state of the command level that a state of the text level stands for. */
  function Abstract(s: TextState, kinds: Kinds, files: Files): State {
    State(Commands(s.text, kinds, files), s.options)
  }

  lemma StepWritable(e: Step, o: Options, kinds: Kinds, order: seq<string>, doomed: set<string>)
    requires o.Keys == kinds.Keys && GoodStep(e, kinds, order, doomed)
    ensures Writable(e, o.Keys, kinds)
  {
    hide Blank, White, Fits, Faithful, GoodKeys;
  }

  lemma EditReads(e: Step, s: TextState, kinds: Kinds, files: Files, order: seq<string>, doomed: set<string>)
    requires GoodState(s, kinds, doomed) && GoodStep(e, kinds, order, doomed) && !e.act.Save?
    requires forall n :: n in order <==> n in s.options
    ensures var r := ActText(e, s, kinds, files);
            GoodState(r, kinds, doomed) && Abstract(r, kinds, files) == Act(e.act, Abstract(s, kinds, files), order)
  {
    hide Commands, Clean, SavedText, FlagsAfter, Fits, Faithful, GoodKind, Named;
  }

  lemma SaveReads(e: Step, s: TextState, kinds: Kinds, files: Files, order: seq<string>, doomed: set<string>)
    requires GoodState(s, kinds, doomed) && GoodStep(e, kinds, order, doomed) && e.act.Save?
    requires Writable(e, s.options.Keys, kinds) && forall n :: n in order <==> n in s.options
    ensures var r := ActText(e, s, kinds, files);
            GoodState(r, kinds, doomed) && Abstract(r, kinds, files) == Act(e.act, Abstract(s, kinds, files), order)
  {
    hide Commands, Clean, SavedText, Saved, Fits, Faithful, GoodKind, Named, Binds, GoodKeys, GoodLayout, BindsNow;
    SavedTextReads(e.act.style, s.text, s.options, kinds, files, e.layout, e.keys, doomed);
    FlagsGood(e.act.style, s.text, s.options, kinds, files);
  }

  lemma ActTextReads(e: Step, s: TextState, kinds: Kinds, files: Files, order: seq<string>, doomed: set<string>)
    requires GoodState(s, kinds, doomed) && GoodStep(e, kinds, order, doomed) && forall n :: n in order <==> n in kinds
    ensures Writable(e, s.options.Keys, kinds) && forall n :: n in order <==> n in s.options
    ensures var r := ActText(e, s, kinds, files);
            GoodState(r, kinds, doomed) && Abstract(r, kinds, files) == Act(e.act, Abstract(s, kinds, files), order)
  {
    hide Clean, ActText, Act, Fits, Faithful, GoodKind, Named, GoodStep, Writable, Abstract;
    StepWritable(e, s.options, kinds, order, doomed);
    if e.act.Save? {
      SaveReads(e, s, kinds, files, order, doomed);
    } else {
      EditReads(e, s, kinds, files, order, doomed);
    }
  }

  lemma AllWritable(steps: seq<Step>, o: Options, kinds: Kinds, order: seq<string>, doomed: set<string>)
    requires o.Keys == kinds.Keys && forall e :: e in steps ==> GoodStep(e, kinds, order, doomed)
    ensures forall e :: e in steps ==> Writable(e, o.Keys, kinds)
  {
    hide GoodStep, Writable;
    forall e | e in steps ensures Writable(e, o.Keys, kinds) { StepWritable(e, o, kinds, order, doomed); }
  }

  lemma {:induction false} RunTextReads(steps: seq<Step>, s: TextState, kinds: Kinds, files: Files, order: seq<string>,
                                        doomed: set<string>)
    requires GoodState(s, kinds, doomed) && forall n :: n in order <==> n in kinds
    requires forall e :: e in steps ==> GoodStep(e, kinds, order, doomed)
    ensures forall e :: e in steps ==> Writable(e, s.options.Keys, kinds)
    ensures forall n :: n in order <==> n in s.options
    ensures var r := RunText(steps, s, kinds, files);
            && GoodState(r, kinds, doomed)
            && Abstract(r, kinds, files) == Run(ActsOf(steps), Abstract(s, kinds, files), order)
  {
    hide Clean, ActText, Act, Blank, White, Commands, Fits, Faithful, GoodKind, Named, GoodStep, Writable;
    AllWritable(steps, s.options, kinds, order, doomed);
    if steps != [] {
      ActTextReads(steps[0], s, kinds, files, order, doomed);
      RunTextReads(steps[1..], ActText(steps[0], s, kinds, files), kinds, files, order, doomed);
      assert ActsOf(steps)[1..] == ActsOf(steps[1..]);
    }
  }

  /** Start from any clean configuration file, change and delete options and save in any styles, as
      often as you like, between any comments and whatever the key bindings are then: after every save
      that is written and appends options, loading the text of the new file gives every option back,
      unless only changed options are appended and the file was altered only before; and it binds what
      the old one did, to the actions of now, and what was appended. */
  lemma EverySavedTextRestores(text: string, base: Options, kinds: Kinds, files: Files, order: seq<string>,
                               steps: seq<Step>, last: Step, doomed: set<string>)
    requires (forall n :: n in order <==> n in kinds) && Clean(text, kinds, doomed)
    requires var o := Load(Commands(text, kinds, files), base); GoodOptions(o, kinds) && AllDoomed(o, doomed)
    requires GoodStep(last, kinds, order, doomed) && forall e :: e in steps ==> GoodStep(e, kinds, order, doomed)
    requires last.act.Save? && last.act.written && last.act.style != Alter
    requires last.act.style == Changed ==> forall e :: e in steps ==> !Alters(e.act)
    ensures var o := Load(Commands(text, kinds, files), base);
            Writable(last, o.Keys, kinds) && forall e :: e in steps ==> Writable(e, o.Keys, kinds)
    ensures var s := RunText(steps, TextState(text, Load(Commands(text, kinds, files), base)), kinds, files);
            var r := ActText(last, s, kinds, files);
            && Restores(Commands(r.text, kinds, files), r.options, base)
            && Binds(r.text, kinds)
                 == BindsNow(if last.act.style == Fresh then [] else Binds(s.text, kinds), last.keys.acts)
                    + last.keys.more
  {
    hide Commands, Clean, Blank, White, SavedText, Saved, Fits, Faithful, GoodKind, Named, Act, Binds, GoodKeys,
         GoodLayout, Writable;
    var style, file := last.act.style, Commands(text, kinds, files);
    var start := TextState(text, Load(file, base));
    RunTextReads(steps, start, kinds, files, order, doomed);
    var s := RunText(steps, start, kinds, files);
    ActTextReads(last, s, kinds, files, order, doomed);
    StepWritable(last, start.options, kinds, order, doomed);
    SavedTextReads(style, s.text, s.options, kinds, files, last.layout, last.keys, doomed);
    ActsOfSteps(steps);
    EverySaveRestores(file, base, order, ActsOf(steps), style);
  }

  lemma {:induction false} ActsOfSteps(steps: seq<Step>)
    ensures forall a :: a in ActsOf(steps) ==> exists e :: e in steps && e.act == a
  {
    if steps != [] {
      ActsOfSteps(steps[1..]);
      forall a | a in ActsOf(steps) ensures exists e :: e in steps && e.act == a {
        if a == steps[0].act {
          assert steps[0] in steps;
        } else {
          assert ActsOf(steps)[1..] == ActsOf(steps[1..]) && a in ActsOf(steps[1..]);
          var e :| e in steps[1..] && e.act == a;
          assert e in steps;
        }
      }
    }
  }

  // ---- files that say nothing about options or bindings

  /** Nothing of it is rewritten. */
  predicate AboutNone(s: Said, o: Options, acts: Acts) {
    match s
    case Assign(n, _) => n !in o
    case Remove(n) => n !in o
    case Bound(line) => ActOf(line, acts) == None
    case _ => true
  }

  /** No string that is read is continued over a line end, so that reading leaves the commands as
      they are. */
  predicate Unbroken(t: string, kinds: Kinds)
    decreases |t|
  {
    var w := White(t);
    w == |t| ||
    var i := CommandItem(t[w..], kinds);
    i.left == t[w..][..i.used] && Unbroken(t[w..][i.used..], kinds)
  }

  lemma UnbrokenStep(t: string, kinds: Kinds)
    ensures White(t) == |t| ==> Unbroken(t, kinds)
    ensures White(t) < |t| ==>
      var c := t[White(t)..]; var i := CommandItem(c, kinds);
      Unbroken(t, kinds) <==> i.left == c[..i.used] && Unbroken(c[i.used..], kinds)
  {
    hide CommandItem, White;
  }

  /** A file that says nothing about the options and the bindings, whatever else is in it, comes out
      as long as it is, and unchanged exactly if it is unbroken. */
  lemma {:induction false} NothingToRewrite(t: string, o: Options, kinds: Kinds, acts: Acts)
    requires forall i :: 0 <= i < |Sayings(t, kinds)| ==> AboutNone(Sayings(t, kinds)[i], o, acts)
    ensures var m := MirrorText(t, o, kinds, acts); |m| == |t| && (m == t <==> Unbroken(t, kinds))
    decreases |t|
  {
    hide White, CommandItem, Sayings, AboutNone, Unbroken, MirrorText;
    var w := White(t);
    UnbrokenStep(t, kinds);
    if w == |t| {
      MirrorNothing(t, o, kinds, acts);
    } else {
      var c := t[w..];
      var i := CommandItem(c, kinds);
      SayingsStep(t, kinds);
      assert AboutNone(Sayings(t, kinds)[0], o, acts);
      forall k | 0 <= k < |Sayings(c[i.used..], kinds)| ensures AboutNone(Sayings(c[i.used..], kinds)[k], o, acts) {
        assert Sayings(t, kinds)[k + 1] == Sayings(c[i.used..], kinds)[k];
      }
      NothingToRewrite(c[i.used..], o, kinds, acts);
      MirrorTextStep(t, o, kinds, acts);
      PieceStays(i, o, kinds, acts);
      var m := MirrorText(t, o, kinds, acts);
      assert t == t[..w] + c[..i.used] + c[i.used..];
      assert m[w..w + i.used] == i.left && m[w + i.used..] == MirrorText(c[i.used..], o, kinds, acts);
      assert t[w..w + i.used] == c[..i.used] && t[w + i.used..] == c[i.used..];
    }
  }

  lemma PieceStays(i: Item, o: Options, kinds: Kinds, acts: Acts)
    requires i.at <= |i.left| && AboutNone(i.said, o, acts)
    ensures Piece(i, o, kinds, acts) == i.left
  {
  }
}
