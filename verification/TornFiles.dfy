/** What goes wrong with configuration files that are not clean, and exactly when: an open end, a
    command that runs into what follows it, and a file name that is continued over a line end. */
module TornFiles {
  import opened Basics
  import opened OptionText
  import opened ConfigSave
  import opened ConfigText
  import opened Scanning
  import opened CommandShapes
  import opened CopiedCommands
  import opened ConfigRoundTrip
  import opened OpenEnds

  // ---- what saving appends

  /** Comments, and then a command. */
  predicate StartsWell(t: string) {
    var w := White(t);
    w < |t| && IsAlnum(t[w])
  }

  lemma BlankStarts(a: string, t: string)
    requires Blank(a) && StartsWell(t)
    ensures StartsWell(a + t)
  {
    hide White;
    assert White(a + t) == |a| + White(t);
  }

  lemma LetterStarts(t: string)
    requires t != "" && IsAlnum(t[0])
    ensures StartsWell(t)
  {
    hide White;
    WhiteNone(t);
  }

  lemma {:induction false} AppendedStarts(order: seq<string>, o: Options, kinds: Kinds, notes: map<string, string>)
    requires forall n :: n in order ==> n in o && n in kinds && n in notes && Blank(notes[n])
    ensures Appended(order, o) != [] ==> StartsWell(AppendedText(order, o, kinds, notes))
  {
    hide Blank, StartsWell, Write;
    if order != [] {
      var n, rest := order[0], AppendedText(order[1..], o, kinds, notes);
      AppendedStarts(order[1..], o, kinds, notes);
      if o[n].mustSave {
        var t := Line(n, o, kinds) + "\n" + rest;
        LetterStarts(t);
        BlankStarts(notes[n], t);
        assert notes[n] + Line(n, o, kinds) + "\n" + rest == notes[n] + t;
      } else {
        assert "" + rest == rest;
      }
    }
  }

  lemma TailIsTail(flags: Options, kinds: Kinds, layout: Layout, keys: Keys)
    requires flags.Keys == kinds.Keys && GoodLayout(layout, kinds)
    ensures var t := TailText(flags, kinds, layout, keys); t != "" ==> IsTail(t)
  {
    hide Blank, AppendedText, Appended, BindText, White;
    var lines, binds := AppendedText(layout.order, flags, kinds, layout.notes), BindText(keys.more);
    AppendedStarts(layout.order, flags, kinds, layout.notes);
    if keys.more != [] {
      BindStarts(keys.more);
      BlankStarts(layout.bindHeader, binds);
    }
    if Appended(layout.order, flags) != [] {
      BlankStarts(layout.header, lines);
      var z := if keys.more == [] then "" else layout.bindHeader + binds;
      MoreBehind(layout.header + lines, z);
    } else {
      assert "" + (layout.bindHeader + binds) == layout.bindHeader + binds;
    }
  }

  lemma BindStarts(more: seq<BindLine>)
    requires more != []
    ensures StartsWell(BindText(more))
  {
    hide Quoted, StartsWell;
    LetterStarts(BindText(more));
  }

  lemma MoreBehind(t: string, z: string)
    requires StartsWell(t)
    ensures StartsWell(t + z)
  {
    hide White;
    var w := White(t);
    WhiteStop(t, t[w..] + z);
    WhiteNone(t[w..] + z);
    assert t[..w] + (t[w..] + z) == t + z;
  }

  /** Whatever the old file is, and whatever stands in the comments: what is appended to its rewriting
      is read, from its first command on, exactly if the rewriting with the comments before that
      command has no open end; and then the new text says what both say.  The comments only matter if
      the rewriting has an open end and a quote is in them. */
  lemma SavedTailIsRead(style: Style, text: string, o: Options, kinds: Kinds, files: Files, layout: Layout, keys: Keys)
    requires o.Keys == kinds.Keys && GoodLayout(layout, kinds) && (style == All || style == Changed)
    requires MirrorText(text, o, kinds, keys.acts) != ""
    requires TailText(FlagsAfter(style, text, o, kinds, files), kinds, layout, keys) != ""
    ensures var m := MirrorText(text, o, kinds, keys.acts);
            var tail := TailText(FlagsAfter(style, text, o, kinds, files), kinds, layout, keys);
            var s := SavedText(style, text, o, kinds, files, layout, keys);
            && IsTail(tail)
            && var more := m + Comments(tail);
            && (CommandAt(s, |m| + White(tail), kinds) <==> !OpenEnd(more, kinds))
            && (!OpenEnd(more, kinds) ==> Sayings(s, kinds) == Sayings(more, kinds) + Sayings(tail, kinds))
            && (!OpenEnd(m, kinds) ==> !OpenEnd(more, kinds) && Sayings(more, kinds) == Sayings(m, kinds))
            && (QuietTail(tail) ==> (OpenEnd(more, kinds) <==> OpenEnd(m, kinds)))
  {
    hide MirrorText, TailText, FlagsAfter, CommandAt, OpenEnd, Sayings, White, IsTail, QuietTail, Comments, GoodLayout;
    LayoutNames(layout, kinds);
    var tail := TailText(FlagsAfter(style, text, o, kinds, files), kinds, layout, keys);
    TailIsTail(FlagsAfter(style, text, o, kinds, files), kinds, layout, keys);
    AppendedIsRead(MirrorText(text, o, kinds, keys.acts), tail, kinds);
    CommentsMatter(MirrorText(text, o, kinds, keys.acts), tail, kinds);
  }

  lemma LayoutNames(layout: Layout, kinds: Kinds)
    requires GoodLayout(layout, kinds)
    ensures forall n :: n in layout.order ==> n in kinds && n in layout.notes
  {
  }

  // ---- lines with an open quote

  /** The text ends in a line that is no command and has an open quote. */
  predicate LeftOpen(t: string, kinds: Kinds)
    decreases |t|
  {
    var w := White(t);
    w < |t| &&
    var c := t[w..];
    var i := CommandItem(c, kinds);
    (IsUnknown(c) && QuoteOpen(c)) || (i.said != Nothing(true) && LeftOpen(c[i.used..], kinds))
  }

  lemma LeftOpenStep(t: string, kinds: Kinds)
    requires LeftOpen(t, kinds)
    ensures White(t) < |t|
    ensures var c := t[White(t)..]; var i := CommandItem(c, kinds);
            (IsUnknown(c) && QuoteOpen(c)) || (i.said != Nothing(true) && LeftOpen(c[i.used..], kinds))
  {
    hide CommandItem, White, IsUnknown, QuoteOpen;
  }

  lemma SaysNothingMore(t: string, kinds: Kinds)
    requires SolidText(t) && IsUnknown(t) && QuoteOpen(t) && ToLineEnd(t) == |t|
    ensures Sayings(t, kinds) == [Nothing(true)] && OpenEnd(t, kinds)
  {
    hide CommandItem, White, IsUnknown, QuoteOpen, ToLineEnd, Sayings, OpenEnd, CommandAt;
    UnknownItem(t, kinds);
    WhiteNone(t);
    assert t[0..] == t && t[|t|..] == "";
    EndStep(t, 0, kinds);
    NothingWhite();
    EndStep0("", kinds);
  }

  /** The open quote swallows everything up to the next quote: nothing is read of what follows without
      one. */
  lemma {:induction false} OpenLineSwallows(t: string, tail: string, kinds: Kinds)
    requires LeftOpen(t, kinds) && EndsLine(tail) && (tail == "" || tail[0] == '\n') && NoQuotes(tail)
    ensures Sayings(t + tail, kinds) == Sayings(t, kinds)
    decreases |t|
  {
    hide CommandItem, White, IsUnknown, QuoteOpen, ToLineEnd, Sayings, OpenEnd, CommandAt, LeftOpen, NoQuotes, Follows;
    LeftOpenStep(t, kinds);
    var w := White(t);
    var c := t[w..];
    WhiteStop(t, c + tail);
    WhiteNone(c + tail);
    assert t[..w] + (c + tail) == t + tail && (t + tail)[w..] == c + tail;
    EndStep(t, 0, kinds);
    EndStep(t + tail, 0, kinds);
    var i := CommandItem(c, kinds);
    if IsUnknown(c) && QuoteOpen(c) {
      assert c + "" == c;
      NothingQuoted();
      LineStaysOpen(c, "");
      LineStaysOpen(c, tail);
      UnknownMore(c, tail);
      UnknownItem(c, kinds);
      UnknownItem(c + tail, kinds);
      assert c[|c|..] == "" == (c + tail)[|c + tail|..];
    } else {
      var r := c[i.used..];
      FollowsItself(r, tail);
      CommandCopied(c, kinds, r + tail);
      assert c[..i.used] + (r + tail) == c + tail && (c + tail)[i.used..] == r + tail;
      OpenLineSwallows(r, tail, kinds);
    }
  }

  /** Nothing that is appended to a rewriting that ends in such a line is read, if no quote is in it. */
  lemma UnclosedQuoteSwallows(style: Style, text: string, o: Options, kinds: Kinds, files: Files, layout: Layout,
                              keys: Keys)
    requires o.Keys == kinds.Keys && GoodLayout(layout, kinds) && style != Fresh
    requires LeftOpen(MirrorText(text, o, kinds, keys.acts), kinds)
    requires NoQuotes(TailText(FlagsAfter(style, text, o, kinds, files), kinds, layout, keys))
    ensures var m, s := MirrorText(text, o, kinds, keys.acts), SavedText(style, text, o, kinds, files, layout, keys);
            Commands(s, kinds, files) == Commands(m, kinds, files) && Binds(s, kinds) == Binds(m, kinds)
  {
    hide TailText, FlagsAfter, Sayings, MirrorText, NoQuotes, LeftOpen, GoodLayout, White, CommandItem;
    LayoutNames(layout, kinds);
    var m, flags := MirrorText(text, o, kinds, keys.acts), FlagsAfter(style, text, o, kinds, files);
    var tail := if style == Alter then "" else TailText(flags, kinds, layout, keys);
    LeftOpenStep(m, kinds);
    TailIsTail(flags, kinds, layout, keys);
    NothingQuoted();
    OpenLineSwallows(m, tail, kinds);
  }

  lemma QuoteSays(o: Options, kinds: Kinds, acts: Acts)
    ensures MirrorText("'", o, kinds, acts) == "'" && LeftOpen("'", kinds) && Sayings("'", kinds) == [Nothing(true)]
  {
    hide CommandItem, White, IsUnknown, QuoteOpen, ToLineEnd, Sayings, OpenEnd, CommandAt, LeftOpen, MirrorText;
    var t := "'";
    QuoteLine();
    NothingQuoted();
    LineStaysOpen(t, "");
    assert t + "" == t && t[0..] == t && t[..0] == "" && t[1..] == "";
    SaysNothingMore(t, kinds);
    UnknownItem(t, kinds);
    WhiteNone(t);
    LeftOpenWhen(t, kinds);
    MirrorTextStep(t, o, kinds, acts);
    MirrorNothing("", o, kinds, acts);
  }

  lemma LeftOpenWhen(t: string, kinds: Kinds)
    requires SolidText(t) && IsUnknown(t) && QuoteOpen(t)
    ensures LeftOpen(t, kinds)
  {
    hide CommandItem, IsUnknown, QuoteOpen, White;
    WhiteNone(t);
    assert t[0..] == t;
  }

  lemma NothingQuoted()
    ensures NoQuotes("")
  {
  }

  const ONE_KIND: Kinds := map["n" := Num(0, 9)]
  const ONE_CHANGED: Options := map["n" := Opt(N(2), false, true, false)]
  const ONE_BASE: Options := map["n" := Opt(N(1), false, false, false)]
  const ONE_LAYOUT: Layout := Layout(["n"], map["n" := ""], "\n", "\n", "")

  lemma OneFlag()
    ensures FlagsAfter(Changed, "'", ONE_CHANGED, ONE_KIND, map[]) == map["n" := Opt(N(2), false, true, true)]
  {
    hide CommandItem, White, Sayings;
    QuoteSays(ONE_CHANGED, ONE_KIND, map[]);
    assert Commands("'", ONE_KIND, map[]) == [] by { assert [Nothing(true)][1..] == []; }
    assert Prepare(ONE_CHANGED, false)["n"] == Opt(N(2), false, true, true);
  }

  lemma OneLine(flags: Options)
    requires flags == map["n" := Opt(N(2), false, true, true)]
    ensures TailText(flags, ONE_KIND, ONE_LAYOUT, Keys(map[], [])) == "\nset n = 2\n"
  {
    var order := ONE_LAYOUT.order;
    assert order[1..] == [] && order[0] == "n";
    assert Write(Num(0, 9), N(2)) == "2" by { assert PrintNat(2) == "2"; }
    assert Line("n", flags, ONE_KIND) == "set n = 2";
    assert AppendedText(order, flags, ONE_KIND, ONE_LAYOUT.notes) == "" + "set n = 2" + "\n" + "";
    assert Appended(order, flags) == [Set("n", N(2))];
  }

  /** So a change of an option is lost. */
  lemma ChangeIsLost()
    ensures var s := SavedText(Changed, "'", ONE_CHANGED, ONE_KIND, map[], ONE_LAYOUT, Keys(map[], []));
            s == "'\nset n = 2\n" && !Agrees(ONE_CHANGED["n"], Load(Commands(s, ONE_KIND, map[]), ONE_BASE)["n"])
  {
    hide TailText, FlagsAfter, MirrorText, OpenEnd, Sayings, LeftOpen, GoodLayout;
    QuoteSays(ONE_CHANGED, ONE_KIND, map[]);
    OneFlag();
    OneLine(FlagsAfter(Changed, "'", ONE_CHANGED, ONE_KIND, map[]));
    assert "'" + "\nset n = 2\n" == "'\nset n = 2\n";
    OneLayoutGood();
    UnclosedQuoteSwallows(Changed, "'", ONE_CHANGED, ONE_KIND, map[], ONE_LAYOUT, Keys(map[], []));
    assert Meant([Nothing(true)], map[]) == [];
  }

  lemma OneLayoutGood()
    ensures GoodLayout(ONE_LAYOUT, ONE_KIND)
  {
    SpacesBlank("");
    SpacesBlank("\n");
  }

  // ---- a command that runs into what follows it

  /** An unset command is read as one for its option exactly if no name character follows. */
  lemma UnsetRunsOn(n: string, r: string, kinds: Kinds)
    requires n in kinds && n != "" && Named(n)
    ensures CommandItem("unset " + n + r, kinds).said == Remove(n) <==> NoName(r)
  {
    hide CommandItem, NameLength, Blank, IsNameChar;
    if NoName(r) {
      UnsetLineReads(n, kinds, r);
    } else {
      var k := NameLength(r);
      NameSome(r);
      SpacesBlank(" ");
      UnsetShape(" ", n + r[..k], r[k..], kinds) by { NameEnds(r); NamedBoth(n, r); }
      assert "unset" + (" " + (n + r[..k])) + r[k..] == "unset " + n + r;
      assert |n + r[..k]| > |n|;
    }
  }

  lemma NameSome(r: string)
    requires !NoName(r)
    ensures NameLength(r) > 0
  {
  }

  lemma NamedBoth(n: string, r: string)
    requires Named(n)
    ensures Named(n + r[..NameLength(r)])
  {
    hide IsNameChar;
    var k := NameLength(r);
    forall i | 0 <= i < |n| + k ensures IsNameChar((n + r[..k])[i]) {
      assert (n + r[..k])[i] == if i < |n| then n[i] else r[i - |n|];
    }
  }

  /** What is mirrored first is the first character of the text, or a command letter for another. */
  lemma MirrorFirst(r: string, o: Options, kinds: Kinds, acts: Acts)
    ensures var m := MirrorText(r, o, kinds, acts);
            (m == "" <==> r == "") && (r != "" ==> m[0] == r[0] || (CommandLetter(r[0]) && CommandLetter(m[0])))
  {
    hide CommandItem, White, Piece, MirrorText;
    if White(r) == |r| {
      MirrorNothing(r, o, kinds, acts);
    } else {
      var c := r[White(r)..];
      var i := CommandItem(c, kinds);
      MirrorTextStep(r, o, kinds, acts);
      PieceFirst(c, o, kinds, acts);
      var m := MirrorText(r, o, kinds, acts);
      if White(r) > 0 {
        assert m[0] == r[..White(r)][0];
      } else {
        assert c == r && m[0] == Piece(i, o, kinds, acts)[0];
      }
    }
  }

  lemma PieceFirst(c: string, o: Options, kinds: Kinds, acts: Acts)
    requires SolidText(c)
    ensures var p := Piece(CommandItem(c, kinds), o, kinds, acts);
            p != "" && (p[0] == c[0] || (CommandLetter(c[0]) && CommandLetter(p[0])))
  {
    hide CommandItem, Write, ActionItem, KeymapItem, SetItem, BindItem, Gap, Named, NoName, Blank;
    var i := CommandItem(c, kinds);
    LeftFirst(c, kinds);
    CommandSays(c, kinds);
    match i.said {
      case Assign(n, _) => AssignFirst(c, kinds);
      case Remove(n) => assert c[..5] == "unset" && c[0] == c[..5][0];
      case Bound(line) => BindWith(c, kinds, "x");
      case _ =>
    }
  }

  lemma AssignFirst(c: string, kinds: Kinds)
    requires SolidText(c) && CommandItem(c, kinds).said.Assign?
    ensures var i := CommandItem(c, kinds); c[0] == 's' && 0 < i.at <= |i.left| && i.left[..i.at][0] == 's'
  {
    hide CommandItem, Gap, Named, NoName, Blank, Solid;
    var a, name, b, d, x := AssignParts(c, kinds);
  }

  lemma LeftFirst(c: string, kinds: Kinds)
    requires SolidText(c)
    ensures var i := CommandItem(c, kinds); i.left != "" && i.left[0] == c[0]
  {
    hide DomainItem, SetItem, UnsetItem, BindItem, IncludeItem, ToLineEnd, QuoteOpen;
    assert forall word: string :: Starts(c, word) && word != "" ==> c[0] == c[..|word|][0];
  }

  /** A set command, followed by `r`, whose option has been deleted: what it is rewritten to is read as
      an unset command for that option exactly if `r` does not start with a name character. */
  lemma DeletedSetReads(t: string, n: string, v: Value, o: Options, kinds: Kinds, acts: Acts)
    requires SolidText(t) && CommandItem(t, kinds).said == Assign(n, v) && n != "" && n in o && o[n].deleted
    ensures var r := t[CommandItem(t, kinds).used..];
            var m := MirrorText(t, o, kinds, acts);
            && m == "unset " + n + MirrorText(r, o, kinds, acts) && SolidText(m)
            && (CommandItem(m, kinds).said == Remove(n) <==> NoName(r))
  {
    hide CommandItem, White, MirrorText, Blank, Gap, IsNameChar;
    var a, name, b, d, x := AssignParts(t, kinds);
    var r := t[CommandItem(t, kinds).used..];
    WhiteNone(t);
    assert t[0..] == t && t[..0] == "";
    MirrorTextStep(t, o, kinds, acts);
    var rest := MirrorText(r, o, kinds, acts);
    assert "" + ("unset " + n) + rest == "unset " + n + rest;
    MirrorFirst(r, o, kinds, acts);
    SameNames(r, rest);
    UnsetRunsOn(n, rest, kinds);
  }

  lemma SameNames(r: string, m: string)
    requires m == "" <==> r == ""
    requires r != "" ==> m[0] == r[0] || (CommandLetter(r[0]) && CommandLetter(m[0]))
    ensures NoName(r) <==> NoName(m)
  {
  }

  /** The other way round: a set command that an unset command was rewritten to is read as it was
      written exactly if its option is a string, or white space, a comment or the end follows. */
  lemma RestatedReads(n: string, o: Options, kinds: Kinds, r: string)
    requires GoodOptions(o, kinds) && n in o && !o[n].deleted && NoName(r)
    ensures var p := "set " + n + " = " + Write(kinds[n], o[n].value);
            SolidText(p + r) && (CommandItem(p + r, kinds).said == Assign(n, o[n].value) <==> MayFollow(o[n].value, r))
  {
    hide CommandItem, Write, Read, Blank, ValueItem, ReadOver;
    var v := Write(kinds[n], o[n].value);
    var h := "set" + (" " + n + " " + ("=" + " "));
    SpacesBlank(" ");
    WriteSolid(kinds[n], o[n].value);
    SetShape(" ", n, " ", " ", v + r, kinds);
    assert h + (v + r) == "set " + n + " = " + v + r;
    WrittenThen(n, o, kinds, r);
  }

  lemma WrittenThen(n: string, o: Options, kinds: Kinds, r: string)
    requires GoodOptions(o, kinds) && n in o && !o[n].deleted && NoName(r)
    ensures var x := Write(kinds[n], o[n].value) + r;
            x != "" && (ValueItem(n, x, kinds).said == Assign(n, o[n].value) <==> MayFollow(o[n].value, r))
  {
    hide Strtolx, WriteNum, ReadStr, ReadOver, StrBody;
    var v := o[n].value;
    WriteSolid(kinds[n], v);
    if MayFollow(v, r) {
      ValueRoundTrip(kinds[n], v, r);
    } else {
      NumberEnds(v.n, r);
      var w := WriteNum(v.n);
      assert (w + r)[|w|..] == r;
    }
  }

  /** A written number that is followed by something else than a name character ends there. */
  lemma NumberEnds(n: int, r: string)
    requires LONG_MIN <= n <= LONG_MAX && NoName(r)
    ensures Strtolx(WriteNum(n) + r).1 == |WriteNum(n)|
  {
    hide Strtolx, PrintNat;
    StrtolxOfWritten(n, "");
    var w := WriteNum(n);
    assert w + "" == w;
    assert ValueChars(w) && w != "";
    StrtolxStop(w, r);
  }

  // ---- a name that is continued over a line end

  /** An include command, whose file name `s` reads as `name`, says the same in the rewritten text
      exactly if the name is not continued over a line end. */
  lemma ContinuedInclude(a: string, s: string, name: string, r: string, o: Options, kinds: Kinds, acts: Acts)
    requires Gap(a) && IsString(s, name)
    ensures var t := "include" + a + s + r;
            var m := MirrorText(t, o, kinds, acts);
            && SolidText(t) && CommandItem(t, kinds).said == Included(name)
            && m == "include" + a + ReadOver(s) + MirrorText(r, o, kinds, acts)
            && (CommandItem(m, kinds).said == Included(name) <==> !StartsContinued(s))
  {
    hide CommandItem, White, MirrorText, Blank, ReadStr, ReadOver, StrBody, Gap, FileItem;
    var h := "include" + a;
    var t := h + s + r;
    StringStop(s, name, r);
    IncludeReads(a, s, name, r, kinds);
    var i := CommandItem(t, kinds);
    WhiteNone(t);
    assert t[0..] == t && t[..0] == "" && t[i.used..] == r;
    MirrorTextStep(t, o, kinds, acts);
    var rest := MirrorText(r, o, kinds, acts);
    assert i.left == h + ReadOver(s);
    assert "" + (h + ReadOver(s)) + rest == h + ReadOver(s) + rest;
    var again := ReadAgain(s, name);
    IncludeReads(a, ReadOver(s), again, rest, kinds);
  }

  lemma IncludeReads(a: string, s: string, name: string, r: string, kinds: Kinds)
    requires Gap(a) && IsString(s, name)
    ensures var t := "include" + a + s + r;
            && SolidText(t)
            && CommandItem(t, kinds)
               == Item(Included(name), |"include" + a + s|, 0, "include" + a + ReadOver(s))
  {
    hide CommandItem, White, Blank, ReadStr, ReadOver, Gap;
    StringStop(s, name, r);
    IncludeShape(a, s + r, kinds);
    var h := "include" + a;
    assert h + s + r == h + (s + r) && (h + s + r)[0] == 'i';
    assert (ReadOver(s) + r)[..|s|] == ReadOver(s);
  }

  /** The string that reading leaves in the buffer. */
  lemma ReadAgain(s: string, name: string) returns (again: string)
    requires IsString(s, name)
    ensures IsString(ReadOver(s), again) && (again == name <==> !StartsContinued(s))
  {
    hide StrBody, Blanked;
    var t := s[1..];
    ContinuationNotKept(t);
    again := StrBody(Blanked(t)).value;
    assert ReadOver(s)[1..] == Blanked(t);
  }

  // ---- bind commands with strings that are continued

  /** A bind command up to its action. */
  function BindHead(a: string, s1: string, b1: string, s2: string, b2: string, d: string): string {
    "bind" + a + (s1 + b1 + (s2 + b2 + ("=" + d)))
  }

  lemma HeadReads(a: string, s1: string, keymap: string, b1: string, s2: string, keystroke: string, b2: string,
                  d: string, w: string, kinds: Kinds)
    requires Gap(a) && IsString(s1, keymap) && Blank(b1) && IsString(s2, keystroke) && Blank(b2) && Blank(d)
    requires SolidText(w)
    ensures var t := BindHead(a, s1, b1, s2, b2, d) + w;
            && SolidText(t)
            && CommandItem(t, kinds)
               == ActionItem(keymap, keystroke, w).After(BindHead(a, ReadOver(s1), b1, ReadOver(s2), b2, d))
  {
    hide CommandItem, KeymapItem, KeystrokeItem, BindEqualsItem, ActionItem, White, Blank, Gap, ReadStr, ReadOver,
         Item.After;
    var z := "=" + d + w;
    var y := s2 + b2 + z;
    var x := s1 + b1 + y;
    BindEqualsShape(keymap, keystroke, d, w);
    StringSolid(s1, keymap);
    StringSolid(s2, keystroke);
    KeystrokeShape(keymap, s2, keystroke, b2, z);
    KeymapShape(s1, keymap, b1, y);
    BindShape(a, x, kinds);
    var i, r1, r2 := ActionItem(keymap, keystroke, w), ReadOver(s1) + b1, ReadOver(s2) + b2;
    AfterTwice(i, r2, "=" + d);
    AfterTwice(i, r1, r2 + ("=" + d));
    AfterTwice(i, "bind" + a, r1 + (r2 + ("=" + d)));
    HeadJoins(a, s1, b1, s2, b2, d, w);
  }

  lemma StringSolid(s: string, v: string)
    requires IsString(s, v)
    ensures forall z :: SolidText(s + z)
  {
    hide StrBody;
    StringStop(s, v, "");
  }

  lemma HeadJoins(a: string, s1: string, b1: string, s2: string, b2: string, d: string, w: string)
    ensures BindHead(a, s1, b1, s2, b2, d) + w == "bind" + a + (s1 + b1 + (s2 + b2 + ("=" + d + w)))
  {
    assert s2 + b2 + ("=" + d) + w == s2 + b2 + ("=" + d + w);
    var y := s2 + b2 + ("=" + d);
    assert s1 + b1 + y + w == s1 + b1 + (y + w);
    var x := s1 + b1 + y;
    assert "bind" + a + x + w == "bind" + a + (x + w);
  }

  /** A bind command with a closed string as its action. */
  lemma BindReads(h: string, g: string, line: BindLine, s3: string, r: string, kinds: Kinds)
    requires IsString(s3, line.action) && SolidText(h + (s3 + r))
    requires CommandItem(h + (s3 + r), kinds) == ActionItem(line.keymap, line.keystroke, s3 + r).After(g)
    ensures CommandItem(h + (s3 + r), kinds) == Item(Bound(line), |g| + |s3|, |g|, g + ReadOver(s3))
  {
    hide CommandItem, StrBody, ReadStr, ReadOver;
    StringStop(s3, line.action, r);
    assert (ReadOver(s3) + r)[..|s3|] == ReadOver(s3);
  }

  /** What a bind command is written as. */
  lemma BindMirrored(h: string, g: string, line: BindLine, s3: string, r: string, o: Options, kinds: Kinds, acts: Acts)
    requires h != "" && Solid(h[0]) && |g| == |h|
    requires SolidText(h + (s3 + r))
             && CommandItem(h + (s3 + r), kinds) == Item(Bound(line), |g| + |s3|, |g|, g + ReadOver(s3))
    ensures MirrorText(h + (s3 + r), o, kinds, acts)
            == g + ((match ActOf(line, acts) case Some(action) => "\"" + action + "\"" case None => ReadOver(s3))
                    + MirrorText(r, o, kinds, acts))
  {
    hide CommandItem, MirrorText, ReadOver, ActOf;
    var t := h + (s3 + r);
    WhiteNone(t);
    var rest := MirrorText(r, o, kinds, acts);
    assert t[0..] == t && t[..0] == "" && t[|h| + |s3|..] == r;
    MirrorTextStep(t, o, kinds, acts);
    assert (g + ReadOver(s3))[..|g|] == g;
    match ActOf(line, acts) {
      case Some(action) =>
        assert "" + (g + "\"" + action + "\"") + rest == g + ("\"" + action + "\"" + rest);
      case None =>
        assert "" + (g + ReadOver(s3)) + rest == g + (ReadOver(s3) + rest);
    }
  }

  lemma HeadLength(a: string, s1: string, b1: string, s2: string, b2: string, d: string)
    ensures var h := BindHead(a, s1, b1, s2, b2, d);
            |BindHead(a, ReadOver(s1), b1, ReadOver(s2), b2, d)| == |h| && h != "" && Solid(h[0])
  {
    hide ReadOver;
  }

  /** A bind command whose keymap, keystroke and action are the strings `s1`, `s2` and `s3` says in the
      rewritten text what it must say, exactly if neither keymap nor keystroke is continued over a line
      end, nor the action unless it is written anew. */
  lemma ContinuedBind(a: string, s1: string, b1: string, s2: string, b2: string, d: string, s3: string,
                      line: BindLine, r: string, o: Options, kinds: Kinds, acts: Acts)
    requires Gap(a) && Blank(b1) && Blank(b2) && Blank(d) && (forall k :: k in acts ==> PlainText(acts[k]))
    requires IsString(s1, line.keymap) && IsString(s2, line.keystroke) && IsString(s3, line.action)
    ensures var t := BindHead(a, s1, b1, s2, b2, d) + (s3 + r);
            var m := MirrorText(t, o, kinds, acts);
            && SolidText(t) && CommandItem(t, kinds).said == Bound(line) && SolidText(m)
            && (CommandItem(m, kinds).said == Bound(BindNow(line, acts))
                <==> !StartsContinued(s1) && !StartsContinued(s2)
                     && (ActOf(line, acts).Some? || !StartsContinued(s3)))
  {
    hide CommandItem, MirrorText, Blank, ReadStr, ReadOver, StrBody, Gap, ActionItem, KeymapItem, BindHead, PlainText,
         Item.After, StartsContinued, Solid;
    var h := BindHead(a, s1, b1, s2, b2, d);
    var g := BindHead(a, ReadOver(s1), b1, ReadOver(s2), b2, d);
    HeadLength(a, s1, b1, s2, b2, d);
    StringSolid(s3, line.action);
    HeadReads(a, s1, line.keymap, b1, s2, line.keystroke, b2, d, s3 + r, kinds);
    BindReads(h, g, line, s3, r, kinds);
    BindMirrored(h, g, line, s3, r, o, kinds, acts);
    var rest := MirrorText(r, o, kinds, acts);
    var keymap := ReadAgain(s1, line.keymap);
    var keystroke := ReadAgain(s2, line.keystroke);
    match ActOf(line, acts) {
      case Some(action) =>
        var q := "\"" + action + "\"";
        ActionReads(keymap, keystroke, action, rest);
        HeadReads(a, ReadOver(s1), keymap, b1, ReadOver(s2), keystroke, b2, d, q + rest, kinds);
        AfterSays(ActionItem(keymap, keystroke, q + rest),
                  BindHead(a, ReadOver(ReadOver(s1)), b1, ReadOver(ReadOver(s2)), b2, d));
      case None =>
        var action := ReadAgain(s3, line.action);
        StringSolid(ReadOver(s3), action);
        HeadReads(a, ReadOver(s1), keymap, b1, ReadOver(s2), keystroke, b2, d, ReadOver(s3) + rest, kinds);
        BindReads(g, BindHead(a, ReadOver(ReadOver(s1)), b1, ReadOver(ReadOver(s2)), b2, d),
                  BindLine(keymap, keystroke, action), ReadOver(s3), rest, kinds);
    }
  }
}
