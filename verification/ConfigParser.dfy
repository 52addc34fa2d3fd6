/** parse_config_file rewriting a configuration file, step by step (src/config/conf.c): the parser
    moves through the text, and what it passes is mirrored to a new text. */
module ConfigParsers {
  import opened Basics
  import opened OptionText
  import opened ConfigSave
  import opened ConfigText
  import opened Scanning

  datatype ParseError = ERROR_NONE | ERROR_COMMAND | ERROR_PARSE | ERROR_OPTION | ERROR_VALUE

  class ConfigParser {
    /** The buffer with the file: reading a string overwrites line ends in it. */
    var text: string
    const kinds: Kinds
    const files: Files
    const acts: Acts
    /** The next character to be parsed, and the end of what has been mirrored. */
    var look: nat
    var mirrored: nat
    var mirror: string
    var options: Options

    ghost predicate Valid()
      reads this
    {
      mirrored <= look <= |text| && options.Keys == kinds.Keys
    }

    /** What is still to be parsed. */
    function Rest(): string
      reads this
      requires look <= |text|
    {
      text[look..]
    }

    constructor (text: string, kinds: Kinds, files: Files, acts: Acts, options: Options)
      requires options.Keys == kinds.Keys
      ensures Valid() && this.text == text && this.kinds == kinds && this.files == files && this.acts == acts
      ensures this.options == options && look == 0 && mirrored == 0 && mirror == ""
    {
      this.text, this.kinds, this.files, this.acts, this.options := text, kinds, files, acts, options;
      look, mirrored, mirror := 0, 0, "";
    }

    // ---- scanners

    method SkipWhite()
      requires Valid()
      modifies this`look
      ensures Valid() && look == old(look) + White(old(Rest()))
    {
      hide White, ToNewline;
      while look < |text| && !Solid(text[look])
        invariant Valid()
        invariant look + White(Rest()) == old(look) + White(old(Rest()))
        decreases |text| - look
      {
        if text[look] == '#' {
          SkipComment();
        } else {
          assert Rest()[1..] == text[look + 1..];
          WhiteSpaceStep(Rest());
          look := look + 1;
        }
      }
      WhiteNone(Rest());
    }

    method SkipComment()
      requires Valid() && look < |text| && text[look] == '#'
      modifies this`look
      ensures Valid() && old(look) < look && look + White(Rest()) == old(look) + White(old(Rest()))
    {
      hide White, ToNewline;
      WhiteCommentStep(Rest());
      assert Rest()[1..] == text[look + 1..];
      look := look + 1;
      SkipLine();
      assert Rest() == old(Rest())[look - old(look)..];
    }

    method SkipLine()
      requires Valid()
      modifies this`look
      ensures Valid() && look == old(look) + ToNewline(old(Rest())) && Rest() == old(Rest())[ToNewline(old(Rest()))..]
    {
      while look < |text| && text[look] != '\n'
        invariant Valid() && old(look) <= look
        invariant look + ToNewline(Rest()) == old(look) + ToNewline(old(Rest()))
      {
        assert Rest()[1..] == text[look + 1..];
        look := look + 1;
      }
      assert Rest() == old(Rest())[look - old(look)..];
    }

    method SkipName()
      requires Valid()
      modifies this`look
      ensures Valid() && look == old(look) + NameLength(old(Rest()))
    {
      while look < |text| && IsNameChar(text[look])
        invariant Valid()
        invariant look + NameLength(Rest()) == old(look) + NameLength(old(Rest()))
      {
        assert Rest()[1..] == text[look + 1..];
        look := look + 1;
      }
    }

    method SkipOptionValue()
      requires Valid()
      modifies this`look
      ensures Valid() && look == old(look) + SkipValue(old(Rest()))
    {
      if look < |text| && IsQuote(text[look]) {
        var end, line := SkipQuoted(text, look, 0);
        assert Rest()[1..] == text[look + 1..];
        look := end;
      } else {
        while look < |text| && InValue(text[look])
          invariant Valid()
          invariant look + ValueLength(Rest()) == old(look) + ValueLength(old(Rest()))
        {
          assert Rest()[1..] == text[look + 1..];
          look := look + 1;
        }
      }
    }

    method SkipToUnquotedNewlineOrComment()
      requires Valid()
      modifies this`look
      ensures Valid() && look == old(look) + ToLineEnd(old(Rest()))
    {
      hide ToLineEnd, StrBody, QuoteOpen;
      while look < |text| && text[look] != '#' && text[look] != '\n'
        invariant Valid()
        invariant look + ToLineEnd(Rest()) == old(look) + ToLineEnd(old(Rest()))
        decreases |text| - look
      {
        SkipPart();
      }
      if look < |text| { LineEndNone(Rest()); } else { LineEndEmpty(); }
    }

    /** A string, or another character. */
    method SkipPart()
      requires Valid() && look < |text| && text[look] != '#' && text[look] != '\n'
      modifies this`look
      ensures Valid() && old(look) < look && look + ToLineEnd(Rest()) == old(look) + ToLineEnd(old(Rest()))
    {
      hide ToLineEnd, StrBody, QuoteOpen;
      ghost var t := Rest();
      LineEndStep(t);
      assert t[1..] == text[look + 1..];
      if IsQuote(text[look]) {
        var end, line := SkipQuoted(text, look, 0);
        look := end;
        assert Rest() == t[1 + StrBody(t[1..]).used..];
      } else {
        look := look + 1;
      }
    }

    // ---- commands

    /** Mirror what has been passed and not been mirrored yet. */
    method CatchUp()
      requires Valid()
      modifies this`mirror, this`mirrored
      ensures Valid() && mirrored == look && mirror == old(mirror) + text[old(mirrored)..look]
    {
      mirror := mirror + text[mirrored..look];
      mirrored := look;
    }

    /** What a handler that began at `start` of the text `c` and has passed the command word leaves
        behind: it has read the item `i`, up to what is skipped after a parse error, and mirrored its
        rewriting; what is behind the item is as it was. */
    ghost predicate Handled(start: nat, c: string, i: Item, err: ParseError, before: Options, was: string)
      reads this
    {
      && Valid() && start <= mirrored && i.In(c) && start + |c| == |text| && text[start + i.used..] == c[i.used..]
      && err != ERROR_COMMAND
      && start + i.used == look + (if err == ERROR_PARSE then ToLineEnd(Rest()) else 0)
      && (err == ERROR_PARSE ==>
            i.said.Nothing? && mirrored == start && mirror == was && text[start..start + i.used] == i.left)
      && (err != ERROR_PARSE ==> mirror + text[mirrored..look] == was + Piece(i, before, kinds, acts))
      && options == Mirror(Says(i.said, files), before)
    }

    /** Nothing was said: what has been passed is still to be mirrored. */
    lemma HandledNothing(start: nat, c: string, i: Item, err: ParseError)
      requires Valid() && start == mirrored <= look && i.said.Nothing? && i.In(c) && err != ERROR_COMMAND
      requires start + |c| == |text| && text[start + i.used..] == c[i.used..] && text[start..start + i.used] == i.left
      requires start + i.used == look + (if err == ERROR_PARSE then ToLineEnd(Rest()) else 0)
      ensures Handled(start, c, i, err, options, mirror)
    {
      hide ToLineEnd;
    }

    /** An item behind what has been passed. */
    lemma HandledBehind(start: nat, h: string, x: string, i: Item, err: ParseError)
      requires Valid() && start == mirrored <= look && i.said.Nothing? && i.In(x) && err != ERROR_COMMAND
      requires start + |h| + |x| == |text| && text[start..start + |h|] == h
      requires text[start + |h|..][..i.used] == i.left && text[start + |h|..][i.used..] == x[i.used..]
      requires start + |h| + i.used == look + (if err == ERROR_PARSE then ToLineEnd(Rest()) else 0)
      ensures Handled(start, h + x, i.After(h), err, options, mirror)
    {
      hide ToLineEnd;
      var n := |h| + i.used;
      assert text[start..start + n] == h + text[start + |h|..][..i.used];
      assert text[start + n..] == text[start + |h|..][i.used..] && (h + x)[n..] == x[i.used..];
      HandledNothing(start, h + x, i.After(h), err);
    }

    /** Only the length of the text and what is behind the item matter. */
    lemma HandledSame(start: nat, c: string, d: string, i: Item, err: ParseError, before: Options, was: string)
      requires Handled(start, d, i, err, before, was) && |c| == |d| && c[i.used..] == d[i.used..]
      ensures Handled(start, c, i, err, before, was)
    {
      hide ToLineEnd, Mirror;
    }

    /** The buffer after `n` more characters have been passed. */
    lemma PassedText(start: nat, h: string, u: string, n: nat)
      requires Valid() && start <= look && text[start..] == h + u && n <= |u| && look == start + |h| + n
      ensures Rest() == u[n..] && text[start..look] == h + u[..n]
      ensures text[start..start + |h|] == h && text[start + |h|..] == u
    {
      assert Rest() == text[start..][|h| + n..] && text[start..look] == text[start..][..|h| + n];
      assert text[start..start + |h|] == text[start..][..|h|] && text[start + |h|..] == text[start..][|h|..];
    }

    /** parse_set_common up to the value, in a file that is rewritten, with the options that are known. */
    method ParseName(start: nat, known: Kinds) returns (err: ParseError)
      requires Valid() && start == mirrored <= look && (known == kinds || known == map[])
      modifies this`look, this`mirrored, this`mirror, this`options, this`text
      ensures Handled(start, old(text[start..]), SetItem(old(Rest()), known).After(old(text[start..look])), err,
              old(options), old(mirror))
    {
      hide NamedItem, White, NameLength, ToLineEnd, Handled, Mirror, SetItem;
      ghost var u, h := Rest(), text[start..look];
      assert text[start..] == h + u;
      SkipWhite();
      if look == |text| {
        SetItemNone(u, known);
        LineEndEmpty();
        HandledBehind(start, h, u, SetItem(u, known), ERROR_PARSE);
        return ERROR_PARSE;
      }
      var nameAt := look;
      ghost var p1 := White(u);
      PassedText(start, h, u, p1);
      SkipName();
      var name := text[nameAt..look];
      ghost var p2 := p1 + NameLength(u[p1..]);
      PassedText(start, h, u, p2);
      assert name == u[p1..p2];
      SkipWhite();
      ghost var p3 := p2 + White(u[p2..]);
      PassedText(start, h, u, p3);
      SetItemParts(u, known, p1, p2, p3);
      AfterTwice(NamedItem(name, u[p3..], known), h, u[..p3]);
      err := ParseEquals(start, name, known);
    }

    /** The equals sign and the value. */
    method ParseEquals(start: nat, name: string, known: Kinds) returns (err: ParseError)
      requires Valid() && start == mirrored <= look && (known == kinds || known == map[])
      modifies this`look, this`mirrored, this`mirror, this`options, this`text
      ensures Handled(start, old(text[start..]), NamedItem(name, old(Rest()), known).After(old(text[start..look])),
              err, old(options), old(mirror))
    {
      hide ValueItem, White, ToLineEnd, QuoteOpen, Handled, Mirror;
      ghost var y, h := Rest(), text[start..look];
      assert text[start..] == h + y;
      if look == |text| || text[look] != '=' {
        if look == |text| { LineEndEmpty(); }
        HandledBehind(start, h, y, NamedItem(name, y, known), ERROR_PARSE);
        return ERROR_PARSE;
      }
      look := look + 1;
      PassedText(start, h, y, 1);
      assert y[..1] == "=";
      err := ParseAfterEquals(start, name, known);
      AfterTwice(EqualsItem(name, y[1..], known), h, "=");
    }

    method ParseAfterEquals(start: nat, name: string, known: Kinds) returns (err: ParseError)
      requires Valid() && start == mirrored <= look && (known == kinds || known == map[])
      modifies this`look, this`mirrored, this`mirror, this`options, this`text
      ensures Handled(start, old(text[start..]), EqualsItem(name, old(Rest()), known).After(old(text[start..look])),
              err, old(options), old(mirror))
    {
      hide ValueItem, White, ToLineEnd, QuoteOpen, Handled, Mirror;
      ghost var z, h := Rest(), text[start..look];
      assert text[start..] == h + z;
      SkipWhite();
      PassedText(start, h, z, White(z));
      if look == |text| {
        HandledBehind(start, h, z, EqualsItem(name, z, known), ERROR_VALUE);
        return ERROR_VALUE;
      }
      AfterTwice(ValueItem(name, z[White(z)..], known), h, z[..White(z)]);
      err := ParseValue(start, name, known);
    }

    /** The value: it is read, and replaced by what the option is now. */
    method ParseValue(start: nat, name: string, known: Kinds) returns (err: ParseError)
      requires Valid() && start == mirrored <= look < |text| && (known == kinds || known == map[])
      modifies this`look, this`mirrored, this`mirror, this`options, this`text
      ensures Handled(start, old(text[start..]), ValueItem(name, old(Rest()), known).After(old(text[start..look])),
              err, old(options), old(mirror))
    {
      hide StrBody, Read, Write, SkipValue, ToLineEnd, Handled, Mirror, ReadOver;
      ghost var x, h := Rest(), text[start..look];
      ghost var i := ValueItem(name, x, known);
      assert text[start..] == h + x;
      var beforeValue := look;
      if name !in known {
        SkipOptionValue();
        HandledBehind(start, h, x, i, ERROR_OPTION);
        return ERROR_OPTION;
      }
      var val := Read(kinds[name], Rest());
      text := text[..look] + ValueRead(name, Rest(), kinds);
      ghost var y := Rest();
      assert y == ValueRead(name, x, kinds) && text[start..look] == h;
      if val == None {
        SkipOver(x);
        SkipOptionValue();
        assert text[start + |h|..] == y;
        HandledBehind(start, h, x, i, ERROR_VALUE);
        return ERROR_VALUE;
      }
      look := look + val.value.1;
      ReadRest(name, x);
      var o := options[name];
      if o.deleted {
        mirror := mirror + "unset " + name;
        mirrored := look;
      } else {
        mirror := mirror + text[mirrored..beforeValue];
        mirror := mirror + Write(kinds[name], o.value);
        mirrored := look;
      }
      options := options[name := o.(mustSave := false)];
      err := ERROR_NONE;
      HandledSet(start, h, x, val.value.1, name, val.value.0, old(options), old(mirror));
    }

    lemma ReadRest(name: string, x: string)
      requires name in kinds && Read(kinds[name], x).Some?
      ensures var n := Read(kinds[name], x).value.1; ValueRead(name, x, kinds)[n..] == x[n..]
    {
      hide StrBody, ReadNum, ReadOver;
      if kinds[name].Str? { AnyLimit(x, kinds[name].limit); OverRead(x); }
    }

    lemma AnyLimit(x: string, limit: nat)
      ensures ReadStr(x, limit).Some? ==> ReadStr(x, 0) == ReadStr(x, limit)
    {
      hide StrBody;
    }

    lemma HandledSet(start: nat, h: string, x: string, n: nat, name: string, v: Value, before: Options, was: string)
      requires Valid() && start <= mirrored == look == start + |h| + n && n <= |x| && name in before
      requires before.Keys == kinds.Keys
      requires start + |h| + |x| == |text| && text[start..start + |h|] == h
      requires text[start + |h|..] == ValueRead(name, x, kinds)
      requires ValueRead(name, x, kinds)[n..] == x[n..]
      requires options == before[name := before[name].(mustSave := false)]
      requires mirror == was + if before[name].deleted then "unset " + name
                               else h + Write(kinds[name], before[name].value)
      ensures Handled(start, h + x, Plain(Assign(name, v), ValueRead(name, x, kinds), n).After(h), ERROR_NONE,
                      before, was)
    {
      hide Write, ToLineEnd, ReadOver;
      var i := Plain(Assign(name, v), ValueRead(name, x, kinds), n).After(h);
      assert i.left[..i.at] == h;
      assert text[start + i.used..] == text[start + |h|..][n..] && (h + x)[i.used..] == x[n..];
      assert text[mirrored..look] == "";
      MirrorOne(Set(name, v), before);
    }

    lemma MirrorOne(c: Command, o: Options)
      ensures Mirror([c], o) == MirrorCommand(c, o)
    {
      assert [c][1..] == [];
    }

    /** parse_set_domain, in a file that is rewritten. */
    method ParseSetDomain(start: nat) returns (err: ParseError)
      requires Valid() && start == mirrored <= look
      modifies this`look, this`mirrored, this`mirror, this`options, this`text
      ensures Handled(start, old(text[start..]), DomainItem(old(Rest())).After(old(text[start..look])), err,
              old(options), old(mirror))
    {
      hide White, NameLength, ToLineEnd, Handled, Mirror, SetItem;
      ghost var u, h := Rest(), text[start..look];
      assert text[start..] == h + u;
      SkipWhite();
      if look == |text| {
        LineEndEmpty();
        HandledBehind(start, h, u, DomainItem(u), ERROR_PARSE);
        return ERROR_PARSE;
      }
      ghost var p1 := White(u);
      assert Rest() == u[p1..];
      SkipName();
      ghost var p2 := p1 + NameLength(u[p1..]);
      assert Rest() == u[p2..] && text[start..look] == h + u[..p2];
      AfterTwice(SetItem(u[p2..], map[]), h, u[..p2]);
      err := ParseName(start, map[]);
    }

    /** parse_unset, in a file that is rewritten. */
    method ParseUnset(start: nat) returns (err: ParseError)
      requires Valid() && start == mirrored <= look
      modifies this`look, this`mirrored, this`mirror, this`options
      ensures Handled(start, old(text[start..]), UnsetItem(old(Rest()), kinds).After(old(text[start..look])), err,
              old(options), old(mirror))
    {
      hide Write, White, NameLength, ToLineEnd, Handled, Mirror;
      ghost var u, h := Rest(), text[start..look];
      assert text[start..] == h + u;
      SkipWhite();
      ghost var p1 := White(u);
      PassedText(start, h, u, p1);
      if look == |text| {
        LineEndEmpty();
        HandledBehind(start, h, u, UnsetItem(u, kinds), ERROR_PARSE);
        return ERROR_PARSE;
      }
      var nameAt := look;
      SkipName();
      ghost var p2 := p1 + NameLength(u[p1..]);
      PassedText(start, h, u, p2);
      var name := text[nameAt..look];
      assert name == u[p1..p2];
      UnsetItemIs(u, p1, p2);
      err := ERROR_NONE;
      if name !in kinds {
        HandledBehind(start, h, u, UnsetItem(u, kinds), ERROR_NONE);
        return;
      }
      Restate(name);
      HandledUnset(start, h, u, p2, name, old(options), old(mirror));
    }

    lemma UnsetItemIs(u: string, p1: nat, p2: nat)
      requires p1 == White(u) < |u| && p2 == p1 + NameLength(u[p1..])
      ensures UnsetItem(u, kinds) == Plain(if u[p1..p2] in kinds then Remove(u[p1..p2]) else Nothing(false), u, p2)
    {
      hide White, NameLength;
    }

    /** An unset command becomes the current setting, unless the option is deleted. */
    method Restate(name: string)
      requires Valid() && name in kinds
      modifies this`mirrored, this`mirror, this`options
      ensures Valid() && options == old(options)[name := old(options)[name].(mustSave := false)]
      ensures old(options)[name].deleted ==> mirrored == old(mirrored) && mirror == old(mirror)
      ensures !old(options)[name].deleted ==>
        mirrored == look && mirror == old(mirror) + "set " + name + " = " + Write(kinds[name], old(options)[name].value)
    {
      hide Write;
      var o := options[name];
      if o.deleted {
        // The command is already in the file.
      } else {
        mirror := mirror + "set ";
        mirror := mirror + name;
        mirror := mirror + " = ";
        mirror := mirror + Write(kinds[name], o.value);
        mirrored := look;
      }
      options := options[name := o.(mustSave := false)];
    }

    lemma HandledUnset(start: nat, h: string, u: string, n: nat, name: string, before: Options, was: string)
      requires Valid() && start <= mirrored && look == start + |h| + n && n <= |u| && name in before
      requires before.Keys == kinds.Keys
      requires text[start..] == h + u
      requires options == before[name := before[name].(mustSave := false)]
      requires before[name].deleted ==> mirrored == start && mirror == was
      requires !before[name].deleted ==>
               mirrored == look && mirror == was + "set " + name + " = " + Write(kinds[name], before[name].value)
      ensures Handled(start, h + u, Plain(Remove(name), u, n).After(h), ERROR_NONE, before, was)
    {
      hide Write, ToLineEnd;
      var i := Plain(Remove(name), u, n).After(h);
      assert text[start + i.used..] == text[start..][i.used..];
      assert text[start..look] == text[start..][..i.used] == i.left;
      MirrorOne(Unset(name), before);
      if !before[name].deleted {
        assert text[mirrored..look] == "";
        assert was + ("set " + name + " = " + Write(kinds[name], before[name].value))
               == was + "set " + name + " = " + Write(kinds[name], before[name].value);
      }
    }

    /** str_rd, whose loop is OptionText.StrRd: reading a string blanks its continued lines in the
        buffer, also if nothing comes of it. */
    method ReadString() returns (r: Option<string>)
      requires Valid() && mirrored <= look
      modifies this`look, this`text
      ensures Valid()
      ensures text == old(text[..look]) + ReadOver(old(Rest()))
      ensures match ReadStr(old(Rest()), 0)
              case None => r == None && look == old(look)
              case Some((v, n)) => r == Some(v) && look == old(look) + n
    {
      hide StrBody, ReadOver;
      var s := ReadStr(Rest(), 0);
      text := text[..look] + ReadOver(Rest());
      if s == None { return None; }
      look := look + s.value.1;
      return Some(s.value.0);
    }

    /** No string where one was expected, or nothing behind it: the line is skipped from `at`, where
        the string was to start. */
    lemma HandledTorn(start: nat, h: string, x: string, i: Item)
      requires Valid() && start == mirrored && look == start + |h|
      requires i.said.Nothing? && i.at == 0 && i.used == ToLineEnd(x) && i.left == ReadOver(x)[..ToLineEnd(x)]
      requires text == text[..look] + ReadOver(x) && text[start..look] == h
      ensures Handled(start, h + x, i.After(h), ERROR_PARSE, options, mirror)
    {
      hide ToLineEnd, ReadOver, SkipValue;
      SkipOver(x);
      assert Rest() == ReadOver(x);
      HandledBehind(start, h, x, i, ERROR_PARSE);
    }

    /** parse_bind, in a file that is rewritten. */
    method ParseBind(start: nat) returns (err: ParseError)
      requires Valid() && start == mirrored <= look
      modifies this`look, this`mirrored, this`mirror, this`text
      ensures Handled(start, old(text[start..]), BindItem(old(Rest())).After(old(text[start..look])), err,
              old(options), old(mirror))
    {
      hide White, ToLineEnd, Handled, Mirror, KeymapItem;
      ghost var u, h := Rest(), text[start..look];
      assert text[start..] == h + u;
      SkipWhite();
      if look == |text| {
        LineEndEmpty();
        HandledBehind(start, h, u, BindItem(u), ERROR_PARSE);
        return ERROR_PARSE;
      }
      assert Rest() == u[White(u)..] && text[start..look] == h + u[..White(u)];
      AfterTwice(KeymapItem(u[White(u)..]), h, u[..White(u)]);
      err := ParseKeymap(start);
    }

    method ParseKeymap(start: nat) returns (err: ParseError)
      requires Valid() && start == mirrored <= look
      modifies this`look, this`mirrored, this`mirror, this`text
      ensures Handled(start, old(text[start..]), KeymapItem(old(Rest())).After(old(text[start..look])), err,
              old(options), old(mirror))
    {
      hide White, ToLineEnd, QuoteOpen, Handled, Mirror, KeystrokeItem, ReadStr, ReadOver;
      ghost var x, h := Rest(), text[start..look];
      var beforeError := look;
      var keymap := ReadString();
      assert old(text[start..]) == h + x && text[start..beforeError] == h
        && Rest() == ReadOver(x)[look - beforeError..];
      if keymap == None {
        HandledTorn(start, h, x, KeymapItem(x));
        return ERROR_PARSE;
      }
      OverRead(x);
      ghost var n := ReadStr(x, 0).value.1;
      SkipWhite();
      ghost var w := n + White(x[n..]);
      if look == |text| {
        look := beforeError;
        HandledTorn(start, h, x, KeymapItem(x));
        return ERROR_PARSE;
      }
      ghost var d := text[start..];
      PassedString(start, h, x, n, w);
      AfterTwice(KeystrokeItem(keymap.value, x[w..]), h, ReadOver(x)[..w]);
      err := ParseKeystroke(start, keymap.value);
      HandledSame(start, h + x, d, KeymapItem(x).After(h), err, old(options), old(mirror));
    }

    /** The buffer after a string that starts at the end of `h` and the white space behind it. */
    lemma PassedString(start: nat, h: string, x: string, n: nat, w: nat)
      requires Valid() && start + |h| + w == look && n <= w <= |x| && ReadOver(x)[n..] == x[n..]
      requires text[start..start + |h|] == h && text[start + |h|..] == ReadOver(x)
      ensures Rest() == x[w..] && text[start..look] == h + ReadOver(x)[..w]
      ensures |text[start..]| == |h + x|
      ensures forall k: nat :: |h| + w <= k <= |h + x| ==> (h + x)[k..] == text[start..][k..]
    {
      hide ReadOver;
      assert Rest() == ReadOver(x)[w..] && ReadOver(x)[w..] == ReadOver(x)[n..][w - n..] && x[w..] == x[n..][w - n..];
      forall k: nat | |h| + w <= k <= |h + x| ensures (h + x)[k..] == text[start..][k..] {
        assert (h + x)[k..] == x[w..][k - |h| - w..] && text[start..][k..] == Rest()[k - |h| - w..];
      }
    }

    method ParseKeystroke(start: nat, keymap: string) returns (err: ParseError)
      requires Valid() && start == mirrored <= look
      modifies this`look, this`mirrored, this`mirror, this`text
      ensures Handled(start, old(text[start..]), KeystrokeItem(keymap, old(Rest())).After(old(text[start..look])),
              err, old(options), old(mirror))
    {
      hide White, ToLineEnd, QuoteOpen, Handled, Mirror, BindEqualsItem, ReadStr, ReadOver;
      ghost var x, h := Rest(), text[start..look];
      var beforeError := look;
      var keystroke := ReadString();
      assert old(text[start..]) == h + x && text[start..beforeError] == h
        && Rest() == ReadOver(x)[look - beforeError..];
      if keystroke == None {
        HandledTorn(start, h, x, KeystrokeItem(keymap, x));
        return ERROR_PARSE;
      }
      OverRead(x);
      ghost var n := ReadStr(x, 0).value.1;
      SkipWhite();
      ghost var w := n + White(x[n..]);
      if look == |text| {
        look := beforeError;
        HandledTorn(start, h, x, KeystrokeItem(keymap, x));
        return ERROR_PARSE;
      }
      ghost var d := text[start..];
      PassedString(start, h, x, n, w);
      AfterTwice(BindEqualsItem(keymap, keystroke.value, x[w..]), h, ReadOver(x)[..w]);
      err := ParseBindEquals(start, keymap, keystroke.value);
      HandledSame(start, h + x, d, KeystrokeItem(keymap, x).After(h), err, old(options), old(mirror));
    }

    method ParseBindEquals(start: nat, keymap: string, keystroke: string) returns (err: ParseError)
      requires Valid() && start == mirrored <= look < |text|
      modifies this`look, this`mirrored, this`mirror, this`text
      ensures Handled(start, old(text[start..]),
              BindEqualsItem(keymap, keystroke, old(Rest())).After(old(text[start..look])), err, old(options),
              old(mirror))
    {
      hide White, ToLineEnd, QuoteOpen, Handled, Mirror, ActionItem, BindEqualsItem;
      ghost var y, h := Rest(), text[start..look];
      assert text[start..] == h + y;
      BindEqualsIs(keymap, keystroke, y);
      PassedText(start, h, y, 0);
      if text[look] != '=' {
        HandledBehind(start, h, y, BindEqualsItem(keymap, keystroke, y), ERROR_PARSE);
        return ERROR_PARSE;
      }
      look := look + 1;
      assert Rest() == y[1..];
      SkipWhite();
      ghost var w := 1 + White(y[1..]);
      PassedText(start, h, y, w);
      if look == |text| {
        LineEndEmpty();
        HandledBehind(start, h, y, BindEqualsItem(keymap, keystroke, y), ERROR_PARSE);
        return ERROR_PARSE;
      }
      AfterTwice(ActionItem(keymap, keystroke, y[w..]), h, y[..w]);
      err := ParseAction(start, keymap, keystroke);
    }

    lemma BindEqualsIs(keymap: string, keystroke: string, y: string)
      requires y != ""
      ensures y[0] != '=' ==> BindEqualsItem(keymap, keystroke, y) == Plain(Nothing(QuoteOpen(y)), y, ToLineEnd(y))
      ensures y[0] == '=' ==>
        var w := 1 + White(y[1..]);
        BindEqualsItem(keymap, keystroke, y)
        == if w == |y| then Plain(Nothing(true), y, |y|) else ActionItem(keymap, keystroke, y[w..]).After(y[..w])
    {
      hide White, ToLineEnd, QuoteOpen, ActionItem;
      var w := 1 + White(y[1..]);
      assert y[w..] == y[1..][w - 1..] && (y[0] == '=' ==> y[..w] == "=" + y[1..][..w - 1]);
    }

    method ParseAction(start: nat, keymap: string, keystroke: string) returns (err: ParseError)
      requires Valid() && start == mirrored <= look
      modifies this`look, this`mirrored, this`mirror, this`text
      ensures Handled(start, old(text[start..]),
              ActionItem(keymap, keystroke, old(Rest())).After(old(text[start..look])), err, old(options), old(mirror))
    {
      hide White, ToLineEnd, QuoteOpen, Handled, Mirror, ReadStr, ReadOver;
      ghost var x, h := Rest(), text[start..look];
      var beforeError := look;
      var action := ReadString();
      assert old(text[start..]) == h + x && text[start..beforeError] == h;
      if action == None {
        HandledTorn(start, h, x, ActionItem(keymap, keystroke, x));
        return ERROR_PARSE;
      }
      OverRead(x);
      var line := BindLine(keymap, keystroke, action.value);
      var act := ActOf(line, acts);
      if act != None {
        mirror := mirror + text[mirrored..beforeError];
        mirror := mirror + "\"" + act.value + "\"";
        mirrored := look;
        err := ERROR_NONE;
      } else {
        err := ERROR_VALUE;
      }
      HandledBound(start, h, x, look - beforeError, line, err, old(mirror));
    }

    lemma HandledBound(start: nat, h: string, x: string, n: nat, line: BindLine, err: ParseError, was: string)
      requires Valid() && start <= mirrored && look == start + |h| + n && n <= |x|
      requires err == ERROR_NONE || err == ERROR_VALUE
      requires text[start..start + |h|] == h && text[start + |h|..] == ReadOver(x) && ReadOver(x)[n..] == x[n..]
      requires ActOf(line, acts) == None ==> mirrored == start && mirror == was
      requires ActOf(line, acts).Some? ==>
               mirrored == look && mirror == was + h + ("\"" + ActOf(line, acts).value + "\"")
      ensures Handled(start, h + x, Plain(Bound(line), ReadOver(x), n).After(h), err, options, was)
    {
      hide ToLineEnd, ReadOver;
      var i := Plain(Bound(line), ReadOver(x), n).After(h);
      assert i.left[..i.at] == h;
      assert text[start + i.used..] == text[start + |h|..][n..] && (h + x)[i.used..] == x[n..];
      assert text[start..look] == h + ReadOver(x)[..n];
      MirrorEmpty(options);
      if ActOf(line, acts).Some? {
        var q := ActOf(line, acts).value;
        assert text[mirrored..look] == "";
        assert was + h + ("\"" + q + "\"") == was + (h + "\"" + q + "\"");
      }
    }

    lemma MirrorEmpty(o: Options)
      ensures Mirror([], o) == o
    {
    }

    /** parse_include, in a file that is rewritten: the included file is only scanned. */
    method ParseInclude(start: nat) returns (err: ParseError)
      requires Valid() && start == mirrored <= look
      modifies this`look, this`options, this`text
      ensures Handled(start, old(text[start..]), IncludeItem(old(Rest())).After(old(text[start..look])), err,
              old(options), old(mirror))
    {
      hide ReadStr, White, ToLineEnd, Handled, Mirror, FileItem;
      ghost var u, h := Rest(), text[start..look];
      assert text[start..] == h + u;
      SkipWhite();
      PassedText(start, h, u, White(u));
      if look == |text| {
        LineEndEmpty();
        HandledBehind(start, h, u, IncludeItem(u), ERROR_PARSE);
        return ERROR_PARSE;
      }
      AfterTwice(FileItem(u[White(u)..]), h, u[..White(u)]);
      err := ParseFileName(start);
    }

    method ParseFileName(start: nat) returns (err: ParseError)
      requires Valid() && start == mirrored <= look
      modifies this`look, this`options, this`text
      ensures Handled(start, old(text[start..]), FileItem(old(Rest())).After(old(text[start..look])), err,
              old(options), old(mirror))
    {
      hide ReadStr, ToLineEnd, Handled, Mirror, Scan, ReadOver, FileItem;
      ghost var x, h := Rest(), text[start..look];
      assert text[start..] == h + x;
      FileCases(x);
      ghost var fileAt := look;
      var fname := ReadString();
      assert text[start..fileAt] == h;
      if fname == None {
        HandledTorn(start, h, x, FileItem(x));
        return ERROR_PARSE;
      }
      OverRead(x);
      if fname.value in files {
        err := ERROR_NONE;
        options := Scan(files[fname.value], options);
      } else {
        err := ERROR_VALUE;
      }
      HandledInclude(start, h, x, look - fileAt, err, fname.value, old(options));
    }

    lemma FileCases(x: string)
      ensures ReadStr(x, 0) == None ==> FileItem(x) == TornItem(x)
      ensures ReadStr(x, 0).Some? ==>
              FileItem(x) == Plain(Included(ReadStr(x, 0).value.0), ReadOver(x), ReadStr(x, 0).value.1)
    {
      hide ReadStr, ReadOver, ToLineEnd, QuoteOpen;
    }

    lemma HandledInclude(start: nat, h: string, x: string, n: nat, err: ParseError, name: string, before: Options)
      requires Valid() && start == mirrored && look == start + |h| + n && n <= |x|
      requires err == ERROR_NONE || err == ERROR_VALUE
      requires text[start..start + |h|] == h && text[start + |h|..] == ReadOver(x) && ReadOver(x)[n..] == x[n..]
      requires before.Keys == kinds.Keys && options == if name in files then Scan(files[name], before) else before
      ensures Handled(start, h + x, Plain(Included(name), ReadOver(x), n).After(h), err, before, mirror)
    {
      hide ToLineEnd, Scan, ReadOver;
      var i := Plain(Included(name), ReadOver(x), n).After(h);
      assert text[start + i.used..] == text[start + |h|..][n..] && (h + x)[i.used..] == x[n..];
      assert text[start..look] == h + ReadOver(x)[..n];
      if name in files { MirrorOne(Include(files[name]), before); }
    }

    predicate IsHandled(c: string) {
      Starts(c, "set_domain") || Starts(c, "set") || Starts(c, "unset") || Starts(c, "bind") || Starts(c, "include")
    }

    /** The handler of a command. */
    method Handle() returns (err: ParseError)
      requires Valid() && mirrored == look < |text| && Solid(text[look]) && IsHandled(Rest())
      modifies this`look, this`mirrored, this`mirror, this`options, this`text
      ensures Handled(old(look), old(Rest()), CommandItem(old(Rest()), kinds), err, old(options), old(mirror))
    {
      hide SetItem, UnsetItem, IncludeItem, DomainItem, BindItem, Starts, Handled;
      var start := look;
      if Starts(Rest(), "set_domain") {
        TakeWord(start, "set_domain");
        look := look + 10;
        err := ParseSetDomain(start);
      } else if Starts(Rest(), "set") {
        TakeWord(start, "set");
        look := look + 3;
        err := ParseName(start, kinds);
      } else if Starts(Rest(), "unset") {
        TakeWord(start, "unset");
        look := look + 5;
        err := ParseUnset(start);
      } else if Starts(Rest(), "bind") {
        TakeWord(start, "bind");
        look := look + 4;
        err := ParseBind(start);
      } else {
        TakeWord(start, "include");
        look := look + 7;
        err := ParseInclude(start);
      }
    }

    /** parse_config_command: everything up to here has been mirrored, and so is everything the
        handler passes.  After an error that says so, the rest of the line is still to be skipped. */
    method ParseConfigCommand() returns (err: ParseError)
      requires Valid() && mirrored == look < |text| && Solid(text[look])
      modifies this`look, this`mirrored, this`mirror, this`options, this`text
      ensures Valid() && mirrored == look && |text| == old(|text|)
      ensures var c := old(Rest()); var i := CommandItem(c, kinds);
        && old(look) + i.used == look + (if err == ERROR_PARSE || err == ERROR_COMMAND then ToLineEnd(Rest()) else 0)
        && text[old(look) + i.used..] == c[i.used..]
        && mirror + text[look..old(look) + i.used] == old(mirror) + Piece(i, old(options), kinds, acts)
        && options == Mirror(Says(i.said, files), old(options))
    {
      hide CommandItem, Piece, ToLineEnd, Mirror, IsHandled;
      ghost var c := Rest();
      var start := look;
      if !IsHandled(Rest()) {
        LinePiece(c, options);
        assert text[look..start + ToLineEnd(c)] == c[..ToLineEnd(c)];
        assert text[start + ToLineEnd(c)..] == c[ToLineEnd(c)..];
        return ERROR_COMMAND;
      }
      err := Handle();
      Finish(start, c, CommandItem(c, kinds), err, old(options), old(mirror));
      CatchUp();
    }

    /** The command word and what is behind it. */
    lemma TakeWord(start: nat, word: string)
      requires Valid() && look == start && Starts(Rest(), word)
      ensures look + |word| <= |text| && text[start..start + |word|] == word
      ensures text[start + |word|..] == text[start..][|word|..]
    {
      assert text[start..start + |word|] == Rest()[..|word|];
    }

    lemma LinePiece(c: string, o: Options)
      requires c != "" && Solid(c[0])
      requires !IsHandled(c)
      ensures var i := CommandItem(c, kinds);
              && i.used == ToLineEnd(c) && Piece(i, o, kinds, acts) == c[..i.used]
              && Mirror(Says(i.said, files), o) == o
    {
      hide ToLineEnd, QuoteOpen;
    }

    /** What mirroring the rest of a handled command gives. */
    lemma Finish(start: nat, c: string, i: Item, err: ParseError, before: Options, was: string)
      requires Handled(start, c, i, err, before, was)
      ensures i.In(c) && start + i.used <= |text| && look <= start + i.used
      ensures mirror + text[mirrored..look] + text[look..start + i.used] == was + Piece(i, before, kinds, acts)
    {
      hide ToLineEnd, Mirror;
      if err == ERROR_PARSE {
        assert i.left == text[start..look] + text[look..start + i.used];
        assert was + text[start..look] + text[look..start + i.used]
          == was + (text[start..look] + text[look..start + i.used]);
      } else {
        assert text[look..start + i.used] == "";
      }
    }

    /** One round of parse_config_file: a command, and after an error the rest of its line. */
    method ParseNext()
      requires Valid() && mirrored == look < |text| && Solid(text[look])
      modifies this`look, this`mirrored, this`mirror, this`options, this`text
      ensures Valid() && mirrored == look && old(look) < look && |text| == old(|text|)
      ensures var c := old(Rest()); var i := CommandItem(c, kinds);
        && Rest() == c[i.used..]
        && mirror == old(mirror) + Piece(i, old(options), kinds, acts)
        && options == Mirror(Says(i.said, files), old(options))
    {
      hide CommandItem, Piece, Mirror, White, ToLineEnd;
      ghost var c, from := Rest(), look;
      ghost var i := CommandItem(c, kinds);
      var err := ParseConfigCommand();
      if err == ERROR_COMMAND || err == ERROR_PARSE {
        SkipToUnquotedNewlineOrComment();
        CatchUp();
      } else {
        assert text[look..look] == "" && mirror + "" == mirror;
      }
      assert look == from + i.used;
    }

    /** parse_config_file, on any file that is rewritten: it comes to the end, the new text is the old
        one with the commands of options and key bindings rewritten, and the flags are those after the
        commands. */
    method ParseConfigFile()
      requires Valid() && look == 0 && mirrored == 0 && mirror == ""
      modifies this`look, this`mirrored, this`mirror, this`options, this`text
      ensures Valid() && look == mirrored == |text| == old(|text|)
      ensures mirror == MirrorText(old(text), old(options), kinds, acts)
      ensures options == Mirror(Commands(old(text), kinds, files), old(options))
    {
      hide CommandItem, MirrorText, Commands, Mirror, White, ToLineEnd, Piece, Says;
      ghost var whole := text;
      assert Rest() == text;
      while look < |text|
        invariant Valid() && mirrored == look && |text| == |whole| && SameButFlags(old(options), options)
        invariant mirror + MirrorText(Rest(), options, kinds, acts) == MirrorText(whole, old(options), kinds, acts)
        invariant Mirror(Commands(Rest(), kinds, files), options) == Mirror(Commands(whole, kinds, files), old(options))
        decreases |text| - look
      {
        ghost var t, was, flags, at := Rest(), mirror, options, look;
        SkipWhite();
        CatchUp();
        assert text[at..look] == t[..White(t)] && Rest() == t[White(t)..];
        if look == |text| {
          AllWhite(t, options);
          AllWhite(Rest(), options);
          assert t[..White(t)] == t && mirror + Rest() == was + t;
          break;
        }
        OneStep(t, options);
        ghost var i := CommandItem(Rest(), kinds);
        ParseNext();
        MirrorSays(i.said, flags);
        FlagsUnread(Rest(), flags, options);
        MirrorOfConcat(Says(i.said, files), Commands(Rest(), kinds, files), flags);
        SameSplit(was, t[..White(t)], Piece(i, flags, kinds, acts), MirrorText(Rest(), flags, kinds, acts));
      }
      AllWhite(Rest(), options);
    }

    lemma SameSplit(a: string, b: string, c: string, d: string)
      ensures a + (b + c + d) == a + b + c + d
    {
    }

    lemma AllWhite(t: string, o: Options)
      requires White(t) == |t|
      ensures MirrorText(t, o, kinds, acts) == t && Commands(t, kinds, files) == [] && Mirror([], o) == o
    {
    }

    lemma OneStep(t: string, o: Options)
      requires White(t) < |t|
      ensures var w := White(t); var c := t[w..]; var i := CommandItem(c, kinds);
        && MirrorText(t, o, kinds, acts) == t[..w] + Piece(i, o, kinds, acts) + MirrorText(c[i.used..], o, kinds, acts)
        && Commands(t, kinds, files) == Says(i.said, files) + Commands(c[i.used..], kinds, files)
    {
      hide CommandItem, White, Piece, Says;
      var c := t[White(t)..];
      var i := CommandItem(c, kinds);
      assert Sayings(t, kinds)[1..] == Sayings(c[i.used..], kinds);
    }

    lemma MirrorSays(s: Said, o: Options)
      ensures SameButFlags(o, Mirror(Says(s, files), o))
    {
      if Says(s, files) != [] {
        MirrorOne(Says(s, files)[0], o);
        assert Says(s, files) == [Says(s, files)[0]];
        MirrorCommandFlags(Says(s, files)[0], o);
      }
    }

    lemma PieceUnread(i: Item, o: Options, p: Options)
      requires SameButFlags(o, p) && i.at <= |i.left|
      ensures Piece(i, o, kinds, acts) == Piece(i, p, kinds, acts)
    {
    }

    /** What is rewritten does not depend on the flags. */
    lemma {:induction false} FlagsUnread(t: string, o: Options, p: Options)
      requires SameButFlags(o, p)
      ensures MirrorText(t, o, kinds, acts) == MirrorText(t, p, kinds, acts)
      decreases |t|
    {
      hide CommandItem, White, Piece;
      var w := White(t);
      if w < |t| {
        var i := CommandItem(t[w..], kinds);
        PieceUnread(i, o, p);
        FlagsUnread(t[w..][i.used..], o, p);
      }
    }

    lemma {:induction false} MirrorOfConcat(a: seq<Command>, b: seq<Command>, o: Options)
      ensures Mirror(a + b, o) == Mirror(b, Mirror(a, o))
    {
      if a == [] {
        assert a + b == b;
      } else {
        assert (a + b)[0] == a[0] && (a + b)[1..] == a[1..] + b;
        MirrorOfConcat(a[1..], b, MirrorCommand(a[0], o));
      }
    }
  }
}
