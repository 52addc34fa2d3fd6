/** Saving the configuration and loading it again, with a configuration file seen as the commands
    it contains (src/config/conf.c, src/config/options.c; scheme in src/config/options.h:34-68). */
module ConfigSave {
  import opened Basics
  import opened OptionText

  /** A command of a configuration file.  Only commands that name a known option and a value its
      reader accepts have any effect; an included file is the list of its commands. */
  datatype Command = Set(name: string, value: Value) | Unset(name: string) | Include(body: seq<Command>)

  datatype Opt = Opt(value: Value, deleted: bool, touched: bool, mustSave: bool)

  type Options = map<string, Opt>

  // ---- loading

  /** parse_set_common and parse_unset when a file is loaded. */
  function LoadCommand(c: Command, o: Options): (r: Options)
    ensures r.Keys == o.Keys
    decreases c
  {
    match c
    case Set(n, v) => if n in o then o[n := o[n].(value := v)] else o
    case Unset(n) => if n in o then o[n := o[n].(deleted := true, touched := true)] else o
    case Include(body) => Load(body, o)
  }

  function Load(cmds: seq<Command>, o: Options): (r: Options)
    ensures r.Keys == o.Keys
    decreases cmds
  {
    if cmds == [] then o else Load(cmds[1..], LoadCommand(cmds[0], o))
  }

  // ---- saving

  /** prepare_mustsave_flags. */
  function Prepare(o: Options, setAll: bool): (r: Options)
    ensures r.Keys == o.Keys
  {
    map n | n in o :: o[n].(mustSave := setAll || o[n].touched || o[n].deleted)
  }

  /** A command met in an included file: the flag tells whether the option differs from it. */
  function ScanCommand(c: Command, o: Options): (r: Options)
    ensures r.Keys == o.Keys
    decreases c
  {
    match c
    case Set(n, v) => if n in o then o[n := o[n].(mustSave := o[n].deleted || o[n].value != v)] else o
    case Unset(n) => if n in o then o[n := o[n].(mustSave := !o[n].deleted)] else o
    case Include(body) => Scan(body, o)
  }

  function Scan(cmds: seq<Command>, o: Options): (r: Options)
    ensures r.Keys == o.Keys
    decreases cmds
  {
    if cmds == [] then o else Scan(cmds[1..], ScanCommand(cmds[0], o))
  }

  /** The flags after a command of the file that is being rewritten. */
  function MirrorCommand(c: Command, o: Options): (r: Options)
    ensures r.Keys == o.Keys
  {
    match c
    case Set(n, _) => if n in o then o[n := o[n].(mustSave := false)] else o
    case Unset(n) => if n in o then o[n := o[n].(mustSave := false)] else o
    case Include(body) => Scan(body, o)
  }

  function Mirror(cmds: seq<Command>, o: Options): (r: Options)
    ensures r.Keys == o.Keys
  {
    if cmds == [] then o else Mirror(cmds[1..], MirrorCommand(cmds[0], o))
  }

  /** The command that states an option as it is. */
  function Current(n: string, o: Options): Command
    requires n in o
  {
    if o[n].deleted then Unset(n) else Set(n, o[n].value)
  }

  function RewriteCommand(c: Command, o: Options): Command {
    if !c.Include? && c.name in o then Current(c.name, o) else c
  }

  function Rewrite(cmds: seq<Command>, o: Options): (r: seq<Command>)
    ensures |r| == |cmds|
  {
    if cmds == [] then [] else [RewriteCommand(cmds[0], o)] + Rewrite(cmds[1..], o)
  }

  /** smart_config_string: the options, in the order of the tree, that still must be saved. */
  function Appended(order: seq<string>, o: Options): seq<Command>
    requires forall n :: n in order ==> n in o
  {
    if order == [] then []
    else (if o[order[0]].mustSave then [Current(order[0], o)] else []) + Appended(order[1..], o)
  }

  /** The saving styles: 0 alters the old file in place, 1 saves all options, 2 does not keep the old
      file, 3 saves the options that were changed. */
  datatype Style = Alter | All | Fresh | Changed

  /** All options are flagged before saving, not only those that were changed. */
  predicate SetsAll(style: Style) { style == All || style == Fresh }

  /** create_config_string. */
  function Saved(style: Style, file: seq<Command>, order: seq<string>, o: Options): seq<Command>
    requires forall n :: n in order ==> n in o
  {
    var prepared := Prepare(o, SetsAll(style));
    var kept := if style == Fresh then [] else file;
    Rewrite(kept, o) + if style == Alter then [] else Appended(order, Mirror(kept, prepared))
  }

  /** untouch_options. */
  function Untouch(o: Options): (r: Options)
    ensures r.Keys == o.Keys
  {
    map n | n in o :: o[n].(touched := false)
  }

  // ---- which commands concern an option

  predicate Mentions(c: Command, n: string)
    decreases c
  {
    match c
    case Set(m, _) => m == n
    case Unset(m) => m == n
    case Include(body) => AnyMentions(body, n)
  }

  predicate AnyMentions(cmds: seq<Command>, n: string)
    decreases cmds
  {
    cmds != [] && (Mentions(cmds[0], n) || AnyMentions(cmds[1..], n))
  }

  /** Some command, here or in an included file, unsets the option. */
  predicate Unsets(c: Command, n: string)
    decreases c
  {
    match c
    case Set(_, _) => false
    case Unset(m) => m == n
    case Include(body) => AnyUnsets(body, n)
  }

  predicate AnyUnsets(cmds: seq<Command>, n: string)
    decreases cmds
  {
    cmds != [] && (Unsets(cmds[0], n) || AnyUnsets(cmds[1..], n))
  }

  /** An included file, which saving cannot rewrite, unsets the option. */
  predicate IncludeUnsets(cmds: seq<Command>, n: string) {
    cmds != [] && ((cmds[0].Include? && AnyUnsets(cmds[0].body, n)) || IncludeUnsets(cmds[1..], n))
  }

  // ---- the state of one option is what the commands about it make it

  /** `l`, the option as loaded, is what `o`, the option as it is now, says: deleted if it is
      deleted, and otherwise of the same value and not deleted. */
  predicate Agrees(o: Opt, l: Opt) {
    if o.deleted then l.deleted else !l.deleted && l.value == o.value
  }

  /** The part of agreement that the flag records: deletion by an included file aside. */
  predicate ValueAgrees(o: Opt, l: Opt) {
    if o.deleted then l.deleted else l.value == o.value
  }

  lemma {:induction false} LoadOfConcat(a: seq<Command>, b: seq<Command>, o: Options)
    ensures Load(a + b, o) == Load(b, Load(a, o))
  {
    if a == [] {
      assert a + b == b;
    } else {
      assert (a + b)[0] == a[0] && (a + b)[1..] == a[1..] + b;
      LoadOfConcat(a[1..], b, LoadCommand(a[0], o));
    }
  }

  /** What loading does to an option, and what it leaves alone. */
  lemma {:induction false} LoadOption(cmds: seq<Command>, o: Options, n: string)
    requires n in o
    ensures !AnyMentions(cmds, n) ==> Load(cmds, o)[n] == o[n]
    ensures Load(cmds, o)[n].deleted <==> o[n].deleted || AnyUnsets(cmds, n)
    decreases cmds
  {
    if cmds != [] {
      LoadOptionCommand(cmds[0], o, n);
      LoadOption(cmds[1..], LoadCommand(cmds[0], o), n);
    }
  }

  lemma {:induction false} LoadOptionCommand(c: Command, o: Options, n: string)
    requires n in o
    ensures !Mentions(c, n) ==> LoadCommand(c, o)[n] == o[n]
    ensures LoadCommand(c, o)[n].deleted <==> o[n].deleted || Unsets(c, n)
    decreases c
  {
    if c.Include? { LoadOption(c.body, o, n); }
  }

  /** Scanning an included file only changes flags.  For an option it mentions, a clear flag means
      that loading the file leaves the option as it is now; when the file does not unset a live
      option, a set flag means that it does not. */
  lemma {:induction false} ScanOption(cmds: seq<Command>, o: Options, l: Options, n: string)
    requires n in o && n in l
    ensures var p, q := Scan(cmds, o)[n], Load(cmds, l)[n];
            && p == o[n].(mustSave := p.mustSave)
            && (!AnyMentions(cmds, n) ==> p.mustSave == o[n].mustSave)
            && (AnyMentions(cmds, n) && !p.mustSave ==> ValueAgrees(p, q))
            && (AnyMentions(cmds, n) && !o[n].deleted && !AnyUnsets(cmds, n) ==> (p.mustSave <==> q.value != p.value))
    decreases cmds
  {
    if cmds != [] {
      ScanOptionCommand(cmds[0], o, l, n);
      ScanOption(cmds[1..], ScanCommand(cmds[0], o), LoadCommand(cmds[0], l), n);
      LoadOption(cmds[1..], LoadCommand(cmds[0], l), n);
    }
  }

  lemma {:induction false} ScanOptionCommand(c: Command, o: Options, l: Options, n: string)
    requires n in o && n in l
    ensures var p, q := ScanCommand(c, o)[n], LoadCommand(c, l)[n];
            && p == o[n].(mustSave := p.mustSave)
            && (!Mentions(c, n) ==> p.mustSave == o[n].mustSave)
            && (Mentions(c, n) && !p.mustSave ==> ValueAgrees(p, q))
            && (Mentions(c, n) && !o[n].deleted && !Unsets(c, n) ==> (p.mustSave <==> q.value != p.value))
    decreases c
  {
    if c.Include? { ScanOption(c.body, o, l, n); }
  }

  /** The loop invariant of saving.  For an option that the file mentions, the flag after a prefix
      is clear only if loading the rewritten prefix leaves the option as it is now; if no included
      file unsets the option while it is live, exactly if.  An option not mentioned keeps its flag. */
  lemma {:induction false} MirrorOption(cmds: seq<Command>, o: Options, l: Options, n: string)
    requires n in o && n in l && o.Keys == l.Keys
    ensures var p, q := Mirror(cmds, o)[n], Load(Rewrite(cmds, o), l)[n];
            && p == o[n].(mustSave := p.mustSave)
            && (!AnyMentions(cmds, n) ==> p.mustSave == o[n].mustSave && q == l[n])
            && (AnyMentions(cmds, n) && !p.mustSave ==> ValueAgrees(p, q))
            && (AnyMentions(cmds, n) && !o[n].deleted && !IncludeUnsets(cmds, n) ==>
                 (p.mustSave <==> q.value != p.value))
            && (!o[n].deleted ==> (q.deleted <==> l[n].deleted || IncludeUnsets(cmds, n)))
    decreases cmds
  {
    if cmds != [] {
      var c, o', l' := cmds[0], MirrorCommand(cmds[0], o), LoadCommand(RewriteCommand(cmds[0], o), l);
      MirrorOptionCommand(c, o, l, n);
      SameOptions(cmds[1..], o, o');
      MirrorOption(cmds[1..], o', l', n);
      assert Rewrite(cmds, o) == [RewriteCommand(c, o)] + Rewrite(cmds[1..], o);
      assert Rewrite(cmds, o)[1..] == Rewrite(cmds[1..], o');
    }
  }

  /** The flags are all that a command of the file changes, for every option. */
  predicate SameButFlags(o: Options, p: Options) {
    o.Keys == p.Keys && forall n :: n in o ==> p[n] == o[n].(mustSave := p[n].mustSave)
  }

  /** Rewriting does not look at the flags. */
  lemma {:induction false} SameRewrite(cmds: seq<Command>, o: Options, p: Options)
    requires SameButFlags(o, p)
    ensures Rewrite(cmds, o) == Rewrite(cmds, p)
  {
    if cmds != [] { SameRewrite(cmds[1..], o, p); }
  }

  lemma MirrorCommandFlags(c: Command, o: Options)
    ensures SameButFlags(o, MirrorCommand(c, o))
  {
    if c.Include? {
      forall n | n in o ensures Scan(c.body, o)[n] == o[n].(mustSave := Scan(c.body, o)[n].mustSave) {
        ScanOption(c.body, o, o, n);
      }
    }
  }

  lemma MirrorOptionCommand(c: Command, o: Options, l: Options, n: string)
    requires n in o && n in l && o.Keys == l.Keys
    ensures var p, q := MirrorCommand(c, o)[n], LoadCommand(RewriteCommand(c, o), l)[n];
            && p == o[n].(mustSave := p.mustSave)
            && (!Mentions(c, n) ==> p.mustSave == o[n].mustSave && q == l[n])
            && (Mentions(c, n) && !p.mustSave ==> ValueAgrees(p, q))
            && (Mentions(c, n) && !o[n].deleted && !(c.Include? && Unsets(c, n)) ==>
                 (p.mustSave <==> q.value != p.value))
            && (!o[n].deleted ==> (q.deleted <==> l[n].deleted || (c.Include? && Unsets(c, n))))
  {
    LoadOptionCommand(RewriteCommand(c, o), l, n);
    if c.Include? { ScanOptionCommand(c, o, l, n); }
  }

  lemma SameOptions(cmds: seq<Command>, o: Options, p: Options)
    requires exists c :: p == MirrorCommand(c, o)
    ensures Rewrite(cmds, o) == Rewrite(cmds, p)
  {
    var c :| p == MirrorCommand(c, o);
    MirrorCommandFlags(c, o);
    SameRewrite(cmds, o, p);
  }

  lemma NothingLeft(o: Options)
    ensures Mirror([], o) == o && Rewrite([], o) == []
  {
  }

  lemma MirrorStep(cmds: seq<Command>, i: nat, o: Options)
    requires i < |cmds|
    ensures Mirror(cmds[i..], o) == Mirror(cmds[i + 1..], MirrorCommand(cmds[i], o))
    ensures Rewrite(cmds[i..], o) == [RewriteCommand(cmds[i], o)] + Rewrite(cmds[i + 1..], MirrorCommand(cmds[i], o))
  {
    assert cmds[i..][0] == cmds[i] && cmds[i..][1..] == cmds[i + 1..];
    SameOptions(cmds[i + 1..], o, MirrorCommand(cmds[i], o));
  }

  lemma {:induction false} AppendedOption(order: seq<string>, o: Options, l: Options, n: string)
    requires (forall m :: m in order ==> m in o) && o.Keys == l.Keys && n in o
    ensures var q := Load(Appended(order, o), l)[n];
            if n in order && o[n].mustSave
            then (if o[n].deleted then q.deleted else q.value == o[n].value && q.deleted == l[n].deleted)
            else q == l[n]
  {
    if order != [] {
      var first := if o[order[0]].mustSave then [Current(order[0], o)] else [];
      LoadOfConcat(first, Appended(order[1..], o), l);
      AppendedOption(order[1..], o, Load(first, l), n);
      if first != [] { assert first[1..] == []; }
      LoadOption(Appended(order[1..], o), Load(first, l), n);
    }
  }

  /** When loading what was saved gives an option back: it is deleted, or no included file that is
      kept unsets it and it did not start out deleted; and if only changed options are saved and it
      was neither changed, deleted nor mentioned in the file, it has the value it started with.  When
      the file is only altered, more is needed. */
  predicate Restorable(style: Style, file: seq<Command>, o: Options, base: Options, n: string)
    requires n in o && n in base
  {
    && (o[n].deleted || (!base[n].deleted && (style == Fresh || !IncludeUnsets(file, n))))
    && (style == Changed && !o[n].touched && !o[n].deleted && !AnyMentions(file, n) ==> base[n].value == o[n].value)
    && (style == Alter ==> AlreadyThere(file, o, base, n))
  }

  /** The file itself sets or unsets the option. */
  predicate Names(file: seq<Command>, n: string) {
    file != [] && ((!file[0].Include? && file[0].name == n) || Names(file[1..], n))
  }

  /** Nothing has to be appended for an option: the file unsets one that is deleted, and leaves the
      flag of a live one clear; or the option is not mentioned and has the value it started with. */
  predicate AlreadyThere(file: seq<Command>, o: Options, base: Options, n: string)
    requires n in o && n in base
  {
    if o[n].deleted then base[n].deleted || Names(file, n) || IncludeUnsets(file, n)
    else if AnyMentions(file, n) then !Mirror(file, o)[n].mustSave
    else base[n].value == o[n].value
  }

  lemma {:induction false} RewriteUnsets(cmds: seq<Command>, o: Options, n: string)
    requires n in o
    ensures AnyUnsets(Rewrite(cmds, o), n) <==> (o[n].deleted && Names(cmds, n)) || IncludeUnsets(cmds, n)
  {
    if cmds != [] {
      var r := Rewrite(cmds, o);
      assert r[0] == RewriteCommand(cmds[0], o) && r[1..] == Rewrite(cmds[1..], o);
      RewriteUnsets(cmds[1..], o, n);
    }
  }

  /** The condition for a file that is only altered. */
  lemma AlteredOptionLoads(file: seq<Command>, o: Options, base: Options, n: string)
    requires o.Keys == base.Keys && n in o
    ensures Agrees(o[n], Load(Rewrite(file, o), base)[n]) <==> Restorable(Alter, file, o, base, n)
  {
    MirrorOption(file, o, base, n);
    RewriteUnsets(file, o, n);
    LoadOption(Rewrite(file, o), base, n);
  }

  /** Saving and then loading gives an option back exactly when that condition holds: for every
      file, with included files, every saving style, and whatever the options are. */
  lemma SavedOptionLoads(style: Style, file: seq<Command>, order: seq<string>, o: Options, base: Options, n: string)
    requires o.Keys == base.Keys && (forall m :: m in order <==> m in o) && n in o
    ensures Agrees(o[n], Load(Saved(style, file, order, o), base)[n]) <==> Restorable(style, file, o, base, n)
  {
    if style == Alter {
      assert Rewrite(file, o) + [] == Rewrite(file, o);
      AlteredOptionLoads(file, o, base, n);
      return;
    }
    var prepared := Prepare(o, SetsAll(style));
    var kept := if style == Fresh then [] else file;
    var flags := Mirror(kept, prepared);
    var mid := Load(Rewrite(kept, o), base);
    SameRewrite(kept, o, prepared);
    MirrorOption(kept, prepared, base, n);
    LoadOfConcat(Rewrite(kept, o), Appended(order, flags), base);
    AppendedOption(order, flags, mid, n);
  }

  // ---- whole runs

  /** What can happen between starting and quitting: an option is changed (option_changed), deleted
      (mark_option_as_deleted), or the configuration is saved; writing the file may fail. */
  datatype Action = Change(name: string, value: Value) | Delete(name: string) | Save(style: Style, written: bool)

  datatype State = State(file: seq<Command>, options: Options)

  function Act(a: Action, s: State, order: seq<string>): (r: State)
    requires forall m :: m in order <==> m in s.options
    ensures r.options.Keys == s.options.Keys
  {
    match a
    case Change(n, v) =>
      if n in s.options then s.(options := s.options[n := s.options[n].(value := v, touched := true)]) else s
    case Delete(n) =>
      if n in s.options then s.(options := s.options[n := s.options[n].(deleted := true, touched := true)]) else s
    case Save(style, written) =>
      var flags := Mirror(if style == Fresh then [] else s.file, Prepare(s.options, SetsAll(style)));
      if written then State(Saved(style, s.file, order, s.options), Untouch(flags)) else s.(options := flags)
  }

  function Run(actions: seq<Action>, s: State, order: seq<string>): (r: State)
    requires forall m :: m in order <==> m in s.options
    ensures r.options.Keys == s.options.Keys
  {
    if actions == [] then s else Run(actions[1..], Act(actions[0], s, order), order)
  }

  /** No live option started out deleted, or is unset by an included file. */
  ghost predicate Alive(s: State, base: Options) {
    && s.options.Keys == base.Keys
    && forall n :: n in base ==> s.options[n].deleted || (!base[n].deleted && !IncludeUnsets(s.file, n))
  }

  /** And the options agree with what loading the file gives, but for those changed since. */
  ghost predicate InSync(s: State, base: Options) {
    Alive(s, base) && forall n :: n in base ==> !s.options[n].touched ==> Agrees(s.options[n], Load(s.file, base)[n])
  }

  /** Loading the file gives every option back. */
  ghost predicate Restores(file: seq<Command>, o: Options, base: Options)
    requires o.Keys == base.Keys
  {
    forall n :: n in o ==> Agrees(o[n], Load(file, base)[n])
  }

  lemma {:induction false} IncludeUnsetsUnsets(cmds: seq<Command>, n: string)
    ensures IncludeUnsets(cmds, n) ==> AnyUnsets(cmds, n)
  {
    if cmds != [] { IncludeUnsetsUnsets(cmds[1..], n); }
  }

  lemma {:induction false} SavedIncludes(cmds: seq<Command>, more: seq<Command>, o: Options, n: string)
    requires forall c :: c in more ==> !c.Include?
    ensures IncludeUnsets(Rewrite(cmds, o) + more, n) <==> IncludeUnsets(cmds, n)
  {
    if cmds == [] {
      assert Rewrite(cmds, o) + more == more;
      NoIncludes(more, n);
    } else {
      var r := Rewrite(cmds, o) + more;
      assert r[0] == RewriteCommand(cmds[0], o) && r[1..] == Rewrite(cmds[1..], o) + more;
      SavedIncludes(cmds[1..], more, o, n);
    }
  }

  lemma {:induction false} NoIncludes(cmds: seq<Command>, n: string)
    requires forall c :: c in cmds ==> !c.Include?
    ensures !IncludeUnsets(cmds, n)
  {
    if cmds != [] { NoIncludes(cmds[1..], n); }
  }

  lemma {:induction false} AppendedNoIncludes(order: seq<string>, o: Options)
    requires forall m :: m in order ==> m in o
    ensures forall c :: c in Appended(order, o) ==> !c.Include?
  {
    if order != [] { AppendedNoIncludes(order[1..], o); }
  }

  /** At the start the options are what loading the file made them. */
  lemma LoadedInSync(file: seq<Command>, base: Options)
    ensures InSync(State(file, Load(file, base)), base)
  {
    forall n | n in base
      ensures Load(file, base)[n].deleted || (!base[n].deleted && !IncludeUnsets(file, n))
    {
      LoadOption(file, base, n);
      IncludeUnsetsUnsets(file, n);
    }
  }

  lemma SaveRestores(style: Style, s: State, order: seq<string>, base: Options)
    requires Alive(s, base) && (forall m :: m in order <==> m in base) && style != Alter
    requires style == Changed ==> InSync(s, base)
    ensures Restores(Saved(style, s.file, order, s.options), s.options, base)
  {
    forall n | n in base ensures Agrees(s.options[n], Load(Saved(style, s.file, order, s.options), base)[n]) {
      SavedOptionLoads(style, s.file, order, s.options, base, n);
      LoadOption(s.file, base, n);
    }
  }

  lemma MirrorKeeps(cmds: seq<Command>, o: Options, n: string)
    requires n in o
    ensures Mirror(cmds, o)[n] == o[n].(mustSave := Mirror(cmds, o)[n].mustSave)
  {
    MirrorOption(cmds, o, o, n);
  }

  /** What saving leaves of the options, and the file it writes. */
  lemma SavedAct(style: Style, written: bool, s: State, order: seq<string>)
    requires forall m :: m in order <==> m in s.options
    ensures var r := Act(Save(style, written), s, order);
            && r.file == (if written then Saved(style, s.file, order, s.options) else s.file)
            && forall n :: n in s.options ==>
                 r.options[n]
                 == s.options[n].(mustSave := r.options[n].mustSave, touched := !written && s.options[n].touched)
  {
    hide Saved;
    var kept := if style == Fresh then [] else s.file;
    var prepared := Prepare(s.options, SetsAll(style));
    forall n | n in s.options
      ensures Mirror(kept, prepared)[n] == s.options[n].(mustSave := Mirror(kept, prepared)[n].mustSave)
    {
      MirrorKeeps(kept, prepared, n);
    }
  }

  /** What is saved includes nothing new. */
  lemma SavedIncludesOld(style: Style, file: seq<Command>, order: seq<string>, o: Options, n: string)
    requires forall m :: m in order <==> m in o
    ensures IncludeUnsets(Saved(style, file, order, o), n) ==> IncludeUnsets(file, n)
  {
    var kept := if style == Fresh then [] else file;
    var more := if style == Alter then [] else Appended(order, Mirror(kept, Prepare(o, SetsAll(style))));
    AppendedNoIncludes(order, Mirror(kept, Prepare(o, SetsAll(style))));
    SavedIncludes(kept, more, o, n);
  }

  lemma ActKeepsAlive(a: Action, s: State, order: seq<string>, base: Options)
    requires Alive(s, base) && forall m :: m in order <==> m in base
    ensures Alive(Act(a, s, order), base)
  {
    hide Saved, IncludeUnsets;
    if a.Save? {
      hide Act;
      var r := Act(a, s, order);
      SavedAct(a.style, a.written, s, order);
      forall n | n in base ensures r.options[n].deleted || (!base[n].deleted && !IncludeUnsets(r.file, n)) {
        SavedIncludesOld(a.style, s.file, order, s.options, n);
      }
    }
  }

  /** The file was only altered. */
  predicate Alters(a: Action) { a.Save? && a.style == Alter && a.written }

  lemma ActKeepsSync(a: Action, s: State, order: seq<string>, base: Options)
    requires InSync(s, base) && (forall m :: m in order <==> m in base) && !Alters(a)
    ensures InSync(Act(a, s, order), base)
    ensures a.Save? && a.written ==> Restores(Act(a, s, order).file, Act(a, s, order).options, base)
  {
    hide Saved, Mirror, Prepare, IncludeUnsets;
    ActKeepsAlive(a, s, order, base);
    if a.Save? {
      hide Act;
      SavedAct(a.style, a.written, s, order);
      if a.written { SaveRestores(a.style, s, order, base); }
    }
  }

  lemma {:induction false} RunKeepsAlive(actions: seq<Action>, s: State, order: seq<string>, base: Options)
    requires Alive(s, base) && forall m :: m in order <==> m in base
    ensures Alive(Run(actions, s, order), base)
  {
    if actions != [] {
      ActKeepsAlive(actions[0], s, order, base);
      RunKeepsAlive(actions[1..], Act(actions[0], s, order), order, base);
    }
  }

  lemma {:induction false} RunKeepsSync(actions: seq<Action>, s: State, order: seq<string>, base: Options)
    requires InSync(s, base) && (forall m :: m in order <==> m in base) && forall a :: a in actions ==> !Alters(a)
    ensures InSync(Run(actions, s, order), base)
  {
    hide Act, Agrees, IncludeUnsets;
    if actions != [] {
      ActKeepsSync(actions[0], s, order, base);
      RunKeepsSync(actions[1..], Act(actions[0], s, order), order, base);
    }
  }

  /** Start from any file, change and delete options and save as often as you like, in any styles:
      after every save that is written and appends options, loading the new file gives every option
      back; but if only changed options are appended, the file must not have been altered only
      before. */
  lemma EverySaveRestores(file: seq<Command>, base: Options, order: seq<string>, actions: seq<Action>, style: Style)
    requires (forall m :: m in order <==> m in base) && style != Alter
    requires style == Changed ==> forall a :: a in actions ==> !Alters(a)
    ensures var s := Run(actions, State(file, Load(file, base)), order);
            var r := Act(Save(style, true), s, order);
            Restores(r.file, r.options, base)
  {
    hide Saved, Act, IncludeUnsets;
    var start := State(file, Load(file, base));
    LoadedInSync(file, base);
    AliveWhenInSync(start, base);
    RunKeepsAlive(actions, start, order, base);
    if style == Changed { RunKeepsSync(actions, start, order, base); }
    var s := Run(actions, start, order);
    SaveRestores(style, s, order, base);
    SavedAct(style, true, s, order);
  }

  lemma AliveWhenInSync(s: State, base: Options)
    requires InSync(s, base)
    ensures Alive(s, base)
  {
  }

  /** Altering the file only makes a change count as saved that is not in the file: saving the changed
      options afterwards does not append it. */
  lemma AlteredChangeForgotten()
    ensures var base := map["n" := Opt(N(1), false, false, false)];
            var s := Run([Change("n", N(2)), Save(Alter, true)], State([], base), ["n"]);
            var r := Act(Save(Changed, true), s, ["n"]);
            r.options["n"].value == N(2) && r.file == [] && !Agrees(r.options["n"], Load(r.file, base)["n"])
  {
    var base := map["n" := Opt(N(1), false, false, false)];
    var actions := [Change("n", N(2)), Save(Alter, true)];
    assert actions[1..] == [Save(Alter, true)] && actions[1..][1..] == [] && ["n"][1..] == [];
    var changed := Act(actions[0], State([], base), ["n"]);
    assert changed == State([], map["n" := Opt(N(2), false, true, false)]);
    var s := Act(actions[1], changed, ["n"]);
    assert Run(actions, State([], base), ["n"]) == s;
    SavedAct(Alter, true, changed, ["n"]);
    var prepared := Prepare(s.options, false);
    assert !prepared["n"].mustSave && Appended(["n"], prepared) == [];
    assert s.file == [] && Saved(Changed, [], ["n"], s.options) == [];
    SavedAct(Changed, true, s, ["n"]);
  }
}
