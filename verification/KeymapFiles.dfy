/** The bind commands in the text of a configuration file, and the bindings of one keymap: saving the
    text saves the keymap. */
module KeymapFiles {
  import opened Basics
  import opened OptionText
  import opened ConfigSave
  import opened ConfigText
  import opened ConfigRoundTrip
  import Keymaps
  import Keystrokes

  /** A keymap and its actions: their numbers by name, with aliases, and their names. */
  datatype Naming = Naming(keymap: string, ids: map<string, int>, names: map<int, string>, signed: bool)

  /** An action is found again by its name. */
  predicate GoodNaming(g: Naming) {
    && PlainText(g.keymap)
    && forall a :: a in g.names ==> PlainText(g.names[a]) && g.names[a] in g.ids && g.ids[g.names[a]] == a
  }

  /** bind_do: what a bind command does to the keymap, if it is one of it and can be understood. */
  function Meaning(line: BindLine, g: Naming): Option<Keymaps.Bind> {
    match Keystrokes.Parsed(line.keystroke, g.signed)
    case Some(k) =>
      if line.keymap == g.keymap && line.action in g.ids then Some(Keymaps.Bind(k, g.ids[line.action])) else None
    case None => None
  }

  function Meanings(lines: seq<BindLine>, g: Naming): seq<Keymaps.Bind> {
    if lines == [] then []
    else (if Meaning(lines[0], g).Some? then [Meaning(lines[0], g).value] else []) + Meanings(lines[1..], g)
  }

  /** The action of a command for a keystroke of the keymap is one there is. */
  predicate Understood(line: BindLine, g: Naming) {
    line.keymap == g.keymap && Keystrokes.Parsed(line.keystroke, g.signed).Some? ==> line.action in g.ids
  }

  /** What bind_act gives: the name of the action that the keystroke has now. */
  function ActNow(line: BindLine, bs: seq<Keymaps.Binding>, g: Naming): Option<string> {
    match Keystrokes.Parsed(line.keystroke, g.signed)
    case Some(k) =>
      var action := Keymaps.Action(bs, k);
      if action.Some? && action.value in g.names then Some(g.names[action.value]) else None
    case None => None
  }

  predicate Mine(line: BindLine, g: Naming) { line.keymap == g.keymap }

  function MineOf(lines: seq<BindLine>, g: Naming): seq<BindLine> {
    if lines == [] then [] else (if Mine(lines[0], g) then [lines[0]] else []) + MineOf(lines[1..], g)
  }

  /** The lines that bind_config_string writes for bindings: none for an action without a name. */
  function LinesOf(tail: seq<Keymaps.Bind>, g: Naming): seq<BindLine> {
    if tail == [] then []
    else
      (if tail[0].action !in g.names then []
       else [BindLine(g.keymap, Keystrokes.Printed(tail[0].kbd, false), g.names[tail[0].action])])
      + LinesOf(tail[1..], g)
  }

  /** Every action of the keymap has a name, and every keystroke can be read. */
  predicate GoodBindings(bs: seq<Keymaps.Binding>, g: Naming) {
    forall i :: 0 <= i < |bs| ==> bs[i].action in g.names && Keystrokes.Canonical(bs[i].kbd, g.signed)
  }

  function KeyStyle(style: Style): Keymaps.Style {
    match style
    case Alter => Keymaps.Alter
    case Fresh => Keymaps.Replace
    case _ => Keymaps.Complete
  }

  /** The keys that are saved are those of this keymap, and of others. */
  predicate KeysOf(keys: Keys, style: Style, lines: seq<BindLine>, bs: seq<Keymaps.Binding>, g: Naming) {
    && (forall i :: 0 <= i < |lines| && Mine(lines[i], g) ==> ActOf(lines[i], keys.acts) == ActNow(lines[i], bs, g))
    && (style == Alter || MineOf(keys.more, g) == MoreLines(style, lines, bs, g))
  }

  /** The lines that are appended for the bindings of the keymap. */
  function MoreLines(style: Style, lines: seq<BindLine>, bs: seq<Keymaps.Binding>, g: Naming): seq<BindLine> {
    LinesOf(Keymaps.Tail(Keymaps.Marked(bs, Keymaps.Old(KeyStyle(style), Meanings(lines, g)))), g)
  }

  lemma {:induction false} TailNamed(bs: seq<Keymaps.Binding>, g: Naming)
    requires GoodBindings(bs, g)
    ensures forall i :: 0 <= i < |Keymaps.Tail(bs)| ==>
      Keymaps.Tail(bs)[i].action in g.names && Keystrokes.Canonical(Keymaps.Tail(bs)[i].kbd, g.signed)
  {
    hide Keystrokes.Canonical;
    if bs != [] {
      assert forall i :: 0 <= i < |bs[1..]| ==> bs[1..][i] == bs[i + 1];
      TailNamed(bs[1..], g);
      var first := if bs[0].defaultBinding || bs[0].watermark then [] else [Keymaps.Bind(bs[0].kbd, bs[0].action)];
      assert Keymaps.Tail(bs) == first + Keymaps.Tail(bs[1..]);
    }
  }

  // ---- lists of commands

  lemma {:induction false} MeaningsOfConcat(a: seq<BindLine>, b: seq<BindLine>, g: Naming)
    ensures Meanings(a + b, g) == Meanings(a, g) + Meanings(b, g)
  {
    hide Meaning;
    if a == [] {
      assert a + b == b;
    } else {
      assert (a + b)[0] == a[0] && (a + b)[1..] == a[1..] + b;
      MeaningsOfConcat(a[1..], b, g);
    }
  }

  /** Commands of other keymaps mean nothing to this one. */
  lemma {:induction false} OthersMeanNothing(lines: seq<BindLine>, g: Naming)
    ensures Meanings(MineOf(lines, g), g) == Meanings(lines, g)
  {
    hide Keystrokes.Parsed;
    if lines != [] {
      OthersMeanNothing(lines[1..], g);
      var first := if Mine(lines[0], g) then [lines[0]] else [];
      MeaningsOfConcat(first, MineOf(lines[1..], g), g);
      if first != [] { assert first[1..] == []; }
    }
  }

  /** The lines that are appended bind what was to be bound. */
  lemma {:induction false} LinesMean(tail: seq<Keymaps.Bind>, g: Naming)
    requires GoodNaming(g)
    requires forall i :: 0 <= i < |tail| ==> tail[i].action in g.names && Keystrokes.Canonical(tail[i].kbd, g.signed)
    ensures Meanings(LinesOf(tail, g), g) == tail
  {
    hide Keystrokes.Parsed, Keystrokes.Printed, Keystrokes.Canonical, PlainText;
    if tail != [] {
      assert forall i :: 0 <= i < |tail[1..]| ==> tail[1..][i] == tail[i + 1];
      LinesMean(tail[1..], g);
      Keystrokes.PrintedParses(tail[0].kbd, g.signed);
      assert LinesOf(tail, g)[1..] == LinesOf(tail[1..], g);
    }
  }

  /** A command that is rewritten means the binding of now. */
  lemma RewrittenMeans(line: BindLine, acts: Acts, bs: seq<Keymaps.Binding>, g: Naming)
    requires GoodNaming(g) && GoodBindings(bs, g) && Understood(line, g)
    requires Mine(line, g) ==> ActOf(line, acts) == ActNow(line, bs, g)
    ensures Meaning(line, g).Some? <==> Meaning(BindNow(line, acts), g).Some?
    ensures Meaning(line, g).Some? ==>
            Meaning(BindNow(line, acts), g).value == Keymaps.Rewritten(bs, Meaning(line, g).value)
  {
    hide Keystrokes.Parsed, Keystrokes.Canonical, PlainText;
  }

  lemma {:induction false} RewrittenAllMean(lines: seq<BindLine>, acts: Acts, bs: seq<Keymaps.Binding>, g: Naming)
    requires GoodNaming(g) && GoodBindings(bs, g)
    requires forall i :: 0 <= i < |lines| ==> Understood(lines[i], g)
    requires forall i :: 0 <= i < |lines| && Mine(lines[i], g) ==> ActOf(lines[i], acts) == ActNow(lines[i], bs, g)
    ensures Meanings(BindsNow(lines, acts), g) == Keymaps.RewrittenAll(bs, Meanings(lines, g))
  {
    hide Meaning, BindNow, Understood, ActOf, ActNow, GoodBindings, GoodNaming, Keymaps.Rewritten;
    if lines != [] {
      assert forall i :: 0 <= i < |lines[1..]| ==> lines[1..][i] == lines[i + 1];
      RewrittenAllMean(lines[1..], acts, bs, g);
      RewrittenMeans(lines[0], acts, bs, g);
      assert BindsNow(lines, acts)[1..] == BindsNow(lines[1..], acts);
      var rest := Meanings(lines[1..], g);
      if Meaning(lines[0], g).Some? {
        assert Meanings(lines, g)[1..] == rest;
      } else {
        assert [] + rest == rest && [] + Keymaps.RewrittenAll(bs, rest) == Keymaps.RewrittenAll(bs, rest);
      }
    }
  }

  // ---- files

  /** The lines that are appended mean the bindings that saving the keymap appends. */
  lemma MoreMeans(style: Style, lines: seq<BindLine>, more: seq<BindLine>, bs: seq<Keymaps.Binding>, g: Naming)
    requires GoodNaming(g) && GoodBindings(bs, g) && MineOf(more, g) == MoreLines(style, lines, bs, g)
    ensures Meanings(more, g) == Keymaps.Tail(Keymaps.Marked(bs, Keymaps.Old(KeyStyle(style), Meanings(lines, g))))
  {
    hide GoodNaming, Keystrokes.Canonical;
    var marked := Keymaps.Marked(bs, Keymaps.Old(KeyStyle(style), Meanings(lines, g)));
    OthersMeanNothing(more, g);
    TailNamed(marked, g);
    LinesMean(Keymaps.Tail(marked), g);
  }

  /** What rewriting and appending make of the bind commands, for the keymap. */
  lemma NewLinesMean(style: Style, lines: seq<BindLine>, keys: Keys, bs: seq<Keymaps.Binding>, g: Naming)
    requires GoodNaming(g) && GoodBindings(bs, g) && KeysOf(keys, style, lines, bs, g)
    requires forall i :: 0 <= i < |lines| ==> Understood(lines[i], g)
    ensures Meanings(NewLines(style, lines, keys), g) == Keymaps.SavedAs(KeyStyle(style), bs, Meanings(lines, g))
  {
    hide GoodNaming, GoodBindings, Understood, ActOf, ActNow, MoreLines, Meanings, BindsNow, Keymaps.Marked,
         Keymaps.Tail, Keymaps.RewrittenAll;
    var old' := if style == Fresh then [] else lines;
    var more := if style == Alter then [] else keys.more;
    NothingMeans(g);
    MeaningsOfConcat(BindsNow(old', keys.acts), more, g);
    RewrittenAllMean(old', keys.acts, bs, g);
    if style != Alter { MoreMeans(style, lines, keys.more, bs, g); }
    var r := Keymaps.RewrittenAll(bs, Meanings(old', g));
    assert r + [] == r;
  }

  lemma NothingMeans(g: Naming)
    ensures Meanings([], g) == []
  {
  }

  /** The bind commands of a file after saving. */
  function NewLines(style: Style, lines: seq<BindLine>, keys: Keys): seq<BindLine> {
    BindsNow(if style == Fresh then [] else lines, keys.acts) + if style == Alter then [] else keys.more
  }

  /** The bind commands of the saved text mean what saving the keymap was to write. */
  lemma SavedTextBinds(style: Style, text: string, o: Options, kinds: Kinds, files: Files, layout: Layout, keys: Keys,
                       bs: seq<Keymaps.Binding>, g: Naming, doomed: set<string>)
    requires GoodOptions(o, kinds) && AllDoomed(o, doomed) && Clean(text, kinds, doomed)
    requires GoodLayout(layout, kinds) && GoodKeys(keys)
    requires GoodNaming(g) && GoodBindings(bs, g) && KeysOf(keys, style, Binds(text, kinds), bs, g)
    requires forall i :: 0 <= i < |Binds(text, kinds)| ==> Understood(Binds(text, kinds)[i], g)
    ensures Meanings(Binds(SavedText(style, text, o, kinds, files, layout, keys), kinds), g)
            == Keymaps.SavedAs(KeyStyle(style), bs, Meanings(Binds(text, kinds), g))
  {
    hide Binds, SavedText, Clean, GoodOptions, GoodLayout, GoodKeys, Meanings, Understood, GoodNaming, GoodBindings,
         KeysOf, Commands, AllDoomed, Keymaps.SavedAs, BindsNow;
    LayoutNamed(layout, o, kinds);
    SavedTextReads(style, text, o, kinds, files, layout, keys, doomed);
    NewLinesMean(style, Binds(text, kinds), keys, bs, g);
  }

  lemma LayoutNamed(layout: Layout, o: Options, kinds: Kinds)
    requires GoodLayout(layout, kinds) && GoodOptions(o, kinds)
    ensures forall n :: n in layout.order ==> n in o && n in kinds && n in layout.notes
  {
  }

  /** So loading the saved text into the default bindings gives a keystroke its action back exactly
      under the condition of Keymaps.Returns. */
  lemma SavedTextReloads(style: Style, text: string, o: Options, kinds: Kinds, files: Files, layout: Layout,
                         keys: Keys, bs: seq<Keymaps.Binding>, g: Naming, defaults: Keymaps.Defaults,
                         table: seq<Keymaps.Bind>, k: Keymaps.Keystroke, doomed: set<string>)
    requires GoodOptions(o, kinds) && AllDoomed(o, doomed) && Clean(text, kinds, doomed)
    requires GoodLayout(layout, kinds) && GoodKeys(keys)
    requires GoodNaming(g) && GoodBindings(bs, g) && KeysOf(keys, style, Binds(text, kinds), bs, g)
    requires forall i :: 0 <= i < |Binds(text, kinds)| ==> Understood(Binds(text, kinds)[i], g)
    requires Keymaps.Kept(bs, defaults) && Keymaps.IsTable(table, defaults)
    ensures var saved := Meanings(Binds(SavedText(style, text, o, kinds, files, layout, keys), kinds), g);
            Keymaps.Action(Keymaps.Loaded(Keymaps.WithDefaults([], defaults, table), defaults, saved, false), k)
              == Keymaps.Action(bs, k)
            <==> Keymaps.Returns(KeyStyle(style), bs, Meanings(Binds(text, kinds), g), k)
  {
    hide Binds, SavedText, Clean, GoodOptions, GoodLayout, GoodKeys, GoodNaming, GoodBindings, KeysOf, Understood,
         AllDoomed, Keymaps.Kept, Keymaps.IsTable, Keymaps.Returns, Keymaps.SavedAs, Meanings;
    LayoutNamed(layout, o, kinds);
    SavedTextBinds(style, text, o, kinds, files, layout, keys, bs, g, doomed);
    Keymaps.KeptReloads(KeyStyle(style), bs, Meanings(Binds(text, kinds), g), defaults, table, k);
  }
}
