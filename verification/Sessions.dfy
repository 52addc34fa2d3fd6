/** Runs in which options and key bindings are changed and saved together in the text of the
    configuration file, with the bind commands that one keymap then has to save. */
module Sessions {
  import opened Basics
  import opened OptionText
  import opened ConfigSave
  import opened ConfigText
  import opened ConfigRoundTrip
  import opened KeymapFiles
  import Keymaps
  import Keystrokes
  import KeymapStores

  // ---- what a keymap has to save

  /** Besides, a name stands for an action that has one, and "none" is one. */
  predicate GoodActions(g: Naming) {
    GoodNaming(g) && Keymaps.ACT_NONE in g.names && forall n :: n in g.ids ==> g.ids[n] in g.names
  }

  /** bind_act for every bind command of the file that is one of the keymap. */
  function ActsNow(lines: seq<BindLine>, bs: seq<Keymaps.Binding>, g: Naming): Acts {
    map i | 0 <= i < |lines| && Mine(lines[i], g) && ActNow(lines[i], bs, g).Some?
      :: (lines[i].keymap, lines[i].keystroke) := ActNow(lines[i], bs, g).value
  }

  function OtherActs(acts: Acts, g: Naming): Acts { map p | p in acts && p.0 != g.keymap :: acts[p] }

  function OtherLines(lines: seq<BindLine>, g: Naming): seq<BindLine> {
    if lines == [] then [] else (if Mine(lines[0], g) then [] else [lines[0]]) + OtherLines(lines[1..], g)
  }

  /** What the keymap has to save, with what other keymaps have. */
  function KeysNow(style: Style, lines: seq<BindLine>, bs: seq<Keymaps.Binding>, g: Naming, others: Keys): Keys {
    Keys(OtherActs(others.acts, g) + ActsNow(lines, bs, g),
         MoreLines(style, lines, bs, g) + OtherLines(others.more, g))
  }

  lemma {:induction false} MineOfConcat(a: seq<BindLine>, b: seq<BindLine>, g: Naming)
    ensures MineOf(a + b, g) == MineOf(a, g) + MineOf(b, g)
  {
    if a == [] {
      assert a + b == b;
    } else {
      assert (a + b)[0] == a[0] && (a + b)[1..] == a[1..] + b;
      MineOfConcat(a[1..], b, g);
    }
  }

  lemma {:induction false} OthersNotMine(lines: seq<BindLine>, g: Naming)
    ensures MineOf(OtherLines(lines, g), g) == []
    ensures forall l :: l in OtherLines(lines, g) ==> l in lines && !Mine(l, g)
  {
    if lines != [] {
      OthersNotMine(lines[1..], g);
      var first := if Mine(lines[0], g) then [] else [lines[0]];
      MineOfConcat(first, OtherLines(lines[1..], g), g);
      if first != [] { assert first[1..] == []; }
    }
  }

  lemma {:induction false} LinesAreMine(tail: seq<Keymaps.Bind>, g: Naming)
    requires GoodNaming(g)
    ensures MineOf(LinesOf(tail, g), g) == LinesOf(tail, g)
    ensures forall l :: l in LinesOf(tail, g) ==> Mine(l, g) && PlainText(l.action) && l.action in g.ids
  {
    hide Keystrokes.Printed, PlainText;
    if tail != [] {
      LinesAreMine(tail[1..], g);
      var rest := LinesOf(tail[1..], g);
      if tail[0].action in g.names { assert LinesOf(tail, g)[1..] == rest; } else { assert [] + rest == rest; }
    }
  }

  lemma ActsNowOf(lines: seq<BindLine>, bs: seq<Keymaps.Binding>, g: Naming, others: Acts, i: nat)
    requires i < |lines| && Mine(lines[i], g)
    ensures ActOf(lines[i], OtherActs(others, g) + ActsNow(lines, bs, g)) == ActNow(lines[i], bs, g)
  {
    hide ActNow;
    var p := (lines[i].keymap, lines[i].keystroke);
    var acts := ActsNow(lines, bs, g);
    if p in acts {
      var j :| 0 <= j < |lines| && Mine(lines[j], g) && ActNow(lines[j], bs, g).Some?
        && p == (lines[j].keymap, lines[j].keystroke)
               && acts[p] == ActNow(lines[j], bs, g).value;
      SameAct(lines[i], lines[j], bs, g);
    }
  }

  lemma SameAct(a: BindLine, b: BindLine, bs: seq<Keymaps.Binding>, g: Naming)
    requires a.keystroke == b.keystroke
    ensures ActNow(a, bs, g) == ActNow(b, bs, g)
  {
  }

  lemma MoreAreMine(style: Style, lines: seq<BindLine>, bs: seq<Keymaps.Binding>, g: Naming)
    requires GoodNaming(g)
    ensures var more := MoreLines(style, lines, bs, g);
            MineOf(more, g) == more && forall l :: l in more ==> Mine(l, g) && PlainText(l.action) && l.action in g.ids
  {
    hide GoodNaming, PlainText, LinesOf;
    LinesAreMine(Keymaps.Tail(Keymaps.Marked(bs, Keymaps.Old(KeyStyle(style), Meanings(lines, g)))), g);
  }

  /** That is what saving needs. */
  lemma KeysNowOf(style: Style, lines: seq<BindLine>, bs: seq<Keymaps.Binding>, g: Naming, others: Keys)
    requires GoodNaming(g)
    ensures KeysOf(KeysNow(style, lines, bs, g, others), style, lines, bs, g)
  {
    hide ActNow, GoodNaming, ActsNow, OtherActs, MoreLines;
    var keys := KeysNow(style, lines, bs, g, others);
    forall i | 0 <= i < |lines| && Mine(lines[i], g) ensures ActOf(lines[i], keys.acts) == ActNow(lines[i], bs, g) {
      ActsNowOf(lines, bs, g, others.acts, i);
    }
    MoreAreMine(style, lines, bs, g);
    OthersNotMine(others.more, g);
    MineOfConcat(MoreLines(style, lines, bs, g), OtherLines(others.more, g), g);
  }

  lemma KeysNowGood(style: Style, lines: seq<BindLine>, bs: seq<Keymaps.Binding>, g: Naming, others: Keys)
    requires GoodNaming(g) && GoodKeys(others)
    ensures GoodKeys(KeysNow(style, lines, bs, g, others))
  {
    hide PlainText, MoreLines, ActsNow, GoodNaming;
    var keys := KeysNow(style, lines, bs, g, others);
    NamingPlain(g);
    ActsPlain(lines, bs, g);
    MoreAreMine(style, lines, bs, g);
    OthersNotMine(others.more, g);
    forall l | l in keys.more ensures PlainText(l.keymap) && PlainText(l.action) {
      if l in OtherLines(others.more, g) { var i :| 0 <= i < |others.more| && others.more[i] == l; }
    }
  }

  lemma NamingPlain(g: Naming)
    requires GoodNaming(g)
    ensures PlainText(g.keymap)
  {
  }

  lemma ActsPlain(lines: seq<BindLine>, bs: seq<Keymaps.Binding>, g: Naming)
    requires GoodNaming(g)
    ensures forall p :: p in ActsNow(lines, bs, g) ==> PlainText(ActsNow(lines, bs, g)[p])
  {
    hide PlainText, Keystrokes.Parsed;
  }

  // ---- sessions

  /** What does not change: the kinds of the options and their order, included files, the default key
      bindings and the names of actions. */
  datatype Program = Program(kinds: Kinds, files: Files, order: seq<string>, defaults: Keymaps.Defaults,
                             table: seq<Keymaps.Bind>, naming: Naming)

  datatype Session = Session(text: string, options: Options, bindings: seq<Keymaps.Binding>)

  datatype Move = SetOption(name: string, value: Value) | DeleteOption(name: string)
                | Rebind(action: int, kbd: Keymaps.Keystroke) | Unbind(index: nat)
                | SaveBoth(style: Style, written: bool, others: Keys, layout: Layout)

  function FileBinds(text: string, p: Program): seq<Keymaps.Bind> { Meanings(Binds(text, p.kinds), p.naming) }

  /** The options are those of the program. */
  ghost predicate Listed(o: Options, p: Program) { forall n :: n in p.order <==> n in o }

  function OptionStep(e: Step, s: Session, p: Program): (r: TextState)
    requires Writable(e, s.options.Keys, p.kinds)
    ensures r.options.Keys == s.options.Keys
  {
    ActText(e, TextState(s.text, s.options), p.kinds, p.files)
  }

  function KeysToSave(style: Style, s: Session, p: Program, others: Keys): Keys {
    KeysNow(style, Binds(s.text, p.kinds), s.bindings, p.naming, others)
  }

  /** What saving makes of the options. */
  function SaveStep(s: Session, m: Move, p: Program): Step
    requires m.SaveBoth?
  {
    Step(Save(m.style, m.written), KeysToSave(m.style, s, p, m.others), m.layout)
  }

  /** A save writes options that there are. */
  predicate Fitting(m: Move, names: set<string>, p: Program) {
    m.SaveBoth? ==> Writable(Step(Save(m.style, m.written), m.others, m.layout), names, p.kinds)
  }

  function After(s: Session, m: Move, p: Program): (r: Session)
    requires Fitting(m, s.options.Keys, p)
    ensures r.options.Keys == s.options.Keys
  {
    match m
    case SetOption(n, v) => s.(options := OptionStep(Quietly(Change(n, v)), s, p).options)
    case DeleteOption(n) => s.(options := OptionStep(Quietly(Delete(n)), s, p).options)
    case Rebind(action, k) => s.(bindings := Keymaps.Added(s.bindings, p.defaults, action, k))
    case Unbind(i) => if i < |s.bindings| then s.(bindings := Keymaps.Freed(s.bindings, i)) else s
    case SaveBoth(style, _, _, _) =>
      var t := OptionStep(SaveStep(s, m, p), s, p);
      Session(t.text, t.options, Keymaps.Passed(KeyStyle(style), s.bindings, FileBinds(s.text, p)))
  }

  function Run(s: Session, ms: seq<Move>, p: Program): (r: Session)
    requires forall m :: m in ms ==> Fitting(m, s.options.Keys, p)
    ensures r.options.Keys == s.options.Keys
    decreases ms
  {
    if ms == [] then s else Run(After(s, ms[0], p), ms[1..], p)
  }

  // ---- the options and the key bindings of a session, each alone

  function OptionAct(m: Move): seq<Action> {
    match m
    case SetOption(n, v) => [Change(n, v)]
    case DeleteOption(n) => [Delete(n)]
    case SaveBoth(style, written, _, _) => [Save(style, written)]
    case _ => []
  }

  function OptionActs(ms: seq<Move>): seq<Action> {
    if ms == [] then [] else OptionAct(ms[0]) + OptionActs(ms[1..])
  }

  function KeyEvent(m: Move): seq<KeymapStores.Event> {
    match m
    case Rebind(action, k) => [KeymapStores.Rebound(action, k)]
    case Unbind(i) => [KeymapStores.Removed(i)]
    case SaveBoth(style, written, _, _) => [KeymapStores.SavedNow(KeyStyle(style), written)]
    case _ => []
  }

  function KeyEvents(ms: seq<Move>): seq<KeymapStores.Event> {
    if ms == [] then [] else KeyEvent(ms[0]) + KeyEvents(ms[1..])
  }

  function OptionState(s: Session, p: Program): State { State(Commands(s.text, p.kinds, p.files), s.options) }

  function KeyState(s: Session, p: Program): KeymapStores.State { KeymapStores.State(s.bindings, FileBinds(s.text, p)) }

  // ---- what every step keeps

  ghost predicate GoodProgram(p: Program) { (forall n :: n in p.order <==> n in p.kinds) && GoodActions(p.naming) }

  ghost predicate GoodMove(m: Move, p: Program, doomed: set<string>) {
    match m
    case SetOption(n, v) => n in p.kinds ==> Fits(p.kinds[n], v) && Faithful(v)
    case DeleteOption(n) => n in doomed
    case Rebind(action, k) => action in p.naming.names && Keystrokes.Canonical(k, p.naming.signed)
    case Unbind(_) => true
    case SaveBoth(_, _, others, layout) => GoodKeys(others) && GoodLayout(layout, p.kinds) && layout.order == p.order
  }

  ghost predicate GoodSession(s: Session, p: Program, doomed: set<string>) {
    && GoodState(TextState(s.text, s.options), p.kinds, doomed) && GoodBindings(s.bindings, p.naming)
    && forall i :: 0 <= i < |Binds(s.text, p.kinds)| ==> Understood(Binds(s.text, p.kinds)[i], p.naming)
  }

  lemma GoodIsListed(s: Session, p: Program, doomed: set<string>)
    requires GoodProgram(p) && GoodSession(s, p, doomed)
    ensures Listed(s.options, p)
  {
    hide GoodActions, Clean, Understood, GoodBindings;
  }

  lemma GoodIsFitting(s: Session, m: Move, p: Program, doomed: set<string>)
    requires GoodProgram(p) && GoodSession(s, p, doomed) && GoodMove(m, p, doomed)
    ensures Fitting(m, s.options.Keys, p)
  {
    hide GoodActions, Clean, Understood, GoodBindings, GoodKeys;
  }

  lemma AddedGood(bs: seq<Keymaps.Binding>, defaults: Keymaps.Defaults, action: int, k: Keymaps.Keystroke, g: Naming)
    requires GoodBindings(bs, g) && action in g.names && Keystrokes.Canonical(k, g.signed)
    ensures GoodBindings(Keymaps.Added(bs, defaults, action, k), g)
  {
    hide Keystrokes.Canonical, Keymaps.Find;
  }

  lemma FreedGood(bs: seq<Keymaps.Binding>, i: nat, g: Naming)
    requires GoodBindings(bs, g) && GoodActions(g) && i < |bs|
    ensures GoodBindings(Keymaps.Freed(bs, i), g)
  {
    hide Keystrokes.Canonical, GoodNaming;
  }

  lemma {:induction false} UnmarkedSame(bs: seq<Keymaps.Binding>)
    ensures forall i :: 0 <= i < |bs| ==>
            Keymaps.Unmarked(bs)[i] == bs[i].(watermark := Keymaps.Unmarked(bs)[i].watermark)
  {
    if bs != [] {
      UnmarkedSame(bs[1..]);
      var rest := Keymaps.Unmarked(bs[1..]);
      forall i | 0 <= i < |bs|
        ensures Keymaps.Unmarked(bs)[i] == bs[i].(watermark := Keymaps.Unmarked(bs)[i].watermark)
      {
        if i > 0 { assert Keymaps.Unmarked(bs)[i] == rest[i - 1] && bs[i] == bs[1..][i - 1]; }
      }
    }
  }

  lemma PassedGood(style: Keymaps.Style, bs: seq<Keymaps.Binding>, file: seq<Keymaps.Bind>, g: Naming)
    requires GoodBindings(bs, g)
    ensures GoodBindings(Keymaps.Passed(style, bs, file), g)
  {
    hide Keystrokes.Canonical, Keymaps.Marked, Keymaps.Unmarked;
    var marked := Keymaps.Marked(bs, if style.Alter? then file else Keymaps.Old(style, file));
    UnmarkedSame(marked);
  }

  /** The bind commands of the new file can be understood. */
  lemma NewLinesUnderstood(style: Style, lines: seq<BindLine>, bs: seq<Keymaps.Binding>, g: Naming, others: Keys)
    requires GoodNaming(g) && GoodBindings(bs, g) && forall i :: 0 <= i < |lines| ==> Understood(lines[i], g)
    ensures var keys := KeysNow(style, lines, bs, g, others);
            forall l :: l in NewLines(style, lines, keys) ==> Understood(l, g)
  {
    hide GoodNaming, GoodBindings, Understood, MoreLines, ActsNow, OtherActs, BindsNow;
    var keys := KeysNow(style, lines, bs, g, others);
    MoreAreMine(style, lines, bs, g);
    OthersNotMine(others.more, g);
    forall l | l in keys.more ensures Understood(l, g) { AppendedUnderstood(l, g); }
    forall i | 0 <= i < |lines| && Mine(lines[i], g) ensures ActOf(lines[i], keys.acts) == ActNow(lines[i], bs, g) {
      ActsNowOf(lines, bs, g, others.acts, i);
    }
    if style != Fresh { RewrittenUnderstood(lines, keys.acts, bs, g); }
  }

  lemma AppendedUnderstood(l: BindLine, g: Naming)
    requires Mine(l, g) ==> l.action in g.ids
    ensures Understood(l, g)
  {
  }

  lemma {:induction false} RewrittenUnderstood(lines: seq<BindLine>, acts: Acts, bs: seq<Keymaps.Binding>, g: Naming)
    requires GoodNaming(g) && forall i :: 0 <= i < |lines| ==> Understood(lines[i], g)
    requires forall i :: 0 <= i < |lines| && Mine(lines[i], g) ==> ActOf(lines[i], acts) == ActNow(lines[i], bs, g)
    ensures forall l :: l in BindsNow(lines, acts) ==> Understood(l, g)
  {
    hide GoodNaming, Understood, ActOf, ActNow, BindNow;
    if lines != [] {
      assert forall i :: 0 <= i < |lines[1..]| ==> lines[1..][i] == lines[i + 1];
      RewrittenUnderstood(lines[1..], acts, bs, g);
      OneUnderstood(lines[0], acts, bs, g);
    }
  }

  lemma OneUnderstood(line: BindLine, acts: Acts, bs: seq<Keymaps.Binding>, g: Naming)
    requires GoodNaming(g) && Understood(line, g) && (Mine(line, g) ==> ActOf(line, acts) == ActNow(line, bs, g))
    ensures Understood(BindNow(line, acts), g)
  {
    hide Keystrokes.Parsed, PlainText;
  }

  /** A save, for the options and for the key bindings. */
  lemma SaveKeeps(s: Session, m: Move, p: Program, doomed: set<string>)
    requires GoodProgram(p) && GoodSession(s, p, doomed) && m.SaveBoth? && GoodMove(m, p, doomed)
    ensures Listed(s.options, p) && Fitting(m, s.options.Keys, p)
    ensures var r, e := After(s, m, p), KeymapStores.SavedNow(KeyStyle(m.style), m.written);
            && GoodSession(r, p, doomed)
            && OptionState(r, p) == Act(Save(m.style, m.written), OptionState(s, p), p.order)
            && KeyState(r, p) == KeymapStores.After(KeyState(s, p), p.table, p.defaults, e)
  {
    hide GoodState, GoodBindings, Understood, GoodLayout, GoodNaming, GoodKeys, Binds, Commands, Clean, Act, ActText,
         KeysOf, Keymaps.Passed, Keymaps.SavedAs, KeysNow, Meanings, NewLines, Fitting, Writable;
    GoodIsListed(s, p, doomed);
    GoodIsFitting(s, m, p, doomed);
    var lines, t := Binds(s.text, p.kinds), TextState(s.text, s.options);
    var keys := KeysToSave(m.style, s, p, m.others);
    var e := SaveStep(s, m, p);
    KeysNowGood(m.style, lines, s.bindings, p.naming, m.others);
    KeysNowOf(m.style, lines, s.bindings, p.naming, m.others);
    ActTextReads(e, t, p.kinds, p.files, p.order, doomed);
    PassedGood(KeyStyle(m.style), s.bindings, FileBinds(s.text, p), p.naming);
    NewLinesUnderstood(m.style, lines, s.bindings, p.naming, m.others);
    NewLinesMean(m.style, lines, keys, s.bindings, p.naming);
    SavedStateBinds(e, t, p, doomed);
  }

  /** The bind commands of the text after a save. */
  lemma SavedStateBinds(e: Step, t: TextState, p: Program, doomed: set<string>)
    requires GoodState(t, p.kinds, doomed) && e.act.Save? && GoodStep(e, p.kinds, p.order, doomed)
    ensures Writable(e, t.options.Keys, p.kinds)
    ensures var r := ActText(e, t, p.kinds, p.files);
            Binds(r.text, p.kinds)
            == if e.act.written then NewLines(e.act.style, Binds(t.text, p.kinds), e.keys) else Binds(t.text, p.kinds)
  {
    hide Binds, Commands, Clean, SavedText, FlagsAfter, GoodLayout, GoodKeys, AllDoomed, BindsNow, GoodKind, Fits,
         Faithful;
    StepWritable(e, t.options, p.kinds, p.order, doomed);
    SavedTextReads(e.act.style, t.text, t.options, p.kinds, p.files, e.layout, e.keys, doomed);
  }

  /** Every step keeps a session good, and does to the options and to the keymap what it does to them
      alone. */
  lemma MoveKeeps(s: Session, m: Move, p: Program, doomed: set<string>)
    requires GoodProgram(p) && GoodSession(s, p, doomed) && GoodMove(m, p, doomed)
    ensures Listed(s.options, p) && Fitting(m, s.options.Keys, p)
    ensures var r := After(s, m, p);
            && GoodSession(r, p, doomed)
            && OptionState(r, p) == ConfigSave.Run(OptionAct(m), OptionState(s, p), p.order)
            && KeyState(r, p) == KeymapStores.Run(KeyState(s, p), p.table, p.defaults, KeyEvent(m))
  {
    hide GoodState, GoodBindings, Understood, GoodLayout, GoodNaming, GoodKeys, Binds, Commands, Clean, Act, ActText,
         Keymaps.Passed, Keymaps.SavedAs, Keymaps.Added, Keymaps.Freed, KeysNow, Meanings, Keystrokes.Canonical, Fits,
         Faithful, Fitting;
    GoodIsListed(s, p, doomed);
    GoodIsFitting(s, m, p, doomed);
    match m {
      case SetOption(n, v) => OptionMoveKeeps(s, Quietly(Change(n, v)), p, doomed);
      case DeleteOption(n) => OptionMoveKeeps(s, Quietly(Delete(n)), p, doomed);
      case Rebind(action, k) => AddedGood(s.bindings, p.defaults, action, k, p.naming);
      case Unbind(i) => if i < |s.bindings| { FreedGood(s.bindings, i, p.naming); }
      case SaveBoth(_, _, _, _) => SaveKeeps(s, m, p, doomed);
    }
    OneMove(m, s, p);
  }

  lemma OptionMoveKeeps(s: Session, e: Step, p: Program, doomed: set<string>)
    requires GoodProgram(p) && GoodSession(s, p, doomed) && Listed(s.options, p) && !e.act.Save?
    requires GoodStep(e, p.kinds, p.order, doomed)
    ensures var r := OptionStep(e, s, p);
            && r.text == s.text && GoodState(r, p.kinds, doomed)
            && State(Commands(s.text, p.kinds, p.files), r.options) == Act(e.act, OptionState(s, p), p.order)
  {
    hide GoodBindings, Understood, GoodLayout, Commands, Clean, Fits, Faithful;
    ActTextReads(e, TextState(s.text, s.options), p.kinds, p.files, p.order, doomed);
  }

  lemma OneMove(m: Move, s: Session, p: Program)
    requires Listed(s.options, p)
    ensures var acts, es := OptionAct(m), KeyEvent(m);
            && ConfigSave.Run(acts, OptionState(s, p), p.order)
               == (if acts == [] then OptionState(s, p) else Act(acts[0], OptionState(s, p), p.order))
            && KeymapStores.Run(KeyState(s, p), p.table, p.defaults, es)
               == (if es == [] then KeyState(s, p) else KeymapStores.After(KeyState(s, p), p.table, p.defaults, es[0]))
  {
    hide Act, KeymapStores.After, Commands, Meanings, Binds;
    var acts, es := OptionAct(m), KeyEvent(m);
    if acts != [] { assert acts[1..] == []; }
    if es != [] { assert es[1..] == []; }
  }

  lemma {:induction false} ActsOfConcat(a: seq<Action>, b: seq<Action>, s: State, order: seq<string>)
    requires forall m :: m in order <==> m in s.options
    ensures ConfigSave.Run(a + b, s, order) == ConfigSave.Run(b, ConfigSave.Run(a, s, order), order)
  {
    hide Act;
    if a == [] {
      assert a + b == b;
    } else {
      assert (a + b)[0] == a[0] && (a + b)[1..] == a[1..] + b;
      ActsOfConcat(a[1..], b, Act(a[0], s, order), order);
    }
  }

  lemma {:induction false} EventsOfConcat(a: seq<KeymapStores.Event>, b: seq<KeymapStores.Event>,
                                          s: KeymapStores.State, p: Program)
    ensures KeymapStores.Run(s, p.table, p.defaults, a + b)
            == KeymapStores.Run(KeymapStores.Run(s, p.table, p.defaults, a), p.table, p.defaults, b)
    decreases a
  {
    hide KeymapStores.After;
    if a == [] {
      assert a + b == b;
    } else {
      assert (a + b)[0] == a[0] && (a + b)[1..] == a[1..] + b;
      EventsOfConcat(a[1..], b, KeymapStores.After(s, p.table, p.defaults, a[0]), p);
    }
  }

  lemma AllFitting(s: Session, ms: seq<Move>, p: Program, doomed: set<string>)
    requires GoodProgram(p) && GoodSession(s, p, doomed) && forall m :: m in ms ==> GoodMove(m, p, doomed)
    ensures forall m :: m in ms ==> Fitting(m, s.options.Keys, p)
  {
    hide GoodProgram, GoodSession, GoodMove, Fitting;
    forall m | m in ms ensures Fitting(m, s.options.Keys, p) { GoodIsFitting(s, m, p, doomed); }
  }

  /** So a session is a run of the options and a run of the keymap, on the same text. */
  lemma {:induction false} RunKeeps(s: Session, ms: seq<Move>, p: Program, doomed: set<string>)
    requires GoodProgram(p) && GoodSession(s, p, doomed) && forall m :: m in ms ==> GoodMove(m, p, doomed)
    ensures Listed(s.options, p) && forall m :: m in ms ==> Fitting(m, s.options.Keys, p)
    ensures var r := Run(s, ms, p);
            && GoodSession(r, p, doomed)
            && OptionState(r, p) == ConfigSave.Run(OptionActs(ms), OptionState(s, p), p.order)
            && KeyState(r, p) == KeymapStores.Run(KeyState(s, p), p.table, p.defaults, KeyEvents(ms))
    decreases ms
  {
    hide GoodSession, GoodProgram, GoodMove, After, OptionAct, OptionActs, KeyEvent, KeyEvents, OptionState, KeyState,
         ConfigSave.Run, KeymapStores.Run, Fitting;
    GoodIsListed(s, p, doomed);
    AllFitting(s, ms, p, doomed);
    if ms == [] {
      NoMoves(s, p);
    } else {
      MoveKeeps(s, ms[0], p, doomed);
      RunKeeps(After(s, ms[0], p), ms[1..], p, doomed);
      MovesFirst(ms);
      OptionsListed(s, p);
      ActsOfConcat(OptionAct(ms[0]), OptionActs(ms[1..]), OptionState(s, p), p.order);
      EventsOfConcat(KeyEvent(ms[0]), KeyEvents(ms[1..]), KeyState(s, p), p);
    }
  }

  lemma MovesFirst(ms: seq<Move>)
    requires ms != []
    ensures OptionActs(ms) == OptionAct(ms[0]) + OptionActs(ms[1..])
    ensures KeyEvents(ms) == KeyEvent(ms[0]) + KeyEvents(ms[1..])
  {
    hide OptionAct, KeyEvent;
  }

  lemma OptionsListed(s: Session, p: Program)
    requires Listed(s.options, p)
    ensures forall m :: m in p.order <==> m in OptionState(s, p).options
  {
  }

  lemma NoMoves(s: Session, p: Program)
    requires Listed(s.options, p)
    ensures ConfigSave.Run(OptionActs([]), OptionState(s, p), p.order) == OptionState(s, p)
    ensures KeymapStores.Run(KeyState(s, p), p.table, p.defaults, KeyEvents([])) == KeyState(s, p)
  {
  }

  // ---- starting

  /** Starting the program: the configuration file is loaded into the built-in options and bindings. */
  function Start(text: string, base: Options, p: Program): Session {
    Session(text, Load(Commands(text, p.kinds, p.files), base),
      KeymapStores.Fresh(p.table, p.defaults, FileBinds(text, p)))
  }

  predicate GoodBind(c: Keymaps.Bind, g: Naming) { c.action in g.names && Keystrokes.Canonical(c.kbd, g.signed) }

  lemma ExecutedGood(bs: seq<Keymaps.Binding>, defaults: Keymaps.Defaults, c: Keymaps.Bind, system: bool, g: Naming)
    requires GoodBindings(bs, g) && GoodBind(c, g)
    ensures GoodBindings(Keymaps.Executed(bs, defaults, c, system), g)
  {
    hide Keymaps.Added, Keystrokes.Canonical;
    AddedGood(bs, defaults, c.action, c.kbd, g);
    Keymaps.AddedFirst(bs, defaults, c.action, c.kbd);
  }

  lemma {:induction false} LoadedGood(bs: seq<Keymaps.Binding>, defaults: Keymaps.Defaults, cmds: seq<Keymaps.Bind>,
                                      g: Naming)
    requires GoodBindings(bs, g) && forall i :: 0 <= i < |cmds| ==> GoodBind(cmds[i], g)
    ensures GoodBindings(Keymaps.Loaded(bs, defaults, cmds, false), g)
    decreases cmds
  {
    hide GoodBindings, GoodBind, Keymaps.Executed;
    if cmds != [] {
      ExecutedGood(bs, defaults, cmds[0], false, g);
      assert forall i :: 0 <= i < |cmds[1..]| ==> cmds[1..][i] == cmds[i + 1];
      LoadedGood(Keymaps.Executed(bs, defaults, cmds[0], false), defaults, cmds[1..], g);
    }
  }

  lemma {:induction false} DefaultsGood(bs: seq<Keymaps.Binding>, defaults: Keymaps.Defaults,
                                        table: seq<Keymaps.Bind>, g: Naming)
    requires GoodBindings(bs, g) && forall i :: 0 <= i < |table| ==> GoodBind(table[i], g)
    ensures GoodBindings(Keymaps.WithDefaults(bs, defaults, table), g)
    decreases table
  {
    hide Keymaps.Added, Keystrokes.Canonical;
    if table != [] {
      AddedGood(bs, defaults, table[0].action, table[0].kbd, g);
      var r := Keymaps.Added(bs, defaults, table[0].action, table[0].kbd);
      Keymaps.AddedFirst(bs, defaults, table[0].action, table[0].kbd);
      assert forall i :: 0 <= i < |table[1..]| ==> table[1..][i] == table[i + 1];
      DefaultsGood(r[0 := r[0].(defaultKey := true, defaultBinding := true)], defaults, table[1..], g);
    }
  }

  /** What is read from a text is a keystroke that can be read again, and an action with a name. */
  lemma {:induction false} MeaningsGood(lines: seq<BindLine>, g: Naming)
    requires GoodActions(g) && forall i :: 0 <= i < |lines| ==> Keystrokes.IsText(lines[i].keystroke)
    ensures forall i :: 0 <= i < |Meanings(lines, g)| ==> GoodBind(Meanings(lines, g)[i], g)
  {
    hide GoodNaming, GoodBind, Keystrokes.IsText, Meaning;
    if lines != [] {
      assert forall i :: 0 <= i < |lines[1..]| ==> lines[1..][i] == lines[i + 1];
      MeaningsGood(lines[1..], g);
      MeaningGood(lines[0], g);
      var rest := Meanings(lines[1..], g);
      forall i | 0 <= i < |Meanings(lines, g)| ensures GoodBind(Meanings(lines, g)[i], g) {
        if Meaning(lines[0], g).Some? {
          if i > 0 { assert Meanings(lines, g)[i] == rest[i - 1]; }
        } else {
          assert Meanings(lines, g)[i] == rest[i];
        }
      }
    }
  }

  lemma MeaningGood(line: BindLine, g: Naming)
    requires GoodActions(g) && Keystrokes.IsText(line.keystroke)
    ensures Meaning(line, g).Some? ==> GoodBind(Meaning(line, g).value, g)
  {
    hide GoodNaming, Keystrokes.Parsed, Keystrokes.Printed, Keystrokes.Canonical, Keystrokes.IsText;
    Keystrokes.ParsedCanonical(line.keystroke, g.signed);
  }

  /** A file and tables that a session can start with. */
  ghost predicate GoodStart(text: string, base: Options, p: Program, doomed: set<string>) {
    && GoodProgram(p) && KeymapStores.ListsExactly(p.table, p.defaults)
    && (forall i :: 0 <= i < |p.table| ==> GoodBind(p.table[i], p.naming))
    && GoodState(TextState(text, Load(Commands(text, p.kinds, p.files), base)), p.kinds, doomed)
    && forall i :: 0 <= i < |Binds(text, p.kinds)| ==>
         Understood(Binds(text, p.kinds)[i], p.naming) && Keystrokes.IsText(Binds(text, p.kinds)[i].keystroke)
  }

  lemma StartGood(text: string, base: Options, p: Program, doomed: set<string>)
    requires GoodStart(text, base, p, doomed)
    ensures GoodSession(Start(text, base, p), p, doomed)
    ensures Keymaps.Kept(Start(text, base, p).bindings, p.defaults) && Keymaps.IsTable(p.table, p.defaults)
  {
    hide GoodState, GoodBind, Understood, GoodLayout, GoodNaming, Binds, Commands, Keystrokes.IsText, Meanings,
         Keymaps.Kept, Keymaps.IsTable, Keymaps.Loaded, Keymaps.WithDefaults, KeymapStores.ListsExactly;
    var start := Keymaps.WithDefaults([], p.defaults, p.table);
    DefaultsGood([], p.defaults, p.table, p.naming);
    MeaningsGood(Binds(text, p.kinds), p.naming);
    LoadedGood(start, p.defaults, FileBinds(text, p), p.naming);
    KeymapStores.ListedTable(p.table, p.defaults);
    KeymapStores.FreshKept(p.table, p.defaults, FileBinds(text, p));
  }

  // ---- the theorem

  /** Start from any clean file, change options and key bindings and save both in any styles, between
      any comments, as often as you like.  Saving once more and starting again gives an option back
      exactly under the condition for options, and a keystroke its action exactly under the condition
      for keymaps. */
  lemma EverySessionReloads(text: string, base: Options, p: Program, ms: seq<Move>, last: Move, n: string,
                            k: Keymaps.Keystroke, doomed: set<string>)
    requires GoodStart(text, base, p, doomed) && forall m :: m in ms + [last] ==> GoodMove(m, p, doomed)
    requires n in base && last.SaveBoth? && last.written
    ensures forall m :: m in ms + [last] ==> Fitting(m, base.Keys, p)
    ensures var s := Run(Start(text, base, p), ms, p);
            var again := Start(After(s, last, p).text, base, p);
            && n in s.options && n in again.options
            && (Agrees(s.options[n], again.options[n])
                <==> Restorable(last.style, Commands(s.text, p.kinds, p.files), s.options, base, n))
            && (Keymaps.Action(again.bindings, k) == Keymaps.Action(s.bindings, k)
                <==> Keymaps.Returns(KeyStyle(last.style), s.bindings, FileBinds(s.text, p), k))
  {
    hide GoodStart, GoodSession, GoodMove, Run, OptionActs, KeyEvents, ConfigSave.Run, KeymapStores.Run, Keymaps.Kept,
         Keymaps.IsTable, Keymaps.Returns, Keymaps.Action, Restorable, Saved, Keymaps.SavedAs, Commands, FileBinds,
         Start, Fitting;
    var start := Start(text, base, p);
    StartParts(text, base, p, doomed);
    StartGood(text, base, p, doomed);
    AllFitting(start, ms + [last], p, doomed);
    assert forall m :: m in ms ==> m in ms + [last];
    assert last in ms + [last];
    RunKeeps(start, ms, p, doomed);
    var s := Run(start, ms, p);
    SaveKeeps(s, last, p, doomed);
    KeysKept(start, ms, p);
    ReloadsAlone(s, last, base, n, k, p);
  }

  lemma StartParts(text: string, base: Options, p: Program, doomed: set<string>)
    requires GoodStart(text, base, p, doomed)
    ensures GoodProgram(p) && KeymapStores.ListsExactly(p.table, p.defaults)
    ensures Start(text, base, p).options.Keys == base.Keys
  {
    hide GoodProgram, KeymapStores.ListsExactly, GoodBind, GoodState, Understood;
  }

  lemma KeysKept(s: Session, ms: seq<Move>, p: Program)
    requires forall m :: m in ms ==> Fitting(m, s.options.Keys, p)
    requires KeymapStores.ListsExactly(p.table, p.defaults) && Keymaps.Kept(s.bindings, p.defaults)
    requires KeyState(Run(s, ms, p), p) == KeymapStores.Run(KeyState(s, p), p.table, p.defaults, KeyEvents(ms))
    ensures Keymaps.Kept(Run(s, ms, p).bindings, p.defaults)
  {
    hide Run, Keymaps.Kept, KeymapStores.ListsExactly, KeymapStores.Run, FileBinds;
    KeymapStores.RunKept(KeyState(s, p), p.table, p.defaults, KeyEvents(ms));
  }

  lemma ReloadsAlone(s: Session, last: Move, base: Options, n: string, k: Keymaps.Keystroke, p: Program)
    requires Listed(s.options, p) && s.options.Keys == base.Keys && n in base
    requires last.SaveBoth? && last.written && Fitting(last, s.options.Keys, p)
    requires Keymaps.Kept(s.bindings, p.defaults) && Keymaps.IsTable(p.table, p.defaults)
    requires var r := After(s, last, p);
             && OptionState(r, p) == Act(Save(last.style, true), OptionState(s, p), p.order)
             && KeyState(r, p)
                == KeymapStores.After(KeyState(s, p), p.table, p.defaults,
                                      KeymapStores.SavedNow(KeyStyle(last.style), true))
    ensures var again := Start(After(s, last, p).text, base, p);
            && n in again.options
            && (Agrees(s.options[n], again.options[n])
                <==> Restorable(last.style, Commands(s.text, p.kinds, p.files), s.options, base, n))
            && (Keymaps.Action(again.bindings, k) == Keymaps.Action(s.bindings, k)
                <==> Keymaps.Returns(KeyStyle(last.style), s.bindings, FileBinds(s.text, p), k))
  {
    hide After, Keymaps.Kept, Keymaps.IsTable, Keymaps.Returns, Keymaps.Action, Restorable, Saved, Keymaps.SavedAs,
         Commands, FileBinds, Keymaps.Loaded, Keymaps.WithDefaults, Agrees, Load, Keymaps.Passed, Act, Fitting;
    SavedAct(last.style, true, OptionState(s, p), p.order);
    SavedOptionLoads(last.style, Commands(s.text, p.kinds, p.files), p.order, s.options, base, n);
    Keymaps.KeptReloads(KeyStyle(last.style), s.bindings, FileBinds(s.text, p), p.defaults, p.table, k);
  }
}
