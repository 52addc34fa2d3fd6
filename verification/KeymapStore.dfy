/** A keymap changed step by step as ELinks does it, each method proved against the function of
    Keymaps that says what it does, and the runs of a keymap with its configuration file. */
module KeymapStores {
  import opened Basics
  import opened Keymaps

  class Keymap {
    /** The table of default key bindings, ended by its length. */
    const table: seq<Bind>
    ghost const defaults: Defaults
    var bindings: seq<Binding>
    /** The bind commands of the configuration file. */
    var file: seq<Bind>

    ghost predicate Valid()
      reads this
    {
      ListsExactly(table, defaults) && Kept(bindings, defaults)
    }

    /** init_keymaps, and loading the configuration file. */
    constructor (table: seq<Bind>, ghost defaults: Defaults, file: seq<Bind>)
      requires ListsExactly(table, defaults)
      ensures Valid() && this.table == table && this.defaults == defaults && this.file == file
      ensures bindings == Fresh(table, defaults, file)
    {
      this.table, this.defaults, this.bindings, this.file := table, defaults, [], file;
      new;
      hide Kept, Added, Executed;
      ListedTable(table, defaults);
      AddDefaultKeybindings();
      FreshKept(table, defaults, file);
      LoadBinds(file, false);
    }

    /** kbd_ev_lookup. */
    method KbdEvLookup(k: Keystroke) returns (i: nat)
      ensures i == Find(bindings, k)
    {
      i := 0;
      while i < |bindings|
        invariant i <= Find(bindings, k)
      {
        if bindings[i].kbd == k { return; }
        i := i + 1;
      }
    }

    method FreeKeybinding(i: nat)
      requires i < |bindings|
      modifies this`bindings
      ensures bindings == Freed(old(bindings), i)
    {
      if bindings[i].defaultKey {
        bindings := bindings[i := bindings[i].(defaultBinding := false, action := ACT_NONE)];
        return;
      }
      bindings := bindings[..i] + bindings[i + 1..];
    }

    /** The result is 0 if there was no binding, 2 if there was one for a default key, 1 if not. */
    method DeleteKeybinding(k: Keystroke) returns (r: int)
      modifies this`bindings
      ensures bindings == Deleted(old(bindings), k)
      ensures var i := Find(old(bindings), k);
              r == if i == |old(bindings)| then 0 else if old(bindings)[i].defaultKey then 2 else 1
    {
      var i := 0;
      while i < |bindings|
        invariant i <= Find(bindings, k) && bindings == old(bindings)
      {
        if bindings[i].kbd == k {
          var wasDefault := 0;
          if bindings[i].defaultKey {
            bindings := bindings[i := bindings[i].(defaultKey := false)];
            wasDefault := 1;
          }
          FreeKeybinding(i);
          return 1 + wasDefault;
        }
        i := i + 1;
      }
      return 0;
    }

    method KeybindingIsDefault(action: int, k: Keystroke) returns (r: bool)
      requires ListsExactly(table, defaults)
      ensures r == IsDefault(defaults, k, action)
    {
      for pos := 0 to |table|
        invariant forall j :: 0 <= j < pos ==> table[j] != Bind(k, action)
      {
        if table[pos] == Bind(k, action) { return true; }
      }
      return false;
    }

    /** The result says whether the binding is handed back, so that bind_do can flag it. */
    method AddKeybinding(action: int, k: Keystroke) returns (given: bool)
      requires ListsExactly(table, defaults)
      modifies this`bindings
      ensures bindings == Added(old(bindings), defaults, action, k)
      ensures given == (action != ACT_NONE)
    {
      var deleted := DeleteKeybinding(k);
      var isDefaultBinding := KeybindingIsDefault(action, k);
      bindings := [Binding(k, action, deleted == 2, isDefaultBinding, false)] + bindings;
      return action != ACT_NONE;
    }

    method AddDefaultKeybindings()
      requires ListsExactly(table, defaults)
      modifies this`bindings
      ensures bindings == WithDefaults(old(bindings), defaults, table)
    {
      assert table[0..] == table;
      for kb := 0 to |table|
        invariant WithDefaults(old(bindings), defaults, table) == WithDefaults(bindings, defaults, table[kb..])
      {
        assert table[kb..][1..] == table[kb + 1..];
        var given := AddKeybinding(table[kb].action, table[kb].kbd);
        bindings := bindings[0 := bindings[0].(defaultKey := true, defaultBinding := true)];
      }
    }

    method BindDo(c: Bind, system: bool)
      requires ListsExactly(table, defaults)
      modifies this`bindings
      ensures bindings == Executed(old(bindings), defaults, c, system)
    {
      var given := AddKeybinding(c.action, c.kbd);
      if given && system {
        bindings := bindings[0 := bindings[0].(defaultKey := true, defaultBinding := true)];
      }
    }

    method LoadBinds(cmds: seq<Bind>, system: bool)
      requires ListsExactly(table, defaults)
      modifies this`bindings
      ensures bindings == Loaded(old(bindings), defaults, cmds, system)
    {
      hide Executed;
      assert cmds[0..] == cmds;
      for i := 0 to |cmds|
        invariant Loaded(old(bindings), defaults, cmds, system) == Loaded(bindings, defaults, cmds[i..], system)
      {
        assert cmds[i..][1..] == cmds[i + 1..];
        BindDo(cmds[i], system);
      }
    }

    /** The action to write into the mirror for a bind command, which marks the binding. */
    method BindAct(k: Keystroke) returns (action: Option<int>)
      modifies this`bindings
      ensures action == Action(old(bindings), k)
      ensures bindings == MarkedAt(old(bindings), k)
    {
      var i := KbdEvLookup(k);
      if i == |bindings| { return None; }
      action := Some(bindings[i].action);
      bindings := bindings[i := bindings[i].(watermark := true)];
    }

    /** The pass over the old file when saving. */
    method MirrorBinds() returns (mirror: seq<Bind>)
      modifies this`bindings
      ensures mirror == RewrittenAll(old(bindings), file)
      ensures bindings == Marked(old(bindings), file)
    {
      hide Marked, RewrittenAll, MarkedAt, Find, Action, Rewritten;
      mirror := [];
      assert file[0..] == file;
      for i := 0 to |file|
        invariant RewrittenAll(old(bindings), file) == mirror + RewrittenAll(bindings, file[i..])
        invariant Marked(old(bindings), file) == Marked(bindings, file[i..])
      {
        var c := file[i];
        assert file[i..][1..] == file[i + 1..];
        ghost var before := bindings;
        var action := BindAct(c.kbd);
        MarkingRewrites(before, c.kbd, file[i + 1..]);
        MirrorStep(before, file[i..]);
        mirror := mirror + [if action.Some? then Bind(c.kbd, action.value) else c];
      }
      assert file[|file|..] == [];
      MirrorEnd(bindings);
    }

    /** bind_config_string. */
    method BindConfigString() returns (tail: seq<Bind>)
      modifies this`bindings
      ensures tail == Tail(old(bindings)) && bindings == Unmarked(old(bindings))
    {
      hide Tail, Unmarked;
      tail := [];
      ghost var was := bindings;
      assert was[0..] == was;
      for i := 0 to |bindings|
        invariant |bindings| == |was| && bindings[i..] == was[i..]
        invariant Tail(was) == tail + Tail(was[i..])
        invariant Unmarked(was) == bindings[..i] + Unmarked(was[i..])
      {
        var b := bindings[i];
        assert b == was[i] && was[i..][1..] == was[i + 1..] && was[i..][0] == b;
        ghost var done := bindings[..i];
        TailStep(was[i..]);
        if b.defaultBinding {
        } else if b.watermark {
          bindings := bindings[i := b.(watermark := false)];
        } else {
          tail := tail + [Bind(b.kbd, b.action)];
        }
        assert bindings[..i + 1] == done + [if b.defaultBinding then b else b.(watermark := false)];
        assert bindings[i + 1..] == was[i + 1..];
      }
      assert was[|was|..] == [] && bindings[..|was|] == bindings;
      TailEnd();
    }

    /** What write_config_file does about key bindings; writing the file may fail. */
    method Save(style: Style, written: bool)
      requires Valid()
      modifies this`bindings, this`file
      ensures Valid()
      ensures file == (if written then SavedAs(style, old(bindings), old(file)) else old(file))
      ensures bindings == Passed(style, old(bindings), old(file))
      ensures forall k :: Action(bindings, k) == Action(old(bindings), k)
    {
      hide Kept, Action, ListsExactly, Tail, Unmarked, Marked, RewrittenAll, MarksInFile;
      SavedKept(style, bindings, defaults, file);
      var text := [];
      if style != Replace {
        text := MirrorBinds();
      } else {
        MirrorEnd(bindings);
      }
      if style != Alter {
        var tail := BindConfigString();
        text := text + tail;
      }
      if written { file := text; }
    }

    /** Binding a keystroke in the keybinding manager. */
    method Rebind(action: int, k: Keystroke)
      requires Valid()
      modifies this`bindings
      ensures Valid() && bindings == Added(old(bindings), defaults, action, k)
    {
      hide Added, Kept;
      AddedKept(bindings, defaults, action, k);
      var given := AddKeybinding(action, k);
    }

    /** Deleting a binding in the keybinding manager. */
    method Remove(i: nat)
      requires Valid() && i < |bindings|
      modifies this`bindings
      ensures Valid() && bindings == Freed(old(bindings), i)
    {
      hide Freed, Kept;
      FreedKept(bindings, defaults, i);
      FreeKeybinding(i);
    }
  }

  /** The table lists the pairs of the map, each keystroke once and none with the action "none". */
  ghost predicate ListsExactly(table: seq<Bind>, defaults: Defaults) {
    && (forall k, a :: Bind(k, a) in table <==> k in defaults && defaults[k] == a)
    && (forall k :: k in defaults ==> defaults[k] != ACT_NONE)
  }

  function MarkedAt(bs: seq<Binding>, k: Keystroke): seq<Binding> {
    var i := Find(bs, k);
    if i < |bs| then bs[i := bs[i].(watermark := true)] else bs
  }

  lemma {:induction false} LastIsListed(table: seq<Bind>, k: Keystroke)
    ensures Last(table, k).Some? ==> Bind(k, Last(table, k).value) in table
    ensures Last(table, k) == None ==> forall a :: Bind(k, a) !in table
  {
    if table != [] {
      LastIsListed(table[1..], k);
      assert forall b :: b in table <==> b == table[0] || b in table[1..];
    }
  }

  lemma ListedTable(table: seq<Bind>, defaults: Defaults)
    requires ListsExactly(table, defaults)
    ensures IsTable(table, defaults)
  {
    forall k, a ensures Last(table, k) == Some(a) <==> k in defaults && defaults[k] == a {
      LastIsListed(table, k);
      assert Bind(k, a) in table <==> k in defaults && defaults[k] == a;
      if Last(table, k).Some? { assert Bind(k, Last(table, k).value) in table; }
    }
  }

  /** Marking a binding does not change what commands are rewritten to. */
  lemma {:induction false} MarkingRewrites(bs: seq<Binding>, k: Keystroke, cmds: seq<Bind>)
    ensures RewrittenAll(MarkedAt(bs, k), cmds) == RewrittenAll(bs, cmds)
  {
    if cmds != [] {
      SameKeys(bs, MarkedAt(bs, k), cmds[0].kbd);
      MarkingRewrites(bs, k, cmds[1..]);
    }
  }

  lemma TailStep(bs: seq<Binding>)
    requires bs != []
    ensures Tail(bs) == (if bs[0].defaultBinding || bs[0].watermark then [] else [Bind(bs[0].kbd, bs[0].action)])
            + Tail(bs[1..])
    ensures Unmarked(bs) == [if bs[0].defaultBinding then bs[0] else bs[0].(watermark := false)] + Unmarked(bs[1..])
  {
  }

  lemma TailEnd()
    ensures Tail([]) == [] && Unmarked([]) == []
  {
  }

  lemma MirrorStep(bs: seq<Binding>, cmds: seq<Bind>)
    requires cmds != []
    ensures var action := Action(bs, cmds[0].kbd);
            RewrittenAll(bs, cmds)
            == [if action.Some? then Bind(cmds[0].kbd, action.value) else cmds[0]] + RewrittenAll(bs, cmds[1..])
    ensures Marked(bs, cmds) == Marked(MarkedAt(bs, cmds[0].kbd), cmds[1..])
  {
  }

  lemma MirrorEnd(bs: seq<Binding>)
    ensures RewrittenAll(bs, []) == [] && Marked(bs, []) == bs
  {
  }

  // ---- runs

  /** The bindings after a start with a configuration file. */
  function Fresh(table: seq<Bind>, defaults: Defaults, file: seq<Bind>): seq<Binding> {
    Loaded(WithDefaults([], defaults, table), defaults, file, false)
  }

  predicate AllDefault(bs: seq<Binding>) {
    forall i :: 0 <= i < |bs| ==> bs[i].defaultKey && bs[i].defaultBinding && !bs[i].watermark
  }

  lemma {:induction false} DefaultsFlags(bs: seq<Binding>, defaults: Defaults, table: seq<Bind>)
    requires AllDefault(bs)
    ensures AllDefault(WithDefaults(bs, defaults, table))
    decreases table
  {
    if table != [] {
      var a := Added(bs, defaults, table[0].action, table[0].kbd);
      DefaultsFlags(a[0 := a[0].(defaultKey := true, defaultBinding := true)], defaults, table[1..]);
    }
  }

  lemma FreshKept(table: seq<Bind>, defaults: Defaults, file: seq<Bind>)
    requires IsTable(table, defaults)
    ensures Kept(Fresh(table, defaults, file), defaults) && MarksInFile(Fresh(table, defaults, file), [])
  {
    hide WithDefaults, Loaded, Find;
    var start := WithDefaults([], defaults, table);
    DefaultsFlags([], defaults, table);
    assert Distinct(start) by { DefaultsActions([], defaults, table, Keystroke(0, 0)); }
    forall k ensures Action(start, k) == if k in defaults then Some(defaults[k]) else None {
      FreshActions(defaults, table, k);
    }
    forall k | k in defaults ensures Bound(start, k) { BoundAction(start, k); }
    forall i | 0 <= i < |start|
      ensures start[i].kbd in defaults && IsDefault(defaults, start[i].kbd, start[i].action)
    {
      FindIn(start, start[i].kbd, i);
      assert Action(start, start[i].kbd) == Some(start[i].action);
    }
    LoadedKept(start, defaults, file);
  }

  datatype Event = Rebound(action: int, kbd: Keystroke) | Removed(index: nat) | SavedNow(style: Style, written: bool)
                 | Restarted

  datatype State = State(bindings: seq<Binding>, file: seq<Bind>)

  /** There is no system configuration: a start loads the defaults and the user's file. */
  function After(s: State, table: seq<Bind>, defaults: Defaults, e: Event): State {
    match e
    case Rebound(action, k) => s.(bindings := Added(s.bindings, defaults, action, k))
    case Removed(i) => if i < |s.bindings| then s.(bindings := Freed(s.bindings, i)) else s
    case SavedNow(style, written) =>
      State(Passed(style, s.bindings, s.file), if written then SavedAs(style, s.bindings, s.file) else s.file)
    case Restarted => s.(bindings := Fresh(table, defaults, s.file))
  }

  function Run(s: State, table: seq<Bind>, defaults: Defaults, es: seq<Event>): State
    decreases es
  {
    if es == [] then s else Run(After(s, table, defaults, es[0]), table, defaults, es[1..])
  }

  /** What every step keeps, in any style. */
  lemma AfterKept(s: State, table: seq<Bind>, defaults: Defaults, e: Event)
    requires ListsExactly(table, defaults) && Kept(s.bindings, defaults)
    ensures Kept(After(s, table, defaults, e).bindings, defaults)
  {
    hide Kept, Added, Freed, Fresh, SavedAs, Passed, MarksInFile, IsTable;
    match e {
      case Rebound(action, k) => AddedKept(s.bindings, defaults, action, k);
      case Removed(i) => if i < |s.bindings| { FreedKept(s.bindings, defaults, i); }
      case SavedNow(style, _) => SavedKept(style, s.bindings, defaults, s.file);
      case Restarted =>
        ListedTable(table, defaults);
        FreshKept(table, defaults, s.file);
    }
  }

  lemma {:induction false} RunKept(s: State, table: seq<Bind>, defaults: Defaults, es: seq<Event>)
    requires ListsExactly(table, defaults) && Kept(s.bindings, defaults)
    ensures Kept(Run(s, table, defaults, es).bindings, defaults)
    decreases es
  {
    hide Kept, After, ListsExactly;
    if es != [] {
      AfterKept(s, table, defaults, es[0]);
      RunKept(After(s, table, defaults, es[0]), table, defaults, es[1..]);
    }
  }

  /** Over every run of binding, removing, saving in any style, also without success, and
      restarting, whatever the file was at first: saving in a style and starting again gives a
      keystroke its action back exactly under the condition of Returns. */
  lemma EveryKeymapReloads(file: seq<Bind>, table: seq<Bind>, defaults: Defaults, es: seq<Event>, style: Style,
                           k: Keystroke)
    requires ListsExactly(table, defaults)
    ensures var s := Run(State(Fresh(table, defaults, file), file), table, defaults, es);
            var again := Run(s, table, defaults, [SavedNow(style, true), Restarted]);
            Action(again.bindings, k) == Action(s.bindings, k) <==> Returns(style, s.bindings, s.file, k)
  {
    hide Kept, Fresh, SavedAs, Passed, Action, IsTable, ListsExactly, MarksInFile, Returns;
    ListedTable(table, defaults);
    FreshKept(table, defaults, file);
    RunKept(State(Fresh(table, defaults, file), file), table, defaults, es);
    var s := Run(State(Fresh(table, defaults, file), file), table, defaults, es);
    KeptReloads(style, s.bindings, s.file, defaults, table, k);
    TwoSteps(s, table, defaults, style);
    FreshIs(table, defaults, SavedAs(style, s.bindings, s.file));
  }

  lemma TwoSteps(s: State, table: seq<Bind>, defaults: Defaults, style: Style)
    ensures Run(s, table, defaults, [SavedNow(style, true), Restarted]).bindings
            == Fresh(table, defaults, SavedAs(style, s.bindings, s.file))
  {
    hide Fresh, SavedAs, Passed;
    var es := [SavedNow(style, true), Restarted];
    assert es[1..] == [Restarted] && es[1..][1..] == [];
    var saved := After(s, table, defaults, es[0]);
    assert saved.file == SavedAs(style, s.bindings, s.file);
    assert Run(s, table, defaults, es) == Run(saved, table, defaults, [Restarted])
      == After(saved, table, defaults, Restarted);
  }

  lemma FreshIs(table: seq<Bind>, defaults: Defaults, file: seq<Bind>)
    ensures Fresh(table, defaults, file) == Loaded(WithDefaults([], defaults, table), defaults, file, false)
  {
  }

  // ---- runs that always save in the same way

  /** The old file is read by every save, or by none. */
  predicate OneWay(es: seq<Event>, overwrites: bool) {
    forall i :: 0 <= i < |es| && es[i].SavedNow? ==> (es[i].style.Replace? <==> overwrites)
  }

  /** Whatever is marked is in the file, or nothing is marked. */
  ghost predicate MarksFit(s: State, overwrites: bool) {
    MarksInFile(s.bindings, if overwrites then [] else s.file)
  }

  lemma AfterMarks(s: State, table: seq<Bind>, defaults: Defaults, e: Event, overwrites: bool)
    requires ListsExactly(table, defaults) && Kept(s.bindings, defaults) && MarksFit(s, overwrites)
    requires e.SavedNow? ==> (e.style.Replace? <==> overwrites)
    ensures MarksFit(After(s, table, defaults, e), overwrites)
  {
    hide Kept, Added, Freed, Fresh, SavedAs, IsTable, ListsExactly;
    match e {
      case Rebound(action, k) => AddedKept(s.bindings, defaults, action, k);
      case Removed(i) => if i < |s.bindings| { FreedMarks(s.bindings, i, if overwrites then [] else s.file); }
      case SavedNow(style, _) =>
        SavedKept(style, s.bindings, defaults, s.file);
        if overwrites { NoMarksLeft(s.bindings); }
      case Restarted =>
        ListedTable(table, defaults);
        FreshKept(table, defaults, s.file);
    }
  }

  lemma NoMarksLeft(bs: seq<Binding>)
    requires MarksInFile(bs, [])
    ensures MarksInFile(Unmarked(Marked(bs, [])), [])
  {
    UnmarkedFlags(bs);
  }

  lemma {:induction false} RunMarks(s: State, table: seq<Bind>, defaults: Defaults, es: seq<Event>, overwrites: bool)
    requires ListsExactly(table, defaults) && Kept(s.bindings, defaults) && MarksFit(s, overwrites)
    requires OneWay(es, overwrites)
    ensures var r := Run(s, table, defaults, es); MarksFit(r, overwrites)
    decreases es
  {
    hide Kept, After, ListsExactly, MarksFit;
    if es != [] {
      AfterKept(s, table, defaults, es[0]);
      AfterMarks(s, table, defaults, es[0], overwrites);
      RunMarks(After(s, table, defaults, es[0]), table, defaults, es[1..], overwrites);
    }
  }

  /** Saving in style 2 only loses nothing.  Saving in the others only, a keystroke does not get its
      action back exactly when the file binds it and it has been removed, or, in style 0, when it is
      neither in the file nor bound by default. */
  lemma OneWayReloads(file: seq<Bind>, table: seq<Bind>, defaults: Defaults, es: seq<Event>, style: Style, k: Keystroke)
    requires ListsExactly(table, defaults) && OneWay(es, style.Replace?)
    ensures var s := Run(State(Fresh(table, defaults, file), file), table, defaults, es);
            var again := Run(s, table, defaults, [SavedNow(style, true), Restarted]);
            Action(again.bindings, k) == Action(s.bindings, k)
            <==> match style
                 case Replace => true
                 case Complete => !(Last(s.file, k).Some? && !Bound(s.bindings, k))
                 case Alter => if Last(s.file, k).Some? then Bound(s.bindings, k)
                               else Bound(s.bindings, k) ==> s.bindings[Find(s.bindings, k)].defaultBinding
  {
    hide Kept, Fresh, SavedAs, Passed, Action, IsTable, ListsExactly, Run, OneWay;
    ListedTable(table, defaults);
    FreshKept(table, defaults, file);
    RunMarks(State(Fresh(table, defaults, file), file), table, defaults, es, style.Replace?);
    EveryKeymapReloads(file, table, defaults, es, style, k);
  }

  /** A default binding that the file repeats is marked by a save.  Removed, it is bound to nothing
      and still marked, so that a save in style 2 writes nothing about it, and it comes back. */
  lemma MarkedDefaultForgotten(k: Keystroke)
    ensures var defaults := map[k := 1];
            var table := [Bind(k, 1)];
            var start := State(Fresh(table, defaults, table), table);
            var s := Run(start, table, defaults, [SavedNow(Complete, true), Removed(0)]);
            var again := Run(s, table, defaults, [SavedNow(Replace, true), Restarted]);
            && Action(s.bindings, k) == Some(ACT_NONE) && Stale(s.bindings, k)
            && SavedAs(Replace, s.bindings, s.file) == [] && Action(again.bindings, k) == Some(1)
  {
    var defaults := map[k := 1];
    var table := [Bind(k, 1)];
    var bound := Binding(k, 1, true, true, false);
    OneBinding(k, 1);
    var s0 := State(Fresh(table, defaults, table), table);
    assert table[1..] == [];
    var es := [SavedNow(Complete, true), Removed(0)];
    assert es[1..] == [Removed(0)] && es[1..][1..] == [];
    var marked := bound.(watermark := true);
    assert Marked([bound], table) == Marked([marked], []) == [marked];
    assert [marked][1..] == [] && Unmarked([marked]) == [marked] && Tail([marked]) == [];
    var s1 := After(s0, table, defaults, es[0]);
    assert s1.bindings == [marked];
    var gone := marked.(action := ACT_NONE, defaultBinding := false);
    var s2 := After(s1, table, defaults, es[1]);
    assert s2.bindings == [gone];
    assert Run(s0, table, defaults, es) == s2;
    assert [gone][1..] == [] && Tail([gone]) == [];
    TwoSteps(s2, table, defaults, Replace);
  }

  /** Starting with one default binding, and with a file that repeats it or that is empty. */
  lemma OneBinding(k: Keystroke, action: int)
    ensures var defaults := map[k := action];
            var table := [Bind(k, action)];
            Fresh(table, defaults, table) == Fresh(table, defaults, []) == [Binding(k, action, true, true, false)]
  {
    var defaults := map[k := action];
    var table := [Bind(k, action)];
    var first := [Binding(k, action, true, true, false)];
    var added := Added([], defaults, action, k);
    assert added == [Binding(k, action, false, true, false)];
    assert added[0 := added[0].(defaultKey := true, defaultBinding := true)] == first;
    assert table[1..] == [];
    assert WithDefaults([], defaults, table) == WithDefaults(first, defaults, []) == first;
    assert Deleted(first, k) == [];
    assert Executed(first, defaults, table[0], false) == first;
    assert Loaded(first, defaults, table, false) == Loaded(first, defaults, [], false) == first;
  }
}
