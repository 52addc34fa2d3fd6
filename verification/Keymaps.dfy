/** Key bindings, and saving only those that differ from the defaults (src/config/kbdbind.c). */
module Keymaps {

  import opened Basics

  datatype Keystroke = Keystroke(key: int, modifier: nat)

  /** The flags are KBDB_DEFAULT_KEY, KBDB_DEFAULT_BINDING and KBDB_WATERMARK. */
  datatype Binding = Binding(kbd: Keystroke, action: int, defaultKey: bool, defaultBinding: bool, watermark: bool)

  const ACT_NONE: int := 0

  /** The table of default key bindings of a keymap. */
  type Defaults = map<Keystroke, int>

  /** A bind command of the configuration file. */
  datatype Bind = Bind(kbd: Keystroke, action: int)

  // ---- lookups

  function Find(bs: seq<Binding>, k: Keystroke): (i: nat)
    ensures i <= |bs|
    ensures i < |bs| ==> bs[i].kbd == k
    ensures forall j :: 0 <= j < i ==> bs[j].kbd != k
  {
    if bs == [] || bs[0].kbd == k then 0 else 1 + Find(bs[1..], k)
  }

  /** What a keystroke does; nothing if it is not bound. */
  function Action(bs: seq<Binding>, k: Keystroke): Option<int> {
    var i := Find(bs, k);
    if i < |bs| then Some(bs[i].action) else None
  }

  predicate Bound(bs: seq<Binding>, k: Keystroke) { Find(bs, k) < |bs| }

  ghost predicate Distinct(bs: seq<Binding>) {
    forall i, j :: 0 <= i < j < |bs| ==> bs[i].kbd != bs[j].kbd
  }

  // ---- changes

  /** delete_keybinding. */
  function Deleted(bs: seq<Binding>, k: Keystroke): seq<Binding> {
    var i := Find(bs, k);
    if i < |bs| then bs[..i] + bs[i + 1..] else bs
  }

  predicate IsDefault(defaults: Defaults, k: Keystroke, action: int) {
    k in defaults && defaults[k] == action
  }

  /** add_keybinding. */
  function Added(bs: seq<Binding>, defaults: Defaults, action: int, k: Keystroke): seq<Binding> {
    var i := Find(bs, k);
    var wasDefault := i < |bs| && bs[i].defaultKey;
    [Binding(k, action, wasDefault, IsDefault(defaults, k, action), false)] + Deleted(bs, k)
  }

  /** free_keybinding: a default key is rebound to no action. */
  function Freed(bs: seq<Binding>, i: nat): seq<Binding>
    requires i < |bs|
  {
    if bs[i].defaultKey then bs[i := bs[i].(defaultBinding := false, action := ACT_NONE)]
    else bs[..i] + bs[i + 1..]
  }

  /** bind_do: with `system`, the binding counts as a default one, unless it binds no action. */
  function Executed(bs: seq<Binding>, defaults: Defaults, c: Bind, system: bool): seq<Binding> {
    var r := Added(bs, defaults, c.action, c.kbd);
    if system && c.action != ACT_NONE then r[0 := r[0].(defaultKey := true, defaultBinding := true)] else r
  }

  function Loaded(bs: seq<Binding>, defaults: Defaults, cmds: seq<Bind>, system: bool): seq<Binding>
    decreases cmds
  {
    if cmds == [] then bs else Loaded(Executed(bs, defaults, cmds[0], system), defaults, cmds[1..], system)
  }

  // ---- saving

  /** A bind command of the file that is rewritten, and the binding it marks (bind_act); a
      command for a keystroke that is not bound stays as it is. */
  function Rewritten(bs: seq<Binding>, c: Bind): Bind {
    if Bound(bs, c.kbd) then Bind(c.kbd, bs[Find(bs, c.kbd)].action) else c
  }

  function RewrittenAll(bs: seq<Binding>, cmds: seq<Bind>): (r: seq<Bind>)
    ensures |r| == |cmds|
  {
    if cmds == [] then [] else [Rewritten(bs, cmds[0])] + RewrittenAll(bs, cmds[1..])
  }

  function Marked(bs: seq<Binding>, cmds: seq<Bind>): (r: seq<Binding>)
    ensures |r| == |bs|
    ensures forall i :: 0 <= i < |bs| ==> r[i] == bs[i].(watermark := r[i].watermark)
    decreases cmds
  {
    if cmds == [] then bs
    else
      var i := Find(bs, cmds[0].kbd);
      Marked(if i < |bs| then bs[i := bs[i].(watermark := true)] else bs, cmds[1..])
  }

  /** bind_config_string: the bindings that are neither default ones nor in the file. */
  function Tail(bs: seq<Binding>): seq<Bind> {
    if bs == [] then []
    else (if bs[0].defaultBinding || bs[0].watermark then [] else [Bind(bs[0].kbd, bs[0].action)]) + Tail(bs[1..])
  }

  function Unmarked(bs: seq<Binding>): (r: seq<Binding>)
    ensures |r| == |bs|
  {
    if bs == [] then []
    else [if bs[0].defaultBinding then bs[0] else bs[0].(watermark := false)] + Unmarked(bs[1..])
  }

  /** The bind commands of the new file. */
  function Saved(bs: seq<Binding>, file: seq<Bind>): seq<Bind> {
    RewrittenAll(bs, file) + Tail(Marked(bs, file))
  }

  /** The saving styles, as far as bindings go: 0 only rewrites the old file, 1 and 3 complete it, and
      2 replaces it without reading it. */
  datatype Style = Alter | Complete | Replace

  /** The old file as create_config_string sees it. */
  function Old(style: Style, file: seq<Bind>): seq<Bind> { if style.Replace? then [] else file }

  /** The bind commands that a save in this style writes, and the bindings after it. */
  function SavedAs(style: Style, bs: seq<Binding>, file: seq<Bind>): seq<Bind> {
    if style.Alter? then RewrittenAll(bs, file) else Saved(bs, Old(style, file))
  }

  function Passed(style: Style, bs: seq<Binding>, file: seq<Bind>): seq<Binding> {
    if style.Alter? then Marked(bs, file) else Unmarked(Marked(bs, Old(style, file)))
  }

  // ---- what changes do to keystrokes

  lemma FindIn(bs: seq<Binding>, k: Keystroke, i: nat)
    requires Distinct(bs) && i < |bs| && bs[i].kbd == k
    ensures Find(bs, k) == i
  {
  }

  lemma DeletedActions(bs: seq<Binding>, k: Keystroke)
    requires Distinct(bs)
    ensures Distinct(Deleted(bs, k)) && !Bound(Deleted(bs, k), k)
    ensures forall m :: m != k ==> Action(Deleted(bs, k), m) == Action(bs, m)
  {
    var r := Deleted(bs, k);
    var i := Find(bs, k);
    assert forall n :: 0 <= n < |r| ==> r[n] == bs[if i < |bs| && i <= n then n + 1 else n];
    forall m | m != k ensures Action(r, m) == Action(bs, m) {
      var j := Find(bs, m);
      if j < |bs| { FindIn(r, m, if i < |bs| && i < j then j - 1 else j); }
    }
  }

  lemma AddedActions(bs: seq<Binding>, defaults: Defaults, action: int, k: Keystroke)
    requires Distinct(bs)
    ensures Distinct(Added(bs, defaults, action, k))
    ensures Action(Added(bs, defaults, action, k), k) == Some(action)
    ensures forall m :: m != k ==> Action(Added(bs, defaults, action, k), m) == Action(bs, m)
  {
    var d, r := Deleted(bs, k), Added(bs, defaults, action, k);
    DeletedActions(bs, k);
    assert r[1..] == d;
    assert forall j :: 0 < j < |r| ==> r[j] == d[j - 1];
  }

  lemma ExecutedActions(bs: seq<Binding>, defaults: Defaults, c: Bind, system: bool)
    requires Distinct(bs)
    ensures Distinct(Executed(bs, defaults, c, system))
    ensures Action(Executed(bs, defaults, c, system), c.kbd) == Some(c.action)
    ensures forall m :: m != c.kbd ==> Action(Executed(bs, defaults, c, system), m) == Action(bs, m)
  {
    hide Added, Find, Action, Distinct;
    AddedActions(bs, defaults, c.action, c.kbd);
    var a, r := Added(bs, defaults, c.action, c.kbd), Executed(bs, defaults, c, system);
    AddedFirst(bs, defaults, c.action, c.kbd);
    SameActions(a, r);
  }

  lemma AddedFirst(bs: seq<Binding>, defaults: Defaults, action: int, k: Keystroke)
    ensures var r := Added(bs, defaults, action, k); r != [] && r[0].kbd == k && r[0].action == action
  {
  }

  /** Flags do not matter for what keystrokes do. */
  lemma SameActions(bs: seq<Binding>, cs: seq<Binding>)
    requires |bs| == |cs| && forall i :: 0 <= i < |bs| ==> bs[i].kbd == cs[i].kbd && bs[i].action == cs[i].action
    ensures Distinct(bs) <==> Distinct(cs)
    ensures forall k :: Action(bs, k) == Action(cs, k)
  {
    hide Find;
    forall k ensures Action(bs, k) == Action(cs, k) { SameKeys(bs, cs, k); }
  }

  /** The last command about a keystroke, if there is one. */
  function Last(cmds: seq<Bind>, k: Keystroke): Option<int> {
    if cmds == [] then None
    else match Last(cmds[1..], k)
      case Some(a) => Some(a)
      case None => if cmds[0].kbd == k then Some(cmds[0].action) else None
  }

  lemma {:induction false} LoadedActions(bs: seq<Binding>, defaults: Defaults, cmds: seq<Bind>, system: bool,
                                         k: Keystroke)
    requires Distinct(bs)
    ensures Distinct(Loaded(bs, defaults, cmds, system))
    ensures Action(Loaded(bs, defaults, cmds, system), k)
            == (if Last(cmds, k).Some? then Last(cmds, k) else Action(bs, k))
    decreases cmds
  {
    if cmds != [] {
      ExecutedActions(bs, defaults, cmds[0], system);
      LoadedActions(Executed(bs, defaults, cmds[0], system), defaults, cmds[1..], system, k);
    }
  }

  // ---- what is saved about a keystroke

  lemma {:induction false} LastOfConcat(a: seq<Bind>, b: seq<Bind>, k: Keystroke)
    ensures Last(a + b, k) == if Last(b, k).Some? then Last(b, k) else Last(a, k)
  {
    if a == [] {
      assert a + b == b;
    } else {
      assert (a + b)[0] == a[0] && (a + b)[1..] == a[1..] + b;
      LastOfConcat(a[1..], b, k);
    }
  }

  lemma {:induction false} RewrittenLast(bs: seq<Binding>, cmds: seq<Bind>, k: Keystroke)
    ensures Last(RewrittenAll(bs, cmds), k)
            == if Last(cmds, k).Some? && Bound(bs, k) then Action(bs, k) else Last(cmds, k)
  {
    if cmds != [] {
      assert RewrittenAll(bs, cmds)[1..] == RewrittenAll(bs, cmds[1..]);
      RewrittenLast(bs, cmds[1..], k);
    }
  }

  lemma {:induction false} SameKeys(bs: seq<Binding>, cs: seq<Binding>, k: Keystroke)
    requires |bs| == |cs| && forall i :: 0 <= i < |bs| ==> bs[i].kbd == cs[i].kbd
    ensures Find(bs, k) == Find(cs, k)
  {
    if bs != [] { SameKeys(bs[1..], cs[1..], k); }
  }

  /** Exactly the bindings of keystrokes that the file mentions are marked, besides those that
      were. */
  lemma {:induction false} MarkedMentions(bs: seq<Binding>, cmds: seq<Bind>, i: nat)
    requires Distinct(bs) && i < |bs|
    ensures Marked(bs, cmds)[i].watermark <==> bs[i].watermark || Last(cmds, bs[i].kbd).Some?
    decreases cmds
  {
    if cmds != [] {
      var j := Find(bs, cmds[0].kbd);
      var next := if j < |bs| then bs[j := bs[j].(watermark := true)] else bs;
      MarkedMentions(next, cmds[1..], i);
      if bs[i].kbd == cmds[0].kbd { FindIn(bs, cmds[0].kbd, i); }
    }
  }

  lemma {:induction false} TailLast(bs: seq<Binding>, k: Keystroke)
    requires Distinct(bs)
    ensures var i := Find(bs, k);
            Last(Tail(bs), k)
            == if i < |bs| && !bs[i].defaultBinding && !bs[i].watermark then Some(bs[i].action) else None
  {
    if bs != [] {
      TailLast(bs[1..], k);
      var first := if bs[0].defaultBinding || bs[0].watermark then [] else [Bind(bs[0].kbd, bs[0].action)];
      LastOfConcat(first, Tail(bs[1..]), k);
      if first != [] { assert first[1..] == []; }
      assert forall j :: 0 <= j < |bs[1..]| ==> bs[1..][j] == bs[j + 1];
    }
  }

  /** When the saved file binds a keystroke as it is bound now: a keystroke in the old file must
      still be bound; one that is not in the file and either default or left over from an earlier
      save must do what it did at the start; and one that is not bound must not have been. */
  predicate Restorable(bs: seq<Binding>, file: seq<Bind>, start: seq<Binding>, k: Keystroke) {
    var i := Find(bs, k);
    if Last(file, k).Some? then i < |bs|
    else if i < |bs| then bs[i].defaultBinding || bs[i].watermark ==> Action(start, k) == Some(bs[i].action)
    else !Bound(start, k)
  }

  /** Whatever the bindings, the file and the bindings at the start are: loading the saved file
      gives a keystroke its action back exactly when that condition holds. */
  lemma SavedKeystrokeLoads(bs: seq<Binding>, file: seq<Bind>, start: seq<Binding>, defaults: Defaults, k: Keystroke)
    requires Distinct(bs) && Distinct(start)
    ensures Action(Loaded(start, defaults, Saved(bs, file), false), k) == Action(bs, k)
            <==> Restorable(bs, file, start, k)
  {
    var marked := Marked(bs, file);
    LoadedActions(start, defaults, Saved(bs, file), false, k);
    LastOfConcat(RewrittenAll(bs, file), Tail(marked), k);
    RewrittenLast(bs, file, k);
    SameKeys(bs, marked, k);
    TailLast(marked, k);
    var i := Find(bs, k);
    if i < |bs| { MarkedMentions(bs, file, i); }
  }

  // ---- runs without a system configuration

  /** add_default_keybindings, with the table as a list. */
  function WithDefaults(bs: seq<Binding>, defaults: Defaults, table: seq<Bind>): seq<Binding>
    decreases table
  {
    if table == [] then bs
    else
      var r := Added(bs, defaults, table[0].action, table[0].kbd);
      WithDefaults(r[0 := r[0].(defaultKey := true, defaultBinding := true)], defaults, table[1..])
  }

  ghost predicate IsTable(table: seq<Bind>, defaults: Defaults) {
    forall k, a :: Last(table, k) == Some(a) <==> k in defaults && defaults[k] == a
  }

  /** The flags of a binding are those of its keystroke and its action. */
  predicate FlagsRight(b: Binding, defaults: Defaults) {
    (b.defaultKey <==> b.kbd in defaults) && (b.defaultBinding <==> IsDefault(defaults, b.kbd, b.action))
  }

  /** The invariant of a keymap: one binding for a keystroke, default keystrokes always bound and
      flagged, and the other flag set exactly for the pairs of the table. */
  ghost predicate Kept(bs: seq<Binding>, defaults: Defaults) {
    && Distinct(bs)
    && (forall k :: k in defaults ==> Bound(bs, k))
    && forall i :: 0 <= i < |bs| ==> FlagsRight(bs[i], defaults)
  }

  /** Only keystrokes of the file are marked.  Saving in style 2 breaks this. */
  ghost predicate MarksInFile(bs: seq<Binding>, file: seq<Bind>) {
    forall i :: 0 <= i < |bs| && bs[i].watermark ==> Last(file, bs[i].kbd).Some?
  }

  lemma BoundAction(bs: seq<Binding>, k: Keystroke)
    ensures Bound(bs, k) <==> Action(bs, k).Some?
  {
  }

  lemma AddedKept(bs: seq<Binding>, defaults: Defaults, action: int, k: Keystroke)
    requires Kept(bs, defaults)
    ensures Kept(Added(bs, defaults, action, k), defaults)
    ensures forall file :: MarksInFile(bs, file) ==> MarksInFile(Added(bs, defaults, action, k), file)
  {
    var i, d, r := Find(bs, k), Deleted(bs, k), Added(bs, defaults, action, k);
    AddedActions(bs, defaults, action, k);
    assert forall n :: 0 <= n < |d| ==> d[n] == bs[if i < |bs| && i <= n then n + 1 else n];
    assert forall n :: 0 < n < |r| ==> r[n] == d[n - 1];
    forall m | m in defaults ensures Bound(r, m) { BoundAction(bs, m); BoundAction(r, m); }
  }

  lemma FreedKept(bs: seq<Binding>, defaults: Defaults, i: nat)
    requires Kept(bs, defaults) && i < |bs|
    requires forall k :: k in defaults ==> defaults[k] != ACT_NONE
    ensures Kept(Freed(bs, i), defaults)
    ensures forall k :: k != bs[i].kbd ==> Action(Freed(bs, i), k) == Action(bs, k)
    ensures Action(Freed(bs, i), bs[i].kbd) == if bs[i].kbd in defaults then Some(ACT_NONE) else None
  {
    hide Find;
    FindIn(bs, bs[i].kbd, i);
    if bs[i].defaultKey { DefaultFreed(bs, defaults, i); } else { OtherFreed(bs, defaults, i); }
  }

  lemma DefaultFreed(bs: seq<Binding>, defaults: Defaults, i: nat)
    requires Kept(bs, defaults) && i < |bs| && bs[i].defaultKey && Find(bs, bs[i].kbd) == i
    requires forall k :: k in defaults ==> defaults[k] != ACT_NONE
    ensures var r := Freed(bs, i);
            && Kept(r, defaults) && Action(r, bs[i].kbd) == Some(ACT_NONE)
            && forall k :: k != bs[i].kbd ==> Action(r, k) == Action(bs, k)
  {
    hide Find;
    var r := Freed(bs, i);
    forall k ensures Find(r, k) == Find(bs, k) { SameKeys(bs, r, k); }
    forall k | k != bs[i].kbd ensures Action(r, k) == Action(bs, k) {
      if Find(bs, k) < |bs| { assert bs[Find(bs, k)].kbd == k; }
    }
  }

  lemma OtherFreed(bs: seq<Binding>, defaults: Defaults, i: nat)
    requires Kept(bs, defaults) && i < |bs| && !bs[i].defaultKey && Find(bs, bs[i].kbd) == i
    ensures var r := Freed(bs, i);
            && Kept(r, defaults) && Action(r, bs[i].kbd) == None
            && forall k :: k != bs[i].kbd ==> Action(r, k) == Action(bs, k)
  {
    hide Find, Distinct, Action, Bound;
    var r := Freed(bs, i);
    assert Deleted(bs, bs[i].kbd) == r;
    DeletedActions(bs, bs[i].kbd);
    BoundAction(r, bs[i].kbd);
    forall n | 0 <= n < |r| ensures r[n] in bs { assert r[n] == bs[if i <= n then n + 1 else n]; }
    forall m | m in defaults ensures Bound(r, m) { BoundAction(bs, m); BoundAction(r, m); }
    forall n | 0 <= n < |r| ensures FlagsRight(r[n], defaults) { KeptFlags(bs, defaults, r[n]); }
  }

  lemma KeptFlags(bs: seq<Binding>, defaults: Defaults, b: Binding)
    requires Kept(bs, defaults) && b in bs
    ensures FlagsRight(b, defaults)
  {
  }

  lemma FreedMarks(bs: seq<Binding>, i: nat, file: seq<Bind>)
    requires i < |bs| && MarksInFile(bs, file)
    ensures MarksInFile(Freed(bs, i), file)
  {
    var r := Freed(bs, i);
    assert forall n :: 0 <= n < |r| ==>
      var m := bs[if !bs[i].defaultKey && i <= n then n + 1 else n]; r[n].kbd == m.kbd && r[n].watermark == m.watermark;
  }

  lemma {:induction false} LoadedKept(bs: seq<Binding>, defaults: Defaults, cmds: seq<Bind>)
    requires Kept(bs, defaults)
    ensures Kept(Loaded(bs, defaults, cmds, false), defaults)
    ensures forall file :: MarksInFile(bs, file) ==> MarksInFile(Loaded(bs, defaults, cmds, false), file)
    decreases cmds
  {
    hide Kept, MarksInFile, Added;
    if cmds != [] {
      AddedKept(bs, defaults, cmds[0].action, cmds[0].kbd);
      LoadedKept(Executed(bs, defaults, cmds[0], false), defaults, cmds[1..]);
    }
  }

  /** Saving in any style changes no action, and but for style 2 leaves marks only on keystrokes of
      the new file. */
  lemma SavedKept(style: Style, bs: seq<Binding>, defaults: Defaults, file: seq<Bind>)
    requires Kept(bs, defaults)
    ensures Kept(Passed(style, bs, file), defaults)
    ensures forall k :: Action(Passed(style, bs, file), k) == Action(bs, k)
    ensures !style.Replace? && MarksInFile(bs, file) ==> MarksInFile(Passed(style, bs, file), file)
    ensures !style.Replace? && MarksInFile(bs, file) ==> MarksInFile(Passed(style, bs, file), SavedAs(style, bs, file))
  {
    hide Find, SavedAs;
    var old' := Old(style, file);
    var r := Passed(style, bs, file);
    PassedFlags(style, bs, file);
    forall k ensures Find(r, k) == Find(bs, k) { SameKeys(bs, r, k); }
    forall i | 0 <= i < |r|
      ensures r[i].watermark ==> bs[i].watermark || Last(old', r[i].kbd).Some?
      ensures Last(old', r[i].kbd).Some? ==> Last(SavedAs(style, bs, file), r[i].kbd).Some?
    {
      MarkedMentions(bs, old', i);
      SavedMentions(style, bs, file, r[i].kbd);
    }
  }

  /** Saving changes nothing but marks, and adds none but those of the pass over the file. */
  lemma PassedFlags(style: Style, bs: seq<Binding>, file: seq<Bind>)
    ensures var marked, r := Marked(bs, Old(style, file)), Passed(style, bs, file);
            |r| == |bs| && forall i :: 0 <= i < |r| ==>
              r[i] == bs[i].(watermark := r[i].watermark) && (r[i].watermark ==> marked[i].watermark)
  {
    UnmarkedFlags(Marked(bs, Old(style, file)));
  }

  /** What the old file mentions, the new one does. */
  lemma SavedMentions(style: Style, bs: seq<Binding>, file: seq<Bind>, k: Keystroke)
    ensures Last(Old(style, file), k).Some? ==> Last(SavedAs(style, bs, file), k).Some?
  {
    hide Find, Tail, Marked, Last, RewrittenAll;
    var old' := Old(style, file);
    LastOfConcat(RewrittenAll(bs, old'), Tail(Marked(bs, old')), k);
    RewrittenLast(bs, old', k);
    BoundAction(bs, k);
  }

  lemma {:induction false} UnmarkedFlags(bs: seq<Binding>)
    ensures forall i :: 0 <= i < |bs| ==>
      var r := Unmarked(bs)[i]; r == bs[i].(watermark := r.watermark) && (r.watermark ==> bs[i].watermark)
  {
    if bs != [] {
      UnmarkedFlags(bs[1..]);
      forall i | 0 <= i < |bs|
        ensures var r := Unmarked(bs)[i]; r == bs[i].(watermark := r.watermark) && (r.watermark ==> bs[i].watermark)
      {
        if i > 0 { assert Unmarked(bs)[i] == Unmarked(bs[1..])[i - 1] && bs[i] == bs[1..][i - 1]; }
      }
    }
  }

  lemma {:induction false} DefaultsActions(bs: seq<Binding>, defaults: Defaults, table: seq<Bind>, k: Keystroke)
    requires Distinct(bs)
    ensures Distinct(WithDefaults(bs, defaults, table))
    ensures Action(WithDefaults(bs, defaults, table), k)
            == if Last(table, k).Some? then Last(table, k) else Action(bs, k)
    decreases table
  {
    hide Added, Find, Action, Distinct;
    if table != [] {
      var a := Added(bs, defaults, table[0].action, table[0].kbd);
      AddedFirst(bs, defaults, table[0].action, table[0].kbd);
      var r := a[0 := a[0].(defaultKey := true, defaultBinding := true)];
      AddedActions(bs, defaults, table[0].action, table[0].kbd);
      SameActions(a, r);
      DefaultsActions(r, defaults, table[1..], k);
    }
  }

  lemma FreshActions(defaults: Defaults, table: seq<Bind>, k: Keystroke)
    requires IsTable(table, defaults)
    ensures var start := WithDefaults([], defaults, table);
            Distinct(start) && Action(start, k) == if k in defaults then Some(defaults[k]) else None
  {
    hide Added;
    DefaultsActions([], defaults, table, k);
    if k in defaults { assert Last(table, k) == Some(defaults[k]); }
    if Last(table, k).Some? { assert Last(table, k) == Some(Last(table, k).value); }
  }

  /** A binding that is not a default one and carries a mark from an earlier save: its command is
      not appended. */
  predicate Stale(bs: seq<Binding>, k: Keystroke) {
    var i := Find(bs, k);
    i < |bs| && !bs[i].defaultBinding && bs[i].watermark
  }

  /** When a save in this style gives a keystroke its action back: one that the old file binds and
      that is kept must still be bound; of the others, style 0 keeps only the default bindings, and
      the other styles all that have no stale mark. */
  predicate Returns(style: Style, bs: seq<Binding>, file: seq<Bind>, k: Keystroke) {
    if Last(Old(style, file), k).Some? then Bound(bs, k)
    else if style.Alter? then Bound(bs, k) ==> bs[Find(bs, k)].defaultBinding
    else !Stale(bs, k)
  }

  lemma KeptRestorable(bs: seq<Binding>, file: seq<Bind>, start: seq<Binding>, defaults: Defaults, k: Keystroke)
    requires Kept(bs, defaults)
    requires Action(start, k) == if k in defaults then Some(defaults[k]) else None
    ensures Restorable(bs, file, start, k) <==> if Last(file, k).Some? then Bound(bs, k) else !Stale(bs, k)
  {
    hide Last, Find;
    var i := Find(bs, k);
    BoundAction(start, k);
    if i < |bs| { assert bs[i].kbd == k; }
  }

  /** Rewriting alone: what the file does not mention does what it does at the start. */
  lemma AlteredKeystrokeLoads(bs: seq<Binding>, file: seq<Bind>, start: seq<Binding>, defaults: Defaults, k: Keystroke)
    requires Distinct(start)
    ensures Action(Loaded(start, defaults, RewrittenAll(bs, file), false), k)
            == if Last(file, k).Some? then (if Bound(bs, k) then Action(bs, k) else Last(file, k)) else Action(start, k)
  {
    hide Loaded, RewrittenAll, Find;
    LoadedActions(start, defaults, RewrittenAll(bs, file), false, k);
    RewrittenLast(bs, file, k);
    BoundAction(bs, k);
  }

  /** A keymap kept by any sequence of adding, replacing, deleting and saving, without a system
      configuration: rebuilding it from the defaults and the saved file gives a keystroke its action
      back exactly under that condition. */
  lemma KeptReloads(style: Style, bs: seq<Binding>, file: seq<Bind>, defaults: Defaults, table: seq<Bind>, k: Keystroke)
    requires Kept(bs, defaults) && IsTable(table, defaults)
    ensures Action(Loaded(WithDefaults([], defaults, table), defaults, SavedAs(style, bs, file), false), k)
            == Action(bs, k)
            <==> Returns(style, bs, file, k)
  {
    hide Loaded, WithDefaults, Saved, Restorable, IsTable, Action, Bound, Last, Find;
    var start := WithDefaults([], defaults, table);
    FreshActions(defaults, table, k);
    BoundAction(bs, k);
    if style.Alter? {
      AlteredKeystrokeLoads(bs, file, start, defaults, k);
      KeptDefault(bs, defaults, k);
    } else {
      SavedKeystrokeLoads(bs, Old(style, file), start, defaults, k);
      KeptRestorable(bs, Old(style, file), start, defaults, k);
    }
  }

  lemma KeptDefault(bs: seq<Binding>, defaults: Defaults, k: Keystroke)
    requires Kept(bs, defaults)
    ensures Bound(bs, k) ==> (bs[Find(bs, k)].defaultBinding <==> k in defaults && Action(bs, k) == Some(defaults[k]))
    ensures !Bound(bs, k) ==> k !in defaults && Action(bs, k) == None
  {
  }

  /** Deleting a binding that the configuration file sets, when it is not a default one, does not
      last: the file keeps its command, and the next start binds the keystroke again. */
  lemma DeletedBindingReturns(bs: seq<Binding>, file: seq<Bind>, start: seq<Binding>, defaults: Defaults, k: Keystroke)
    requires Distinct(bs) && Distinct(start) && Last(file, k).Some? && !Bound(bs, k)
    ensures Action(Loaded(start, defaults, Saved(bs, file), false), k) == Last(file, k)
  {
    LoadedActions(start, defaults, Saved(bs, file), false, k);
    LastOfConcat(RewrittenAll(bs, file), Tail(Marked(bs, file)), k);
    RewrittenLast(bs, file, k);
    SameKeys(bs, Marked(bs, file), k);
    TailLast(Marked(bs, file), k);
  }

  /** With a system configuration that rebinds a default keystroke `k`, a user who binds it back to
      its default action does not get that saved: the binding counts as a default one. */
  lemma SystemRebindingWins(k: Keystroke)
    ensures var defaults := map[k := 1];
            var start := Executed(WithDefaults([], defaults, [Bind(k, 1)]), defaults, Bind(k, 2), true);
            var bs := Added(start, defaults, 1, k);
            && Saved(bs, []) == [] && Action(bs, k) == Some(1)
            && Action(Loaded(start, defaults, Saved(bs, []), false), k) == Some(2)
  {
    var defaults := map[k := 1];
    var table := [Bind(k, 1)];
    var added := Added([], defaults, 1, k);
    assert added == [Binding(k, 1, false, true, false)];
    var first := added[0 := added[0].(defaultKey := true, defaultBinding := true)];
    assert first == [Binding(k, 1, true, true, false)];
    assert table[1..] == [];
    assert WithDefaults([], defaults, table) == WithDefaults(first, defaults, []) == first;
    assert Deleted(first, k) == [];
    var start := Executed(first, defaults, Bind(k, 2), true);
    assert start == [Binding(k, 2, true, true, false)];
    assert Deleted(start, k) == [];
    var bs := Added(start, defaults, 1, k);
    assert bs == [Binding(k, 1, true, true, false)];
    assert bs[1..] == [];
    assert Marked(bs, []) == bs && Tail(bs) == [];
    assert Saved(bs, []) == [];
    assert Loaded(start, defaults, [], false) == start;
    assert Find(bs, k) == 0 && Find(start, k) == 0;
  }
}
