/** Key bindings with a system configuration and with bind commands in included files, which bind
    as the system configuration does and which saving never rewrites. */
module SystemKeymaps {
  import opened Basics
  import opened Keymaps
  import opened KeymapStores

  /** A bind command of the user's file, or one of a file that it includes. */
  datatype Line = Own(bind: Bind) | Included(bind: Bind)

  function OwnBinds(lines: seq<Line>): seq<Bind> {
    if lines == [] then [] else (if lines[0].Own? then [lines[0].bind] else []) + OwnBinds(lines[1..])
  }

  function AllOwn(cmds: seq<Bind>): seq<Line> {
    if cmds == [] then [] else [Own(cmds[0])] + AllOwn(cmds[1..])
  }

  /** Loading the user's file. */
  function LoadedLines(bs: seq<Binding>, defaults: Defaults, lines: seq<Line>): seq<Binding>
    decreases lines
  {
    if lines == [] then bs
    else LoadedLines(Executed(bs, defaults, lines[0].bind, lines[0].Included?), defaults, lines[1..])
  }

  // ---- saving

  function RewrittenLine(bs: seq<Binding>, l: Line): Line {
    if l.Own? then Own(Rewritten(bs, l.bind)) else l
  }

  function RewrittenLines(bs: seq<Binding>, lines: seq<Line>): seq<Line> {
    if lines == [] then [] else [RewrittenLine(bs, lines[0])] + RewrittenLines(bs, lines[1..])
  }

  function OldLines(style: Style, lines: seq<Line>): seq<Line> { if style.Replace? then [] else lines }

  /** The new file.  Style 2 writes no include command. */
  function SavedLines(style: Style, bs: seq<Binding>, lines: seq<Line>): seq<Line> {
    var old' := OldLines(style, lines);
    RewrittenLines(bs, old') + if style.Alter? then [] else AllOwn(Tail(Marked(bs, OwnBinds(old'))))
  }

  // ---- which command is the last about a keystroke

  function LastLine(lines: seq<Line>, k: Keystroke): Option<Line> {
    if lines == [] then None
    else match LastLine(lines[1..], k)
      case Some(l) => Some(l)
      case None => if lines[0].bind.kbd == k then Some(lines[0]) else None
  }

  predicate IsOwn(l: Option<Line>) { l.Some? && l.value.Own? }

  /** What the keystroke does when the file has been loaded. */
  function Given(lines: seq<Line>, base: seq<Binding>, k: Keystroke): Option<int> {
    var l := LastLine(lines, k);
    if l.Some? then Some(l.value.bind.action) else Action(base, k)
  }

  lemma {:induction false} LastLineKey(lines: seq<Line>, k: Keystroke)
    ensures LastLine(lines, k).Some? ==> LastLine(lines, k).value.bind.kbd == k
  {
    if lines != [] { LastLineKey(lines[1..], k); }
  }

  lemma {:induction false} LastLineOfConcat(a: seq<Line>, b: seq<Line>, k: Keystroke)
    ensures LastLine(a + b, k) == if LastLine(b, k).Some? then LastLine(b, k) else LastLine(a, k)
  {
    if a == [] {
      assert a + b == b;
    } else {
      assert (a + b)[0] == a[0] && (a + b)[1..] == a[1..] + b;
      LastLineOfConcat(a[1..], b, k);
    }
  }

  lemma {:induction false} LoadedLinesActions(bs: seq<Binding>, defaults: Defaults, lines: seq<Line>, k: Keystroke)
    requires Distinct(bs)
    ensures Distinct(LoadedLines(bs, defaults, lines))
    ensures Action(LoadedLines(bs, defaults, lines), k) == Given(lines, bs, k)
    decreases lines
  {
    hide Executed, Action, Distinct;
    if lines != [] {
      ExecutedActions(bs, defaults, lines[0].bind, lines[0].Included?);
      LoadedLinesActions(Executed(bs, defaults, lines[0].bind, lines[0].Included?), defaults, lines[1..], k);
    }
  }

  lemma {:induction false} RewrittenLineLast(bs: seq<Binding>, lines: seq<Line>, k: Keystroke)
    ensures var l := LastLine(lines, k);
            LastLine(RewrittenLines(bs, lines), k)
            == if IsOwn(l) && Bound(bs, k) then Some(Own(Bind(k, bs[Find(bs, k)].action))) else l
  {
    hide Find;
    if lines != [] {
      assert RewrittenLines(bs, lines)[1..] == RewrittenLines(bs, lines[1..]);
      RewrittenLineLast(bs, lines[1..], k);
    }
  }

  lemma {:induction false} AllOwnLast(cmds: seq<Bind>, k: Keystroke)
    ensures LastLine(AllOwn(cmds), k) == match Last(cmds, k) case None => None case Some(a) => Some(Own(Bind(k, a)))
  {
    if cmds != [] {
      assert AllOwn(cmds)[1..] == AllOwn(cmds[1..]);
      AllOwnLast(cmds[1..], k);
    }
  }

  lemma {:induction false} OwnMentioned(lines: seq<Line>, k: Keystroke)
    ensures IsOwn(LastLine(lines, k)) ==> Last(OwnBinds(lines), k).Some?
    ensures LastLine(lines, k) == None ==> Last(OwnBinds(lines), k) == None
  {
    if lines != [] {
      var first := if lines[0].Own? then [lines[0].bind] else [];
      OwnMentioned(lines[1..], k);
      LastOfConcat(first, OwnBinds(lines[1..]), k);
      if first != [] { assert first[1..] == []; }
    }
  }

  // ---- when a keystroke gets its action back

  predicate Appended(style: Style, bs: seq<Binding>, own: seq<Bind>, k: Keystroke) {
    var i := Find(bs, k);
    !style.Alter? && i < |bs| && !bs[i].defaultBinding && !bs[i].watermark && Last(own, k) == None
  }

  /** If the last command about the keystroke is one of the user's file, the keystroke must still be
      bound.  Else, unless its command is appended, it must do what an included file or the start
      make it do. */
  predicate Comes(style: Style, bs: seq<Binding>, lines: seq<Line>, base: seq<Binding>, k: Keystroke) {
    var old' := OldLines(style, lines);
    if IsOwn(LastLine(old', k)) then Bound(bs, k)
    else Appended(style, bs, OwnBinds(old'), k) || Given(old', base, k) == Action(bs, k)
  }

  /** What is appended about a keystroke. */
  lemma AppendedLast(style: Style, bs: seq<Binding>, own: seq<Bind>, k: Keystroke)
    requires Distinct(bs) && !style.Alter?
    ensures Last(Tail(Marked(bs, own)), k) == if Appended(style, bs, own, k) then Action(bs, k) else None
  {
    hide Tail;
    var marked := Marked(bs, own);
    SameKeys(bs, marked, k);
    TailLast(marked, k);
    var i := Find(bs, k);
    if i < |bs| { MarkedMentions(bs, own, i); }
  }

  /** The last command about a keystroke in the new file. */
  lemma SavedLastLine(style: Style, bs: seq<Binding>, lines: seq<Line>, k: Keystroke)
    requires Distinct(bs)
    ensures var old' := OldLines(style, lines);
            var l := LastLine(old', k);
            LastLine(SavedLines(style, bs, lines), k)
            == if Appended(style, bs, OwnBinds(old'), k) || (IsOwn(l) && Bound(bs, k))
               then Some(Own(Bind(k, bs[Find(bs, k)].action))) else l
    ensures Appended(style, bs, OwnBinds(OldLines(style, lines)), k) ==> !IsOwn(LastLine(OldLines(style, lines), k))
  {
    hide Find, Marked, Tail, RewrittenLines, AllOwn, Distinct, OwnBinds, LastLine, Last;
    var old' := OldLines(style, lines);
    RewrittenLineLast(bs, old', k);
    OwnMentioned(old', k);
    if style.Alter? {
      assert SavedLines(style, bs, lines) == RewrittenLines(bs, old');
    } else {
      var tail := Tail(Marked(bs, OwnBinds(old')));
      AppendedLast(style, bs, OwnBinds(old'), k);
      AllOwnLast(tail, k);
      LastLineOfConcat(RewrittenLines(bs, old'), AllOwn(tail), k);
    }
  }

  /** Whatever the bindings, the file, what it includes and the bindings at the start are. */
  lemma SavedLinesReload(style: Style, bs: seq<Binding>, lines: seq<Line>, base: seq<Binding>, defaults: Defaults,
                         k: Keystroke)
    requires Distinct(bs) && Distinct(base)
    ensures Action(LoadedLines(base, defaults, SavedLines(style, bs, lines)), k) == Action(bs, k)
            <==> Comes(style, bs, lines, base, k)
  {
    hide Find, SavedLines, LoadedLines, Distinct, OwnBinds, LastLine, Last;
    LoadedLinesActions(base, defaults, SavedLines(style, bs, lines), k);
    SavedLastLine(style, bs, lines, k);
    LastLineKey(OldLines(style, lines), k);
  }

  // ---- runs

  /** The built-in bindings, as a list and as a map, and the bind commands of the system configuration. */
  datatype System = System(table: seq<Bind>, defaults: Defaults, binds: seq<Bind>)

  /** The bindings when the user's file is loaded. */
  function Base(y: System): seq<Binding> { Loaded(WithDefaults([], y.defaults, y.table), y.defaults, y.binds, true) }

  function Started(lines: seq<Line>, y: System): seq<Binding> { LoadedLines(Base(y), y.defaults, lines) }

  datatype Held = Held(bindings: seq<Binding>, lines: seq<Line>)

  function Next(s: Held, y: System, e: Event): Held {
    match e
    case Rebound(action, k) => s.(bindings := Added(s.bindings, y.defaults, action, k))
    case Removed(i) => if i < |s.bindings| then s.(bindings := Freed(s.bindings, i)) else s
    case SavedNow(style, written) =>
      Held(Passed(style, s.bindings, OwnBinds(s.lines)),
        if written then SavedLines(style, s.bindings, s.lines) else s.lines)
    case Restarted => s.(bindings := Started(s.lines, y))
  }

  function Steps(s: Held, y: System, es: seq<Event>): Held
    decreases es
  {
    if es == [] then s else Steps(Next(s, y, es[0]), y, es[1..])
  }

  lemma NoneDistinct()
    ensures Distinct([])
  {
  }

  lemma StartedActions(lines: seq<Line>, y: System, k: Keystroke)
    ensures Distinct(Base(y)) && Distinct(Started(lines, y))
    ensures Action(Started(lines, y), k) == Given(lines, Base(y), k)
  {
    hide Distinct, LoadedLines, Loaded, WithDefaults, Given;
    NoneDistinct();
    DefaultsActions([], y.defaults, y.table, k);
    LoadedActions(WithDefaults([], y.defaults, y.table), y.defaults, y.binds, true, k);
    LoadedLinesActions(Base(y), y.defaults, lines, k);
  }

  lemma FreedDistinct(bs: seq<Binding>, i: nat)
    requires Distinct(bs) && i < |bs|
    ensures Distinct(Freed(bs, i))
  {
    var r := Freed(bs, i);
    assert forall n :: 0 <= n < |r| ==> r[n].kbd == bs[if !bs[i].defaultKey && i <= n then n + 1 else n].kbd;
  }

  lemma PassedSame(style: Style, bs: seq<Binding>, own: seq<Bind>)
    ensures Distinct(bs) ==> Distinct(Passed(style, bs, own))
    ensures forall k :: Action(Passed(style, bs, own), k) == Action(bs, k)
  {
    hide Passed, Marked, Distinct, Action;
    PassedFlags(style, bs, own);
    SameActions(bs, Passed(style, bs, own));
  }

  lemma NextDistinct(s: Held, y: System, e: Event)
    requires Distinct(s.bindings)
    ensures Distinct(Next(s, y, e).bindings)
  {
    hide Distinct, Added, Freed, Passed, Started, SavedLines, OwnBinds;
    match e {
      case Rebound(action, k) => AddedActions(s.bindings, y.defaults, action, k);
      case Removed(i) => if i < |s.bindings| { FreedDistinct(s.bindings, i); }
      case SavedNow(style, _) => PassedSame(style, s.bindings, OwnBinds(s.lines));
      case Restarted => StartedActions(s.lines, y, Keystroke(0, 0));
    }
  }

  lemma {:induction false} StepsDistinct(s: Held, y: System, es: seq<Event>)
    requires Distinct(s.bindings)
    ensures Distinct(Steps(s, y, es).bindings)
    decreases es
  {
    hide Distinct, Next;
    if es != [] {
      NextDistinct(s, y, es[0]);
      StepsDistinct(Next(s, y, es[0]), y, es[1..]);
    }
  }

  /** Over every run of binding, removing, saving in any style, also without success, and restarting,
      with any system configuration and whatever the file and what it includes bind: saving in a style
      and starting again gives a keystroke its action back exactly under that condition. */
  lemma EverySystemKeymapReloads(lines: seq<Line>, y: System, es: seq<Event>, style: Style, k: Keystroke)
    ensures var s := Steps(Held(Started(lines, y), lines), y, es);
            var again := Steps(s, y, [SavedNow(style, true), Restarted]);
            Action(again.bindings, k) == Action(s.bindings, k) <==> Comes(style, s.bindings, s.lines, Base(y), k)
  {
    hide Distinct, Action, Started, Base, Comes, SavedLines, Passed, Next, LoadedLines, OwnBinds;
    var start := Held(Started(lines, y), lines);
    StartedActions(lines, y, k);
    StepsDistinct(start, y, es);
    var s := Steps(start, y, es);
    SavedLinesReload(style, s.bindings, s.lines, Base(y), y.defaults, k);
    SaveAndStart(s, y, style);
  }

  lemma {:induction false} OwnOfAllOwn(cmds: seq<Bind>)
    ensures OwnBinds(AllOwn(cmds)) == cmds
  {
    if cmds != [] {
      assert AllOwn(cmds)[1..] == AllOwn(cmds[1..]);
      OwnOfAllOwn(cmds[1..]);
    }
  }

  /** Without a system configuration and included commands the condition is that of Keymaps. */
  lemma WithoutSystem(style: Style, bs: seq<Binding>, file: seq<Bind>, table: seq<Bind>, defaults: Defaults,
                      k: Keystroke)
    requires Kept(bs, defaults) && IsTable(table, defaults)
    ensures Comes(style, bs, AllOwn(file), Base(System(table, defaults, [])), k) <==> Returns(style, bs, file, k)
  {
    hide Find, WithDefaults, IsTable, Last, LastLine, OwnBinds, AllOwn, Kept;
    var old', base := Old(style, file), Base(System(table, defaults, []));
    assert OldLines(style, AllOwn(file)) == AllOwn(old') by { NoneOwn(); }
    AllOwnLast(old', k);
    OwnOfAllOwn(old');
    assert base == WithDefaults([], defaults, table);
    FreshActions(defaults, table, k);
    BoundAction(bs, k);
    KeptDefault(bs, defaults, k);
  }

  lemma NoneOwn()
    ensures AllOwn([]) == []
  {
  }

  lemma SaveAndStart(s: Held, y: System, style: Style)
    ensures Steps(s, y, [SavedNow(style, true), Restarted]).bindings
            == LoadedLines(Base(y), y.defaults, SavedLines(style, s.bindings, s.lines))
  {
    hide SavedLines, Passed, Base, LoadedLines, OwnBinds;
    var es := [SavedNow(style, true), Restarted];
    assert es[1..] == [Restarted] && es[1..][1..] == [];
    var saved := Next(s, y, es[0]);
    assert Steps(s, y, es) == Steps(saved, y, [Restarted]) == Next(saved, y, Restarted);
  }

  // ---- runs that never replace the file

  /** Built-in bindings count as default ones; others do only if they are what the start gives, unless
      the user's file is the last to bind the keystroke; and what is marked is in the file. */
  predicate FitsIn(b: Binding, lines: seq<Line>, y: System) {
    && (IsDefault(y.defaults, b.kbd, b.action) ==> b.defaultBinding)
    && (b.watermark ==> Last(OwnBinds(lines), b.kbd).Some?)
    && (b.defaultBinding ==>
          IsDefault(y.defaults, b.kbd, b.action) || IsOwn(LastLine(lines, b.kbd))
          || Given(lines, Base(y), b.kbd) == Some(b.action))
  }

  ghost predicate AllFit(s: Held, y: System) {
    Distinct(s.bindings) && forall i :: 0 <= i < |s.bindings| ==> FitsIn(s.bindings[i], s.lines, y)
  }

  /** No built-in pair is without its flag, and nothing is marked. */
  predicate Unsaved(bs: seq<Binding>, defaults: Defaults) {
    forall i :: 0 <= i < |bs| ==>
      (IsDefault(defaults, bs[i].kbd, bs[i].action) ==> bs[i].defaultBinding) && !bs[i].watermark
  }

  lemma ExecutedUnsaved(bs: seq<Binding>, defaults: Defaults, c: Bind, system: bool)
    requires Unsaved(bs, defaults)
    ensures Unsaved(Executed(bs, defaults, c, system), defaults)
  {
    var i, d := Find(bs, c.kbd), Deleted(bs, c.kbd);
    var r := Executed(bs, defaults, c, system);
    assert forall n :: 0 <= n < |d| ==> d[n] == bs[if i < |bs| && i <= n then n + 1 else n];
    assert forall n :: 0 < n < |r| ==> r[n] == d[n - 1];
  }

  lemma {:induction false} LoadedUnsaved(bs: seq<Binding>, defaults: Defaults, cmds: seq<Bind>, system: bool)
    requires Unsaved(bs, defaults)
    ensures Unsaved(Loaded(bs, defaults, cmds, system), defaults)
    decreases cmds
  {
    hide Unsaved, Executed;
    if cmds != [] {
      ExecutedUnsaved(bs, defaults, cmds[0], system);
      LoadedUnsaved(Executed(bs, defaults, cmds[0], system), defaults, cmds[1..], system);
    }
  }

  lemma {:induction false} LinesUnsaved(bs: seq<Binding>, defaults: Defaults, lines: seq<Line>)
    requires Unsaved(bs, defaults)
    ensures Unsaved(LoadedLines(bs, defaults, lines), defaults)
    decreases lines
  {
    hide Unsaved, Executed;
    if lines != [] {
      ExecutedUnsaved(bs, defaults, lines[0].bind, lines[0].Included?);
      LinesUnsaved(Executed(bs, defaults, lines[0].bind, lines[0].Included?), defaults, lines[1..]);
    }
  }

  lemma DefaultUnsaved(bs: seq<Binding>, defaults: Defaults)
    requires AllDefault(bs)
    ensures Unsaved(bs, defaults)
  {
  }

  lemma StartedFits(lines: seq<Line>, y: System)
    ensures AllFit(Held(Started(lines, y), lines), y)
  {
    hide Find, LoadedLines, Loaded, WithDefaults, Given, LastLine, OwnBinds, Last, Base;
    var bs := Started(lines, y);
    StartedUnsaved(lines, y);
    StartedActions(lines, y, Keystroke(0, 0));
    forall i | 0 <= i < |bs| ensures FitsIn(bs[i], lines, y) {
      StartedActions(lines, y, bs[i].kbd);
      FindIn(bs, bs[i].kbd, i);
    }
  }

  lemma StartedUnsaved(lines: seq<Line>, y: System)
    ensures Unsaved(Started(lines, y), y.defaults)
  {
    hide Unsaved, LoadedLines, Loaded, WithDefaults;
    var start := WithDefaults([], y.defaults, y.table);
    DefaultsFlags([], y.defaults, y.table);
    DefaultUnsaved(start, y.defaults);
    LoadedUnsaved(start, y.defaults, y.binds, true);
    LinesUnsaved(Base(y), y.defaults, lines);
  }

  lemma ReboundFits(s: Held, y: System, action: int, k: Keystroke)
    requires AllFit(s, y)
    ensures AllFit(s.(bindings := Added(s.bindings, y.defaults, action, k)), y)
  {
    hide FitsIn;
    var bs := s.bindings;
    var i, d, r := Find(bs, k), Deleted(bs, k), Added(bs, y.defaults, action, k);
    AddedActions(bs, y.defaults, action, k);
    NewFits(r[0], s.lines, y);
    forall n | 0 < n < |r| ensures FitsIn(r[n], s.lines, y) {
      assert r[n] == d[n - 1] == bs[if i < |bs| && i <= n - 1 then n else n - 1];
    }
  }

  lemma NewFits(b: Binding, lines: seq<Line>, y: System)
    requires (b.defaultBinding <==> IsDefault(y.defaults, b.kbd, b.action)) && !b.watermark
    ensures FitsIn(b, lines, y)
  {
  }

  lemma RemovedFits(s: Held, y: System, i: nat)
    requires AllFit(s, y) && i < |s.bindings| && forall k :: k in y.defaults ==> y.defaults[k] != ACT_NONE
    ensures AllFit(s.(bindings := Freed(s.bindings, i)), y)
  {
    hide OwnBinds, LastLine, Given, Base, Last;
    var bs, r := s.bindings, Freed(s.bindings, i);
    FreedDistinct(bs, i);
    forall n | 0 <= n < |r| ensures FitsIn(r[n], s.lines, y) {
      assert r[n] == if bs[i].defaultKey then (if n == i then bs[i].(defaultBinding := false, action := ACT_NONE)
                                               else bs[n])
                     else bs[if i <= n then n + 1 else n];
    }
  }

  lemma {:induction false} OwnOfConcat(a: seq<Line>, b: seq<Line>)
    ensures OwnBinds(a + b) == OwnBinds(a) + OwnBinds(b)
  {
    if a == [] {
      assert a + b == b;
    } else {
      assert (a + b)[0] == a[0] && (a + b)[1..] == a[1..] + b;
      OwnOfConcat(a[1..], b);
    }
  }

  lemma {:induction false} OwnRewritten(bs: seq<Binding>, lines: seq<Line>)
    ensures OwnBinds(RewrittenLines(bs, lines)) == RewrittenAll(bs, OwnBinds(lines))
  {
    hide Rewritten;
    if lines != [] {
      assert RewrittenLines(bs, lines)[1..] == RewrittenLines(bs, lines[1..]);
      OwnRewritten(bs, lines[1..]);
      if lines[0].Own? {
        assert OwnBinds(lines)[1..] == OwnBinds(lines[1..]);
      } else {
        assert [] + OwnBinds(lines[1..]) == OwnBinds(lines[1..]);
      }
    }
  }

  /** What the old file binds, the new one does, and about other keystrokes it says as much, or has a
      command of its own. */
  lemma SavedLinesKeep(style: Style, bs: seq<Binding>, lines: seq<Line>, base: seq<Binding>, k: Keystroke)
    requires Distinct(bs) && !style.Replace?
    ensures var new' := SavedLines(style, bs, lines);
            && (Last(OwnBinds(lines), k).Some? ==> Last(OwnBinds(new'), k).Some?)
            && (IsOwn(LastLine(new', k)) || Given(new', base, k) == Given(lines, base, k))
            && (IsOwn(LastLine(lines, k)) ==> IsOwn(LastLine(new', k)))
  {
    hide Find, Marked, Tail, RewrittenLines, AllOwn, Distinct, LastLine, Last, OwnBinds, RewrittenAll, Action;
    SavedLastLine(style, bs, lines, k);
    var more := if style.Alter? then [] else AllOwn(Tail(Marked(bs, OwnBinds(lines))));
    OwnOfConcat(RewrittenLines(bs, lines), more);
    OwnRewritten(bs, lines);
    RewrittenLast(bs, OwnBinds(lines), k);
    BoundAction(bs, k);
    LastOfConcat(RewrittenAll(bs, OwnBinds(lines)), OwnBinds(more), k);
  }

  lemma SavedFits(s: Held, y: System, style: Style, written: bool)
    requires AllFit(s, y) && !style.Replace?
    ensures AllFit(Next(s, y, SavedNow(style, written)), y)
  {
    hide Find, Passed, Marked, SavedLines, OwnBinds, LastLine, Given, Base, Last, IsDefault;
    var bs, own, r := s.bindings, OwnBinds(s.lines), Next(s, y, SavedNow(style, written));
    PassedFlags(style, bs, own);
    PassedSame(style, bs, own);
    forall i | 0 <= i < |bs| ensures FitsIn(r.bindings[i], r.lines, y) {
      assert FitsIn(bs[i], s.lines, y);
      MarkedMentions(bs, own, i);
      SavedLinesKeep(style, bs, s.lines, Base(y), bs[i].kbd);
    }
  }

  lemma NextFits(s: Held, y: System, e: Event)
    requires ListsExactly(y.table, y.defaults) && AllFit(s, y) && (e.SavedNow? ==> !e.style.Replace?)
    ensures AllFit(Next(s, y, e), y)
  {
    hide AllFit, Added, Freed, Passed, Started, SavedLines, OwnBinds;
    match e {
      case Rebound(action, k) => ReboundFits(s, y, action, k);
      case Removed(i) => if i < |s.bindings| { RemovedFits(s, y, i); }
      case SavedNow(style, written) => SavedFits(s, y, style, written);
      case Restarted => StartedFits(s.lines, y);
    }
  }

  lemma {:induction false} StepsFit(s: Held, y: System, es: seq<Event>)
    requires ListsExactly(y.table, y.defaults) && AllFit(s, y) && OneWay(es, false)
    ensures AllFit(Steps(s, y, es), y)
    decreases es
  {
    hide AllFit, Next, ListsExactly;
    if es != [] {
      NextFits(s, y, es[0]);
      StepsFit(Next(s, y, es[0]), y, es[1..]);
    }
  }

  /** In words that need no flags: what saving does not say about a keystroke is exactly what the
      built-in bindings and the user's own commands are taken to say already. */
  predicate KeepsCourse(s: Held, y: System, style: Style, k: Keystroke) {
    var now, given := Action(s.bindings, k), Given(s.lines, Base(y), k);
    if IsOwn(LastLine(s.lines, k)) then now.Some?
    else if !style.Alter? && now.Some? && !IsDefault(y.defaults, k, now.value) && Last(OwnBinds(s.lines), k) == None
    then true
    else given == now
  }

  /** Runs that never replace the file lose a keystroke exactly so: it was removed, though the file, an
      included file or the system configuration binds it; or it was bound back to its built-in action,
      and they bind it otherwise; or the file binds it, and then a file that it includes otherwise; or
      it is only saved in style 0 and not in the file. */
  lemma SystemReloads(lines: seq<Line>, y: System, es: seq<Event>, style: Style, k: Keystroke)
    requires ListsExactly(y.table, y.defaults) && OneWay(es, false) && !style.Replace?
    ensures var s := Steps(Held(Started(lines, y), lines), y, es);
            var again := Steps(s, y, [SavedNow(style, true), Restarted]);
            Action(again.bindings, k) == Action(s.bindings, k) <==> KeepsCourse(s, y, style, k)
  {
    hide Started, Base, Comes, Next, OwnBinds, ListsExactly, AllFit, Steps, KeepsCourse, Action;
    var start := Held(Started(lines, y), lines);
    StartedFits(lines, y);
    StepsFit(start, y, es);
    EverySystemKeymapReloads(lines, y, es, style, k);
    CourseIs(Steps(start, y, es), y, style, k);
  }

  lemma CourseIs(s: Held, y: System, style: Style, k: Keystroke)
    requires AllFit(s, y) && !style.Replace?
    ensures Comes(style, s.bindings, s.lines, Base(y), k) <==> KeepsCourse(s, y, style, k)
  {
    hide OwnBinds, LastLine, Given, Base, Last, IsDefault, Find;
    var i := Find(s.bindings, k);
    if i < |s.bindings| { assert FitsIn(s.bindings[i], s.lines, y); }
  }

  /** Style 2 writes no include command, and nothing about what an included file bound: it is gone. */
  lemma IncludedBindingLost(k: Keystroke)
    ensures var y := System([], map[], []);
            var lines := [Included(Bind(k, 1))];
            var s := Held(Started(lines, y), lines);
            var again := Steps(s, y, [SavedNow(Replace, true), Restarted]);
            Action(s.bindings, k) == Some(1) && Action(again.bindings, k) == None
  {
    var y := System([], map[], []);
    var lines := [Included(Bind(k, 1))];
    StartedActions(lines, y, k);
    var bs := Started(lines, y);
    var bound := Executed([], y.defaults, Bind(k, 1), true);
    assert lines[1..] == [] && bound == [Binding(k, 1, true, true, false)];
    assert Base(y) == [] && bs == LoadedLines(bound, y.defaults, []) == bound;
    assert bs[1..] == [] && Tail(bs) == [];
    assert SavedLines(Replace, bs, lines) == [];
    SaveAndStart(Held(bs, lines), y, Replace);
  }
}
