/** The text of a configuration file: how it is cut into commands, and how saving rewrites it
    (src/config/conf.c). */
module ConfigText {
  import opened Basics
  import opened OptionText
  import opened ConfigSave

  // ---- scanners

  function ToNewline(t: string): (n: nat)
    ensures n <= |t|
  {
    if t == [] || t[0] == '\n' then 0 else 1 + ToNewline(t[1..])
  }

  /** skip_white. */
  function White(t: string): (n: nat)
    ensures n <= |t|
    ensures n < |t| ==> Solid(t[n])
    decreases |t|
  {
    if t == [] then 0
    else if IsSpace(t[0]) then 1 + White(t[1..])
    else if t[0] == '#' then
      var k := 1 + ToNewline(t[1..]);
      assert forall n :: 0 <= n < |t| - k ==> t[k..][n] == t[k + n];
      k + White(t[k..])
    else 0
  }

  /** A character that is neither white space nor the start of a comment. */
  predicate Solid(c: char) { !IsSpace(c) && c != '#' }

  predicate IsAlnum(c: char) { 'A' <= c <= 'Z' || 'a' <= c <= 'z' || IsDigit(c) }

  /** What the name of an option, with the dots between its parts, is made of. */
  predicate IsNameChar(c: char) { IsAlnum(c) || c == '_' || c == '-' || c == '+' || c == '*' || c == '.' }

  function NameLength(t: string): (n: nat)
    ensures n <= |t|
    ensures n < |t| ==> !IsNameChar(t[n])
    ensures forall i :: 0 <= i < n ==> IsNameChar(t[i])
  {
    if t == [] || !IsNameChar(t[0]) then 0 else 1 + NameLength(t[1..])
  }

  predicate InValue(c: char) { IsAlnum(c) || c == '.' || c == '+' || c == '-' }

  function ValueLength(t: string): (n: nat)
    ensures n <= |t|
    ensures n < |t| ==> !InValue(t[n])
  {
    if t == [] || !InValue(t[0]) then 0 else 1 + ValueLength(t[1..])
  }

  /** skip_option_value. */
  function SkipValue(t: string): (n: nat)
    ensures n <= |t|
  {
    if t != [] && IsQuote(t[0]) then 1 + StrBody(t[1..]).used else ValueLength(t)
  }

  /** skip_to_unquoted_newline_or_comment. */
  function ToLineEnd(t: string): (n: nat)
    ensures n <= |t|
    ensures n < |t| ==> t[n] == '\n' || t[n] == '#'
    decreases |t|
  {
    if t == [] || t[0] == '#' || t[0] == '\n' then 0
    else
      var k := if IsQuote(t[0]) then 1 + StrBody(t[1..]).used else 1;
      assert forall n :: 0 <= n < |t| - k ==> t[k..][n] == t[k + n];
      k + ToLineEnd(t[k..])
  }

  /** A quote before the end of the line is not closed. */
  predicate QuoteOpen(t: string)
    decreases |t|
  {
    t != [] && t[0] != '#' && t[0] != '\n' &&
    if IsQuote(t[0]) then !StrBody(t[1..]).closed || QuoteOpen(t[1 + StrBody(t[1..]).used..]) else QuoteOpen(t[1..])
  }

  /** The text starts with a command word and white space after it. */
  predicate Starts(t: string, word: string) {
    |t| > |word| && t[..|word|] == word && IsSpace(t[|word|])
  }

  // ---- commands

  type Kinds = map<string, Kind>

  /** A bind command: the keymap, the keystroke and the action as strings. */
  datatype BindLine = BindLine(keymap: string, keystroke: string, action: string)

  /** What a command says.  `Nothing` has no effect: an error, or an option that is not known; it is
      open if only the end of the text ended it. */
  datatype Said = Assign(name: string, value: Value) | Remove(name: string) | Included(name: string)
                | Bound(line: BindLine) | Nothing(open: bool)

  /** A command at the start of a text: what it says, its length, where its value or action starts,
      and its characters as reading leaves them in the buffer. */
  datatype Item = Item(said: Said, used: nat, at: nat, left: string) {
    /** The same behind `h`. */
    function After(h: string): Item {
      Item(said, |h| + used, if said.Assign? || said.Bound? then |h| + at else 0, h + left)
    }

    predicate In(t: string) { at <= used <= |t| && |left| == used }
  }

  /** The first `n` characters, of which no string is read, or none that says something. */
  function Plain(s: Said, t: string, n: nat): (r: Item)
    requires n <= |t|
    ensures r.In(t)
  {
    Item(s, n, 0, t[..n])
  }

  /** parse_set_common, from after the command word. */
  function SetItem(u: string, kinds: Kinds): (r: Item)
    ensures r.In(u)
  {
    var p1 := White(u);
    if p1 == |u| then Plain(Nothing(true), u, |u|)
    else
      var p2 := p1 + NameLength(u[p1..]);
      var p3 := p2 + White(u[p2..]);
      NamedItem(u[p1..p2], u[p3..], kinds).After(u[..p3])
  }

  /** After the name: an equals sign and the value, or else an error. */
  function NamedItem(name: string, y: string, kinds: Kinds): (r: Item)
    ensures r.In(y)
  {
    if y == "" then Plain(Nothing(true), y, 0)
    else if y[0] != '=' then LineItem(y)
    else EqualsItem(name, y[1..], kinds).After("=")
  }

  function EqualsItem(name: string, z: string, kinds: Kinds): (r: Item)
    ensures r.In(z)
  {
    var w := White(z);
    if w == |z| then Plain(Nothing(true), z, |z|) else ValueItem(name, z[w..], kinds).After(z[..w])
  }

  /** A text whose value has been read by the reader of its option. */
  function ValueRead(name: string, x: string, kinds: Kinds): (r: string)
    ensures |r| == |x|
  {
    if name in kinds && kinds[name].Str? then ReadOver(x) else x
  }

  /** The value of an option, which starts the text, is read or skipped. */
  function ValueItem(name: string, x: string, kinds: Kinds): (r: Item)
    requires x != ""
    ensures r.In(x)
  {
    if name !in kinds || Read(kinds[name], x) == None then
      Plain(Nothing(IsQuote(x[0]) && !StrBody(x[1..]).closed), ValueRead(name, x, kinds), SkipValue(x))
    else
      var (v, n) := Read(kinds[name], x).value;
      Plain(Assign(name, v), ValueRead(name, x, kinds), n)
  }

  /** parse_set_domain.  No option has a value for a domain; without a domain the name is empty too,
      and no option has that name. */
  function DomainItem(u: string): (r: Item)
    ensures r.In(u)
  {
    var p1 := White(u);
    if p1 == |u| then Plain(Nothing(true), u, |u|)
    else
      var p2 := p1 + NameLength(u[p1..]);
      SetItem(u[p2..], map[]).After(u[..p2])
  }

  /** parse_unset, from after the command word. */
  function UnsetItem(u: string, kinds: Kinds): (r: Item)
    ensures r.In(u)
  {
    var p1 := White(u);
    if p1 == |u| then Plain(Nothing(true), u, |u|)
    else
      var p2 := p1 + NameLength(u[p1..]);
      var name := u[p1..p2];
      Plain(if name in kinds then Remove(name) else Nothing(false), u, p2)
  }

  /** parse_include, from after the command word. */
  function IncludeItem(u: string): (r: Item)
    ensures r.In(u)
  {
    var p1 := White(u);
    if p1 == |u| then Plain(Nothing(true), u, |u|)
    else FileItem(u[p1..]).After(u[..p1])
  }

  function FileItem(x: string): (r: Item)
    ensures r.In(x)
  {
    match ReadStr(x, 0)
    case Some((name, n)) => Plain(Included(name), ReadOver(x), n)
    case None => TornItem(x)
  }

  /** parse_bind, from after the command word. */
  function BindItem(u: string): (r: Item)
    ensures r.In(u)
  {
    var p1 := White(u);
    if p1 == |u| then Plain(Nothing(true), u, |u|)
    else KeymapItem(u[p1..]).After(u[..p1])
  }

  function KeymapItem(x: string): (r: Item)
    ensures r.In(x)
  {
    match ReadStr(x, 0)
    case None => TornItem(x)
    case Some((keymap, n)) =>
      var w := n + White(x[n..]);
      if w == |x| then Plain(Nothing(true), ReadOver(x), ToLineEnd(x))
      else KeystrokeItem(keymap, x[w..]).After(ReadOver(x)[..w])
  }

  function KeystrokeItem(keymap: string, x: string): (r: Item)
    ensures r.In(x)
  {
    match ReadStr(x, 0)
    case None => TornItem(x)
    case Some((keystroke, n)) =>
      var w := n + White(x[n..]);
      if w == |x| then Plain(Nothing(true), ReadOver(x), ToLineEnd(x))
      else BindEqualsItem(keymap, keystroke, x[w..]).After(ReadOver(x)[..w])
  }

  function BindEqualsItem(keymap: string, keystroke: string, y: string): (r: Item)
    requires y != ""
    ensures r.In(y)
  {
    if y[0] != '=' then LineItem(y)
    else
      var w := White(y[1..]);
      if w == |y[1..]| then Plain(Nothing(true), y, |y|)
      else ActionItem(keymap, keystroke, y[1..][w..]).After("=" + y[1..][..w])
  }

  function ActionItem(keymap: string, keystroke: string, x: string): (r: Item)
    ensures r.In(x)
  {
    match ReadStr(x, 0)
    case None => TornItem(x)
    case Some((action, n)) => Plain(Bound(BindLine(keymap, keystroke, action)), ReadOver(x), n)
  }

  /** Nothing that can be understood: the rest of the line is skipped. */
  function LineItem(x: string): (r: Item)
    ensures r.In(x)
  {
    Plain(Nothing(QuoteOpen(x)), x, ToLineEnd(x))
  }

  /** The same where a string was expected, and one that is not closed may have been passed. */
  function TornItem(x: string): (r: Item)
    ensures r.In(x)
  {
    Plain(Nothing(QuoteOpen(x)), ReadOver(x), ToLineEnd(x))
  }

  predicate IsWord(t: string) { t == "set_domain" || t == "set" || t == "unset" || t == "bind" || t == "include" }

  /** parse_config_command, and what parse_config_file skips after an error. */
  function CommandItem(t: string, kinds: Kinds): (r: Item)
    requires t != [] && Solid(t[0])
    ensures 0 < r.used && r.In(t)
  {
    if Starts(t, "set_domain") then DomainItem(t[10..]).After("set_domain")
    else if Starts(t, "set") then SetItem(t[3..], kinds).After("set")
    else if Starts(t, "unset") then UnsetItem(t[5..], kinds).After("unset")
    else if Starts(t, "bind") then BindItem(t[4..]).After("bind")
    else if Starts(t, "include") then IncludeItem(t[7..]).After("include")
    else Plain(Nothing(QuoteOpen(t) || IsWord(t)), t, ToLineEnd(t))
  }

  /** parse_config_file: what the commands of a text say, in order. */
  function Sayings(t: string, kinds: Kinds): seq<Said>
    decreases |t|
  {
    var w := White(t);
    if w == |t| then []
    else
      var i := CommandItem(t[w..], kinds);
      [i.said] + Sayings(t[w..][i.used..], kinds)
  }

  /** Included files by name, as the commands they contain. */
  type Files = map<string, seq<Command>>

  function Says(s: Said, files: Files): seq<Command> {
    match s
    case Assign(n, v) => [Set(n, v)]
    case Remove(n) => [Unset(n)]
    case Included(f) => if f in files then [Include(files[f])] else []
    case _ => []
  }

  function Meant(said: seq<Said>, files: Files): seq<Command> {
    if said == [] then [] else Says(said[0], files) + Meant(said[1..], files)
  }

  /** The commands of a text about options. */
  function Commands(t: string, kinds: Kinds, files: Files): seq<Command> { Meant(Sayings(t, kinds), files) }

  function BindsOf(said: seq<Said>): seq<BindLine> {
    if said == [] then []
    else (if said[0].Bound? then [said[0].line] else []) + BindsOf(said[1..])
  }

  /** The bind commands of a text. */
  function Binds(t: string, kinds: Kinds): seq<BindLine> { BindsOf(Sayings(t, kinds)) }

  // ---- saving

  /** What bind_act finds for the keymap and the keystroke of a bind command: the name of the action
      the keystroke has now. */
  type Acts = map<(string, string), string>

  function ActOf(line: BindLine, acts: Acts): Option<string> {
    if (line.keymap, line.keystroke) in acts then Some(acts[(line.keymap, line.keystroke)]) else None
  }

  /** The command `i` at the start of a text as it is written to the new file. */
  function Piece(i: Item, o: Options, kinds: Kinds, acts: Acts): string
    requires i.at <= |i.left|
  {
    match i.said
    case Assign(n, _) =>
      if n !in o || n !in kinds then i.left
      else if o[n].deleted then "unset " + n
      else i.left[..i.at] + Write(kinds[n], o[n].value)
    case Remove(n) =>
      if n !in o || n !in kinds || o[n].deleted then i.left
      else "set " + n + " = " + Write(kinds[n], o[n].value)
    case Bound(line) =>
      if ActOf(line, acts).Some? then i.left[..i.at] + "\"" + ActOf(line, acts).value + "\"" else i.left
    case _ => i.left
  }

  /** The mirror string after parse_config_file: everything but the commands that are rewritten
      stays as reading leaves it. */
  function MirrorText(t: string, o: Options, kinds: Kinds, acts: Acts): string
    decreases |t|
  {
    var w := White(t);
    if w == |t| then t
    else
      var i := CommandItem(t[w..], kinds);
      t[..w] + Piece(i, o, kinds, acts) + MirrorText(t[w..][i.used..], o, kinds, acts)
  }

  /** The line for an option, between comments, as smart_config_output_fn writes it. */
  function Line(n: string, o: Options, kinds: Kinds): string
    requires n in o && n in kinds
  {
    if o[n].deleted then "unset " + n else "set " + n + " = " + Write(kinds[n], o[n].value)
  }

  /** The lines of the options that still must be saved, each with the comment and indentation
      before it. */
  function AppendedText(order: seq<string>, o: Options, kinds: Kinds, notes: map<string, string>): string
    requires forall n :: n in order ==> n in o && n in kinds && n in notes
  {
    if order == [] then ""
    else (if o[order[0]].mustSave then notes[order[0]] + Line(order[0], o, kinds) + "\n" else "")
         + AppendedText(order[1..], o, kinds, notes)
  }

  /** A line of bind_config_string: only the keystroke is escaped. */
  function LineOfBind(b: BindLine): string {
    "bind \"" + b.keymap + "\" \"" + Quoted(b.keystroke) + "\" = \"" + b.action + "\""
  }

  function BindText(more: seq<BindLine>): string {
    if more == [] then "" else LineOfBind(more[0]) + "\n" + BindText(more[1..])
  }

  /** The flags that prepare_mustsave_flags and the old file leave behind. */
  function FlagsAfter(style: Style, text: string, o: Options, kinds: Kinds, files: Files): (r: Options)
    ensures r.Keys == o.Keys
  {
    Mirror(if style == Fresh then [] else Commands(text, kinds, files), Prepare(o, SetsAll(style)))
  }

  /** What the tree of options is saved with: the order of the options, the comments written before
      each of them, before the first, before the first binding, and at the top of a new file. */
  datatype Layout = Layout(order: seq<string>, notes: map<string, string>, header: string, bindHeader: string,
                           preamble: string)

  /** What the keymaps add to saving: the actions of keystrokes that the old file binds, and the
      bindings to append. */
  datatype Keys = Keys(acts: Acts, more: seq<BindLine>)

  /** What create_config_string appends. */
  function TailText(flags: Options, kinds: Kinds, layout: Layout, keys: Keys): string
    requires forall n :: n in layout.order ==> n in flags && n in kinds && n in layout.notes
  {
    (if Appended(layout.order, flags) == [] then ""
     else layout.header + AppendedText(layout.order, flags, kinds, layout.notes))
    + (if keys.more == [] then "" else layout.bindHeader + BindText(keys.more))
  }

  /** create_config_string, but for options of domains. */
  function SavedText(style: Style, text: string, o: Options, kinds: Kinds, files: Files, layout: Layout,
                     keys: Keys): string
    requires forall n :: n in layout.order ==> n in o && n in kinds && n in layout.notes
  {
    var mirror := if style == Fresh then "" else MirrorText(text, o, kinds, keys.acts);
    (if mirror == "" then layout.preamble else mirror)
    + if style == Alter then "" else TailText(FlagsAfter(style, text, o, kinds, files), kinds, layout, keys)
  }
}
