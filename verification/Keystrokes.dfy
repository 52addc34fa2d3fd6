/** Keystrokes as text (src/config/kbdbind.c): read_key, parse_keystroke and
    add_keystroke_to_string.  A text stands for a NUL-terminated string; whether `char` is signed
    is a parameter. */
module Keystrokes {
  import opened Basics
  import opened OptionText
  import opened Keymaps

  const KBD_UNDEF: int := -1
  const KBD_MOD_SHIFT: nat := 1
  const KBD_MOD_CTRL: nat := 2
  const KBD_MOD_ALT: nat := 4

  datatype NamedKey = NamedKey(name: string, num: int)

  const KEY_TABLE: seq<NamedKey> := [
    NamedKey("Enter", -0x100), NamedKey("Space", 32), NamedKey("Backspace", -0x101), NamedKey("Tab", -0x102),
    NamedKey("Escape", -0x103), NamedKey("Left", -0x104), NamedKey("Right", -0x105), NamedKey("Up", -0x106),
    NamedKey("Down", -0x107), NamedKey("Insert", -0x108), NamedKey("Delete", -0x109), NamedKey("Home", -0x10a),
    NamedKey("End", -0x10b), NamedKey("PageUp", -0x10c), NamedKey("PageDown", -0x10d), NamedKey("F1", -0x120),
    NamedKey("F2", -0x121), NamedKey("F3", -0x122), NamedKey("F4", -0x123), NamedKey("F5", -0x124),
    NamedKey("F6", -0x125), NamedKey("F7", -0x126), NamedKey("F8", -0x127), NamedKey("F9", -0x128),
    NamedKey("F10", -0x129), NamedKey("F11", -0x12a), NamedKey("F12", -0x12b)]

  // ---- characters

  predicate SameFolded(a: string, b: string) {
    |a| == |b| && forall i :: 0 <= i < |a| ==> Lower(a[i]) == Lower(b[i])
  }

  /** The value of a `char`. */
  function CharValue(c: char, signed: bool): int {
    if signed && c as int >= 128 then c as int - 256 else c as int
  }

  /** A number stored into an unsigned char. */
  function ByteOf(key: int): char { (key % 256) as char }

  predicate IsText(s: string) { forall i :: 0 <= i < |s| ==> 0 < s[i] as int < 256 }

  // ---- modifiers

  predicate Has(m: nat, bit: nat)
    requires bit > 0
  {
    m / bit % 2 == 1
  }

  function With(m: nat, bit: nat): nat
    requires bit > 0
  {
    if Has(m, bit) then m else m + bit
  }

  // ---- reading

  function ByName(s: string, i: nat): (r: int)
    requires i <= |KEY_TABLE|
    ensures r == KBD_UNDEF || exists j :: i <= j < |KEY_TABLE| && r == KEY_TABLE[j].num
    decreases |KEY_TABLE| - i
  {
    if i == |KEY_TABLE| then KBD_UNDEF
    else if SameFolded(KEY_TABLE[i].name, s) then KEY_TABLE[i].num else ByName(s, i + 1)
  }

  function ReadKey(s: string, signed: bool): int {
    if |s| == 1 then CharValue(s[0], signed) else ByName(s, 0)
  }

  predicate Prefixed(s: string, name: string) {
    |s| > |name| && SameFolded(s[..|name|], name) && (s[|name|] == '-' || s[|name|] == '+')
  }

  /** The modifiers in front, and what is left. */
  function Modifiers(s: string, m: nat): (r: (nat, string))
    ensures |r.1| <= |s|
    decreases |s|
  {
    if Prefixed(s, "Shift") then Modifiers(s[6..], With(m, KBD_MOD_SHIFT))
    else if Prefixed(s, "Ctrl") then Modifiers(s[5..], With(m, KBD_MOD_CTRL))
    else if Prefixed(s, "Alt") then Modifiers(s[4..], With(m, KBD_MOD_ALT))
    else (m, s)
  }

  function Upper(key: int): int { if 97 <= key <= 122 then key - 32 else key }

  /** The same letter, in upper case. */
  lemma UpperIs(key: int)
    requires 0 <= key <= 0x7F
    ensures 0 <= Upper(key) <= 0x7F && !('a' <= Upper(key) as char <= 'z')
    ensures Upper(key) == key || OtherCase(Upper(key) as char, key as char)
  {
  }

  function Parsed(s: string, signed: bool): Option<Keystroke> {
    var (m, rest) := Modifiers(s, 0);
    var read := ReadKey(rest, signed);
    var key := if Has(m, KBD_MOD_CTRL) && 0 <= read <= 0x7F then Upper(read) else read;
    if key == KBD_UNDEF then None else Some(Keystroke(key, m))
  }

  // ---- writing

  function ByNum(key: int, i: nat): (r: Option<string>)
    requires i <= |KEY_TABLE|
    ensures r == None ==> forall j :: i <= j < |KEY_TABLE| ==> KEY_TABLE[j].num != key
    ensures r.Some? ==> exists j :: i <= j < |KEY_TABLE| && KEY_TABLE[j] == NamedKey(r.value, key)
    decreases |KEY_TABLE| - i
  {
    if i == |KEY_TABLE| then None
    else if KEY_TABLE[i].num == key then Some(KEY_TABLE[i].name) else ByNum(key, i + 1)
  }

  predicate IsNamed(key: int) { ByNum(key, 0).Some? }

  function PrintedModifiers(m: nat): string {
    (if Has(m, KBD_MOD_SHIFT) then "Shift-" else "") + (if Has(m, KBD_MOD_CTRL) then "Ctrl-" else "")
      + (if Has(m, KBD_MOD_ALT) then "Alt-" else "")
  }

  /** The one-character string in `key_buffer`, which a NUL ends early; strchr finds the NUL too. */
  function PrintedChar(key: int, escape: bool): string {
    var c := ByteOf(key);
    (if escape && (IsQuote(c) || c == '\\' || c as int == 0) then "\\" else "") + (if c as int == 0 then "" else [c])
  }

  function PrintedKey(key: int, escape: bool): string {
    match ByNum(key, 0)
    case Some(name) => name
    case None => PrintedChar(key, escape)
  }

  function Printed(kbd: Keystroke, escape: bool): string {
    if kbd.key == KBD_UNDEF then "" else PrintedModifiers(kbd.modifier) + PrintedKey(kbd.key, escape)
  }

  // ---- the table

  /** Names are told apart by their length and their first and last characters. */
  function Shape(s: string): (int, char, char)
    requires s != []
  {
    (|s|, Lower(s[0]), Lower(s[|s| - 1]))
  }

  predicate PlainName(s: string) {
    && |s| >= 2
    && Lower(s[0]) != 'c' && Lower(s[0]) != 'a' && (Lower(s[0]) == 's' ==> Lower(s[1]) != 'h')
    && forall i :: 0 <= i < |s| ==> !IsQuote(s[i]) && s[i] != '\\'
  }

  /** The entry that a shape belongs to. */
  function EntryOf(s: (int, char, char)): nat {
    match s.0
    case 2 => if s.1 == 'u' then 7 else if s.2 == '1' then 15 else if s.2 == '2' then 16 else if s.2 == '3' then 17
      else if s.2 == '4' then 18 else if s.2 == '5' then 19 else if s.2 == '6' then 20 else if s.2 == '7' then 21
      else if s.2 == '8' then 22 else 23
    case 3 =>
      if s.1 == 't' then 3 else if s.1 == 'e' then 12 else if s.2 == '0' then 24 else if s.2 == '1' then 25 else 26
    case 4 => if s.1 == 'l' then 5 else if s.1 == 'd' then 8 else 11
    case 5 => if s.1 == 'e' then 0 else if s.1 == 's' then 1 else 6
    case 6 => if s.1 == 'e' then 4 else if s.1 == 'i' then 9 else if s.1 == 'd' then 10 else 13
    case 8 => 14
    case _ => 2
  }

  function EntryWith(num: int): int {
    if num == 32 then 1 else if num == -0x100 then 0
    else if num > -0x120 then -0xff - num else 15 - num - 0x120
  }

  predicate EntryIs(i: nat) {
    && i < |KEY_TABLE| == 27
    && PlainName(KEY_TABLE[i].name) && EntryOf(Shape(KEY_TABLE[i].name)) == i
    && EntryWith(KEY_TABLE[i].num) == i && (KEY_TABLE[i].num == 32 || KEY_TABLE[i].num <= -0x100)
  }

  lemma EntriesFrom0()
    ensures EntryIs(0) && EntryIs(1)
  {
  }

  lemma EntriesFrom2()
    ensures EntryIs(2) && EntryIs(3)
  {
  }

  lemma EntriesFrom4()
    ensures EntryIs(4) && EntryIs(5)
  {
  }

  lemma EntriesFrom6()
    ensures EntryIs(6) && EntryIs(7)
  {
  }

  lemma EntriesFrom8()
    ensures EntryIs(8) && EntryIs(9)
  {
  }

  lemma EntriesFrom10()
    ensures EntryIs(10) && EntryIs(11)
  {
  }

  lemma EntriesFrom12()
    ensures EntryIs(12) && EntryIs(13) && EntryIs(14)
  {
  }

  lemma EntriesFrom15()
    ensures EntryIs(15) && EntryIs(16) && EntryIs(17) && EntryIs(18)
  {
  }

  lemma EntriesFrom19()
    ensures EntryIs(19) && EntryIs(20) && EntryIs(21) && EntryIs(22)
  {
  }

  lemma EntriesFrom23()
    ensures EntryIs(23) && EntryIs(24) && EntryIs(25) && EntryIs(26)
  {
  }

  lemma Entries()
    ensures |KEY_TABLE| == 27 && forall i :: 0 <= i < 27 ==> EntryIs(i)
  {
    hide PlainName, EntryOf, EntryWith, Shape;
    EntriesFrom0();
    EntriesFrom2();
    EntriesFrom4();
    EntriesFrom6();
    EntriesFrom8();
    EntriesFrom10();
    EntriesFrom12();
    EntriesFrom15();
    EntriesFrom19();
    EntriesFrom23();
  }

  // ---- names and numbers

  lemma ShapeOfFolded(a: string, b: string)
    requires SameFolded(a, b) && a != []
    ensures Shape(a) == Shape(b)
  {
  }

  lemma {:induction false} NameReads(i: nat, from: nat)
    requires from <= i < |KEY_TABLE|
    ensures ByName(KEY_TABLE[i].name, from) == KEY_TABLE[i].num
    decreases i - from
  {
    hide KEY_TABLE, PlainName, Shape, EntryOf, EntryWith;
    Entries();
    var name := KEY_TABLE[i].name;
    assert EntryIs(i) && EntryIs(from);
    NotEmpty(name);
    NotEmpty(KEY_TABLE[from].name);
    if SameFolded(KEY_TABLE[from].name, name) {
      ShapeOfFolded(KEY_TABLE[from].name, name);
    } else {
      NameReads(i, from + 1);
    }
  }

  lemma NotEmpty(name: string)
    requires PlainName(name)
    ensures |name| >= 2
  {
  }

  lemma {:induction false} NotAName(s: string, from: nat)
    requires |s| == 0 && from <= |KEY_TABLE|
    ensures ByName(s, from) == KBD_UNDEF
    decreases |KEY_TABLE| - from
  {
    hide KEY_TABLE;
    if from < |KEY_TABLE| {
      Entries();
      assert EntryIs(from);
      NotAName(s, from + 1);
    }
  }

  /** What the name of a key, if it has one, looks like and reads as. */
  lemma NamedKeys(key: int)
    requires IsNamed(key)
    ensures key == 32 || key <= -0x100
    ensures PlainName(ByNum(key, 0).value) && ReadKey(ByNum(key, 0).value, true) == key
    ensures ReadKey(ByNum(key, 0).value, false) == key
  {
    hide KEY_TABLE, PlainName, Shape, EntryOf, EntryWith;
    Entries();
    var i :| 0 <= i < |KEY_TABLE| && KEY_TABLE[i] == NamedKey(ByNum(key, 0).value, key);
    assert EntryIs(i);
    NotEmpty(KEY_TABLE[i].name);
    NameReads(i, 0);
  }

  /** A number of the table prints as a name. */
  lemma TableNumbers(key: int, i: nat)
    requires i < |KEY_TABLE| && KEY_TABLE[i].num == key
    ensures IsNamed(key)
  {
    hide KEY_TABLE;
  }

  // ---- modifiers

  /** Text that no modifier can be read from. */
  predicate Bare(s: string) { |s| <= 1 || PlainName(s) }

  lemma BareEnds(s: string, m: nat)
    requires Bare(s)
    ensures Modifiers(s, m) == (m, s)
  {
    PrefixStarts(s, "Shift");
    PrefixStarts(s, "Ctrl");
    PrefixStarts(s, "Alt");
  }

  lemma PrefixStarts(s: string, name: string)
    requires |name| > 1
    ensures Prefixed(s, name) ==> |s| > |name| && Lower(s[0]) == Lower(name[0]) && Lower(s[1]) == Lower(name[1])
  {
    if Prefixed(s, name) { assert s[..|name|][0] == s[0] && s[..|name|][1] == s[1]; }
  }

  lemma ShiftReads(s: string, m: nat)
    ensures Modifiers("Shift-" + s, m) == Modifiers(s, With(m, KBD_MOD_SHIFT))
  {
    var t := "Shift-" + s;
    assert t[..5] == "Shift" && t[6..] == s;
  }

  lemma CtrlReads(s: string, m: nat)
    ensures Modifiers("Ctrl-" + s, m) == Modifiers(s, With(m, KBD_MOD_CTRL))
  {
    var t := "Ctrl-" + s;
    assert t[..4] == "Ctrl" && t[5..] == s;
    PrefixStarts(t, "Shift");
  }

  lemma AltReads(s: string, m: nat)
    ensures Modifiers("Alt-" + s, m) == Modifiers(s, With(m, KBD_MOD_ALT))
  {
    var t := "Alt-" + s;
    assert t[..3] == "Alt" && t[4..] == s;
    PrefixStarts(t, "Shift");
    PrefixStarts(t, "Ctrl");
  }

  lemma ModifiersRead(m: nat, s: string)
    requires Bare(s)
    ensures Modifiers(PrintedModifiers(m) + s, 0) == (m % 8, s)
  {
    hide Bare, Modifiers;
    var alt := if Has(m, KBD_MOD_ALT) then "Alt-" + s else s;
    var ctrl := if Has(m, KBD_MOD_CTRL) then "Ctrl-" + alt else alt;
    var shift := if Has(m, KBD_MOD_SHIFT) then "Shift-" + ctrl else ctrl;
    assert PrintedModifiers(m) + s == shift;
    var m1 := if Has(m, KBD_MOD_SHIFT) then 1 else 0;
    var m2 := if Has(m, KBD_MOD_CTRL) then With(m1, 2) else m1;
    var m3 := if Has(m, KBD_MOD_ALT) then With(m2, 4) else m2;
    ShiftReads(ctrl, 0);
    CtrlReads(alt, m1);
    AltReads(s, m2);
    BareEnds(s, m3);
    assert m3 == m % 8 by { Bits(m); }
  }

  lemma Bits(m: nat)
    ensures m % 8 == 4 * (m / 4 % 2) + 2 * (m / 2 % 2) + m / 1 % 2
  {
    var a, b := m / 2, m / 2 / 2;
    assert m / 4 == b && m / 1 == m;
    assert m == 8 * (b / 2) + (4 * (b % 2) + 2 * (a % 2) + m % 2);
  }

  // ---- round trips

  /** The keys a keystroke can be read with: those with a name, and one-character ones. */
  predicate CanonicalKey(key: int, signed: bool) {
    IsNamed(key) || (key != 0 && key != KBD_UNDEF && if signed then -128 <= key <= 127 else 0 <= key <= 255)
  }

  /** The keystrokes that can be read: no pasting, and with Ctrl no lower-case ASCII letter. */
  predicate Canonical(kbd: Keystroke, signed: bool) {
    && CanonicalKey(kbd.key, signed)
    && kbd.modifier < 8
    && !(Has(kbd.modifier, KBD_MOD_CTRL) && 97 <= kbd.key <= 122)
  }

  lemma PrintedKeyReads(key: int, signed: bool)
    requires key != KBD_UNDEF
    ensures Bare(PrintedKey(key, false))
    ensures var read := ReadKey(PrintedKey(key, false), signed);
            if IsNamed(key) then read == key else if key % 256 == 0 then read == KBD_UNDEF
            else read == CharValue(ByteOf(key), signed)
  {
    hide KEY_TABLE, PlainName;
    if IsNamed(key) { NamedKeys(key); }
    else if key % 256 == 0 { NotAName("", 0); }
  }

  /** A keystroke is read back as printed exactly when it is one that can be read at all. */
  lemma PrintedParses(kbd: Keystroke, signed: bool)
    ensures Parsed(Printed(kbd, false), signed) == Some(kbd) <==> Canonical(kbd, signed)
  {
    hide KEY_TABLE, PlainName, Modifiers, ReadKey, Bare, PrintedKey, PrintedModifiers, IsNamed;
    var key := kbd.key;
    if key == KBD_UNDEF {
      Undefined(signed);
    } else {
      PrintedKeyReads(key, signed);
      ModifiersRead(kbd.modifier, PrintedKey(key, false));
      CtrlBit(kbd.modifier);
      if IsNamed(key) { NamedKeys(key); }
    }
  }

  lemma CtrlBit(m: nat)
    ensures Has(m % 8, KBD_MOD_CTRL) == Has(m, KBD_MOD_CTRL)
  {
  }

  lemma Undefined(signed: bool)
    ensures Parsed("", signed) == None && !IsNamed(KBD_UNDEF)
  {
    hide KEY_TABLE, PlainName;
    NotAName("", 0);
    BareEnds("", 0);
    if IsNamed(KBD_UNDEF) { NamedKeys(KBD_UNDEF); }
  }

  lemma {:induction false} ModifiersBounded(s: string, m: nat)
    requires m < 8 && IsText(s)
    ensures Modifiers(s, m).0 < 8 && IsText(Modifiers(s, m).1)
    decreases |s|
  {
    if Prefixed(s, "Shift") { ModifiersBounded(s[6..], With(m, KBD_MOD_SHIFT)); }
    else if Prefixed(s, "Ctrl") { ModifiersBounded(s[5..], With(m, KBD_MOD_CTRL)); }
    else if Prefixed(s, "Alt") { ModifiersBounded(s[4..], With(m, KBD_MOD_ALT)); }
  }

  /** Whatever text a keystroke is read from, it is one that can be printed and read back. */
  lemma ParsedCanonical(s: string, signed: bool)
    requires IsText(s)
    ensures match Parsed(s, signed)
            case Some(kbd) => Canonical(kbd, signed) && Parsed(Printed(kbd, false), signed) == Some(kbd)
            case None => true
  {
    hide KEY_TABLE, PlainName, Modifiers, Printed, ByNum;
    ModifiersBounded(s, 0);
    var (m, rest) := Modifiers(s, 0);
    var read := ReadKey(rest, signed);
    if Parsed(s, signed).Some? {
      if |rest| != 1 {
        var i :| 0 <= i < |KEY_TABLE| && read == KEY_TABLE[i].num;
        TableNumbers(read, i);
        NamedKeys(read);
      }
      PrintedParses(Parsed(s, signed).value, signed);
    }
  }

  // ---- keystrokes in the configuration file

  /** Escaping a keystroke for the file is quoting its plain text. */
  lemma ModifiersPlain(m: nat)
    ensures Quoted(PrintedModifiers(m)) == PrintedModifiers(m)
  {
    hide Has;
    QuotedPlain(PrintedModifiers(m));
  }

  lemma PrintedQuoted(kbd: Keystroke)
    requires IsNamed(kbd.key) || kbd.key % 256 != 0
    ensures Printed(kbd, true) == Quoted(Printed(kbd, false))
  {
    hide KEY_TABLE, PrintedModifiers, Has;
    var mods, key := PrintedModifiers(kbd.modifier), PrintedKey(kbd.key, false);
    QuotedConcat(mods, key);
    ModifiersPlain(kbd.modifier);
    if IsNamed(kbd.key) {
      NamedKeys(kbd.key);
      QuotedPlain(key);
    } else {
      assert key[1..] == [];
    }
  }

  /** Every keystroke that was read from somewhere comes back from the quoted text that saving
      writes for it, with whatever follows in the file. */
  lemma SavedKeystrokeReturns(s: string, signed: bool, r: string)
    requires IsText(s)
    ensures match Parsed(s, signed)
            case None => true
            case Some(kbd) =>
              var saved := "\"" + Printed(kbd, true) + "\"";
              var read := ReadStr(saved + r, 0);
              read.Some? && read.value.1 == |saved| && Parsed(read.value.0, signed) == Some(kbd)
  {
    hide KEY_TABLE, PlainName, Printed, Quoted, ReadStr, ByNum;
    ParsedCanonical(s, signed);
    if Parsed(s, signed).Some? {
      var kbd := Parsed(s, signed).value;
      PrintedQuoted(kbd);
      StrRoundTrip(Printed(kbd, false), 0, r);
    }
  }

  // ---- the loops

  method ReadKeyName(s: string, signed: bool) returns (key: int)
    ensures key == ReadKey(s, signed)
  {
    hide KEY_TABLE;
    if |s| == 1 { return CharValue(s[0], signed); }
    for i := 0 to |KEY_TABLE|
      invariant ByName(s, 0) == ByName(s, i)
    {
      if SameFolded(KEY_TABLE[i].name, s) { return KEY_TABLE[i].num; }
    }
    return KBD_UNDEF;
  }

  method ParseKeystroke(text: string, signed: bool) returns (r: Option<Keystroke>)
    ensures r == Parsed(text, signed)
  {
    hide KEY_TABLE, ReadKey;
    var modifier, s := 0, text;
    while true
      invariant Modifiers(text, 0) == Modifiers(s, modifier)
      decreases |s|
    {
      if Prefixed(s, "Shift") {
        modifier, s := With(modifier, KBD_MOD_SHIFT), s[6..];
      } else if Prefixed(s, "Ctrl") {
        modifier, s := With(modifier, KBD_MOD_CTRL), s[5..];
      } else if Prefixed(s, "Alt") {
        modifier, s := With(modifier, KBD_MOD_ALT), s[4..];
      } else {
        break;
      }
    }
    var key := ReadKeyName(s, signed);
    if Has(modifier, KBD_MOD_CTRL) && 0 <= key <= 0x7F { key := Upper(key); }
    return if key == KBD_UNDEF then None else Some(Keystroke(key, modifier));
  }

  /** The modifiers. */
  method AddModifiersToString(str: string, modifier: nat) returns (r: string)
    ensures r == str + PrintedModifiers(modifier)
  {
    hide Has;
    r := str;
    if Has(modifier, KBD_MOD_SHIFT) { r := r + "Shift-"; }
    if Has(modifier, KBD_MOD_CTRL) { r := r + "Ctrl-"; }
    if Has(modifier, KBD_MOD_ALT) { r := r + "Alt-"; }
  }

  /** add_keystroke_to_string. */
  method AddKeystrokeToString(str: string, kbd: Keystroke, escape: bool) returns (r: string)
    ensures r == str + Printed(kbd, escape)
  {
    hide KEY_TABLE, PrintedChar, PrintedModifiers;
    if kbd.key == KBD_UNDEF { return str; }
    r := AddModifiersToString(str, kbd.modifier);
    for i := 0 to |KEY_TABLE|
      invariant ByNum(kbd.key, 0) == ByNum(kbd.key, i)
    {
      if KEY_TABLE[i].num == kbd.key { return r + KEY_TABLE[i].name; }
    }
    return r + PrintedChar(kbd.key, escape);
  }
}
