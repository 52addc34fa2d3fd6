/** Option values as text: the readers and writers of src/config/opttypes.c, and the helpers of
    src/util/conv.c they call.  A text stands for a NUL-terminated buffer: its end is the NUL. */
module OptionText {

  import opened Basics

  predicate IsQuote(c: char) { c == '"' || c == '\'' }

  predicate IsSpace(c: char) { c == '\t' || c == '\n' || c == '\U{000B}' || c == '\U{000C}' || c == '\r' || c == ' ' }

  predicate IsDigit(c: char) { '0' <= c <= '9' }

  // ---- quoted strings

  /** A quoted string read from just after its opening quote: the value, how many characters and
      line ends were passed, and whether a closing quote was found. */
  datatype Body = Body(value: string, used: nat, lines: nat, closed: bool) {
    function Prepend(v: string, n: nat, l: nat): Body { Body(v + value, n + used, l + lines, closed) }
  }

  function Newline(c: char): nat { if c == '\n' then 1 else 0 }

  /** str_rd (src/config/opttypes.c:284-339). */
  function StrBody(t: string): (b: Body)
    ensures b.used <= |t|
    ensures b.closed ==> 0 < b.used
    ensures !b.closed ==> b.used == |t|
  {
    if t == [] then Body("", 0, 0, false)
    else if IsQuote(t[0]) then Body("", 1, 0, true)
    else if t[0] == '\\' && |t| > 1 && t[1] == '\n' then StrBody(t[2..]).Prepend(" ", 2, 1)
    else if t[0] == '\\' && |t| > 1 && (IsQuote(t[1]) || t[1] == '\\') then StrBody(t[2..]).Prepend([t[1]], 2, 0)
    else StrBody(t[1..]).Prepend([t[0]], 1, Newline(t[0]))
  }

  /** skip_quoted (src/config/conf.c:138-161), from just after the opening quote. */
  function SkipBody(t: string): (r: (nat, nat))
    ensures r.0 <= |t|
  {
    if t == [] then (0, 0)
    else if IsQuote(t[0]) then (1, 0)
    else if t[0] == '\\' && |t| > 1 then
      var (used, lines) := SkipBody(t[2..]);
      (2 + used, Newline(t[1]) + lines)
    else
      var (used, lines) := SkipBody(t[1..]);
      (1 + used, Newline(t[0]) + lines)
  }

  /** Skipping a string ends where reading it ends, after as many lines, closed or not. */
  lemma {:induction false} SkipAgrees(t: string)
    ensures SkipBody(t) == (StrBody(t).used, StrBody(t).lines)
  {
    hide StrBody, SkipBody;
    if t == [] || IsQuote(t[0]) {
      StrBodyEnd(t);
      SkipBodyEnd(t);
    } else {
      SkipBodyStep(t);
      if t[0] == '\\' && |t| > 1 {
        SkipAgrees(t[2..]);
        if StepSize(t) == 2 { StrBodyStep(t); } else { OrdinaryAfterBackslash(t); }
      } else {
        SkipAgrees(t[1..]);
        StrBodyStep(t);
      }
    }
  }

  lemma OrdinaryAfterBackslash(t: string)
    requires |t| > 1 && t[0] == '\\' && t[1] != '\n' && !IsQuote(t[1]) && t[1] != '\\'
    ensures StrBody(t) == StrBody(t[2..]).Prepend([t[0], t[1]], 2, 0)
  {
    var rest := t[1..];
    assert rest[0] == t[1] && rest[1..] == t[2..];
    assert StrBody(rest) == StrBody(t[2..]).Prepend([t[1]], 1, 0);
    assert [t[0]] + ([t[1]] + StrBody(t[2..]).value) == [t[0], t[1]] + StrBody(t[2..]).value;
  }

  /** add_quoted_to_string (src/util/conv.c:356-368). */
  function Quoted(s: string): string {
    if s == [] then ""
    else (if IsQuote(s[0]) || s[0] == '\\' then ['\\', s[0]] else [s[0]]) + Quoted(s[1..])
  }

  function Newlines(s: string): nat {
    if s == [] then 0 else Newline(s[0]) + Newlines(s[1..])
  }

  /** add_optstring_to_string (src/config/opttypes.c:199-206). */
  function OptString(s: string): string { "\"" + Quoted(s) + "\"" }

  lemma {:induction false} QuotedBody(s: string, r: string)
    ensures StrBody(Quoted(s) + "\"" + r) == Body(s, |Quoted(s)| + 1, Newlines(s), true)
  {
    hide Quoted, StrBody;
    var t := Quoted(s) + "\"" + r;
    if s == [] {
      QuotedEmpty();
      assert t == "\"" + r;
      ClosesBody(t);
    } else {
      QuotedBody(s[1..], r);
      QuotedFirst(s);
      var rest := Quoted(s[1..]) + "\"" + r;
      assert t == QuotedChar(s[0]) + rest;
      CharBody(s[0], rest);
      assert s == [s[0]] + s[1..];
    }
  }

  lemma ClosesBody(t: string)
    requires t != "" && IsQuote(t[0])
    ensures StrBody(t) == Body("", 1, 0, true)
  {
  }

  /** A character read as it was written. */
  lemma CharBody(c: char, rest: string)
    requires rest != ""
    ensures StrBody(QuotedChar(c) + rest) == StrBody(rest).Prepend([c], |QuotedChar(c)|, Newline(c))
  {
    var t := QuotedChar(c) + rest;
    if IsQuote(c) || c == '\\' { assert t[2..] == rest; } else { assert t[1..] == rest; }
  }

  lemma {:induction false} QuotedConcat(a: string, b: string)
    ensures Quoted(a + b) == Quoted(a) + Quoted(b)
  {
    hide Quoted, QuotedChar;
    if a == [] {
      assert a + b == b && Quoted("") == "" by { QuotedEmpty(); }
    } else {
      QuotedConcat(a[1..], b);
      QuotedFirst(a);
      assert (a + b)[1..] == a[1..] + b;
      QuotedFirst(a + b);
    }
  }

  lemma QuotedEmpty()
    ensures Quoted("") == ""
  {
  }

  function QuotedChar(c: char): string { if IsQuote(c) || c == '\\' then ['\\', c] else [c] }

  lemma QuotedFirst(s: string)
    requires s != []
    ensures Quoted(s) == QuotedChar(s[0]) + Quoted(s[1..])
  {
  }

  lemma {:induction false} QuotedPlain(s: string)
    requires forall i :: 0 <= i < |s| ==> !IsQuote(s[i]) && s[i] != '\\'
    ensures Quoted(s) == s
  {
    if s != [] {
      QuotedPlain(s[1..]);
      assert s == [s[0]] + s[1..];
    }
  }

  /** Reading a string value: nothing if the text does not start with a quote, if the closing quote
      is missing, or if the value reaches the limit `max` of the option (0 for no limit). */
  function ReadStr(t: string, max: nat): (r: Option<(string, nat)>)
    ensures r.Some? ==> r.value.1 <= |t|
  {
    if t == [] || !IsQuote(t[0]) then None
    else
      var b := StrBody(t[1..]);
      if !b.closed || (max != 0 && |b.value| >= max) then None else Some((b.value, 1 + b.used))
  }

  /** Whatever string is written, with whatever after it, reading gives it back and stops right
      after it. */
  lemma StrRoundTrip(s: string, max: nat, r: string)
    requires max == 0 || |s| < max
    ensures ReadStr(OptString(s) + r, max) == Some((s, |OptString(s)|))
  {
    QuotedBody(s, r);
    var t := OptString(s) + r;
    assert t[1..] == Quoted(s) + "\"" + r;
  }

  // ---- numbers

  const INT_MAX: int := 2147483647
  const LONG_MAX: int := 9223372036854775807
  const LONG_MIN: int := -9223372036854775808
  const KIBI: int := 1024
  const MEBI: int := 1048576

  function Digit(n: nat): char
    requires n < 10
  {
    '0' + n as char
  }

  function PrintNat(n: nat): (s: string)
    ensures 0 < |s| && forall i :: 0 <= i < |s| ==> IsDigit(s[i])
  {
    (if n < 10 then "" else PrintNat(n / 10)) + [Digit(n % 10)]
  }

  function Decimal(s: string): nat
    requires forall i :: 0 <= i < |s| ==> IsDigit(s[i])
  {
    if s == [] then 0 else assert IsDigit(s[|s| - 1]); 10 * Decimal(s[..|s| - 1]) + (s[|s| - 1] as int - '0' as int)
  }

  lemma {:induction false} DecimalPrint(n: nat)
    ensures Decimal(PrintNat(n)) == n
  {
    var s := PrintNat(n);
    if n < 10 {
      assert s[..|s| - 1] == "";
    } else {
      DecimalPrint(n / 10);
      assert s[..|s| - 1] == PrintNat(n / 10);
    }
  }

  function PrintInt(n: int): string { if n < 0 then "-" + PrintNat(-n) else PrintNat(n) }

  /** add_knum_to_string (src/util/conv.c:149-174). */
  function WriteNum(n: int): string {
    if n != 0 && n % MEBI == 0 then PrintInt(n / MEBI) + "M"
    else if n != 0 && n % KIBI == 0 then PrintInt(n / KIBI) + "k"
    else PrintInt(n)
  }

  function Digits(t: string): (d: nat)
    ensures d <= |t| && forall i :: 0 <= i < d ==> IsDigit(t[i])
    ensures d < |t| ==> !IsDigit(t[d])
  {
    if t == [] || !IsDigit(t[0]) then 0 else 1 + Digits(t[1..])
  }

  function Spaces(t: string): (n: nat)
    ensures n <= |t|
  {
    if t == [] || !IsSpace(t[0]) then 0 else 1 + Spaces(t[1..])
  }

  /** Where the digits of a number start. */
  function SignEnd(t: string): (s: nat)
    ensures s <= |t|
  {
    var w := Spaces(t);
    if w < |t| && (t[w] == '-' || t[w] == '+') then w + 1 else w
  }

  predicate IsNegative(t: string) { Spaces(t) < |t| && t[Spaces(t)] == '-' }

  function Signed(negative: bool, m: nat): int { if negative then -(m as int) else m }

  /** A number, or 0 out of the range of long, where it ends, and whether it is in range. */
  function InRange(n: int, end: nat): (int, nat, bool) {
    if LONG_MIN <= n <= LONG_MAX then (n, end, true) else (0, end, false)
  }

  /** strtol in base 10: the number and where it ends; no digits at all read as 0 at the start.
      Out of range, the flag is false. */
  function Strtol(t: string): (r: (int, nat, bool))
    ensures r.1 <= |t|
  {
    var s := SignEnd(t);
    var d := Digits(t[s..]);
    if d == 0 then (0, 0, true) else InRange(Signed(IsNegative(t), Decimal(t[s..][..d])), s + d)
  }

  function Scaled(n: int, unit: int): int
    requires unit > 0
  {
    if n < -(INT_MAX / unit) then -INT_MAX else if n > INT_MAX / unit then INT_MAX else n * unit
  }

  /** strtolx (src/util/conv.c:408-437). */
  function Strtolx(t: string): (r: (int, nat))
    ensures r.1 <= |t|
  {
    var (n, end, ok) := Strtol(t);
    if !ok || end == |t| then (n, end)
    else if t[end] == 'k' || t[end] == 'K' then (Scaled(n, KIBI), end + 1)
    else if t[end] == 'm' || t[end] == 'M' then (Scaled(n, MEBI), end + 1)
    else (n, end)
  }

  /** Nothing, white space or a comment follows. */
  predicate EndsToken(t: string) { t == [] || IsSpace(t[0]) || t[0] == '#' }

  /** num_rd (src/config/opttypes.c:210-234). */
  function ReadNum(t: string, min: int, max: int): Option<(int, nat)> {
    var (n, end) := Strtolx(t);
    if EndsToken(t[end..]) && min <= n <= max then Some((n, end)) else None
  }

  /** The numbers whose printed form is read back: a multiple of 1024 or 1048576 is printed with
      a unit, and the reader clips numbers with a unit to the range of int. */
  predicate ReadsBack(n: int) {
    if n % MEBI == 0 then -(INT_MAX / MEBI) <= n / MEBI <= INT_MAX / MEBI
    else if n % KIBI == 0 then -(INT_MAX / KIBI) <= n / KIBI <= INT_MAX / KIBI
    else true
  }

  lemma {:induction false} DigitsOfPrefix(s: string, r: string)
    requires forall i :: 0 <= i < |s| ==> IsDigit(s[i])
    requires r == [] || !IsDigit(r[0])
    ensures Digits(s + r) == |s|
  {
    if s == [] {
      assert s + r == r;
    } else {
      assert (s + r)[1..] == s[1..] + r;
      DigitsOfPrefix(s[1..], r);
    }
  }

  lemma StrtolOfPrinted(n: int, r: string)
    requires LONG_MIN <= n <= LONG_MAX && (r == [] || !IsDigit(r[0]))
    ensures Strtol(PrintInt(n) + r) == (n, |PrintInt(n)|, true)
  {
    hide PrintNat, Decimal, Digits;
    var m: nat := if n < 0 then -n else n;
    var t := PrintInt(n) + r;
    var s := if n < 0 then 1 else 0;
    assert t[s..] == PrintNat(m) + r;
    DigitsOfPrefix(PrintNat(m), r);
    assert t[s..][..|PrintNat(m)|] == PrintNat(m);
    DecimalPrint(m);
    assert !IsSpace(t[0]) && (n >= 0 ==> IsDigit(t[0]));
    assert Spaces(t) == 0;
  }

  /** What reading a printed number gives: the number itself, or the nearest end of the int range
      when a unit makes the reader clip it. */
  lemma StrtolxOfWritten(n: int, r: string)
    requires LONG_MIN <= n <= LONG_MAX && EndsToken(r)
    ensures Strtolx(WriteNum(n) + r)
            == (if ReadsBack(n) then n else if n < 0 then -INT_MAX else INT_MAX, |WriteNum(n)|)
  {
    hide Strtol, PrintInt;
    if n != 0 && n % MEBI == 0 {
      Unscaled(n, MEBI);
      WithUnit(n / MEBI, "M", r);
    } else if n != 0 && n % KIBI == 0 {
      Unscaled(n, KIBI);
      WithUnit(n / KIBI, "k", r);
    } else {
      StrtolOfPrinted(n, r);
      assert (PrintInt(n) + r)[|PrintInt(n)|..] == r;
    }
  }

  lemma Unscaled(n: int, unit: int)
    requires 0 < unit && n % unit == 0
    ensures n / unit * unit == n && (LONG_MIN <= n <= LONG_MAX ==> LONG_MIN <= n / unit <= LONG_MAX)
  {
  }

  lemma WithUnit(q: int, unit: string, r: string)
    requires LONG_MIN <= q <= LONG_MAX && (unit == "M" || unit == "k")
    ensures Strtolx(PrintInt(q) + unit + r) == (Scaled(q, if unit == "M" then MEBI else KIBI), |PrintInt(q)| + 1)
  {
    hide Strtol, PrintInt;
    StrtolOfPrinted(q, unit + r);
    assert PrintInt(q) + unit + r == PrintInt(q) + (unit + r);
  }

  function Clipped(n: int): int { if n < -INT_MAX then -INT_MAX else if n > INT_MAX then INT_MAX else n }

  /** With a unit, in either case, the number is multiplied, and clipped to the range of int. */
  lemma ScaledClips(n: int, unit: int)
    requires unit == KIBI || unit == MEBI
    ensures Scaled(n, unit) == Clipped(n * unit)
  {
  }

  /** What reading a number gives, with white space, a sign and zeros before it, and a unit behind it: a
      number out of range reads as 0, and its unit is left. */
  lemma StrtolxReads(space: string, sign: string, zeros: string, m: nat, r: string)
    requires (forall i :: 0 <= i < |space| ==> IsSpace(space[i])) && (sign == "" || sign == "+" || sign == "-")
    requires (forall i :: 0 <= i < |zeros| ==> zeros[i] == '0') && (r == "" || !IsDigit(r[0]))
    ensures var number := space + sign + (zeros + PrintNat(m));
            var n: int := if sign == "-" then -(m as int) else m;
            Strtolx(number + r)
            == if !(LONG_MIN <= n <= LONG_MAX) then (0, |number|)
               else if r != "" && (r[0] == 'k' || r[0] == 'K') then (Clipped(n * 1024), |number| + 1)
               else if r != "" && (r[0] == 'm' || r[0] == 'M') then (Clipped(n * 1048576), |number| + 1)
               else (n, |number|)
  {
    hide PrintNat, Strtol, Scaled, Decimal;
    var digits := zeros + PrintNat(m);
    forall i | 0 <= i < |digits| ensures IsDigit(digits[i]) {}
    DecimalPrint(m);
    ZerosAdd(zeros, PrintNat(m));
    StrtolReads(space, sign, digits, r);
    assert space + sign + digits + r == space + (sign + (digits + r));
    UnitReads(space + sign + digits, r, Signed(sign == "-", m));
  }

  /** The unit behind a number that has been read. */
  lemma UnitReads(number: string, r: string, n: int)
    requires Strtol(number + r) == InRange(n, |number|)
    ensures Strtolx(number + r)
            == if !(LONG_MIN <= n <= LONG_MAX) then (0, |number|)
               else if r != "" && (r[0] == 'k' || r[0] == 'K') then (Clipped(n * 1024), |number| + 1)
               else if r != "" && (r[0] == 'm' || r[0] == 'M') then (Clipped(n * 1048576), |number| + 1)
               else (n, |number|)
  {
    hide Strtol, Scaled, Clipped;
    ScaledClips(n, KIBI);
    ScaledClips(n, MEBI);
  }

  /** Where no digit follows the white space and the sign, 0 is read, and a unit only at the start. */
  lemma StrtolxOfNone(space: string, sign: string, r: string)
    requires (forall i :: 0 <= i < |space| ==> IsSpace(space[i])) && (sign == "" || sign == "+" || sign == "-")
    requires r == "" || !(IsDigit(r[0]) || (sign == "" && (IsSpace(r[0]) || r[0] == '+' || r[0] == '-')))
    ensures var t := space + (sign + r);
            Strtolx(t) == (0, if t != "" && (t[0] == 'k' || t[0] == 'K' || t[0] == 'm' || t[0] == 'M') then 1 else 0)
  {
    hide Spaces, Decimal;
    var t := space + (sign + r);
    assert sign != "" ==> (sign + r)[0] == sign[0];
    SpacesOfPrefix(space, sign + r);
    assert SignEnd(t) == |space| + |sign|;
    assert t[|space| + |sign|..] == r;
  }

  lemma {:induction false} ZerosAdd(zeros: string, s: string)
    requires (forall i :: 0 <= i < |zeros| ==> zeros[i] == '0') && (forall i :: 0 <= i < |s| ==> IsDigit(s[i]))
    ensures (forall i :: 0 <= i < |zeros + s| ==> IsDigit((zeros + s)[i])) && Decimal(zeros + s) == Decimal(s)
    decreases |zeros| + |s|
  {
    var t := zeros + s;
    forall i | 0 <= i < |t| ensures IsDigit(t[i]) {}
    if s != "" {
      assert t[..|t| - 1] == zeros + s[..|s| - 1];
      ZerosAdd(zeros, s[..|s| - 1]);
    } else if zeros != "" {
      assert t == zeros && zeros[..|zeros| - 1] + "" == t[..|t| - 1];
      ZerosAdd(zeros[..|zeros| - 1], "");
    }
  }

  lemma StrtolReads(space: string, sign: string, digits: string, r: string)
    requires (forall i :: 0 <= i < |space| ==> IsSpace(space[i])) && (sign == "" || sign == "+" || sign == "-")
    requires digits != "" && (forall i :: 0 <= i < |digits| ==> IsDigit(digits[i])) && (r == "" || !IsDigit(r[0]))
    ensures Strtol(space + (sign + (digits + r)))
            == InRange(Signed(sign == "-", Decimal(digits)), |space| + |sign| + |digits|)
  {
    hide Decimal, Digits, Spaces, Strtol, SignEnd, IsNegative, IsDigit, IsSpace, InRange, Signed;
    StrtolParts(space, sign, digits, r);
    DigitsOfPrefix(digits, r);
    Behind(space, sign, digits + r);
    StrtolIs(space + (sign + (digits + r)), |space| + |sign|, digits, r);
  }

  lemma Behind(a: string, b: string, c: string)
    ensures (a + (b + c))[|a| + |b|..] == c
  {
  }

  /** strtol, told by its digits. */
  lemma StrtolIs(t: string, k: nat, digits: string, r: string)
    requires SignEnd(t) == k && t[k..] == digits + r && digits != "" && Digits(digits + r) == |digits|
    requires forall i :: 0 <= i < |digits| ==> IsDigit(digits[i])
    ensures Strtol(t) == InRange(Signed(IsNegative(t), Decimal(digits)), k + |digits|)
  {
    hide Decimal, Digits, SignEnd, IsNegative, IsDigit;
    assert (digits + r)[..|digits|] == digits;
  }

  /** Where white space and the sign end. */
  lemma StrtolParts(space: string, sign: string, digits: string, r: string)
    requires (forall i :: 0 <= i < |space| ==> IsSpace(space[i])) && (sign == "" || sign == "+" || sign == "-")
    requires digits != "" && IsDigit(digits[0])
    ensures var t := space + (sign + (digits + r));
            SignEnd(t) == |space| + |sign| && (IsNegative(t) <==> sign == "-")
  {
    hide Spaces;
    var u := sign + (digits + r);
    assert u[0] == if sign == "" then digits[0] else sign[0];
    SpacesOfPrefix(space, u);
    assert (space + u)[|space|] == u[0];
  }

  lemma {:induction false} SpacesOfPrefix(s: string, r: string)
    requires (forall i :: 0 <= i < |s| ==> IsSpace(s[i])) && (r == "" || !IsSpace(r[0]))
    ensures Spaces(s + r) == |s|
  {
    if s == [] {
      assert s + r == r;
    } else {
      assert (s + r)[1..] == s[1..] + r;
      SpacesOfPrefix(s[1..], r);
    }
  }

  /** A number within the bounds of its option is read back from what was written, and the reader
      stops right after it, exactly when it is not clipped. */
  lemma NumRoundTrip(n: int, min: int, max: int, r: string)
    requires LONG_MIN <= min <= n <= max <= LONG_MAX && EndsToken(r)
    ensures ReadNum(WriteNum(n) + r, min, max) == Some((n, |WriteNum(n)|)) <==> ReadsBack(n)
  {
    StrtolxOfWritten(n, r);
    assert (WriteNum(n) + r)[|WriteNum(n)|..] == r;
  }

  /** For the memory cache size, whose bounds are 0 and LONG_MAX, four gibibytes are written as
      "4096M" and read back as INT_MAX. */
  lemma LargeSizeClipped()
    ensures WriteNum(4294967296) == PrintInt(4096) + "M"
    ensures ReadNum(WriteNum(4294967296), 0, LONG_MAX) == Some((INT_MAX, |WriteNum(4294967296)|))
  {
    StrtolxOfWritten(4294967296, "");
    assert WriteNum(4294967296) + "" == WriteNum(4294967296);
  }

  // ---- values of options

  datatype Kind = Num(min: int, max: int) | Str(limit: nat)

  datatype Value = N(n: int) | S(s: string)

  /** The bounds of an option can be met and are those of a long. */
  predicate GoodKind(k: Kind) {
    match k
    case Num(min, max) => LONG_MIN <= min <= max <= LONG_MAX
    case Str(limit) => 0 < limit
  }

  predicate Fits(k: Kind, v: Value) {
    match k
    case Num(min, max) => v.N? && min <= v.n <= max
    case Str(limit) => v.S? && |v.s| < limit
  }

  function Read(k: Kind, t: string): (r: Option<(Value, nat)>)
    ensures r.Some? ==> (Fits(k, r.value.0) || k == Str(0)) && r.value.1 <= |t|
  {
    match k
    case Num(min, max) => (match ReadNum(t, min, max) case None => None case Some(p) => Some((N(p.0), p.1)))
    case Str(limit) => (match ReadStr(t, limit) case None => None case Some(p) => Some((S(p.0), p.1)))
  }

  /** num_wr, long_wr and str_wr; the latter cuts what exceeds the limit of the option. */
  function Write(k: Kind, v: Value): string {
    match v
    case N(n) => WriteNum(n)
    case S(s) => OptString(if k.Str? && k.limit > 0 && |s| > k.limit - 1 then s[..k.limit - 1] else s)
  }

  predicate Faithful(v: Value) { v.N? ==> ReadsBack(v.n) }

  /** What may follow a written value so that the reader still takes the whole of it. */
  predicate MayFollow(v: Value, r: string) { v.N? ==> EndsToken(r) }

  /** The writer and the reader of an option agree exactly on the faithful values. */
  lemma ValueRoundTrip(k: Kind, v: Value, r: string)
    requires GoodKind(k) && Fits(k, v) && MayFollow(v, r)
    ensures Read(k, Write(k, v) + r) == Some((v, |Write(k, v)|)) <==> Faithful(v)
  {
    match k
    case Num(min, max) => NumRoundTrip(v.n, min, max, r);
    case Str(limit) => StrRoundTrip(v.s, limit, r);
  }

  /** A string beyond the limit of its option comes back as its longest part that keeps it. */
  lemma LongStringCut(limit: nat, s: string, r: string)
    requires 0 < limit <= |s|
    ensures var w := Write(Str(limit), S(s));
            Read(Str(limit), w + r) == Some((S(s[..limit - 1]), |w|))
  {
    StrRoundTrip(s[..limit - 1], limit, r);
  }

  // ---- the scanners as they run

  /** The size of the first step through a string: two characters for an escape. */
  function StepSize(t: string): (n: nat)
    requires t != []
    ensures 1 <= n <= |t|
  {
    if t[0] == '\\' && |t| > 1 && (t[1] == '\n' || IsQuote(t[1]) || t[1] == '\\') then 2 else 1
  }

  predicate Continues(t: string)
    requires t != []
  {
    StepSize(t) == 2 && t[1] == '\n'
  }

  function StepChar(t: string): char
    requires t != []
  {
    if StepSize(t) == 1 then t[0] else if t[1] == '\n' then ' ' else t[1]
  }

  function StepLines(t: string): nat
    requires t != []
  {
    if StepSize(t) == 1 then Newline(t[0]) else if t[1] == '\n' then 1 else 0
  }

  /** One round of the loop in str_rd. */
  method StrRdStep(buf: array<char>, at: nat) returns (c: char, next: nat, lines: nat)
    requires at < buf.Length && !IsQuote(buf[at])
    modifies buf
    ensures var t := old(buf[at..]);
      && next == at + StepSize(t) && c == StepChar(t) && lines == StepLines(t)
      && buf[..at] == old(buf[..at]) && buf[next..] == t[StepSize(t)..]
      && buf[at..next] == (if Continues(t) then "\\ " else t[..StepSize(t)])
  {
    lines := 0;
    next := at;
    if buf[at] == '\\' && at + 1 < buf.Length {
      if buf[at + 1] == '\n' {
        buf[at + 1] := ' ';
        next := at + 1;
        lines := 1;
      } else if IsQuote(buf[at + 1]) || buf[at + 1] == '\\' {
        next := at + 1;
      }
    }
    if buf[next] == '\n' { lines := lines + 1; }
    c := buf[next];
    next := next + 1;
  }

  /** str_rd on a buffer, starting at `look`.  The newline of a backslash-newline pair is
      overwritten with a space as it is passed. */
  method StrRd(buf: array<char>, look: nat, line: nat, max: nat) returns (r: Option<string>, end: nat, endLine: nat)
    requires look <= buf.Length
    modifies buf
    ensures look == buf.Length || !IsQuote(old(buf[look])) ==>
            r == None && end == look && endLine == line && buf[..] == old(buf[..])
    ensures look < buf.Length && IsQuote(old(buf[look])) ==>
      var b := StrBody(old(buf[look + 1..]));
      && end == look + 1 + b.used && endLine == line + b.lines
      && r == (if !b.closed || (max != 0 && |b.value| >= max) then None else Some(b.value))
      && buf[..] == old(buf[..look + 1]) + Blanked(old(buf[look + 1..]))
  {
    hide StepChar, StepLines, Continues, StrBody, Blanked, StepSize, Reading;
    if look == buf.Length || !IsQuote(buf[look]) {
      return None, look, line;
    }
    ghost var text, head := buf[look + 1..], buf[..look + 1];
    end, endLine := look + 1, line;
    var value := "";
    ReadingFirst(head, text);
    while end < buf.Length && !IsQuote(buf[end])
      invariant look + 1 <= end <= buf.Length && line <= endLine
      invariant Reading(head, text, value, end - look - 1, endLine - line, buf[..end], buf[end..])
    {
      ReadingStep(head, text, value, end - look - 1, endLine - line, buf[..end], buf[end..]);
      var c, next, lines := StrRdStep(buf, end);
      assert buf[..next] == buf[..end] + buf[end..next];
      value, end, endLine := value + [c], next, endLine + lines;
    }
    ReadingEnd(head, text, value, end - look - 1, endLine - line, buf[..end], buf[end..]);
    assert buf[..] == buf[..end] + buf[end..];
    assert old(buf[..look + 1]) == head;
    if end == buf.Length {
      return None, end, endLine;
    }
    end := end + 1;
    r := if max != 0 && |value| >= max then None else Some(value);
  }

  /** The state of reading the string at the start of `text`: `value` has been read from `n` characters
      with `l` line ends, the buffer is `done` up to here, and `rest` is still to be read. */
  ghost predicate Reading(head: string, text: string, value: string, n: nat, l: nat, done: string, rest: string) {
    head + Blanked(text) == done + Blanked(rest) && StrBody(text) == StrBody(rest).Prepend(value, n, l)
  }

  lemma ReadingFirst(head: string, text: string)
    ensures Reading(head, text, "", 0, 0, head, text)
  {
    hide StrBody, Blanked;
    assert "" + StrBody(text).value == StrBody(text).value;
  }

  lemma ReadingStep(head: string, text: string, value: string, n: nat, l: nat, done: string, t: string)
    requires t != "" && !IsQuote(t[0]) && Reading(head, text, value, n, l, done, t)
    ensures Reading(head, text, value + [StepChar(t)], n + StepSize(t), l + StepLines(t),
                    done + (if Continues(t) then "\\ " else t[..StepSize(t)]), t[StepSize(t)..])
  {
    hide StepChar, StepLines, Continues, StrBody, Blanked, StepSize;
    var passed, rest := if Continues(t) then "\\ " else t[..StepSize(t)], t[StepSize(t)..];
    StrBodyStep(t);
    PrependTwice(StrBody(rest), StepChar(t), StepSize(t), StepLines(t), value, n, l);
    assert done + (passed + Blanked(rest)) == done + passed + Blanked(rest);
  }

  lemma ReadingEnd(head: string, text: string, value: string, n: nat, l: nat, done: string, t: string)
    requires (t == "" || IsQuote(t[0])) && Reading(head, text, value, n, l, done, t)
    ensures head + Blanked(text) == done + t
    ensures StrBody(text) == if t == "" then Body(value, n, l, false) else Body(value, n + 1, l, true)
  {
    hide StrBody, Blanked;
    StrBodyEnd(t);
    assert value + "" == value;
  }

  /** The text after a string has been read from it. */
  function Blanked(t: string): (r: string)
    ensures |r| == |t|
  {
    if t == [] || IsQuote(t[0]) then t
    else if t[0] == '\\' && |t| > 1 && t[1] == '\n' then "\\ " + Blanked(t[2..])
    else if t[0] == '\\' && |t| > 1 && (IsQuote(t[1]) || t[1] == '\\') then t[..2] + Blanked(t[2..])
    else t[..1] + Blanked(t[1..])
  }

  /** A text after the string at its start has been read, if one starts there. */
  function ReadOver(t: string): (r: string)
    ensures |r| == |t|
  {
    if t != "" && IsQuote(t[0]) then t[..1] + Blanked(t[1..]) else t
  }

  lemma StrBodyStep(t: string)
    requires t != [] && !IsQuote(t[0])
    ensures StrBody(t) == StrBody(t[StepSize(t)..]).Prepend([StepChar(t)], StepSize(t), StepLines(t))
    ensures Blanked(t) == (if Continues(t) then "\\ " else t[..StepSize(t)]) + Blanked(t[StepSize(t)..])
  {
  }

  lemma StrBodyEnd(t: string)
    requires t == [] || IsQuote(t[0])
    ensures StrBody(t) == (if t == [] then Body("", 0, 0, false) else Body("", 1, 0, true)) && Blanked(t) == t
  {
  }

  lemma PrependTwice(b: Body, c: char, n: nat, l: nat, value: string, k: nat, m: nat)
    ensures b.Prepend([c], n, l).Prepend(value, k, m) == b.Prepend(value + [c], k + n, m + l)
  {
    assert value + ([c] + b.value) == (value + [c]) + b.value;
  }

  /** Reading the string passes a line end behind a backslash. */
  predicate Continued(t: string)
    decreases |t|
  {
    t != "" && !IsQuote(t[0]) && (Continues(t) || Continued(t[StepSize(t)..]))
  }

  /** A string read a second time, from the buffer the first reading left, ends at the same place; it
      is the same string exactly if it was not continued over a line end, and else a longer one: what
      was read as a space is now a backslash and a space. */
  lemma {:induction false} ContinuationNotKept(t: string)
    ensures var b, again := StrBody(t), StrBody(Blanked(t));
            && again.used == b.used && again.closed == b.closed
            && |again.value| >= |b.value|
            && (if Continued(t) then |again.value| > |b.value| else Blanked(t) == t)
    decreases |t|
  {
    hide StrBody, Blanked;
    if t == "" || IsQuote(t[0]) {
      StrBodyEnd(t);
    } else {
      var n := StepSize(t);
      ContinuationNotKept(t[n..]);
      StrBodyStep(t);
      var r := Blanked(t);
      assert t == t[..n] + t[n..];
      if Continues(t) {
        ContinuedOnce(Blanked(t[n..]));
      } else {
        assert r[n..] == Blanked(t[n..]);
        BlankedFirst(t[n..]);
        BlankedFirst(t);
        StrBodyStep(r);
      }
    }
  }

  lemma BlankedFirst(t: string)
    ensures t != "" ==> Blanked(t)[0] == t[0]
  {
  }

  lemma ContinuedOnce(t: string)
    ensures StrBody("\\ " + t) == StrBody(t).Prepend("\\ ", 2, 0)
  {
    var u := "\\ " + t;
    assert u[1..][0] == ' ' && u[1..][1..] == t;
    assert StrBody(u) == StrBody(u[1..]).Prepend("\\", 1, 0);
    assert "\\" + (" " + StrBody(t).value) == "\\ " + StrBody(t).value;
  }

  /** The string at the start of a text is continued over a line end. */
  predicate StartsContinued(t: string) { t != "" && IsQuote(t[0]) && Continued(t[1..]) }

  lemma ReadOverSame(t: string)
    ensures ReadOver(t) == t <==> !StartsContinued(t)
  {
    hide Blanked, StrBody;
    if t != "" && IsQuote(t[0]) {
      ContinuationNotKept(t[1..]);
      assert ReadOver(t)[1..] == Blanked(t[1..]);
    }
  }

  /** Only the string itself is blanked. */
  lemma {:induction false} BlankedPart(t: string, z: string)
    requires StrBody(t).closed
    ensures var n := StrBody(t).used;
            Blanked(t[..n] + z) == Blanked(t)[..n] + z && Blanked(t)[n..] == t[n..]
    decreases |t|
  {
    hide StrBody, Blanked, StepChar, StepLines;
    var n := StrBody(t).used;
    var y := t[..n] + z;
    if t == "" || IsQuote(t[0]) {
      StrBodyEnd(t);
      StrBodyEnd(y);
    } else {
      var k := StepSize(t);
      StrBodyStep(t);
      BlankedPart(t[k..], z);
      var m := StrBody(t[k..]).used;
      assert n == k + m && 0 < m;
      assert y[k..] == t[k..][..m] + z && y[0] == t[0] && y[1] == t[1] && y[..k] == t[..k];
      StrBodyStep(y);
      var head := if Continues(t) then "\\ " else t[..k];
      assert Blanked(t)[..n] == head + Blanked(t[k..])[..m];
      assert Blanked(t)[n..] == Blanked(t[k..])[m..] && t[k..][m..] == t[n..];
      assert Blanked(y) == head + (Blanked(t[k..])[..m] + z);
    }
  }

  lemma SkipBodyStep(t: string)
    requires t != [] && !IsQuote(t[0])
    ensures var n := if t[0] == '\\' && |t| > 1 then 2 else 1;
            SkipBody(t) == (n + SkipBody(t[n..]).0, Newline(t[n - 1]) + SkipBody(t[n..]).1)
  {
    if t[0] == '\\' && |t| > 1 {
      var r := SkipBody(t[2..]);
      assert SkipBody(t) == (2 + r.0, Newline(t[1]) + r.1);
    } else {
      var r := SkipBody(t[1..]);
      assert SkipBody(t) == (1 + r.0, Newline(t[0]) + r.1);
    }
  }

  lemma SkipBodyEnd(t: string)
    requires t == [] || IsQuote(t[0])
    ensures SkipBody(t) == (|if t == [] then "" else t[..1]|, 0)
  {
  }

  /** skip_quoted, starting at an opening quote. */
  method SkipQuoted(t: string, look: nat, line: nat) returns (end: nat, endLine: nat)
    requires look < |t| && IsQuote(t[look])
    ensures end == look + 1 + StrBody(t[look + 1..]).used
    ensures endLine == line + StrBody(t[look + 1..]).lines
  {
    hide StrBody, SkipBody;
    end, endLine := look + 1, line;
    ghost var whole := SkipBody(t[look + 1..]);
    SkipAgrees(t[look + 1..]);
    while end < |t| && !IsQuote(t[end])
      invariant look + 1 <= end <= |t| && line <= endLine
      invariant whole == (end - look - 1 + SkipBody(t[end..]).0, endLine - line + SkipBody(t[end..]).1)
    {
      SkipBodyStep(t[end..]);
      assert t[end..][1..] == t[end + 1..];
      if t[end] == '\\' && end + 1 < |t| {
        assert t[end..][2..] == t[end + 2..];
        end := end + 1;
      }
      if t[end] == '\n' { endLine := endLine + 1; }
      end := end + 1;
    }
    SkipBodyEnd(t[end..]);
    if end < |t| { end := end + 1; }
  }
}
