// Conversion directives: how a format string is read, and the whole text it stands for.
module Directives {
  import opened Machine
  import opened Format

  /** The bits of `flags` that name the length of the argument. */
  datatype Length = Plain | Byte | Short | Long | LongLong

  /** What was read of a directive behind its `%`: flags, width, precision and length, the position of the
      conversion character, and the number of arguments used up so far. */
  datatype Directive = Directive(flags: Flags, width: nat, precision: nat, length: Length, pos: nat, used: nat)

  /** The character at `i`; the terminating NUL lies at the end. */
  function At(f: string, i: nat): char { if i < |f| then f[i] else '\0' }

  /** The `n`-th variable argument. On the 32-bit machine each fills one word. */
  function Arg(args: seq<Word>, n: nat): Word { if n < |args| then args[n] else 0 }

  /** The C string at address `p`. */
  function StringAt(mem: map<Word, CText>, p: Word): CText { if p in mem then mem[p] else "" }

  /** What fits into the machine's word. */
  predicate Fits(n: nat) { n < 0x1_0000_0000 }

  function Signed(w: Word): int { if w < 0x8000_0000 then w else w - 0x1_0000_0000 }

  // ---------- flags ----------

  predicate IsFlag(c: char) { c == '0' || c == '-' || c == '+' || c == ' ' || c == '#' }

  function AddFlag(f: Flags, c: char): Flags {
    if c == '0' then f.(zero := true)
    else if c == '-' then f.(left := true)
    else if c == '+' then f.(plus := true)
    else if c == ' ' then f.(space := true)
    else if c == '#' then f.(hash := true)
    else f
  }

  function FlagRun(f: string): (n: nat)
    ensures n <= |f| && !IsFlag(At(f, n))
  {
    if f == "" || !IsFlag(f[0]) then 0 else 1 + FlagRun(f[1..])
  }

  /** The flags that the characters of `s` set, in any order and number. */
  function FlagsOf(s: string): Flags {
    if s == "" then NoFlags() else AddFlag(FlagsOf(s[..|s| - 1]), s[|s| - 1])
  }

  /** A flag is set exactly when its character occurs. */
  lemma {:induction false} FlagsSet(s: string)
    ensures FlagsOf(s) == Flags('0' in s, '-' in s, '+' in s, ' ' in s, '#' in s, false, false)
  {
    if s != "" {
      var init, c := s[..|s| - 1], s[|s| - 1];
      assert s == init + [c];
      FlagsSet(init);
    }
  }

  // ---------- numbers ----------

  predicate IsDigit(c: char) { '0' <= c <= '9' }

  function DigitRun(f: string): (n: nat)
    ensures n <= |f| && !IsDigit(At(f, n)) && forall i :: 0 <= i < n ==> IsDigit(f[i])
  {
    if f == "" || !IsDigit(f[0]) then 0 else 1 + DigitRun(f[1..])
  }

  /** `_atoi`: the number wraps around at 32 bits. */
  function Atoi(s: string): Word
    requires forall i :: 0 <= i < |s| ==> IsDigit(s[i])
  {
    if s == "" then 0 else (Atoi(s[..|s| - 1]) * 10 + (s[|s| - 1] as int - '0' as int)) % 0x1_0000_0000
  }

  /** The number read is the decimal value of the digits, modulo 2 to the 32. */
  lemma {:induction false} AtoiValue(s: string)
    requires forall i :: 0 <= i < |s| ==> IsDigit(s[i])
    ensures Atoi(s) == Decode(s, 10) % 0x1_0000_0000
  {
    if s != "" {
      var init, d := s[..|s| - 1], s[|s| - 1] as int - '0' as int;
      AtoiValue(init);
      assert IsDigit(s[|s| - 1]);
      assert DigitValue(s[|s| - 1]) == d;
      WrapTen(Decode(init, 10), d);
    }
  }

  lemma WrapTen(n: int, d: int)
    ensures (n % 0x1_0000_0000 * 10 + d) % 0x1_0000_0000 == (n * 10 + d) % 0x1_0000_0000
  {
    var q := n / 0x1_0000_0000;
    assert n * 10 + d == n % 0x1_0000_0000 * 10 + d + 0x1_0000_0000 * (10 * q);
  }

  /** The digits at `d.pos`, as a number. */
  function NumberAt(f: string, pos: nat): Word
    requires pos <= |f|
  {
    Atoi(f[pos..][..DigitRun(f[pos..])])
  }

  // ---------- the parts of a directive ----------

  function FlagStage(f: string, used: nat): (d: Directive)
    ensures d.pos <= |f|
  {
    Directive(FlagsOf(f[..FlagRun(f)]), 0, 0, Plain, FlagRun(f), used)
  }

  function WidthStage(f: string, d: Directive, args: seq<Word>): (d': Directive)
    requires d.pos <= |f|
    ensures d'.pos <= |f|
  {
    if IsDigit(At(f, d.pos)) then d.(width := NumberAt(f, d.pos), pos := d.pos + DigitRun(f[d.pos..]))
    else if At(f, d.pos) == '*' then
      var w := Signed(Arg(args, d.used));
      d.(flags := if w < 0 then d.flags.(left := true) else d.flags,
         width := if w < 0 then -w else w, pos := d.pos + 1, used := d.used + 1)
    else d
  }

  function PrecisionStage(f: string, d: Directive, args: seq<Word>): (d': Directive)
    requires d.pos <= |f|
    ensures d'.pos <= |f|
  {
    if At(f, d.pos) != '.' then d else
    var e := d.(flags := d.flags.(precision := true), pos := d.pos + 1);
    if IsDigit(At(f, e.pos)) then e.(precision := NumberAt(f, e.pos), pos := e.pos + DigitRun(f[e.pos..]))
    else if At(f, e.pos) == '*' then
      var p := Signed(Arg(args, e.used));
      e.(precision := if p > 0 then p else 0, pos := e.pos + 1, used := e.used + 1)
    else e
  }

  /** `l`, `ll`, `h`, `hh`, `t`, `j` and `z`, with the sizes of the 32-bit machine. */
  function LengthStage(f: string, d: Directive): (d': Directive)
    requires d.pos <= |f|
    ensures d'.pos <= |f|
  {
    var c, next := At(f, d.pos), At(f, d.pos + 1);
    if c == 'l' then
      if next == 'l' then d.(length := LongLong, pos := d.pos + 2) else d.(length := Long, pos := d.pos + 1)
    else if c == 'h' then
      if next == 'h' then d.(length := Byte, pos := d.pos + 2) else d.(length := Short, pos := d.pos + 1)
    else if c == 't' || c == 'z' then d.(length := Long, pos := d.pos + 1)
    else if c == 'j' then d.(length := LongLong, pos := d.pos + 1)
    else d
  }

  /** The directive behind a `%`. */
  function Parse(f: string, args: seq<Word>, used: nat): (d: Directive)
    ensures d.pos <= |f|
  {
    LengthStage(f, PrecisionStage(f, WidthStage(f, FlagStage(f, used), args), args))
  }

  // ---------- texts at the front ----------

  lemma {:induction false} FlagRunIs(s: string, rest: string)
    requires (forall i :: 0 <= i < |s| ==> IsFlag(s[i])) && !IsFlag(At(rest, 0))
    ensures FlagRun(s + rest) == |s|
  {
    if s == "" {
      assert s + rest == rest;
    } else {
      assert (s + rest)[1..] == s[1..] + rest;
      FlagRunIs(s[1..], rest);
    }
  }

  lemma {:induction false} DigitRunIs(s: string, rest: string)
    requires (forall i :: 0 <= i < |s| ==> IsDigit(s[i])) && !IsDigit(At(rest, 0))
    ensures DigitRun(s + rest) == |s|
  {
    if s == "" {
      assert s + rest == rest;
    } else {
      assert (s + rest)[1..] == s[1..] + rest;
      DigitRunIs(s[1..], rest);
    }
  }

  lemma WidthPrecision(f: string, d: Directive, args: seq<Word>)
    requires d.pos <= |f|
    ensures WidthStage(f, d, args).precision == d.precision
  {
    hide NumberAt, DigitRun, Signed, Arg;
  }

  lemma StagePrecision(f: string, d: Directive, args: seq<Word>)
    requires d.pos <= |f|
    ensures PrecisionStage(f, d, args).flags.precision || PrecisionStage(f, d, args).precision == d.precision
  {
    hide NumberAt, DigitRun, Signed, Arg;
  }

  lemma LengthPrecision(f: string, d: Directive)
    requires d.pos <= |f|
    ensures LengthStage(f, d).precision == d.precision && LengthStage(f, d).flags.precision == d.flags.precision
  {
  }

  /** Without a dot there is no precision. */
  lemma NoPrecision(f: string, args: seq<Word>, used: nat)
    ensures !Parse(f, args, used).flags.precision ==> Parse(f, args, used).precision == 0
  {
    hide WidthStage, PrecisionStage, LengthStage, FlagRun, FlagsOf;
    var d0 := FlagStage(f, used);
    var d1 := WidthStage(f, d0, args);
    WidthPrecision(f, d0, args);
    StagePrecision(f, d1, args);
    LengthPrecision(f, PrecisionStage(f, d1, args));
  }

  // ---------- two readings of a directive ----------

  /** The source reads `d` where the standard reads `e`: numbers are reduced to 32 bits, and a negative precision
      argument is taken for 0 and not for no precision. */
  predicate Readings(d: Directive, e: Directive, negative: bool) {
    && d.length == e.length && d.pos == e.pos && d.used == e.used
    && d.width == e.width % 0x1_0000_0000 && d.precision == e.precision % 0x1_0000_0000
    && d.flags == (if negative then e.flags.(precision := true) else e.flags)
    && (!e.flags.precision ==> e.precision == 0) && (negative ==> !e.flags.precision)
  }

  // ---------- conversions ----------

  predicate IsInteger(c: char) { c == 'd' || c == 'i' || c == 'u' || c == 'x' || c == 'X' || c == 'o' || c == 'b' }

  function BaseOf(c: char): (b: nat)
    ensures BaseOk(b)
  {
    if c == 'x' || c == 'X' then 16 else if c == 'o' then 8 else if c == 'b' then 2 else 10
  }

  predicate IsSigned(c: char) { c == 'd' || c == 'i' }

  /** `#` means nothing for decimal numbers, `+` and blank only go with signed conversions, and a
      precision switches `0` off. */
  function IntegerFlags(f: Flags, c: char): Flags {
    f.(hash := f.hash && BaseOf(c) != 10, upper := f.upper || c == 'X', plus := f.plus && IsSigned(c),
       space := f.space && IsSigned(c), zero := f.zero && !f.precision)
  }

  /** The argument cut down to the length that the directive names. */
  function SignedArg(length: Length, w: Word): int {
    match length
    case Byte => if w % 0x100 < 0x80 then w % 0x100 else w % 0x100 - 0x100
    case Short => if w % 0x1_0000 < 0x8000 then w % 0x1_0000 else w % 0x1_0000 - 0x1_0000
    case _ => Signed(w)
  }

  function UnsignedArg(length: Length, w: Word): Word {
    match length
    case Byte => w % 0x100
    case Short => w % 0x1_0000
    case _ => w
  }

  function Magnitude(v: int): nat { if v > 0 then v else -v }

  lemma ArgRange(length: Length, w: Word)
    ensures -0x8000_0000 <= SignedArg(length, w) < 0x8000_0000
  {
  }

  /** `long long` is not supported: nothing is printed. */
  function IntegerText(d: Directive, c: char, w: Word): string {
    var f := IntegerFlags(d.flags, c);
    if d.length.LongLong? then ""
    else if IsSigned(c) then
      ArgRange(d.length, w);
      LongText(Magnitude(SignedArg(d.length, w)), SignedArg(d.length, w) < 0, BaseOf(c), d.precision, d.width, f)
    else LongText(UnsignedArg(d.length, w), false, BaseOf(c), d.precision, d.width, f)
  }

  /** The number that an integer conversion prints, without its sign. */
  function IntegerValue(d: Directive, c: char, w: Word): Word {
    if IsSigned(c) then
      ArgRange(d.length, w);
      Magnitude(SignedArg(d.length, w))
    else UnsignedArg(d.length, w)
  }

  predicate IsNegative(d: Directive, c: char, w: Word) { IsSigned(c) && SignedArg(d.length, w) < 0 }

  lemma IntegerTextIs(d: Directive, c: char, w: Word)
    requires IsInteger(c) && !d.length.LongLong?
    ensures IntegerText(d, c, w) ==
              LongText(IntegerValue(d, c, w), IsNegative(d, c, w), BaseOf(c), d.precision, d.width,
                       IntegerFlags(d.flags, c))
  {
    hide LongText, SignedArg, UnsignedArg, BaseOf, IntegerFlags, Magnitude;
    ArgRange(d.length, w);
  }

  lemma IntegerFlagsUsual(d: Directive, c: char, w: Word)
    requires IsInteger(c) && (!d.flags.precision ==> d.precision == 0) && (d.flags.hash ==> BaseOf(c) != 2)
    ensures var negative, f := IsNegative(d, c, w), IntegerFlags(d.flags, c);
            Usual(negative, BaseOf(c), d.precision, f) || HashUsual(negative, BaseOf(c), d.precision, f)
  {
    hide SignedArg;
  }

  /** What the standard says about an integer conversion of a directive. */
  function StandardInteger(e: Directive, c: char, w: Word): string {
    Standard(IntegerValue(e, c, w), IsNegative(e, c, w), BaseOf(c), e.precision, e.width, IntegerFlags(e.flags, c))
  }

  /** When an integer conversion prints what the standard says, if the width and the precision of the standard are
      those of `e`: they must fit into 32 bits. With a negative precision argument, the value must not be 0, and the
      flag `0` must have no zeros to add. */
  predicate IntegerFollows(d: Directive, e: Directive, negativePrecision: bool, c: char, w: Word) {
    var value, negative, f := IntegerValue(d, c, w), IsNegative(d, c, w), IntegerFlags(d.flags, c);
    && Fits(e.width) && Fits(e.precision)
    && if negativePrecision then Omissible(value, negative, BaseOf(c), d.width, f, d.flags.zero)
       else Conforms(value, negative, BaseOf(c), d.precision, d.width, f)
  }

  /** An integer conversion of a directive that was read as the standard says. */
  lemma SameReading(d: Directive, c: char, w: Word)
    requires IsInteger(c) && !d.length.LongLong? && (d.flags.hash ==> BaseOf(c) != 2)
    requires (!d.flags.precision ==> d.precision == 0) && Fits(d.width) && Fits(d.precision)
    ensures IntegerText(d, c, w) == StandardInteger(d, c, w) <==> IntegerFollows(d, d, false, c, w)
  {
    hide LongText, Standard, LongDigits, SignedArg, UnsignedArg, Magnitude, BaseOf, Usual, HashUsual, Conforms,
      IntegerText, IntegerValue, IsNegative, IntegerFlags;
    IntegerTextIs(d, c, w);
    IntegerFlagsUsual(d, c, w);
    FollowsStandard(IntegerValue(d, c, w), IsNegative(d, c, w), BaseOf(c), d.precision, d.width,
        IntegerFlags(d.flags, c));
  }

  /** What remains of the flags when only one reading has a precision. */
  lemma OmittedFlags(d: Directive, e: Directive, c: char)
    requires Readings(d, e, true)
    ensures var f, g := IntegerFlags(d.flags, c), IntegerFlags(e.flags, c);
            !f.zero && f.precision && g == f.(zero := d.flags.zero, precision := false) && f.left == d.flags.left
  {
  }

  lemma SameArgument(d: Directive, e: Directive, c: char, w: Word)
    requires d.length == e.length
    ensures IntegerValue(e, c, w) == IntegerValue(d, c, w) && IsNegative(e, c, w) == IsNegative(d, c, w)
  {
  }

  lemma OtherReading(d: Directive, e: Directive, c: char, w: Word)
    requires IsInteger(c) && !d.length.LongLong? && (d.flags.hash ==> BaseOf(c) != 2)
    requires Readings(d, e, true) && Fits(e.width)
    ensures IntegerText(d, c, w) == StandardInteger(e, c, w) <==> IntegerFollows(d, e, true, c, w)
  {
    hide LongText, Standard, LongDigits, BaseOf, Usual, HashUsual, IntegerText, Omissible, IsNegative, IntegerValue,
      IntegerFlags;
    IntegerTextIs(d, c, w);
    IntegerFlagsUsual(d, c, w);
    OmittedFlags(d, e, c);
    SameArgument(d, e, c, w);
    OmittedPrecision(IntegerValue(d, c, w), IsNegative(d, c, w), BaseOf(c), d.width, IntegerFlags(d.flags, c),
        IntegerFlags(e.flags, c));
  }

  /** A field beyond 32 bits is never filled. */
  lemma NeverFilled(d: Directive, e: Directive, negative: bool, c: char, w: Word)
    requires IsInteger(c) && !d.length.LongLong? && Readings(d, e, negative) && !(Fits(e.width) && Fits(e.precision))
    ensures IntegerText(d, c, w) != StandardInteger(e, c, w)
  {
    hide LongText, Standard, IntegerText, IntegerValue, IsNegative, IntegerFlags;
    IntegerTextIs(d, c, w);
    LongTextLength(IntegerValue(d, c, w), IsNegative(d, c, w), BaseOf(c), d.precision, d.width,
        IntegerFlags(d.flags, c));
    StandardLength(IntegerValue(e, c, w), IsNegative(e, c, w), BaseOf(c), e.precision, e.width,
        IntegerFlags(e.flags, c));
  }

  /** An integer conversion prints what the standard says exactly under the condition above, for every width,
      precision and argument, and with `#` for every base of the standard. */
  lemma IntegerReadings(d: Directive, e: Directive, negative: bool, c: char, w: Word)
    requires IsInteger(c) && !d.length.LongLong? && (d.flags.hash ==> BaseOf(c) != 2) && Readings(d, e, negative)
    ensures IntegerText(d, c, w) == StandardInteger(e, c, w) <==> IntegerFollows(d, e, negative, c, w)
  {
    hide IntegerText, StandardInteger, BaseOf, Conforms, Omissible;
    if !(Fits(e.width) && Fits(e.precision)) {
      NeverFilled(d, e, negative, c, w);
    } else if negative {
      OtherReading(d, e, c, w);
    } else {
      SameReading(d, c, w);
    }
  }

  /** Whatever the width and the precision, an integer conversion without `#` shows digits that decode
      to the number. */
  lemma IntegerReadsBack(d: Directive, c: char, w: Word) returns (number: string)
    requires IsInteger(c) && !d.length.LongLong?
    requires d.flags.hash ==> BaseOf(c) == 10
    ensures Decode(number, BaseOf(c)) == IntegerValue(d, c, w)
    ensures var negative, f := IsNegative(d, c, w), IntegerFlags(d.flags, c);
            Shows(IntegerText(d, c, w),
                  ShownSign(IntegerValue(d, c, w), negative, BaseOf(c), d.precision, d.width, f),
                  number, InnerWidth(negative, d.width, f), f)
  {
    hide LongText, ShownSign, SignedArg, UnsignedArg, Magnitude, BaseOf, IntegerText, IntegerValue, IsNegative, Decode,
      Shows, InnerWidth;
    IntegerTextIs(d, c, w);
    number := ReadsBack(IntegerValue(d, c, w), IsNegative(d, c, w), BaseOf(c), d.precision, d.width,
        IntegerFlags(d.flags, c));
  }

  function CharText(d: Directive, w: Word): string {
    var c := (w % 0x100) as char;
    if d.flags.left then [c] + Spaces(d.width - 1) else Spaces(d.width - 1) + [c]
  }

  function StringText(d: Directive, s: CText): string {
    var shown := if d.flags.precision && d.precision < |s| then s[..d.precision] else s;
    if d.flags.left then shown + Spaces(d.width - |shown|) else Spaces(d.width - |shown|) + shown
  }

  /** How many characters of a string a directive shows. */
  function Cut(d: Directive, s: CText): nat { if d.flags.precision && d.precision < |s| then d.precision else |s| }

  /** When a string conversion prints what the standard says: the width must fit into 32 bits, unless it asks for
      nothing. A negative precision argument makes the source print no character of the string, and a precision beyond
      32 bits makes it print fewer; that agrees only for blanks that the width asks for anyway. */
  predicate StringFollows(d: Directive, e: Directive, s: CText) {
    var n, m := Cut(d, s), Cut(e, s);
    && (Fits(e.width) || e.width <= m)
    && (n < m ==> m <= d.width && if d.flags.left then s[n..m] == Spaces(m - n) else s[..m] == Spaces(m))
  }

  lemma StringReadings(d: Directive, e: Directive, negative: bool, s: CText)
    requires Readings(d, e, negative)
    ensures StringText(d, s) == StringText(e, s) <==> StringFollows(d, e, s)
  {
    var n, m := Cut(d, s), Cut(e, s);
    StringTextIs(d, s);
    StringTextIs(e, s);
    ReadingsFacts(d, e, negative, s);
    hide Repeat, StringText, Cut, Readings, Fits;
    if !Fits(e.width) {
      WideString(d, e, s);
    } else if n < m {
      if d.flags.left {
        LeftCut(s, n, m, d.width);
      } else {
        RightCut(s, n, m, d.width);
      }
    }
  }

  lemma ReadingsFacts(d: Directive, e: Directive, negative: bool, s: CText)
    requires Readings(d, e, negative)
    ensures Cut(d, s) <= Cut(e, s) <= |s| && e.flags.left == d.flags.left
    ensures Fits(d.width) && (Fits(e.width) ==> e.width == d.width)
  {
  }

  /** A width beyond 32 bits shows unless the string is as long. */
  lemma WideString(d: Directive, e: Directive, s: CText)
    requires Fits(d.width) && !Fits(e.width) && d.flags.left == e.flags.left && Cut(d, s) <= Cut(e, s)
    ensures StringText(d, s) == StringText(e, s) <==> e.width <= Cut(e, s) && Cut(d, s) == Cut(e, s)
  {
    StringTextIs(d, s);
    StringTextIs(e, s);
    var n, m := Cut(d, s), Cut(e, s);
    assert n <= |s| && m <= |s|;
    hide Cut, StringText;
    assert |StringText(d, s)| == Max(d.width, n) && |StringText(e, s)| == Max(e.width, m);
    if e.width <= m && n == m {
      assert Spaces(e.width - m) == "" && Spaces(d.width - n) == "";
      assert s[..n] + "" == s[..n] && "" + s[..n] == s[..n];
    }
  }

  lemma StringTextIs(d: Directive, s: CText)
    ensures var n := Cut(d, s);
            StringText(d, s) == if d.flags.left then s[..n] + Spaces(d.width - n) else Spaces(d.width - n) + s[..n]
  {
    assert s[..|s|] == s;
  }

  /** Characters that are not shown, on the right of the others. */
  lemma LeftCut(s: string, n: nat, m: nat, width: nat)
    requires n < m <= |s|
    ensures s[..n] + Spaces(width - n) == s[..m] + Spaces(width - m) <==> m <= width && s[n..m] == Spaces(m - n)
  {
    var a, b := s[..n] + Spaces(width - n), s[..m] + Spaces(width - m);
    RepeatAll(' ', width - n);
    RepeatAll(' ', width - m);
    RepeatAll(' ', m - n);
    hide Repeat;
    if m <= width {
      assert b[n..m] == s[n..m] && a[n..m] == Spaces(width - n)[..m - n];
      if s[n..m] == Spaces(m - n) {
        forall i | 0 <= i < width ensures a[i] == b[i] {
          if n <= i < m {
            assert b[i] == s[n..m][i - n];
          }
        }
      }
    }
  }

  lemma RightCut(s: string, n: nat, m: nat, width: nat)
    requires n < m <= |s|
    ensures Spaces(width - n) + s[..n] == Spaces(width - m) + s[..m] <==> m <= width && s[..m] == Spaces(m)
  {
    var a, b := Spaces(width - n) + s[..n], Spaces(width - m) + s[..m];
    RepeatAll(' ', width - n);
    RepeatAll(' ', width - m);
    RepeatAll(' ', m);
    hide Repeat;
    if m <= width && a == b {
      AllBlank(s, n, m, width);
    }
  }

  lemma {:induction false} BlankAt(s: string, n: nat, m: nat, i: nat)
    requires i < m <= |s| && n < m && s[..m] == Spaces(m - n) + s[..n]
    ensures s[i] == ' '
    decreases i
  {
    RepeatAll(' ', m - n);
    assert s[..m][i] == s[i];
    if i >= m - n {
      assert s[..m][i] == s[..n][i - (m - n)];
      BlankAt(s, n, m, i - (m - n));
    }
  }

  /** A text that equals itself shifted behind blanks is blank. */
  lemma AllBlank(s: string, n: nat, m: nat, width: nat)
    requires n < m <= |s| && m <= width && Spaces(width - n) + s[..n] == Spaces(width - m) + s[..m]
    ensures s[..m] == Spaces(m)
  {
    ShiftedText(s, n, m, width);
    RepeatAll(' ', m);
    hide Repeat;
    forall i | 0 <= i < m ensures s[i] == ' ' {
      BlankAt(s, n, m, i);
    }
  }

  lemma ShiftedText(s: string, n: nat, m: nat, width: nat)
    requires n < m <= |s| && m <= width && Spaces(width - n) + s[..n] == Spaces(width - m) + s[..m]
    ensures s[..m] == Spaces(m - n) + s[..n]
  {
    BlankPart(width - n, width - m);
    hide Repeat;
    var a, b := Spaces(width - n) + s[..n], Spaces(width - m) + s[..m];
    assert b[width - m..] == s[..m];
    assert a[width - m..] == Spaces(width - n)[width - m..] + s[..n];
  }

  lemma BlankPart(n: nat, k: nat)
    requires k <= n
    ensures Spaces(n)[k..] == Spaces(n - k)
  {
    RepeatAll(' ', n);
    RepeatAll(' ', n - k);
  }

  /** A character in a field: the width must fit into 32 bits. */
  lemma CharReadings(d: Directive, e: Directive, negative: bool, w: Word)
    requires Readings(d, e, negative)
    ensures CharText(d, w) == CharText(e, w) <==> Fits(e.width)
  {
    if !Fits(e.width) {
      assert |CharText(d, w)| < |CharText(e, w)|;
    }
  }

  /** Pointers are 8 hexadecimal digits. */
  function PointerText(d: Directive, w: Word): string {
    LongText(w, false, 16, d.precision, 8, d.flags.(zero := true, upper := true))
  }

  /** What a directive with conversion character `c` prints, and how many arguments are used up then. */
  function Converted(d: Directive, c: char, args: seq<Word>, mem: map<Word, CText>): (string, nat) {
    var w := Arg(args, d.used);
    if IsInteger(c) then (IntegerText(d, c, w), if d.length.LongLong? then d.used else d.used + 1)
    else if c == 'c' then (CharText(d, w), d.used + 1)
    else if c == 's' then (StringText(d, StringAt(mem, w)), d.used + 1)
    else if c == 'p' then (PointerText(d, w), d.used + 1)
    else ([c], d.used)
  }

  /** No directive is cut off by the end of the string. */
  predicate Complete(format: CText)
  {
    if format == "" then true
    else if format[0] != '%' then Complete(format[1..])
    else
      var d := Parse(format[1..], [], 0);
      d.pos < |format[1..]| && Complete(format[1..][d.pos + 1..])
  }

  /** The text that a format string stands for, from the argument number `used` on. */
  function Text(format: CText, args: seq<Word>, used: nat, mem: map<Word, CText>): string
  {
    if format == "" then ""
    else if format[0] != '%' then [format[0]] + Text(format[1..], args, used, mem)
    else
      var f := format[1..];
      var d := Parse(f, args, used);
      if d.pos >= |f| then "" else
      var (text, used') := Converted(d, f[d.pos], args, mem);
      text + Text(f[d.pos + 1..], args, used', mem)
  }

  /** How many arguments a format string uses up. */
  function Used(format: CText, args: seq<Word>, used: nat): nat
  {
    if format == "" then used
    else if format[0] != '%' then Used(format[1..], args, used)
    else
      var f := format[1..];
      var d := Parse(f, args, used);
      if d.pos >= |f| then d.used else Used(f[d.pos + 1..], args, Converted(d, f[d.pos], args, map[]).1)
  }

  // ---------- format strings one after the other ----------

  lemma {:induction false} FlagRunPrefix(f: string, g: string)
    requires FlagRun(f) < |f|
    ensures FlagRun(f + g) == FlagRun(f) && (f + g)[..FlagRun(f)] == f[..FlagRun(f)]
  {
    if IsFlag(f[0]) {
      assert (f + g)[1..] == f[1..] + g;
      FlagRunPrefix(f[1..], g);
    }
  }

  lemma {:induction false} DigitRunPrefix(f: string, g: string)
    requires DigitRun(f) < |f|
    ensures DigitRun(f + g) == DigitRun(f) && (f + g)[..DigitRun(f)] == f[..DigitRun(f)]
  {
    if IsDigit(f[0]) {
      assert (f + g)[1..] == f[1..] + g;
      DigitRunPrefix(f[1..], g);
    }
  }

  lemma NumberPrefix(f: string, g: string, pos: nat)
    requires pos <= |f| && pos + DigitRun(f[pos..]) < |f|
    ensures DigitRun((f + g)[pos..]) == DigitRun(f[pos..]) && NumberAt(f + g, pos) == NumberAt(f, pos)
  {
    assert (f + g)[pos..] == f[pos..] + g;
    DigitRunPrefix(f[pos..], g);
  }

  lemma WidthPrefix(f: string, g: string, d: Directive, args: seq<Word>)
    requires d.pos <= |f| && WidthStage(f, d, args).pos < |f|
    ensures d.pos < |f| && WidthStage(f + g, d, args) == WidthStage(f, d, args)
  {
    hide NumberAt, DigitRun;
    if IsDigit(At(f, d.pos)) {
      NumberPrefix(f, g, d.pos);
    }
  }

  lemma PrecisionPrefix(f: string, g: string, d: Directive, args: seq<Word>)
    requires d.pos <= |f| && PrecisionStage(f, d, args).pos < |f|
    ensures d.pos < |f| && PrecisionStage(f + g, d, args) == PrecisionStage(f, d, args)
  {
    hide NumberAt, DigitRun;
    if At(f, d.pos) == '.' && IsDigit(At(f, d.pos + 1)) {
      NumberPrefix(f, g, d.pos + 1);
    }
  }

  lemma LengthPrefix(f: string, g: string, d: Directive)
    requires d.pos <= |f| && LengthStage(f, d).pos < |f|
    ensures d.pos < |f| && LengthStage(f + g, d) == LengthStage(f, d)
  {
  }

  /** What follows a complete directive does not change how it is read. */
  lemma ParsePrefix(f: string, g: string, args: seq<Word>, used: nat)
    requires Parse(f, args, used).pos < |f|
    ensures Parse(f + g, args, used) == Parse(f, args, used)
  {
    hide WidthStage, PrecisionStage, LengthStage, FlagRun, FlagsOf;
    var d0 := FlagStage(f, used);
    var d1 := WidthStage(f, d0, args);
    var d2 := PrecisionStage(f, d1, args);
    LengthPrefix(f, g, d2);
    PrecisionPrefix(f, g, d1, args);
    WidthPrefix(f, g, d0, args);
    FlagRunPrefix(f, g);
  }

  lemma NumberAtSame(f: string, d: Directive, e: Directive, args: seq<Word>, args': seq<Word>)
    requires d.pos == e.pos <= |f|
    ensures WidthStage(f, d, args).pos == WidthStage(f, e, args').pos
    ensures PrecisionStage(f, d, args).pos == PrecisionStage(f, e, args').pos
    ensures LengthStage(f, d).pos == LengthStage(f, e).pos
  {
    hide NumberAt, DigitRun;
  }

  /** Where a directive ends does not depend on the arguments. */
  lemma SameEnd(f: string, args: seq<Word>, used: nat, args': seq<Word>, used': nat)
    ensures Parse(f, args, used).pos == Parse(f, args', used').pos
  {
    hide WidthStage, PrecisionStage, LengthStage, FlagRun, FlagsOf;
    var d0, e0 := FlagStage(f, used), FlagStage(f, used');
    NumberAtSame(f, d0, e0, args, args');
    var d1, e1 := WidthStage(f, d0, args), WidthStage(f, e0, args');
    NumberAtSame(f, d1, e1, args, args');
    NumberAtSame(f, PrecisionStage(f, d1, args), PrecisionStage(f, e1, args'), args, args');
  }

  lemma UsedText(d: Directive, c: char, args: seq<Word>, mem: map<Word, CText>)
    ensures Converted(d, c, args, mem).1 == Converted(d, c, args, map[]).1
  {
  }

  /** Formatting two strings one after the other is formatting their concatenation: the second one
      goes on with the arguments that the first one left. */
  lemma {:induction false} TextConcat(a: CText, b: CText, args: seq<Word>, used: nat, mem: map<Word, CText>)
    requires Complete(a)
    ensures Text(a + b, args, used, mem) == Text(a, args, used, mem) + Text(b, args, Used(a, args, used), mem)
    decreases |a|, 1
  {
    hide Parse, Converted;
    if a == "" {
      assert a + b == b;
      assert Text(a, args, used, mem) + Text(b, args, used, mem) == Text(b, args, used, mem);
    } else {
      assert (a + b)[1..] == a[1..] + b;
      if a[0] != '%' {
        TextConcat(a[1..], b, args, used, mem);
      } else {
        DirectiveConcat(a, b, a[1..], args, used, mem);
      }
    }
  }

  /** The text of a string that starts with a complete directive. */
  lemma TextDirective(a: CText, args: seq<Word>, used: nat, mem: map<Word, CText>)
    requires a != "" && a[0] == '%' && Parse(a[1..], args, used).pos < |a[1..]|
    ensures var f := a[1..];
            var d := Parse(f, args, used);
            && Text(a, args, used, mem)
               == Converted(d, f[d.pos], args, mem).0
                  + Text(f[d.pos + 1..], args, Converted(d, f[d.pos], args, mem).1, mem)
            && Used(a, args, used) == Used(f[d.pos + 1..], args, Converted(d, f[d.pos], args, mem).1)
  {
    hide Parse, Converted;
    UsedText(Parse(a[1..], args, used), a[1..][Parse(a[1..], args, used).pos], args, mem);
  }

  lemma CompleteDirective(a: CText, f: CText, args: seq<Word>, used: nat)
    requires a != "" && a[0] == '%' && f == a[1..] && Complete(a)
    ensures Parse(f, args, used).pos < |f| && Complete(f[Parse(f, args, used).pos + 1..])
  {
    hide Parse;
    SameEnd(f, args, used, [], 0);
  }

  lemma {:induction false} DirectiveConcat(a: CText, b: CText, f: CText, args: seq<Word>, used: nat,
                                           mem: map<Word, CText>)
    requires a != "" && a[0] == '%' && f == a[1..] && Complete(a) && (a + b)[1..] == f + b
    ensures Text(a + b, args, used, mem) == Text(a, args, used, mem) + Text(b, args, Used(a, args, used), mem)
    decreases |a|, 0
  {
    hide Parse, Converted, Complete, Text, Used;
    CompleteDirective(a, f, args, used);
    ParsePrefix(f, b, args, used);
    var d := Parse(f, args, used);
    var rest := f[d.pos + 1..];
    TextDirective(a, args, used, mem);
    TextDirective(a + b, args, used, mem);
    assert (f + b)[d.pos + 1..] == rest + b && (f + b)[d.pos] == f[d.pos];
    var text, used' := Converted(d, f[d.pos], args, mem).0, Converted(d, f[d.pos], args, mem).1;
    TextConcat(rest, b, args, used', mem);
  }
}
