// Where the source prints what C99 says: every directive and every format string, against the text of the standard.
module Agreement {
  import opened Machine
  import opened Format
  import opened Directives
  import opened Options
  import C = CStandard

  // ---------- reading ----------

  function LengthOf(modifier: string): Length {
    if modifier == "" then Length.Plain
    else if modifier == "hh" then Byte
    else if modifier == "h" then Short
    else if modifier == "ll" || modifier == "j" then LongLong
    else Long
  }

  /** A specification with the numbers of the standard, in the terms of the source. */
  function Effective(s: C.Specification, args: seq<Word>, used: nat): Directive
    requires C.WellFormed(s)
  {
    var p := C.PrecisionOf(s, args, used);
    Directive(
      Flags('0' in s.flags, C.LeftOf(s, args, used), '+' in s.flags, ' ' in s.flags, '#' in s.flags, false, p.Some?),
      C.FieldWidth(s, args, used), if p.Some? then p.value else 0, LengthOf(s.modifier), |C.Spelled(s)| - 1,
      C.Converted(s, used))
  }

  /** The precision is a negative argument. */
  predicate NegativeStar(s: C.Specification, args: seq<Word>, used: nat) {
    s.precision.Star? && C.IntArgument(args, used + C.Stars(s.width)) < 0
  }

  lemma {:induction false} ValueDecodes(digits: string)
    requires C.Numeric(digits)
    ensures C.Value(digits) == Decode(digits, 10)
  {
    if digits != "" {
      ValueDecodes(digits[..|digits| - 1]);
    }
  }

  /** Digits at `pos` are read as their value, modulo 2 to the 32. */
  lemma NumberSpelled(f: string, pos: nat, digits: string, rest: string)
    requires pos <= |f| && f[pos..] == digits + rest && C.Numeric(digits) && !IsDigit(At(rest, 0))
    ensures DigitRun(f[pos..]) == |digits| && NumberAt(f, pos) == C.Value(digits) % 0x1_0000_0000
    ensures IsDigit(At(f, pos)) <==> digits != ""
  {
    hide Atoi;
    DigitRunIs(digits, rest);
    assert f[pos..][..|digits|] == digits;
    ValueDecodes(digits);
    AtoiValue(digits);
    AtFront(f, pos, digits, rest);
  }

  /** The first characters at `pos`. */
  lemma AtFront(f: string, pos: nat, a: string, rest: string)
    requires pos <= |f| && f[pos..] == a + rest
    ensures At(f, pos) == if a == "" then At(rest, 0) else a[0]
    ensures |a| == 1 ==> At(f, pos + 1) == At(rest, 0)
    ensures pos + |a| <= |f| && f[pos + |a|..] == rest
  {
    if a != "" {
      assert f[pos] == f[pos..][0];
    }
    if a == "" && rest != "" {
      assert f[pos] == f[pos..][0];
    }
    if |a| == 1 && rest != "" {
      assert f[pos + 1] == f[pos..][1];
    }
  }

  lemma SignedArgument(args: seq<Word>, n: nat)
    ensures Signed(Arg(args, n)) == C.IntArgument(args, n)
    ensures -0x8000_0000 <= C.IntArgument(args, n) < 0x8000_0000
  {
  }

  lemma FlagsSpelled(s: C.Specification, rest: string, used: nat)
    requires C.WellFormed(s) && !IsFlag(At(rest, 0))
    ensures FlagStage(s.flags + rest, used) ==
              Directive(
                Flags('0' in s.flags, '-' in s.flags, '+' in s.flags, ' ' in s.flags, '#' in s.flags, false, false),
                0, 0, Length.Plain, |s.flags|, used)
  {
    hide FlagsOf, FlagRun;
    forall i | 0 <= i < |s.flags| ensures IsFlag(s.flags[i]) {
      assert s.flags[i] in s.flags;
    }
    FlagRunIs(s.flags, rest);
    assert (s.flags + rest)[..|s.flags|] == s.flags;
    FlagsSet(s.flags);
  }

  lemma WidthSpelled(f: string, d: Directive, s: C.Specification, rest: string, args: seq<Word>)
    requires C.WellFormed(s) && d.pos <= |f| && f[d.pos..] == C.AmountText(s.width) + rest && d.width == 0
    requires !IsDigit(At(rest, 0)) && At(rest, 0) != '*' && d.flags.left == ('-' in s.flags)
    ensures WidthStage(f, d, args) ==
              d.(flags := d.flags.(left := C.LeftOf(s, args, d.used)),
                 width := C.FieldWidth(s, args, d.used) % 0x1_0000_0000,
                 pos := d.pos + |C.AmountText(s.width)|, used := d.used + C.Stars(s.width))
  {
    hide NumberAt, DigitRun, Signed, Arg, C.IntArgument, C.Value, WidthStage, IsDigit, At;
    AtFront(f, d.pos, C.AmountText(s.width), rest);
    match s.width {
      case Omitted => WidthNone(f, d, args);
      case Digits(text) =>
        NumberSpelled(f, d.pos, text, rest);
        WidthDigits(f, d, args);
      case Star =>
        SignedArgument(args, d.used);
        WidthStar(f, d, args);
    }
  }

  lemma WidthNone(f: string, d: Directive, args: seq<Word>)
    requires d.pos <= |f| && !IsDigit(At(f, d.pos)) && At(f, d.pos) != '*'
    ensures WidthStage(f, d, args) == d
  {
  }

  lemma WidthDigits(f: string, d: Directive, args: seq<Word>)
    requires d.pos <= |f| && IsDigit(At(f, d.pos))
    ensures WidthStage(f, d, args) == d.(width := NumberAt(f, d.pos), pos := d.pos + DigitRun(f[d.pos..]))
  {
    hide NumberAt, DigitRun;
  }

  lemma WidthStar(f: string, d: Directive, args: seq<Word>)
    requires d.pos <= |f| && At(f, d.pos) == '*'
    ensures var w := Signed(Arg(args, d.used));
            WidthStage(f, d, args) ==
              d.(flags := d.flags.(left := d.flags.left || w < 0), width := if w < 0 then -w else w,
                 pos := d.pos + 1, used := d.used + 1)
  {
    hide NumberAt, DigitRun, Signed, Arg;
  }

  lemma NoDigits()
    ensures C.Value("") == 0
  {
  }

  function PrecisionSpelling(s: C.Specification): string {
    if s.precision.Omitted? then "" else "." + C.AmountText(s.precision)
  }

  lemma PrecisionSpelled(f: string, d: Directive, s: C.Specification, used: nat, rest: string, args: seq<Word>)
    requires C.WellFormed(s) && d.pos <= |f| && f[d.pos..] == PrecisionSpelling(s) + rest
    requires d.precision == 0 && !d.flags.precision && d.used == used + C.Stars(s.width)
    requires !IsDigit(At(rest, 0)) && At(rest, 0) != '*' && At(rest, 0) != '.'
    ensures var p := C.PrecisionOf(s, args, used);
            PrecisionStage(f, d, args) ==
              d.(flags := d.flags.(precision := p.Some? || NegativeStar(s, args, used)),
                 precision := if p.Some? then p.value % 0x1_0000_0000 else 0,
                 pos := d.pos + |PrecisionSpelling(s)|, used := d.used + C.Stars(s.precision))
  {
    hide NumberAt, DigitRun, Signed, Arg, C.IntArgument, C.Value, IsDigit, PrecisionStage, At;
    if s.precision.Omitted? {
      AtFront(f, d.pos, "", rest);
      PrecisionNone(f, d, args);
    } else {
      var a := C.AmountText(s.precision);
      assert f[d.pos..] == "." + (a + rest);
      AtFront(f, d.pos, ".", a + rest);
      AtFront(f, d.pos + 1, a, rest);
      if s.precision.Star? {
        SignedArgument(args, d.used);
        StarNoDigit();
        PrecisionStar(f, d, args);
      } else {
        NumberSpelled(f, d.pos + 1, a, rest);
        NoDigits();
        PrecisionDigits(f, d, args);
      }
    }
  }

  lemma PrecisionNone(f: string, d: Directive, args: seq<Word>)
    requires d.pos <= |f| && At(f, d.pos) != '.'
    ensures PrecisionStage(f, d, args) == d
  {
  }

  /** A number behind the dot; without digits it is 0. */
  lemma PrecisionDigits(f: string, d: Directive, args: seq<Word>)
    requires d.pos < |f| && At(f, d.pos) == '.' && At(f, d.pos + 1) != '*' && d.precision == 0
    requires IsDigit(At(f, d.pos + 1)) || (DigitRun(f[d.pos + 1..]) == 0 && NumberAt(f, d.pos + 1) == 0)
    ensures PrecisionStage(f, d, args) ==
              d.(flags := d.flags.(precision := true), precision := NumberAt(f, d.pos + 1),
                 pos := d.pos + 1 + DigitRun(f[d.pos + 1..]))
  {
    hide NumberAt, DigitRun, IsDigit;
  }

  lemma PrecisionStar(f: string, d: Directive, args: seq<Word>)
    requires d.pos <= |f| && At(f, d.pos) == '.' && At(f, d.pos + 1) == '*' && !IsDigit('*')
    ensures var n := Signed(Arg(args, d.used));
            PrecisionStage(f, d, args) ==
              d.(flags := d.flags.(precision := true), precision := if n > 0 then n else 0, pos := d.pos + 2,
                 used := d.used + 1)
  {
    hide NumberAt, DigitRun, Signed, Arg, IsDigit;
  }

  lemma StarNoDigit()
    ensures !IsDigit('*')
  {
  }

  lemma LengthSpelled(f: string, d: Directive, s: C.Specification, rest: string)
    requires C.WellFormed(s) && d.pos <= |f| && f[d.pos..] == s.modifier + ([s.conversion] + rest)
    requires d.length == Length.Plain
    ensures LengthStage(f, d) == d.(length := LengthOf(s.modifier), pos := d.pos + |s.modifier|)
    ensures d.pos + |s.modifier| < |f| && f[d.pos + |s.modifier|] == s.conversion
  {
    hide At, LengthStage, C.WellFormed;
    ModifierAt(f, d.pos, s, rest);
    LengthFrom(f, d, s);
  }

  /** The length by the characters of the modifier. */
  lemma LengthFrom(f: string, d: Directive, s: C.Specification)
    requires C.WellFormed(s) && d.pos <= |f| && d.length == Length.Plain
    requires var m := s.modifier;
             && At(f, d.pos) == (if m == "" then s.conversion else m[0])
             && (|m| == 1 ==> At(f, d.pos + 1) == s.conversion) && (|m| == 2 ==> At(f, d.pos + 1) == m[1])
    ensures LengthStage(f, d) == d.(length := LengthOf(s.modifier), pos := d.pos + |s.modifier|)
  {
    hide At;
    var m := s.modifier;
    if m == "" {
      assert LengthStage(f, d) == d;
    } else if |m| == 1 {
      assert m in ["h", "l", "t", "z", "j"];
    } else {
      assert m in ["hh", "ll"];
    }
  }

  /** The two characters that decide about the length. */
  lemma ModifierAt(f: string, pos: nat, s: C.Specification, rest: string)
    requires C.WellFormed(s) && pos <= |f| && f[pos..] == s.modifier + ([s.conversion] + rest)
    ensures var m := s.modifier;
            && At(f, pos) == (if m == "" then s.conversion else m[0])
            && (|m| == 1 ==> At(f, pos + 1) == s.conversion) && (|m| == 2 ==> At(f, pos + 1) == m[1])
            && pos + |m| < |f| && f[pos + |m|] == s.conversion
  {
    var m, c := s.modifier, s.conversion;
    AtFront(f, pos, m, [c] + rest);
    AtFront(f, pos + |m|, [c], rest);
    if |m| == 2 {
      assert f[pos + 1] == f[pos..][1] == m[1];
    }
  }

  /** No part of a specification begins with a character that the part in front of it could go on with. */
  lemma PartsApart(s: C.Specification, rest: string)
    requires C.WellFormed(s)
    ensures var c3 := At(s.modifier + ([s.conversion] + rest), 0);
            !IsFlag(c3) && !IsDigit(c3) && c3 != '*' && c3 != '.'
    ensures var c2 := At(PrecisionSpelling(s) + (s.modifier + ([s.conversion] + rest)), 0);
            !IsFlag(c2) && !IsDigit(c2) && c2 != '*'
    ensures !IsFlag(At(C.AmountText(s.width) + (PrecisionSpelling(s) + (s.modifier + ([s.conversion] + rest))), 0))
  {
    var l := s.modifier + ([s.conversion] + rest);
    assert At(l, 0) == if s.modifier == "" then s.conversion else s.modifier[0];
    var p := PrecisionSpelling(s) + l;
    assert At(p, 0) == if s.precision.Omitted? then At(l, 0) else '.';
    var w := C.AmountText(s.width) + p;
    assert At(w, 0) == if s.width.Omitted? then At(p, 0) else C.AmountText(s.width)[0];
  }

  /** The directive that the source reads. */
  function Reading(s: C.Specification, args: seq<Word>, used: nat): Directive
    requires C.WellFormed(s)
  {
    var p := C.PrecisionOf(s, args, used);
    Directive(
      Flags('0' in s.flags, C.LeftOf(s, args, used), '+' in s.flags, ' ' in s.flags, '#' in s.flags, false,
            p.Some? || NegativeStar(s, args, used)),
      C.FieldWidth(s, args, used) % 0x1_0000_0000, if p.Some? then p.value % 0x1_0000_0000 else 0,
      LengthOf(s.modifier), |C.Spelled(s)| - 1, C.Converted(s, used))
  }

  /** What is read of flags and width. */
  function FrontReading(s: C.Specification, args: seq<Word>, used: nat): Directive
    requires C.WellFormed(s)
  {
    Directive(
      Flags('0' in s.flags, C.LeftOf(s, args, used), '+' in s.flags, ' ' in s.flags, '#' in s.flags, false, false),
      C.FieldWidth(s, args, used) % 0x1_0000_0000, 0, Length.Plain, |s.flags| + |C.AmountText(s.width)|,
      used + C.Stars(s.width))
  }

  lemma FrontSpelled(f: string, s: C.Specification, rest: string, args: seq<Word>, used: nat)
    requires C.WellFormed(s) && f == s.flags + (C.AmountText(s.width) + rest)
    requires !IsFlag(At(C.AmountText(s.width) + rest, 0)) && !IsDigit(At(rest, 0)) && At(rest, 0) != '*'
    ensures WidthStage(f, FlagStage(f, used), args) == FrontReading(s, args, used)
    ensures |s.flags| + |C.AmountText(s.width)| <= |f| && f[|s.flags| + |C.AmountText(s.width)|..] == rest
  {
    hide FlagStage, WidthStage, C.AmountText, IsFlag, IsDigit, C.LeftOf, C.FieldWidth, C.WellFormed, C.Stars, At;
    var w := C.AmountText(s.width);
    FlagsSpelled(s, w + rest, used);
    AtFront(f, 0, s.flags, w + rest);
    WidthSpelled(f, FlagStage(f, used), s, rest, args);
    AtFront(f, |s.flags|, w, rest);
  }

  lemma ParsesSpecification(s: C.Specification, rest: string, args: seq<Word>, used: nat)
    requires C.WellFormed(s)
    ensures var f, d := C.Spelled(s) + rest, Reading(s, args, used);
            Parse(f, args, used) == d && d.pos < |f| && f[d.pos] == s.conversion && f[d.pos + 1..] == rest
  {
    hide FlagStage, WidthStage, PrecisionStage, LengthStage, C.AmountText, PrecisionSpelling, IsFlag, IsDigit,
      C.LeftOf, C.FieldWidth, C.PrecisionOf, C.IntArgument, C.Spelled, C.WellFormed, C.Stars, NegativeStar, LengthOf,
      At;
    var f, p := C.Spelled(s) + rest, PrecisionSpelling(s);
    var l := s.modifier + ([s.conversion] + rest);
    SpelledParts(s, rest);
    PartsApart(s, rest);
    FrontSpelled(f, s, p + l, args, used);
    var d1 := FrontReading(s, args, used);
    PrecisionSpelled(f, d1, s, used, l, args);
    AtFront(f, d1.pos, p, l);
    LengthSpelled(f, PrecisionStage(f, d1, args), s, rest);
  }

  /** A specification is read as the standard says exactly when its width and precision fit into 32 bits and its
      precision is not a negative argument. Otherwise the source reduces them, and takes the precision 0 where the
      standard has none. */
  lemma ReadsStandard(s: C.Specification, rest: string, args: seq<Word>, used: nat)
    requires C.WellFormed(s)
    ensures var f, e := C.Spelled(s) + rest, Effective(s, args, used);
            && Readings(Parse(f, args, used), e, NegativeStar(s, args, used))
            && (Parse(f, args, used) == e
                <==> !NegativeStar(s, args, used) && Fits(e.width) && Fits(e.precision))
            && e.pos < |f| && f[e.pos] == s.conversion && f[e.pos + 1..] == rest
  {
    hide Parse, C.Spelled, C.LeftOf, C.FieldWidth, C.PrecisionOf, NegativeStar, C.Converted, C.WellFormed;
    ParsesSpecification(s, rest, args, used);
    NegativeOmits(s, args, used);
  }

  lemma NegativeOmits(s: C.Specification, args: seq<Word>, used: nat)
    requires C.WellFormed(s)
    ensures NegativeStar(s, args, used) ==> C.PrecisionOf(s, args, used).None?
  {
  }

  lemma SpelledParts(s: C.Specification, rest: string)
    ensures C.Spelled(s) + rest == s.flags + (C.AmountText(s.width)
                                              + (PrecisionSpelling(s) + (s.modifier + ([s.conversion] + rest))))
    ensures |C.Spelled(s)| - 1 == |s.flags| + |C.AmountText(s.width)| + |PrecisionSpelling(s)| + |s.modifier|
    ensures (C.Spelled(s) + rest)[|C.Spelled(s)|..] == rest
  {
  }

  // ---------- integers ----------

  lemma FillIs(c: char, n: int)
    ensures Repeat(c, n) == C.Fill(c, n)
  {
    RepeatAll(c, n);
  }

  lemma DigitIs(d: nat, upper: bool)
    requires d < 16
    ensures DigitChar(d, upper) == C.Digit(d, upper)
  {
    assert d == 0 || d == 1 || d == 2 || d == 3 || d == 4 || d == 5 || d == 6 || d == 7 || d == 8 || d == 9
      || d == 10 || d == 11 || d == 12 || d == 13 || d == 14 || d == 15;
  }

  lemma {:induction false} NumeralIs(v: nat, base: nat, upper: bool)
    requires BaseOk(base) && v > 0
    ensures Reverse(RevDigits(v, base, upper)) == C.Numeral(v, base, upper)
    decreases v
  {
    Quotient(v, base);
    DigitIs(v % base, upper);
    hide DigitChar, C.Digit;
    var s := RevDigits(v, base, upper);
    if v < base {
      SingleReversed(s[0]);
    } else {
      NumeralIs(v / base, base, upper);
      assert s[1..] == RevDigits(v / base, base, upper);
    }
  }

  function Magnitude(v: int): nat { if v < 0 then -v else v }

  /** The number of digits of the argument that the source takes: none for 0 with a precision. */
  function DigitCount(s: C.Specification, precision: bool, v: int): nat {
    if v == 0 then if precision then 0 else 1
    else |C.Numeral(Magnitude(v), C.BaseOf(s.conversion), s.conversion == 'X')|
  }

  /** The flags and the argument, in the terms of the source. */
  predicate InTerms(s: C.Specification, e: Directive, w: Word) {
    && C.IntegerConversion(s.conversion) && e.length == LengthOf(s.modifier)
    && e.flags == e.flags.(zero := '0' in s.flags, plus := '+' in s.flags, space := ' ' in s.flags,
                           hash := '#' in s.flags, upper := false)
    && (s.conversion == 'b' ==> '#' !in s.flags) && s.modifier in ["", "hh", "h", "l", "t", "z"]
  }

  lemma CharRange(w: Word)
    ensures C.Reduced(w, 0x100, true) == if w % 0x100 < 0x80 then w % 0x100 else w % 0x100 - 0x100
  {
    var q, r := w / 0x100, w % 0x100;
    assert w + 0x80 == 0x100 * q + (r + 0x80);
  }

  lemma ShortRange(w: Word)
    ensures C.Reduced(w, 0x1_0000, true) == if w % 0x1_0000 < 0x8000 then w % 0x1_0000 else w % 0x1_0000 - 0x1_0000
  {
    var q, r := w / 0x1_0000, w % 0x1_0000;
    assert w + 0x8000 == 0x1_0000 * q + (r + 0x8000);
  }

  lemma WordRange(w: Word)
    ensures C.Reduced(w, 0x1_0000_0000, true) == Signed(w) && C.Reduced(w, 0x1_0000_0000, false) == w
  {
  }

  lemma KindIs(c: char)
    requires C.IntegerConversion(c)
    ensures IsInteger(c) && BaseOf(c) == C.BaseOf(c) && (IsSigned(c) <==> c in "di")
  {
  }

  /** The argument as the source takes it. */
  lemma ArgumentIs(modifier: string, w: Word)
    requires modifier in ["", "hh", "h", "l", "t", "z"]
    ensures SignedArg(LengthOf(modifier), w) == C.Reduced(w, C.Modulus(modifier), true)
    ensures UnsignedArg(LengthOf(modifier), w) == C.Reduced(w, C.Modulus(modifier), false)
    ensures !LengthOf(modifier).LongLong?
  {
    CharRange(w);
    ShortRange(w);
    WordRange(w);
    hide Signed;
    if modifier != "hh" && modifier != "h" {
      hide C.Reduced;
    }
  }

  lemma ValueIs(s: C.Specification, e: Directive, w: Word)
    requires InTerms(s, e, w)
    ensures var v := C.IntegerValue(s, w);
            && IsInteger(s.conversion) && !e.length.LongLong? && BaseOf(s.conversion) == C.BaseOf(s.conversion)
            && IntegerValue(e, s.conversion, w) == Magnitude(v) && (IsNegative(e, s.conversion, w) <==> v < 0)
  {
    KindIs(s.conversion);
    ArgumentIs(s.modifier, w);
    NegativeSigned(s, w);
    hide C.Reduced, C.Modulus, SignedArg, UnsignedArg, LengthOf, IsInteger, C.IntegerConversion, BaseOf, C.BaseOf;
    assert !IsSigned(s.conversion) ==> C.IntegerValue(s, w) >= 0;
  }

  lemma FlagsAre(s: C.Specification, e: Directive, w: Word)
    requires InTerms(s, e, w)
    ensures var c, f, v := s.conversion, IntegerFlags(e.flags, s.conversion), C.IntegerValue(s, w);
            && f.left == e.flags.left && f.precision == e.flags.precision && f.upper == (c == 'X')
            && e.flags.zero == ('0' in s.flags) && f.zero == ('0' in s.flags && !e.flags.precision)
            && f.hash == ('#' in s.flags && (c == 'o' || c == 'x' || c == 'X'))
            && Sign(v < 0, f) == C.SignText(s, v)
            && Prefix(Magnitude(v), C.BaseOf(c), f) == C.PrefixText(s, v)
  {
    hide C.IntegerValue;
    NegativeSigned(s, w);
  }

  lemma NegativeSigned(s: C.Specification, w: Word)
    ensures C.IntegerValue(s, w) < 0 ==> s.conversion in "di"
    ensures -0x8000_0000 <= C.IntegerValue(s, w) < 0x1_0000_0000
  {
  }

  lemma DigitsAre(s: C.Specification, f: Flags, v: int)
    requires -0x8000_0000 <= v < 0x1_0000_0000 && f.upper == (s.conversion == 'X')
    ensures |LongDigits(Magnitude(v), C.BaseOf(s.conversion), f)| == DigitCount(s, f.precision, v)
    ensures var digits := Reverse(LongDigits(Magnitude(v), C.BaseOf(s.conversion), f));
            if v != 0 then digits == C.Numeral(Magnitude(v), C.BaseOf(s.conversion), f.upper)
            else digits == if f.precision then "" else "0"
  {
    if v != 0 {
      NumeralIs(Magnitude(v), C.BaseOf(s.conversion), f.upper);
    }
    SingleReversed('0');
    ReverseLength(LongDigits(Magnitude(v), C.BaseOf(s.conversion), f));
  }

  /** Zeros in front of the digits, as the precision asks for. */
  lemma FilledIs(digits: string, numeral: string, p: Option<nat>)
    requires numeral == if digits == "0" && p.None? then "" else digits
    requires p.None? ==> digits != ""
    ensures Number(digits, if p.Some? then p.value else 0)
         == C.Fill('0', (if p.Some? then p.value else 1) - |numeral|) + numeral
  {
    var prec := if p.Some? then p.value else 0;
    FillIs('0', (if p.Some? then prec else 1) - |numeral|);
    hide C.Fill, Repeat;
    if digits == "0" && p.None? {
      OneZero();
    } else {
      NoneFilled(digits, prec);
    }
  }

  lemma NumberIs(s: C.Specification, f: Flags, p: Option<nat>, v: int)
    requires -0x8000_0000 <= v < 0x1_0000_0000 && f.upper == (s.conversion == 'X') && f.precision == p.Some?
    requires f.hash == ('#' in s.flags && (s.conversion == 'o' || s.conversion == 'x' || s.conversion == 'X'))
    ensures FirstZero(Number(Reverse(LongDigits(Magnitude(v), C.BaseOf(s.conversion), f)),
                             if p.Some? then p.value else 0), C.BaseOf(s.conversion), f)
         == C.NumberText(s, v, p)
  {
    var base := C.BaseOf(s.conversion);
    hide LongDigits, Reverse, C.Numeral, Number, C.Fill;
    DigitsAre(s, f, v);
    var digits, numeral := Reverse(LongDigits(Magnitude(v), base, f)), C.Numeral(Magnitude(v), base, f.upper);
    assert v == 0 ==> numeral == "" by { NoNumeral(base, f.upper); }
    if v != 0 {
      NotZero(v, base, f);
    }
    FilledIs(digits, numeral, p);
  }

  lemma NotZero(v: int, base: nat, f: Flags)
    requires -0x8000_0000 <= v < 0x1_0000_0000 && BaseOk(base) && v != 0
    ensures var digits := Reverse(LongDigits(Magnitude(v), base, f)); digits != "0" && digits != ""
  {
    FirstDigit(Magnitude(v), base, f);
  }

  lemma NoNumeral(base: nat, upper: bool)
    requires BaseOk(base)
    ensures C.Numeral(0, base, upper) == ""
  {
  }

  lemma OneZero()
    ensures Repeat('0', 1) == "0" && C.Fill('0', 1) + "" == "0" && Number("0", 0) == "0"
  {
    assert Repeat('0', 0) + ['0'] == "0";
    FillIs('0', 1);
  }

  lemma NoneFilled(digits: string, prec: nat)
    ensures Number(digits, prec) == Repeat('0', prec - |digits|) + digits
    ensures |digits| >= 1 ==> Repeat('0', 1 - |digits|) + digits == digits
  {
  }

  lemma PlacedIs(sign: string, number: string, width: nat, f: Flags)
    ensures Placed(sign, number, width, f) == C.Field(sign, number, f.left, f.zero, width)
  {
    var n := width - |sign| - |number|;
    FillIs(' ', n);
    FillIs('0', n);
    hide C.Fill, Repeat;
    if !f.left && f.zero {
      assert Number(number, Max(0, width - |sign|)) == Repeat('0', n) + number by {
        NoneFilled(number, Max(0, width - |sign|));
        NoZeros(n);
      }
      assert sign + Repeat('0', n) + number == sign + (Repeat('0', n) + number);
    } else if !f.left {
      assert Repeat(' ', n) + sign + number == Repeat(' ', n) + (sign + number);
    }
  }

  lemma NoZeros(n: int)
    ensures n <= 0 ==> Repeat('0', n) == ""
  {
  }

  /** The text that the comparison was made with is the text of the standard. */
  lemma FieldIs(s: C.Specification, e: Directive, p: Option<nat>, w: Word)
    requires InTerms(s, e, w) && e.flags.precision == p.Some? && e.precision == if p.Some? then p.value else 0
    ensures StandardInteger(e, s.conversion, w) == C.IntegerField(s, e.flags.left, e.width, p, C.IntegerValue(s, w))
  {
    hide InTerms, IntegerValue, IsNegative, BaseOf, C.BaseOf, IntegerFlags, C.IntegerValue, LongDigits, FirstZero,
      Number, Placed, C.Field, C.NumberText, Sign, C.SignText, Prefix, C.PrefixText, Reverse, IsInteger;
    var v, f := C.IntegerValue(s, w), IntegerFlags(e.flags, s.conversion);
    ValueIs(s, e, w);
    FlagsAre(s, e, w);
    NegativeSigned(s, w);
    NumberIs(s, f, p, v);
    PlacedIs(C.SignText(s, v) + C.PrefixText(s, v), C.NumberText(s, v, p), e.width, f);
  }

  // ---------- when the texts agree ----------

  predicate PrefixZero(s: C.Specification, v: int) { '#' in s.flags && v == 0 && s.conversion == 'o' }

  /** The characters that `#` adds to a number. */
  function PrefixLength(s: C.Specification, v: int): nat {
    if '#' !in s.flags || v == 0 then 0
    else if s.conversion == 'o' then 1
    else if s.conversion == 'x' || s.conversion == 'X' then 2
    else 0
  }

  /** With a prefix: the precision must not ask for zeros beside `-`, must leave room for the prefix, and must not ask
      for more than the octal digits unless it fills the 32-byte buffer; and the digits must not be as wide as the
      field, nor, with `0`, the field too narrow for digits and prefix. `n` digits are printed. */
  predicate PrefixAgrees(n: nat, prefix: nat, left: bool, zero: bool, width: nat, p: Option<nat>) {
    match p
    case Some(prec) =>
      if left then prec <= n + (if prefix == 1 then 1 else 0)
      else if prefix == 1 then prec <= n || prec == 32
      else prec + 2 <= 32
    case None => if zero && !left then width <= 32 && !(n <= width < n + prefix) else n != width
  }

  /** Without a prefix: no zeros are asked for beside `-`; zeros for the width, or sign and precision, fit into the
      32-byte buffer; or the sign that does not fit is a blank that looks like padding. */
  predicate PlainAgrees(n: nat, sign: string, left: bool, zero: bool, width: nat, p: Option<nat>) {
    match p
    case Some(prec) =>
      if left then prec <= n else prec + |sign| <= 32 || (prec == 32 < width && sign == " ")
    case None => zero && !left ==> width <= 32
  }

  /** When an integer conversion of the word `w` prints what the standard says: width and precision fit into 32 bits;
      with a negative precision argument, the value is not 0 and the flag `0` has no zeros to add. */
  predicate NumberAgrees(s: C.Specification, left: bool, width: nat, p: Option<nat>, negative: bool, w: Word) {
    var v, zero := C.IntegerValue(s, w), '0' in s.flags;
    var n := DigitCount(s, p.Some?, v);
    && Fits(width) && (p.Some? ==> Fits(p.value))
    && if negative then
         v != 0 && !(zero && !left && width > |C.SignText(s, v)| + PrefixLength(s, v) + n)
       else if PrefixLength(s, v) > 0 then PrefixAgrees(n, PrefixLength(s, v), left, zero, width, p)
       else PlainAgrees(n, C.SignText(s, v), left, zero, width, p) && !(PrefixZero(s, v) && p == Some(0))
  }

  predicate IntegerAgrees(s: C.Specification, args: seq<Word>, used: nat)
    requires C.Allowed(s)
  {
    NumberAgrees(s, C.LeftOf(s, args, used), C.FieldWidth(s, args, used), C.PrecisionOf(s, args, used),
        NegativeStar(s, args, used), C.Argument(args, C.Converted(s, used)))
  }

  lemma ConformsIs(s: C.Specification, f: Flags, p: Option<nat>, v: int, width: nat)
    requires -0x8000_0000 <= v < 0x1_0000_0000 && f.upper == (s.conversion == 'X') && f.precision == p.Some?
    requires f.hash == ('#' in s.flags && (s.conversion == 'o' || s.conversion == 'x' || s.conversion == 'X'))
    requires f.zero == ('0' in s.flags && p.None?) && Sign(v < 0, f) == C.SignText(s, v)
    ensures var n := DigitCount(s, p.Some?, v);
            Conforms(Magnitude(v), v < 0, C.BaseOf(s.conversion), if p.Some? then p.value else 0, width, f)
            <==> if PrefixLength(s, v) > 0 then PrefixAgrees(n, PrefixLength(s, v), f.left, '0' in s.flags, width, p)
                 else PlainAgrees(n, C.SignText(s, v), f.left, '0' in s.flags, width, p)
                      && !(PrefixZero(s, v) && p == Some(0))
  {
    DigitsAre(s, f, v);
    SignLength(v < 0, f);
    hide LongDigits, DigitCount, Sign, C.SignText;
  }

  lemma OmissibleIs(s: C.Specification, f: Flags, v: int, width: nat)
    requires -0x8000_0000 <= v < 0x1_0000_0000 && f.upper == (s.conversion == 'X') && f.precision
    requires f.hash == ('#' in s.flags && (s.conversion == 'o' || s.conversion == 'x' || s.conversion == 'X'))
    requires Sign(v < 0, f) == C.SignText(s, v)
    ensures Omissible(Magnitude(v), v < 0, C.BaseOf(s.conversion), width, f, '0' in s.flags)
            <==> v != 0 && !('0' in s.flags && !f.left
                             && width > |C.SignText(s, v)| + PrefixLength(s, v) + DigitCount(s, false, v))
  {
    DigitsAre(s, f, v);
    hide LongDigits, Sign, C.SignText, C.Numeral;
  }

  /** What both readings of an integer conversion have in common. */
  lemma TermsHold(s: C.Specification, args: seq<Word>, used: nat)
    requires C.Allowed(s) && C.IntegerConversion(s.conversion)
    ensures var d, e, w := Reading(s, args, used), Effective(s, args, used), C.Argument(args, C.Converted(s, used));
            && InTerms(s, d, w) && InTerms(s, e, w) && Readings(d, e, NegativeStar(s, args, used))
            && IsInteger(s.conversion) && !d.length.LongLong? && (d.flags.hash ==> BaseOf(s.conversion) != 2)
  {
    NegativeOmits(s, args, used);
    hide C.PrecisionOf, C.LeftOf, C.FieldWidth, NegativeStar, C.Argument, C.Spelled;
  }

  lemma FollowsIs(s: C.Specification, d: Directive, e: Directive, p: Option<nat>, negative: bool, w: Word)
    requires InTerms(s, d, w) && Readings(d, e, negative) && e.flags.precision == p.Some?
    requires e.precision == if p.Some? then p.value else 0
    ensures IntegerFollows(d, e, negative, s.conversion, w)
            <==> NumberAgrees(s, e.flags.left, e.width, p, negative, w)
  {
    hide InTerms, IntegerValue, IsNegative, BaseOf, C.BaseOf, IntegerFlags, C.IntegerValue, C.SignText, Conforms,
      Omissible, DigitCount, PlainAgrees, PrefixAgrees, PrefixLength, PrefixZero, Sign, Prefix, C.PrefixText,
      IsInteger;
    var f, v := IntegerFlags(d.flags, s.conversion), C.IntegerValue(s, w);
    ValueIs(s, d, w);
    FlagsAre(s, d, w);
    NegativeSigned(s, w);
    if Fits(e.width) && Fits(e.precision) {
      if negative {
        OmissibleIs(s, f, v, d.width);
      } else {
        ConformsIs(s, f, p, v, d.width);
      }
    }
  }

  lemma ConditionIs(s: C.Specification, args: seq<Word>, used: nat)
    requires C.Allowed(s) && C.IntegerConversion(s.conversion)
    ensures var d, e, w := Reading(s, args, used), Effective(s, args, used), C.Argument(args, C.Converted(s, used));
            IntegerFollows(d, e, NegativeStar(s, args, used), s.conversion, w) <==> IntegerAgrees(s, args, used)
  {
    hide InTerms, Readings, IntegerFollows, NumberAgrees, C.PrecisionOf, C.LeftOf, C.FieldWidth, NegativeStar,
      C.Spelled, C.Argument, C.WellFormed;
    TermsHold(s, args, used);
    FollowsIs(s, Reading(s, args, used), Effective(s, args, used), C.PrecisionOf(s, args, used),
        NegativeStar(s, args, used), C.Argument(args, C.Converted(s, used)));
  }

  lemma TextOfInteger(s: C.Specification, args: seq<Word>, used: nat, mem: map<Word, CText>)
    requires C.Allowed(s) && C.IntegerConversion(s.conversion)
    ensures var e, w := Effective(s, args, used), C.Argument(args, C.Converted(s, used));
            && e.precision == (if C.PrecisionOf(s, args, used).Some? then C.PrecisionOf(s, args, used).value else 0)
            && e.flags.precision == C.PrecisionOf(s, args, used).Some?
            && C.ConversionText(s, args, used, mem)
               == C.IntegerField(s, e.flags.left, e.width, C.PrecisionOf(s, args, used), C.IntegerValue(s, w))
  {
    hide C.IntegerField, C.PrecisionOf, C.LeftOf, C.FieldWidth, C.IntegerValue, C.Spelled, C.Argument;
  }

  /** An integer conversion prints what the standard says exactly under the condition above, for all flags, widths,
      precisions, lengths and arguments. */
  lemma IntegerStandard(s: C.Specification, args: seq<Word>, used: nat, mem: map<Word, CText>)
    requires C.Allowed(s) && C.IntegerConversion(s.conversion)
    ensures var w := C.Argument(args, C.Converted(s, used));
            IntegerText(Reading(s, args, used), s.conversion, w) == C.ConversionText(s, args, used, mem)
            <==> IntegerAgrees(s, args, used)
  {
    var d, e, w := Reading(s, args, used), Effective(s, args, used), C.Argument(args, C.Converted(s, used));
    hide IntegerText, StandardInteger, BaseOf, C.BaseOf, IntegerFollows, IntegerAgrees, InTerms, Readings,
      C.IntegerField, IntegerValue, IsNegative, C.IntegerValue, NegativeStar, IsInteger, C.PrecisionOf, C.LeftOf,
      C.FieldWidth, C.Spelled, Reading, C.Argument, C.Allowed, C.ConversionText, C.IntegerConversion, C.LeftOf;
    TextOfInteger(s, args, used, mem);
    TermsHold(s, args, used);
    ConditionIs(s, args, used);
    IntegerReadings(d, e, NegativeStar(s, args, used), s.conversion, w);
    FieldIs(s, e, C.PrecisionOf(s, args, used), w);
  }

  // ---------- characters and strings ----------

  lemma FieldBlank(text: string, d: Directive, width: nat)
    ensures C.Field("", text, d.flags.left, false, width)
         == if d.flags.left then text + Spaces(width - |text|) else Spaces(width - |text|) + text
  {
    FillIs(' ', width - |text|);
    hide C.Fill, Repeat;
    var t := Spaces(width - |text|);
    assert "" + text == text && t + "" == t;
  }

  lemma CharIs(e: Directive, w: Word)
    ensures CharText(e, w) == C.Field("", [(w % 0x100) as char], e.flags.left, false, e.width)
  {
    FieldBlank([(w % 0x100) as char], e, e.width);
    hide C.Field, Repeat;
  }

  lemma StringIs(e: Directive, p: Option<nat>, text: CText)
    requires e.flags.precision == p.Some? && e.precision == if p.Some? then p.value else 0
    ensures StringText(e, text) == C.StringField(e.flags.left, e.width, p, text)
  {
    FieldBlank(if p.Some? && p.value < |text| then text[..p.value] else text, e, e.width);
    hide C.Field, Repeat;
  }

  /** When a string conversion prints what the standard says: the width must fit into 32 bits, unless it asks for
      nothing; and if a negative precision argument, or one beyond 32 bits, makes the source print fewer characters,
      these must be blanks that the width asks for anyway. */
  predicate StringAgrees(s: C.Specification, args: seq<Word>, used: nat, text: CText)
    requires C.WellFormed(s)
  {
    var p, left, width := C.PrecisionOf(s, args, used), C.LeftOf(s, args, used), C.FieldWidth(s, args, used);
    var m := if p.Some? && p.value < |text| then p.value else |text|;
    var n := if NegativeStar(s, args, used) then 0
             else if p.Some? && p.value % 0x1_0000_0000 < |text| then p.value % 0x1_0000_0000
             else |text|;
    if !Fits(width) then width <= m && n == m
    else n < m ==> m <= width && if left then text[n..m] == C.Fill(' ', m - n) else text[..m] == C.Fill(' ', m)
  }

  lemma StringConditionIs(s: C.Specification, args: seq<Word>, used: nat, text: CText)
    requires C.WellFormed(s)
    ensures StringFollows(Reading(s, args, used), Effective(s, args, used), text) <==> StringAgrees(s, args, used, text)
  {
    hide C.PrecisionOf, C.LeftOf, C.FieldWidth, NegativeStar, C.Spelled, Repeat, C.Fill;
    NegativeOmits(s, args, used);
    var m := Cut(Effective(s, args, used), text);
    FillIs(' ', m);
    FillIs(' ', m - Cut(Reading(s, args, used), text));
  }

  lemma StringStandard(s: C.Specification, args: seq<Word>, used: nat, mem: map<Word, CText>)
    requires C.Allowed(s) && s.conversion == 's'
    ensures var text := C.StringOf(mem, C.Argument(args, C.Converted(s, used)));
            StringText(Reading(s, args, used), text) == C.ConversionText(s, args, used, mem)
            <==> StringAgrees(s, args, used, text)
  {
    var text := C.StringOf(mem, C.Argument(args, C.Converted(s, used)));
    var d, e, p := Reading(s, args, used), Effective(s, args, used), C.PrecisionOf(s, args, used);
    hide StringText, StringFollows, StringAgrees, C.StringField, C.PrecisionOf, C.LeftOf, C.FieldWidth, NegativeStar,
      C.Spelled, C.StringOf, C.Argument;
    NegativeOmits(s, args, used);
    StringReadings(d, e, NegativeStar(s, args, used), text);
    StringConditionIs(s, args, used, text);
    StringIs(e, p, text);
  }

  lemma CharStandard(s: C.Specification, args: seq<Word>, used: nat, mem: map<Word, CText>)
    requires C.Allowed(s) && s.conversion == 'c'
    ensures var w := C.Argument(args, C.Converted(s, used));
            CharText(Reading(s, args, used), w) == C.ConversionText(s, args, used, mem)
            <==> Fits(C.FieldWidth(s, args, used))
  {
    var d, e, w := Reading(s, args, used), Effective(s, args, used), C.Argument(args, C.Converted(s, used));
    hide CharText, C.Field, C.PrecisionOf, C.LeftOf, C.FieldWidth, NegativeStar, C.Spelled, C.Argument;
    NegativeOmits(s, args, used);
    CharReadings(d, e, NegativeStar(s, args, used), w);
    CharIs(e, w);
  }

  // ---------- directives and format strings ----------

  /** When a conversion specification prints what the standard says. */
  predicate Agrees(s: C.Specification, args: seq<Word>, used: nat, mem: map<Word, CText>)
    requires C.Allowed(s)
  {
    if s.conversion == 'c' then Fits(C.FieldWidth(s, args, used))
    else if s.conversion == 's' then
      StringAgrees(s, args, used, C.StringOf(mem, C.Argument(args, C.Converted(s, used))))
    else IntegerAgrees(s, args, used)
  }

  lemma ConvertedIs(s: C.Specification, args: seq<Word>, used: nat, mem: map<Word, CText>)
    requires C.Allowed(s)
    ensures var d, w := Reading(s, args, used), C.Argument(args, C.Converted(s, used));
            && Converted(d, s.conversion, args, mem).1 == C.Converted(s, used) + 1
            && Converted(d, s.conversion, args, mem).0 ==
                 if s.conversion == 'c' then CharText(d, w)
                 else if s.conversion == 's' then StringText(d, C.StringOf(mem, w))
                 else IntegerText(d, s.conversion, w)
  {
    hide IntegerText, CharText, StringText, C.PrecisionOf, C.LeftOf, C.FieldWidth, NegativeStar, C.Spelled;
    assert Arg(args, C.Converted(s, used)) == C.Argument(args, C.Converted(s, used));
    if s.conversion != 'c' && s.conversion != 's' {
      KindIs(s.conversion);
    }
  }

  /** A conversion specification, whatever follows it, prints what the standard says exactly under the condition above,
      and always takes the arguments that the standard says. */
  lemma DirectiveStandard(s: C.Specification, rest: string, args: seq<Word>, used: nat, mem: map<Word, CText>)
    requires C.Allowed(s)
    ensures var f := C.Spelled(s) + rest;
            var d := Parse(f, args, used);
            && d.pos < |f| && f[d.pos] == s.conversion && f[d.pos + 1..] == rest
            && Converted(d, s.conversion, args, mem).1 == C.Converted(s, used) + 1
            && (Converted(d, s.conversion, args, mem).0 == C.ConversionText(s, args, used, mem)
                <==> Agrees(s, args, used, mem))
  {
    hide Parse, Reading, Converted, C.ConversionText, IntegerAgrees, StringAgrees, C.Spelled, IntegerText, StringText,
      CharText, C.FieldWidth, C.StringOf, C.Argument, Fits;
    ParsesSpecification(s, rest, args, used);
    ConvertedIs(s, args, used, mem);
    if s.conversion == 'c' {
      CharStandard(s, args, used, mem);
    } else if s.conversion == 's' {
      StringStandard(s, args, used, mem);
    } else {
      IntegerStandard(s, args, used, mem);
    }
  }

  predicate AllAgree(ps: seq<C.Piece>, args: seq<Word>, used: nat, mem: map<Word, CText>)
    requires C.Pieces(ps)
  {
    ps != [] ==>
      && (ps[0].Conversion? ==> Agrees(ps[0].s, args, used, mem))
      && AllAgree(ps[1..], args, C.PieceUsed(ps[0], used), mem)
  }

  lemma {:induction false} FormatNoNul(ps: seq<C.Piece>)
    requires C.Pieces(ps)
    ensures '\0' !in C.Format(ps)
  {
    if ps != [] {
      FormatNoNul(ps[1..]);
      PieceNoNul(ps[0]);
    }
  }

  lemma PieceNoNul(p: C.Piece)
    requires C.PieceOk(p)
    ensures '\0' !in C.PieceSpelled(p)
  {
    if p.Conversion? {
      var s := p.s;
      AmountNoNul(s.width);
      AmountNoNul(s.precision);
      ModifierNoNul(s);
      hide C.AmountText;
    }
  }

  lemma AmountNoNul(a: C.Amount)
    requires a.Digits? ==> C.Numeric(a.text)
    ensures '\0' !in C.AmountText(a)
  {
  }

  lemma ModifierNoNul(s: C.Specification)
    requires C.WellFormed(s)
    ensures '\0' !in s.flags && '\0' !in s.modifier && s.conversion != '\0'
  {
  }

  /** A format string whose specifications all agree prints the text that the standard says. */
  lemma {:induction false} TextStandard(ps: seq<C.Piece>, args: seq<Word>, used: nat, mem: map<Word, CText>)
    requires C.Pieces(ps) && AllAgree(ps, args, used, mem)
    ensures '\0' !in C.Format(ps) && Text(C.Format(ps), args, used, mem) == C.Output(ps, args, used, mem)
  {
    FormatNoNul(ps);
    if ps != [] {
      hide Agrees, Text, C.PieceSpelled, C.PieceText, C.PieceUsed;
      TextStandard(ps[1..], args, C.PieceUsed(ps[0], used), mem);
      PieceStandard(ps[0], C.Format(ps[1..]), args, used, mem);
    }
  }

  /** One piece in front of a format string. */
  lemma PieceStandard(p: C.Piece, rest: CText, args: seq<Word>, used: nat, mem: map<Word, CText>)
    requires C.PieceOk(p) && (p.Conversion? ==> Agrees(p.s, args, used, mem)) && '\0' !in C.PieceSpelled(p) + rest
    ensures Text(C.PieceSpelled(p) + rest, args, used, mem)
         == C.PieceText(p, args, used, mem) + Text(rest, args, C.PieceUsed(p, used), mem)
  {
    hide Agrees, C.Spelled, C.ConversionText, Text, C.Allowed, C.Converted;
    match p {
      case Plain(c) => PlainText(c, rest, args, used, mem);
      case Percent => PercentText(rest, args, used, mem);
      case Conversion(s) =>
        assert C.PieceSpelled(p) + rest == "%" + (C.Spelled(s) + rest);
        ConversionStandard(s, rest, args, used, mem);
    }
  }

  lemma PercentText(rest: CText, args: seq<Word>, used: nat, mem: map<Word, CText>)
    requires '\0' !in "%%" + rest
    ensures Text("%%" + rest, args, used, mem) == "%" + Text(rest, args, used, mem)
  {
    hide Converted, Parse, Text;
    var f: CText := "%%" + rest;
    assert f[1..] == "%" + rest;
    PercentParsed(rest, args, used, mem);
    TextDirective(f, args, used, mem);
  }

  lemma ConversionStandard(s: C.Specification, rest: CText, args: seq<Word>, used: nat, mem: map<Word, CText>)
    requires C.Allowed(s) && Agrees(s, args, used, mem) && '\0' !in "%" + (C.Spelled(s) + rest)
    ensures Text("%" + (C.Spelled(s) + rest), args, used, mem)
         == C.ConversionText(s, args, used, mem) + Text(rest, args, C.Converted(s, used) + 1, mem)
  {
    hide Agrees, C.Spelled, C.ConversionText, Converted, Parse, Text, C.Allowed, C.Converted;
    var f: CText := "%" + (C.Spelled(s) + rest);
    assert f[1..] == C.Spelled(s) + rest;
    DirectiveStandard(s, rest, args, used, mem);
    TextDirective(f, args, used, mem);
  }

  lemma PlainText(c: char, rest: CText, args: seq<Word>, used: nat, mem: map<Word, CText>)
    requires c != '%' && '\0' !in [c] + rest
    ensures Text([c] + rest, args, used, mem) == [c] + Text(rest, args, used, mem)
  {
    assert ([c] + rest)[1..] == rest;
  }

  lemma PercentParsed(rest: string, args: seq<Word>, used: nat, mem: map<Word, CText>)
    ensures var f := "%" + rest;
            && Parse(f, args, used).pos == 0 && f[1..] == rest
            && Converted(Parse(f, args, used), '%', args, mem) == ("%", used)
  {
    hide IntegerText, NumberAt, DigitRun, FlagsOf;
    var f := "%" + rest;
    assert At(f, 0) == '%';
  }

  /** Every format string made of pieces can be printed. */
  lemma {:induction false} FormatComplete(ps: seq<C.Piece>)
    requires C.Pieces(ps)
    ensures '\0' !in C.Format(ps) && Complete(C.Format(ps))
  {
    FormatNoNul(ps);
    if ps != [] {
      hide C.PieceSpelled, Complete;
      FormatComplete(ps[1..]);
      PieceComplete(ps[0], C.Format(ps[1..]));
    } else {
      assert C.Format(ps) == "";
    }
  }

  lemma PieceComplete(p: C.Piece, rest: CText)
    requires C.PieceOk(p) && Complete(rest) && '\0' !in C.PieceSpelled(p) + rest
    ensures Complete(C.PieceSpelled(p) + rest)
  {
    hide C.Spelled, Complete, C.Allowed;
    match p {
      case Plain(c) => CompletePlain([c] + rest, rest);
      case Percent => CompletePercent(rest);
      case Conversion(s) =>
        assert C.PieceSpelled(p) + rest == "%" + (C.Spelled(s) + rest);
        CompleteConversion(s, rest);
    }
  }

  lemma CompletePercent(rest: CText)
    requires Complete(rest) && '\0' !in "%%" + rest
    ensures Complete("%%" + rest)
  {
    hide Parse, Complete;
    var f: CText := "%%" + rest;
    assert f[1..] == "%" + rest;
    PercentParsed(rest, [], 0, map[]);
    CompleteBehind(f, rest);
  }

  lemma CompleteConversion(s: C.Specification, rest: CText)
    requires C.Allowed(s) && Complete(rest) && '\0' !in "%" + (C.Spelled(s) + rest)
    ensures Complete("%" + (C.Spelled(s) + rest))
  {
    hide C.Spelled, Parse, Complete, C.Allowed;
    var f: CText := "%" + (C.Spelled(s) + rest);
    assert f[1..] == C.Spelled(s) + rest;
    DirectiveEnds(s, rest);
    CompleteBehind(f, rest);
  }

  lemma DirectiveEnds(s: C.Specification, rest: string)
    requires C.Allowed(s)
    ensures var f := C.Spelled(s) + rest; Parse(f, [], 0).pos < |f| && f[Parse(f, [], 0).pos + 1..] == rest
  {
    hide C.Spelled, Parse;
    ParsesSpecification(s, rest, [], 0);
  }

  lemma CompletePlain(f: CText, rest: CText)
    requires f != "" && f[0] != '%' && f[1..] == rest && Complete(rest)
    ensures Complete(f)
  {
  }

  lemma CompleteBehind(f: CText, rest: CText)
    requires f != "" && f[0] == '%' && Complete(rest)
    requires Parse(f[1..], [], 0).pos < |f[1..]| && f[1..][Parse(f[1..], [], 0).pos + 1..] == rest
    ensures Complete(f)
  {
    hide Parse;
  }

  // ---------- conversions of the source ----------

  /** Integers of more than 32 bits are not supported: nothing is printed, and no argument is taken for the number. */
  lemma LongLongSilent(s: C.Specification, rest: string, args: seq<Word>, used: nat, mem: map<Word, CText>)
    requires C.WellFormed(s) && (s.modifier == "ll" || s.modifier == "j")
    ensures var f := C.Spelled(s) + rest;
            var d := Parse(f, args, used);
            && d.pos < |f| && f[d.pos] == s.conversion && f[d.pos + 1..] == rest
            && Converted(d, s.conversion, args, mem) == ("", C.Converted(s, used))
  {
    hide Parse, C.Spelled, C.PrecisionOf, C.LeftOf, C.FieldWidth, NegativeStar, LongText, SignedArg, UnsignedArg;
    ParsesSpecification(s, rest, args, used);
    KindIs(s.conversion);
  }

  /** What `%p` is the same as: `%08X`. */
  function PointerLike(): C.Specification { C.Specification("0", C.Digits("8"), C.Omitted, "", 'X') }

  /** `%p` prints 8 hexadecimal digits in upper case. */
  lemma PointerStandard(rest: string, args: seq<Word>, used: nat, mem: map<Word, CText>)
    ensures C.Allowed(PointerLike())
    ensures var f := "p" + rest;
            && Parse(f, args, used).pos == 0 && f[1..] == rest
            && Converted(Parse(f, args, used), 'p', args, mem)
               == (C.ConversionText(PointerLike(), args, used, mem), used + 1)
  {
    hide Parse, Converted, PointerText, C.ConversionText, C.Allowed;
    PointerParsed(rest, args, used, mem);
    PointerPrinted(args, used, mem);
  }

  lemma PointerParsed(rest: string, args: seq<Word>, used: nat, mem: map<Word, CText>)
    ensures var f, d := "p" + rest, Directive(NoFlags(), 0, 0, Length.Plain, 0, used);
            && Parse(f, args, used).pos == 0 && f[1..] == rest
            && Converted(Parse(f, args, used), 'p', args, mem) == (PointerText(d, Arg(args, used)), used + 1)
  {
    var f := "p" + rest;
    assert At(f, 0) == 'p';
    hide PointerText, IntegerText;
    assert Parse(f, args, used) == Directive(NoFlags(), 0, 0, Length.Plain, 0, used);
  }

  lemma PointerPrinted(args: seq<Word>, used: nat, mem: map<Word, CText>)
    ensures C.Allowed(PointerLike())
    ensures PointerText(Directive(NoFlags(), 0, 0, Length.Plain, 0, used), Arg(args, used))
         == C.ConversionText(PointerLike(), args, used, mem)
  {
    hide PointerText, C.ConversionText, C.Allowed, IntegerText, Reading, IntegerAgrees, C.FieldWidth, C.PrecisionOf,
      C.LeftOf, NegativeStar;
    PointerSpecification(args, used);
    CommonIntegers(PointerLike(), args, used);
    IntegerStandard(PointerLike(), args, used, mem);
    PointerReading(args, used);
  }

  lemma PointerSpecification(args: seq<Word>, used: nat)
    ensures var s := PointerLike();
            && C.Allowed(s) && C.IntegerConversion(s.conversion) && C.FieldWidth(s, args, used) == 8
            && C.PrecisionOf(s, args, used).None? && !NegativeStar(s, args, used) && !C.LeftOf(s, args, used)
            && C.Converted(s, used) == used
  {
    assert "8"[..0] == "";
    assert C.Value("8") == 8;
  }

  lemma PointerReading(args: seq<Word>, used: nat)
    ensures var s := PointerLike();
            && C.Allowed(s)
            && IntegerText(Reading(s, args, used), 'X', Arg(args, used))
               == PointerText(Directive(NoFlags(), 0, 0, Length.Plain, 0, used), Arg(args, used))
  {
    hide C.Spelled, LongText, C.Allowed, C.FieldWidth, C.PrecisionOf, C.LeftOf, NegativeStar;
    PointerSpecification(args, used);
    IntegerTextIs(Reading(PointerLike(), args, used), 'X', Arg(args, used));
  }

  /** Within these bounds every integer conversion prints what the standard says. */
  lemma CommonIntegers(s: C.Specification, args: seq<Word>, used: nat)
    requires C.Allowed(s) && C.IntegerConversion(s.conversion) && '#' !in s.flags
    requires C.FieldWidth(s, args, used) <= 32 && !NegativeStar(s, args, used)
    requires var p := C.PrecisionOf(s, args, used);
             p.None? || (p.value <= 31 && !C.LeftOf(s, args, used))
    ensures IntegerAgrees(s, args, used)
  {
    hide C.FieldWidth, C.PrecisionOf, C.LeftOf, NegativeStar, DigitCount, C.IntegerValue;
  }
}
