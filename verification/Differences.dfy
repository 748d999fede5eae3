// Format strings with which the source does not print what C99 says.
module Differences {
  import opened Machine
  import opened Format
  import opened Directives
  import opened Options
  import opened Agreement
  import C = CStandard

  /** The texts of a format string that is one conversion specification. */
  lemma OneConversion(s: C.Specification, format: CText, args: seq<Word>, mem: map<Word, CText>)
    requires C.Allowed(s) && format == "%" + C.Spelled(s)
    ensures C.Format([C.Conversion(s)]) == format
    ensures Text(format, args, 0, mem) == Converted(Reading(s, args, 0), s.conversion, args, mem).0
    ensures C.Output([C.Conversion(s)], args, 0, mem) == C.ConversionText(s, args, 0, mem)
  {
    hide Parse, Converted, C.Spelled, C.ConversionText, Text, Reading, C.WellFormed;
    assert C.Spelled(s) + "" == C.Spelled(s) && format[1..] == C.Spelled(s);
    ParsesSpecification(s, "", args, 0);
    TextDirective(format, args, 0, mem);
    NothingLeft(args, 0, mem);
    OnePiece(s, args, mem);
    var t := Converted(Reading(s, args, 0), s.conversion, args, mem).0;
    assert t + "" == t;
  }

  lemma NothingLeft(args: seq<Word>, used: nat, mem: map<Word, CText>)
    ensures forall n: nat :: Text("", args, n, mem) == ""
  {
  }

  lemma OnePiece(s: C.Specification, args: seq<Word>, mem: map<Word, CText>)
    requires C.Allowed(s)
    ensures C.Format([C.Conversion(s)]) == "%" + C.Spelled(s)
    ensures C.Output([C.Conversion(s)], args, 0, mem) == C.ConversionText(s, args, 0, mem)
  {
    hide C.Spelled, C.ConversionText;
    var ps := [C.Conversion(s)];
    assert ps[1..] == [];
    assert ("%" + C.Spelled(s)) + "" == "%" + C.Spelled(s);
    assert C.ConversionText(s, args, 0, mem) + "" == C.ConversionText(s, args, 0, mem);
  }

  lemma OneDigit(n: nat)
    requires n < 10
    ensures RevDigits(n, 10, false) == [DigitChar(n, false)]
    ensures C.Numeral(n, 10, false) == if n == 0 then "" else [C.Digit(n, false)]
  {
    if n > 0 {
      assert n / 10 == 0 && n % 10 == n;
      assert C.Numeral(n, 10, false) == C.Numeral(0, 10, false) + [C.Digit(n, false)];
    }
  }

  lemma NoSpaces(n: int)
    requires n <= 0
    ensures Spaces(n) == "" && C.Fill(' ', n) == "" && C.Fill('0', n) == ""
  {
  }

  /** A field that its text fills. */
  lemma FullField(prefix: string, body: string, left: bool, zeros: bool, width: nat)
    requires width <= |prefix| + |body|
    ensures C.Field(prefix, body, left, zeros, width) == prefix + body
  {
    var n := width - |prefix| - |body|;
    assert C.Fill(' ', n) == "" && C.Fill('0', n) == "";
    assert prefix + "" == prefix && "" + prefix == prefix && (prefix + body) + "" == prefix + body;
  }

  lemma OneDigitValue(c: char)
    requires '0' <= c <= '9'
    ensures C.Value([c]) == c as int - '0' as int
  {
    assert [c][..0] == "";
  }

  // ---------- zeros beside the flag - ----------

  function LeftThree(): C.Specification { C.Specification("-", C.Omitted, C.Digits("3"), "", 'd') }

  lemma FiveText(d: Directive)
    requires d.length == Length.Plain && d.width == 0 && d.precision == 3
    requires d.flags == NoFlags().(left := true, precision := true)
    ensures IntegerText(d, 'd', 5) == "5"
  {
    hide Repeat;
    OneDigit(5);
    SingleReversed('5');
    NoSpaces(-1);
    assert "5" + "" == "5";
  }

  lemma LeftThreeRead(args: seq<Word>)
    ensures C.Allowed(LeftThree())
    ensures Reading(LeftThree(), args, 0) ==
              Directive(NoFlags().(left := true, precision := true), 0, 3, Length.Plain, 3, 0)
    ensures C.FieldWidth(LeftThree(), args, 0) == 0 && C.LeftOf(LeftThree(), args, 0)
    ensures C.PrecisionOf(LeftThree(), args, 0) == Some(3)
  {
    OneDigitValue('3');
  }

  lemma FiveNumber()
    ensures C.NumberText(LeftThree(), 5, Some(3)) == "005" && C.IntegerValue(LeftThree(), 5) == 5
  {
    OneDigit(5);
    hide C.Numeral;
    assert C.Fill('0', 2) == "00";
  }

  lemma FiveStandard(mem: map<Word, CText>)
    requires C.Allowed(LeftThree())
    ensures C.ConversionText(LeftThree(), [5], 0, mem) == "005"
  {
    hide C.NumberText, C.IntegerValue, C.LeftOf, C.FieldWidth, C.PrecisionOf, C.Allowed, C.Field;
    LeftThreeRead([5]);
    FiveNumber();
    assert C.SignText(LeftThree(), 5) + C.PrefixText(LeftThree(), 5) == "";
    FullField("", "005", true, false, 0);
    assert "" + "005" == "005";
  }

  /** `%-.3d` prints the number 5 without the zeros that the precision asks for. */
  lemma ForgottenZeros()
    ensures C.Allowed(LeftThree()) && C.Format([C.Conversion(LeftThree())]) == "%-.3d"
    ensures Text("%-.3d", [5], 0, map[]) == "5"
    ensures C.Output([C.Conversion(LeftThree())], [5], 0, map[]) == "005"
  {
    hide C.ConversionText, Text, C.Output, Reading, IntegerText, C.Format;
    LeftThreeRead([5]);
    FiveStandard(map[]);
    assert "%-.3d" == "%" + C.Spelled(LeftThree());
    OneConversion(LeftThree(), "%-.3d", [5], map[]);
    FiveText(Reading(LeftThree(), [5], 0));
  }

  // ---------- zeros that fill the buffer ----------

  function WideZeros(): C.Specification { C.Specification("0", C.Digits("40"), C.Omitted, "", 'd') }

  lemma WideZerosRead(args: seq<Word>)
    ensures C.Allowed(WideZeros())
    ensures Reading(WideZeros(), args, 0) == Directive(NoFlags().(zero := true), 40, 0, Length.Plain, 3, 0)
    ensures C.FieldWidth(WideZeros(), args, 0) == 40 && !C.LeftOf(WideZeros(), args, 0)
    ensures C.PrecisionOf(WideZeros(), args, 0).None?
  {
    Forty();
    hide C.Value;
  }

  lemma Forty()
    ensures C.Value("40") == 40
  {
    assert "40"[..1] == "4" && "4"[..0] == "";
  }

  lemma WideText(d: Directive)
    requires d.length == Length.Plain && d.width == 40 && d.precision == 0 && d.flags == NoFlags().(zero := true)
    ensures IntegerText(d, 'd', 0xFFFF_FFFB) == C.Fill('0', 31) + "5"
  {
    FillIs('0', 31);
    hide Repeat, Reverse, C.Fill;
    var f := IntegerFlags(d.flags, 'd');
    OneDigit(5);
    SingleReversed('5');
    assert LongDigits(5, 10, f) == ['5'];
    var z := Zeroed(['5'], true, 0, 40, f);
    assert z == ['5'] + ZeroDigits(31);
    assert Finished(['5'], true, 10, 0, 40, f) == z;
    ReverseConcat(['5'], ZeroDigits(31));
    ReverseZeros(31);
  }

  lemma WideNumber()
    ensures C.NumberText(WideZeros(), -5, None) == "5" && C.IntegerValue(WideZeros(), 0xFFFF_FFFB) == -5
  {
    OneDigit(5);
    hide C.Numeral;
    NoSpaces(0);
    assert "" + "5" == "5";
  }

  lemma WideStandard(mem: map<Word, CText>)
    requires C.Allowed(WideZeros())
    ensures C.ConversionText(WideZeros(), [0xFFFF_FFFB], 0, mem) == "-" + C.Fill('0', 38) + "5"
  {
    hide C.NumberText, C.IntegerValue, C.LeftOf, C.FieldWidth, C.PrecisionOf, C.Allowed, C.Fill;
    WideZerosRead([0xFFFF_FFFB]);
    WideNumber();
    assert C.SignText(WideZeros(), -5) + C.PrefixText(WideZeros(), -5) == "-";
  }

  /** `%040d` prints the number -5 without its sign. */
  lemma ForgottenSign()
    ensures C.Allowed(WideZeros()) && C.Format([C.Conversion(WideZeros())]) == "%040d"
    ensures Text("%040d", [0xFFFF_FFFB], 0, map[]) == C.Fill('0', 31) + "5"
    ensures C.Output([C.Conversion(WideZeros())], [0xFFFF_FFFB], 0, map[]) == "-" + C.Fill('0', 38) + "5"
  {
    hide C.ConversionText, Text, C.Output, Reading, IntegerText, C.Format, C.Fill;
    WideZerosRead([0xFFFF_FFFB]);
    WideStandard(map[]);
    assert "%040d" == "%" + C.Spelled(WideZeros());
    OneConversion(WideZeros(), "%040d", [0xFFFF_FFFB], map[]);
    WideText(Reading(WideZeros(), [0xFFFF_FFFB], 0));
  }

  // ---------- digits that give way to a prefix ----------

  function NarrowHash(): C.Specification { C.Specification("#", C.Digits("4"), C.Omitted, "", 'x') }

  lemma NarrowHashRead(args: seq<Word>)
    ensures C.Allowed(NarrowHash())
    ensures Reading(NarrowHash(), args, 0) == Directive(NoFlags().(hash := true), 4, 0, Length.Plain, 2, 0)
    ensures C.FieldWidth(NarrowHash(), args, 0) == 4 && !C.LeftOf(NarrowHash(), args, 0)
    ensures C.PrecisionOf(NarrowHash(), args, 0).None?
  {
    OneDigitValue('4');
  }

  lemma ReverseFour(a: char, b: char, c: char, d: char)
    ensures Reverse([a, b, c, d]) == [d, c, b, a]
  {
    ReverseConcat([a, b], [c, d]);
    ReverseConcat([a], [b]);
    ReverseConcat([c], [d]);
    SingleReversed(a);
    SingleReversed(b);
    SingleReversed(c);
    SingleReversed(d);
    hide Reverse;
    assert [a, b] + [c, d] == [a, b, c, d] && [a] + [b] == [a, b] && [c] + [d] == [c, d];
  }

  lemma HexDigits()
    ensures RevDigits(0xABCD, 16, false) == ['d', 'c', 'b', 'a']
  {
    assert RevDigits(0xA, 16, false) == ['a'];
    assert RevDigits(0xAB, 16, false) == ['b', 'a'];
    assert RevDigits(0xABC, 16, false) == ['c', 'b', 'a'];
  }

  lemma NarrowText(d: Directive)
    requires d.length == Length.Plain && d.width == 4 && d.precision == 0 && d.flags == NoFlags().(hash := true)
    ensures IntegerText(d, 'x', 0xABCD) == "0xcd"
  {
    var f := IntegerFlags(d.flags, 'x');
    HexDigits();
    ReverseFour('d', 'c', 'x', '0');
    hide RevDigits, Reverse, Repeat;
    var digits := ['d', 'c', 'b', 'a'];
    assert LongDigits(0xABCD, 16, f) == digits;
    assert Finished(digits, false, 16, 0, 4, f) == ['d', 'c', 'x', '0'];
    NoSpaces(0);
    assert FormatText(digits, false, 16, 0, 4, f) == "" + ['0', 'x', 'c', 'd'];
  }

  lemma HexNumeral()
    ensures C.Numeral(0xABCD, 16, false) == "abcd"
  {
    HexDigits();
    NumeralIs(0xABCD, 16, false);
    ReverseFour('d', 'c', 'b', 'a');
  }

  lemma NarrowNumber()
    ensures C.NumberText(NarrowHash(), 0xABCD, None) == "abcd" && C.IntegerValue(NarrowHash(), 0xABCD) == 0xABCD
  {
    HexNumeral();
    hide C.Numeral;
    NoSpaces(-3);
    assert "" + "abcd" == "abcd";
  }

  lemma NarrowStandard(mem: map<Word, CText>)
    requires C.Allowed(NarrowHash())
    ensures C.ConversionText(NarrowHash(), [0xABCD], 0, mem) == "0xabcd"
  {
    hide C.NumberText, C.IntegerValue, C.LeftOf, C.FieldWidth, C.PrecisionOf, C.Allowed, C.Field;
    NarrowHashRead([0xABCD]);
    NarrowNumber();
    assert C.SignText(NarrowHash(), 0xABCD) + C.PrefixText(NarrowHash(), 0xABCD) == "0x";
    FullField("0x", "abcd", false, false, 4);
    assert "0x" + "abcd" == "0xabcd";
  }

  /** `%#4x` prints the number 0xABCD without its first two digits. */
  lemma ForgottenDigits()
    ensures C.Allowed(NarrowHash()) && C.Format([C.Conversion(NarrowHash())]) == "%#4x"
    ensures Text("%#4x", [0xABCD], 0, map[]) == "0xcd"
    ensures C.Output([C.Conversion(NarrowHash())], [0xABCD], 0, map[]) == "0xabcd"
  {
    hide C.ConversionText, Text, C.Output, Reading, IntegerText, C.Format;
    NarrowHashRead([0xABCD]);
    NarrowStandard(map[]);
    assert "%#4x" == "%" + C.Spelled(NarrowHash());
    OneConversion(NarrowHash(), "%#4x", [0xABCD], map[]);
    NarrowText(Reading(NarrowHash(), [0xABCD], 0));
  }

  // ---------- a negative precision argument ----------

  function StarPrecision(c: char): C.Specification { C.Specification("", C.Omitted, C.Star, "", c) }

  lemma StarRead(c: char, args: seq<Word>)
    requires (c == 'd' || c == 's') && |args| > 0 && args[0] == 0xFFFF_FFFF
    ensures C.Allowed(StarPrecision(c))
    ensures Reading(StarPrecision(c), args, 0) ==
              Directive(NoFlags().(precision := true), 0, 0, Length.Plain, 2, 1)
    ensures C.FieldWidth(StarPrecision(c), args, 0) == 0 && !C.LeftOf(StarPrecision(c), args, 0)
    ensures C.PrecisionOf(StarPrecision(c), args, 0).None?
  {
    assert C.IntArgument(args, 0) == -1;
  }

  lemma EmptyText(d: Directive)
    requires d.length == Length.Plain && d.width == d.precision == 0 && d.flags == NoFlags().(precision := true)
    ensures IntegerText(d, 'd', 0) == ""
  {
  }

  lemma ZeroNumber()
    ensures C.NumberText(StarPrecision('d'), 0, None) == "0" && C.IntegerValue(StarPrecision('d'), 0) == 0
  {
    OneDigit(0);
    hide C.Numeral;
    assert C.Fill('0', 1) + "" == "0";
  }

  lemma ZeroStandard(args: seq<Word>, mem: map<Word, CText>)
    requires C.Allowed(StarPrecision('d')) && args == [0xFFFF_FFFF, 0]
    ensures C.ConversionText(StarPrecision('d'), args, 0, mem) == "0"
  {
    hide C.NumberText, C.IntegerValue, C.LeftOf, C.FieldWidth, C.PrecisionOf, C.Allowed, C.Field;
    StarRead('d', args);
    ZeroNumber();
    assert C.SignText(StarPrecision('d'), 0) + C.PrefixText(StarPrecision('d'), 0) == "";
    FullField("", "0", false, false, 0);
    assert "" + "0" == "0";
  }

  /** `%.*d` with a negative precision shows nothing for the number 0. */
  lemma HiddenZero()
    ensures C.Allowed(StarPrecision('d')) && C.Format([C.Conversion(StarPrecision('d'))]) == "%.*d"
    ensures Text("%.*d", [0xFFFF_FFFF, 0], 0, map[]) == ""
    ensures C.Output([C.Conversion(StarPrecision('d'))], [0xFFFF_FFFF, 0], 0, map[]) == "0"
  {
    hide C.ConversionText, Text, C.Output, Reading, IntegerText, C.Format;
    var args: seq<Word> := [0xFFFF_FFFF, 0];
    StarRead('d', args);
    ZeroStandard(args, map[]);
    assert "%.*d" == "%" + C.Spelled(StarPrecision('d'));
    OneConversion(StarPrecision('d'), "%.*d", args, map[]);
    EmptyText(Reading(StarPrecision('d'), args, 0));
  }

  lemma HiddenOrShown(d: Directive, text: CText)
    requires d.width == d.precision == 0 && d.flags == NoFlags().(precision := true)
    ensures StringText(d, text) == "" && C.StringField(false, 0, None, text) == text
  {
    FullField("", text, false, false, 0);
    hide C.Field;
    assert "" + text == text;
  }

  /** `%.*s` with a negative precision shows nothing of a string. */
  lemma HiddenText(text: CText)
    ensures C.Allowed(StarPrecision('s')) && C.Format([C.Conversion(StarPrecision('s'))]) == "%.*s"
    ensures Text("%.*s", [0xFFFF_FFFF, 64], 0, map[64 := text]) == ""
    ensures C.Output([C.Conversion(StarPrecision('s'))], [0xFFFF_FFFF, 64], 0, map[64 := text]) == text
  {
    hide Text, C.Output, Reading, StringText, C.Format, C.StringField, C.PrecisionOf, C.LeftOf, C.FieldWidth;
    var args: seq<Word> := [0xFFFF_FFFF, 64];
    StarRead('s', args);
    assert "%.*s" == "%" + C.Spelled(StarPrecision('s'));
    OneConversion(StarPrecision('s'), "%.*s", args, map[64 := text]);
    HiddenOrShown(Reading(StarPrecision('s'), args, 0), text);
  }
}
