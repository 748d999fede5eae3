// What section 7.19.6.1 of C99 says about the conversions that the source has. Nothing here refers to how the
// source reads or prints a directive.
module CStandard {
  import opened Machine
  import opened Options

  /** A width or a precision: left out, in decimal digits, or taken from the arguments. */
  datatype Amount = Omitted | Digits(text: string) | Star

  /** A conversion specification: flags in any order and number, width, precision, length modifier, and conversion. */
  datatype Specification = Specification(
    flags: string, width: Amount, precision: Amount, modifier: string, conversion: char)

  predicate Numeric(s: string) { forall i :: 0 <= i < |s| ==> '0' <= s[i] <= '9' }

  predicate IntegerConversion(c: char) { c in "diouxXb" }

  /** The conversions of the standard that the source has, and its `b`, which is like `o` in base 2. */
  predicate WellFormed(s: Specification) {
    && (forall c :: c in s.flags ==> c in "-+ #0")
    && (s.width.Digits? ==> Numeric(s.width.text) && s.width.text != "" && s.width.text[0] != '0')
    && (s.precision.Digits? ==> Numeric(s.precision.text))
    && (if IntegerConversion(s.conversion) then s.modifier in ["", "hh", "h", "l", "t", "z", "ll", "j"]
        else s.conversion in "cs" && s.modifier == "")
  }

  /** Those with arguments of at most 32 bits. */
  predicate Allowed(s: Specification) {
    WellFormed(s) && s.modifier != "ll" && s.modifier != "j" && (s.conversion == 'b' ==> '#' !in s.flags)
  }

  function AmountText(a: Amount): string {
    match a
    case Omitted => ""
    case Digits(text) => text
    case Star => "*"
  }

  /** The characters of a specification behind its `%`. */
  function Spelled(s: Specification): string {
    s.flags + (AmountText(s.width) + ((if s.precision.Omitted? then "" else "." + AmountText(s.precision))
                                      + (s.modifier + [s.conversion])))
  }

  // ---------- arguments ----------

  /** The number `w` modulo `m`, between 0 and `m` or around 0. */
  function Reduced(w: Word, m: nat, signed: bool): int
    requires m > 1
  {
    if signed then (w + m / 2) % m - m / 2 else w % m
  }

  function Argument(args: seq<Word>, n: nat): Word { if n < |args| then args[n] else 0 }

  function IntArgument(args: seq<Word>, n: nat): int { Reduced(Argument(args, n), 0x1_0000_0000, true) }

  function Value(digits: string): nat
    requires Numeric(digits)
  {
    if digits == "" then 0 else 10 * Value(digits[..|digits| - 1]) + (digits[|digits| - 1] as int - '0' as int)
  }

  function Stars(a: Amount): nat { if a.Star? then 1 else 0 }

  /** The width, negative if an argument says so. */
  function WidthOf(s: Specification, args: seq<Word>, used: nat): int
    requires WellFormed(s)
  {
    match s.width
    case Omitted => 0
    case Digits(text) => Value(text)
    case Star => IntArgument(args, used)
  }

  /** The precision; a negative argument is taken as if it were omitted. */
  function PrecisionOf(s: Specification, args: seq<Word>, used: nat): Option<nat>
    requires WellFormed(s)
  {
    match s.precision
    case Omitted => None
    case Digits(text) => Some(Value(text))
    case Star => var n := IntArgument(args, used + Stars(s.width)); if n < 0 then None else Some(n)
  }

  /** A negative width is a flag `-` and a positive width. */
  predicate LeftOf(s: Specification, args: seq<Word>, used: nat)
    requires WellFormed(s)
  {
    '-' in s.flags || WidthOf(s, args, used) < 0
  }

  function FieldWidth(s: Specification, args: seq<Word>, used: nat): nat
    requires WellFormed(s)
  {
    var w := WidthOf(s, args, used);
    if w < 0 then -w else w
  }

  /** The number of the argument that is converted. */
  function Converted(s: Specification, used: nat): nat { used + Stars(s.width) + Stars(s.precision) }

  // ---------- texts ----------

  function Fill(c: char, n: int): (s: string)
    ensures |s| == if n < 0 then 0 else n
  {
    seq(if n < 0 then 0 else n, _ => c)
  }

  /** Left-justified, or with zeros behind the prefix, or right-justified. */
  function Field(prefix: string, body: string, left: bool, zeros: bool, width: nat): string {
    var n := width - |prefix| - |body|;
    if left then prefix + body + Fill(' ', n)
    else if zeros then prefix + Fill('0', n) + body
    else Fill(' ', n) + prefix + body
  }

  predicate Radix(base: nat) { base == 2 || base == 8 || base == 10 || base == 16 }

  function Digit(d: nat, upper: bool): char
    requires d < 16
  {
    if upper then "0123456789ABCDEF"[d] else "0123456789abcdef"[d]
  }

  /** The digits of a number, and none for 0. */
  function Numeral(v: nat, base: nat, upper: bool): string
    requires Radix(base)
    decreases v
  {
    if v == 0 then "" else Numeral(v / base, base, upper) + [Digit(v % base, upper)]
  }

  function BaseOf(c: char): (b: nat)
    ensures Radix(b)
  {
    if c in "diu" then 10 else if c == 'o' then 8 else if c == 'b' then 2 else 16
  }

  /** The modulus that the length modifier stands for. */
  function Modulus(modifier: string): nat {
    if modifier == "hh" then 0x100 else if modifier == "h" then 0x1_0000 else 0x1_0000_0000
  }

  function IntegerValue(s: Specification, w: Word): int {
    Reduced(w, Modulus(s.modifier), s.conversion in "di")
  }

  function SignText(s: Specification, v: int): string {
    if v < 0 then "-"
    else if s.conversion !in "di" then ""
    else if '+' in s.flags then "+"
    else if ' ' in s.flags then " "
    else ""
  }

  function PrefixText(s: Specification, v: int): string {
    if '#' !in s.flags || v == 0 then ""
    else if s.conversion == 'x' then "0x"
    else if s.conversion == 'X' then "0X"
    else ""
  }

  /** At least `precision` digits, 1 if there is no precision; `#` makes the first octal digit a 0. */
  function NumberText(s: Specification, v: int, precision: Option<nat>): string {
    var digits := Numeral(if v < 0 then -v else v, BaseOf(s.conversion), s.conversion == 'X');
    var number := Fill('0', (if precision.Some? then precision.value else 1) - |digits|) + digits;
    if '#' in s.flags && s.conversion == 'o' && (number == "" || number[0] != '0') then "0" + number else number
  }

  /** A precision switches the flag `0` off. */
  function IntegerField(s: Specification, left: bool, width: nat, precision: Option<nat>, v: int): string {
    var zeros := '0' in s.flags && precision.None?;
    Field(SignText(s, v) + PrefixText(s, v), NumberText(s, v, precision), left, zeros, width)
  }

  function StringField(left: bool, width: nat, precision: Option<nat>, text: CText): string {
    var shown := if precision.Some? && precision.value < |text| then text[..precision.value] else text;
    Field("", shown, left, false, width)
  }

  /** The C string at an address. */
  function StringOf(mem: map<Word, CText>, w: Word): CText { if w in mem then mem[w] else "" }

  /** What a conversion specification prints. */
  function ConversionText(s: Specification, args: seq<Word>, used: nat, mem: map<Word, CText>): string
    requires Allowed(s)
  {
    var left, width, precision := LeftOf(s, args, used), FieldWidth(s, args, used), PrecisionOf(s, args, used);
    var w := Argument(args, Converted(s, used));
    if s.conversion == 'c' then Field("", [(w % 0x100) as char], left, false, width)
    else if s.conversion == 's' then StringField(left, width, precision, StringOf(mem, w))
    else IntegerField(s, left, width, precision, IntegerValue(s, w))
  }

  // ---------- format strings ----------

  /** A character that stands for itself, `%%`, or a conversion specification. */
  datatype Piece = Plain(c: char) | Percent | Conversion(s: Specification)

  predicate PieceOk(p: Piece) {
    match p
    case Plain(c) => c != '%' && c != '\0'
    case Percent => true
    case Conversion(s) => Allowed(s)
  }

  function PieceSpelled(p: Piece): string {
    match p
    case Plain(c) => [c]
    case Percent => "%%"
    case Conversion(s) => "%" + Spelled(s)
  }

  function PieceText(p: Piece, args: seq<Word>, used: nat, mem: map<Word, CText>): string
    requires PieceOk(p)
  {
    match p
    case Plain(c) => [c]
    case Percent => "%"
    case Conversion(s) => ConversionText(s, args, used, mem)
  }

  function PieceUsed(p: Piece, used: nat): nat {
    match p
    case Plain(_) => used
    case Percent => used
    case Conversion(s) => Converted(s, used) + 1
  }

  /** A format string. */
  function Format(ps: seq<Piece>): string { if ps == [] then "" else PieceSpelled(ps[0]) + Format(ps[1..]) }

  predicate Pieces(ps: seq<Piece>) { forall i :: 0 <= i < |ps| ==> PieceOk(ps[i]) }

  /** What a format string prints, when `used` arguments are used up. */
  function Output(ps: seq<Piece>, args: seq<Word>, used: nat, mem: map<Word, CText>): string
    requires Pieces(ps)
  {
    if ps == [] then ""
    else PieceText(ps[0], args, used, mem) + Output(ps[1..], args, PieceUsed(ps[0], used), mem)
  }
}
