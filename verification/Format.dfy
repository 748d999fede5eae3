// What the printf family prints: the parts of a conversion directive, and the text it stands for.
module Format {
  import opened Machine

  const NTOA_BUFFER_SIZE := 32

  /** The bits of `flags`, without those that name the length of the argument. */
  datatype Flags = Flags(zero: bool, left: bool, plus: bool, space: bool, hash: bool, upper: bool, precision: bool)

  function NoFlags(): Flags {
    Flags(false, false, false, false, false, false, false)
  }

  function Max(a: int, b: int): int { if a < b then b else a }

  function Min(a: int, b: int): int { if a < b then a else b }

  function Repeat(c: char, n: int): (s: string)
    ensures |s| == Max(0, n)
    decreases Max(0, n)
  {
    if n <= 0 then [] else Repeat(c, n - 1) + [c]
  }

  lemma {:induction false} RepeatAll(c: char, n: int)
    ensures forall i :: 0 <= i < |Repeat(c, n)| ==> Repeat(c, n)[i] == c
    decreases Max(0, n)
  {
    if n > 0 {
      RepeatAll(c, n - 1);
    }
  }

  function Spaces(n: int): string { Repeat(' ', n) }

  function ZeroDigits(n: int): string { Repeat('0', n) }

  function Reverse(s: string): (r: string)
    ensures |r| == |s|
  {
    if s == [] then [] else Reverse(s[1..]) + [s[0]]
  }

  lemma {:induction false} ReverseAt(s: string, i: nat)
    requires i < |s|
    ensures Reverse(s)[i] == s[|s| - 1 - i]
  {
    if i < |s| - 1 {
      ReverseAt(s[1..], i);
    }
  }

  // ---------- digits ----------

  function DigitChar(d: nat, upper: bool): char
    requires d < 16
  {
    if d < 10 then '0' + d as char else (if upper then 'A' else 'a') + (d - 10) as char
  }

  function DigitValue(c: char): int {
    if c <= '9' then c as int - '0' as int
    else if c < 'a' then c as int - 'A' as int + 10
    else c as int - 'a' as int + 10
  }

  lemma DigitBack(d: nat, upper: bool)
    requires d < 16
    ensures DigitValue(DigitChar(d, upper)) == d
  {
  }

  predicate BaseOk(base: nat) { base == 2 || base == 8 || base == 10 || base == 16 }

  lemma Quotient(v: nat, base: nat)
    requires BaseOk(base)
    ensures v < base ==> v % base == v
    ensures 0 <= v / base && (v > 0 ==> v / base < v) && v % base < base && v == v / base * base + v % base
    ensures v < base <==> v / base == 0
    ensures v / base <= v / 2
  {
  }

  /** The digits of `v`, the last one first. There is at least one. */
  function RevDigits(v: nat, base: nat, upper: bool): (s: string)
    requires BaseOk(base)
    ensures |s| > 0
    decreases v
  {
    Quotient(v, base);
    if v < base then [DigitChar(v, upper)] else [DigitChar(v % base, upper)] + RevDigits(v / base, base, upper)
  }

  function Pow2(k: nat): (p: nat)
    ensures p > 0
  {
    if k == 0 then 1 else 2 * Pow2(k - 1)
  }

  lemma {:induction false} DigitCount(v: nat, base: nat, upper: bool, k: nat)
    requires BaseOk(base) && k >= 1 && v < Pow2(k)
    ensures |RevDigits(v, base, upper)| <= k
    decreases k
  {
    Quotient(v, base);
    if v >= base {
      DigitCount(v / base, base, upper, k - 1);
    }
  }

  /** The digits of a 32-bit number always fit into the buffer. */
  lemma DigitsFit(v: Word, base: nat, upper: bool)
    requires BaseOk(base)
    ensures |RevDigits(v, base, upper)| <= NTOA_BUFFER_SIZE
  {
    assert Pow2(8) == 0x100;
    PowAdd(8, 8);
    PowAdd(16, 16);
    DigitCount(v, base, upper, 32);
  }

  lemma {:induction false} PowAdd(a: nat, b: nat)
    ensures Pow2(a + b) == Pow2(a) * Pow2(b)
  {
    if a > 0 {
      PowAdd(a - 1, b);
    }
  }

  /** The number that digits, the first one first, stand for. */
  function Decode(s: string, base: nat): int {
    if s == [] then 0 else Decode(s[..|s| - 1], base) * base + DigitValue(s[|s| - 1])
  }

  lemma {:induction false} ReverseLast(s: string)
    requires s != []
    ensures Reverse(s)[|s| - 1] == s[0] && Reverse(s)[..|s| - 1] == Reverse(s[1..])
  {
  }

  lemma DecodeLast(s: string, base: nat)
    requires s != []
    ensures Decode(Reverse(s), base) == Decode(Reverse(s[1..]), base) * base + DigitValue(s[0])
  {
    ReverseLast(s);
  }

  /** The digits printed decode to the number. */
  lemma {:induction false} DigitsDecode(v: nat, base: nat, upper: bool)
    requires BaseOk(base)
    ensures Decode(Reverse(RevDigits(v, base, upper)), base) == v
    decreases v
  {
    var s := RevDigits(v, base, upper);
    Quotient(v, base);
    DecodeLast(s, base);
    DigitBack(v % base, upper);
    hide DigitChar, DigitValue;
    if v < base {
    } else {
      assert s[1..] == RevDigits(v / base, base, upper);
      hide Decode, Reverse, RevDigits;
      DigitsDecode(v / base, base, upper);
    }
  }

  /** Leading zeros change nothing. */
  lemma {:induction false} ZerosDecode(n: int, s: string, base: nat)
    ensures Decode(ZeroDigits(n) + s, base) == Decode(s, base)
    decreases |s|, Max(0, n)
  {
    if s != [] {
      assert (ZeroDigits(n) + s)[..|ZeroDigits(n) + s| - 1] == ZeroDigits(n) + s[..|s| - 1];
      ZerosDecode(n, s[..|s| - 1], base);
    } else if n > 0 {
      assert ZeroDigits(n) + s == ZeroDigits(n);
      assert ZeroDigits(n)[..n - 1] == ZeroDigits(n - 1);
      assert ZeroDigits(n - 1) + s == ZeroDigits(n - 1);
      ZerosDecode(n - 1, s, base);
    }
  }

  // ---------- integers ----------

  /** ZeroDigits behind a reversed number, up to `n` characters and up to the size of the buffer. */
  function ZeroTo(buf: string, n: nat): string {
    if |buf| < n && |buf| < NTOA_BUFFER_SIZE then buf + ZeroDigits(Min(n, NTOA_BUFFER_SIZE) - |buf|) else buf
  }

  /** The sign character, or nothing. */
  function Sign(negative: bool, f: Flags): string {
    if negative then ['-'] else if f.plus then ['+'] else if f.space then [' '] else []
  }

  /** A character is added if the buffer has room. */
  function Add(buf: string, c: string): string {
    if |buf| < NTOA_BUFFER_SIZE then buf + c else buf
  }

  /** The width after room was made for the sign. */
  function InnerWidth(negative: bool, width: nat, f: Flags): nat {
    if !f.left && width > 0 && f.zero && (negative || f.plus || f.space) then width - 1 else width
  }

  /** The reversed number with leading zeros. */
  function Zeroed(buf: string, negative: bool, prec: nat, width: nat, f: Flags): string {
    if f.left then buf
    else if f.zero then ZeroTo(ZeroTo(buf, prec), InnerWidth(negative, width, f))
    else ZeroTo(buf, prec)
  }

  /** One or two leading zeros give way to the prefix that `#` asks for. */
  function HashRoom(buf: string, base: nat, prec: nat, width: nat, f: Flags): string {
    if !f.precision && |buf| > 0 && (|buf| == prec || |buf| == width)
    then (if |buf| > 1 && base == 16 then buf[..|buf| - 2] else buf[..|buf| - 1])
    else buf
  }

  function Hashed(buf: string, base: nat, prec: nat, width: nat, f: Flags): string {
    if !f.hash then buf
    else Add(Add(HashRoom(buf, base, prec, width, f),
                 if base == 16 then [if f.upper then 'X' else 'x'] else if base == 2 then ['b'] else []),
             ['0'])
  }

  /** What `_ntoa_format` leaves in its buffer, reversed. */
  function Finished(buf: string, negative: bool, base: nat, prec: nat, width: nat, f: Flags): string {
    Add(Hashed(Zeroed(buf, negative, prec, width, f), base, prec, InnerWidth(negative, width, f), f), Sign(negative, f))
  }

  /** A reversed text, padded with blanks to `width`. */
  function Padded(buf: string, width: nat, f: Flags): string {
    if f.left then Reverse(buf) + Spaces(width - |buf|)
    else if f.zero then Reverse(buf)
    else Spaces(width - |buf|) + Reverse(buf)
  }

  /** What `_ntoa_format` prints. */
  function FormatText(buf: string, negative: bool, base: nat, prec: nat, width: nat, f: Flags): string {
    Padded(Finished(buf, negative, base, prec, width, f), InnerWidth(negative, width, f), f)
  }

  /** The digits that `_ntoa_long` puts into the buffer. */
  function LongDigits(value: Word, base: nat, f: Flags): string
    requires BaseOk(base)
  {
    if f.precision && value == 0 then [] else RevDigits(value, base, f.upper)
  }

  /** What `_ntoa_long` prints. */
  function LongText(value: Word, negative: bool, base: nat, prec: nat, width: nat, f: Flags): string
    requires BaseOk(base)
  {
    FormatText(LongDigits(value, base, f), negative, base, prec, width, if value == 0 then f.(hash := false) else f)
  }

  // ---------- integers as the C standard has them ----------

  /** At least `prec` digits. */
  function Number(digits: string, prec: nat): (s: string)
    ensures |s| == Max(prec, |digits|)
  {
    if prec > |digits| then ZeroDigits(prec - |digits|) + digits else digits
  }

  /** `#` puts `0x` or `0X` in front of a hexadecimal number other than 0. */
  function Prefix(value: Word, base: nat, f: Flags): string {
    if f.hash && base == 16 && value != 0 then ['0', if f.upper then 'X' else 'x'] else []
  }

  /** `#` adds a digit to an octal number if that is needed to make the first digit 0. */
  function FirstZero(number: string, base: nat, f: Flags): string {
    if f.hash && base == 8 && (number == [] || number[0] != '0') then ['0'] + number else number
  }

  /** A sign or prefix and a number in a field of `width` characters. */
  function Placed(sign: string, number: string, width: nat, f: Flags): string {
    var gap := width - |sign| - |number|;
    if f.left then sign + number + Spaces(gap)
    else if f.zero then sign + Number(number, Max(0, width - |sign|))
    else Spaces(gap) + (sign + number)
  }

  /** Section 7.19.6.1 of C99 for an integer conversion: the precision is the least number of digits; the field is
      padded with blanks on the left, on the right (`-`), or with zeros behind sign and prefix (`0`, unless there is
      a precision or `-`). */
  function Standard(value: Word, negative: bool, base: nat, prec: nat, width: nat, f: Flags): string
    requires BaseOk(base)
  {
    Placed(Sign(negative, f) + Prefix(value, base, f),
           FirstZero(Number(Reverse(LongDigits(value, base, f)), prec), base, f), width, f)
  }

  lemma {:induction false} ReverseConcat(a: string, b: string)
    ensures Reverse(a + b) == Reverse(b) + Reverse(a)
  {
    if a == [] {
      assert a + b == b;
    } else {
      assert (a + b)[1..] == a[1..] + b;
      ReverseConcat(a[1..], b);
    }
  }

  lemma {:induction false} ReverseZeros(n: int)
    ensures Reverse(ZeroDigits(n)) == ZeroDigits(n)
  {
    if n > 0 {
      RepeatAll('0', n);
      RepeatAll('0', n - 1);
      assert ZeroDigits(n)[1..] == ZeroDigits(n - 1);
      ReverseZeros(n - 1);
      assert ZeroDigits(n)[0] == '0';
    } else {
      assert ZeroDigits(n) == [];
    }
  }

  lemma ReverseSign(negative: bool, f: Flags)
    ensures Reverse(Sign(negative, f)) == Sign(negative, f) && |Sign(negative, f)| <= 1
  {
    var s := Sign(negative, f);
    if s != [] {
      assert s[1..] == [];
    }
  }

  /** What the integer conversions make sure of: no `#`, no flag `0` beside a precision, precision 0 without one,
      and no sign in base 2. */
  predicate Usual(negative: bool, base: nat, prec: nat, f: Flags) {
    && !f.hash && (f.precision ==> !f.zero) && (!f.precision ==> prec == 0)
    && (base == 2 ==> Sign(negative, f) == [])
  }

  /** When `_ntoa_long` prints what the standard says: with `-` only if the precision asks for no zeros; with
      zeros for the width if the field fits into the 32-byte buffer; otherwise if sign and precision fit, or
      if the buffer has room for the digits only and the blank sign looks like padding. */
  predicate Follows(digits: nat, negative: bool, prec: nat, width: nat, f: Flags) {
    var sign := Sign(negative, f);
    if f.left then prec <= digits
    else if f.zero then width <= NTOA_BUFFER_SIZE
    else prec + |sign| <= NTOA_BUFFER_SIZE || (prec == NTOA_BUFFER_SIZE < width && sign == [' '])
  }

  lemma FewDigits(v: Word, base: nat, upper: bool)
    requires BaseOk(base) && base != 2
    ensures |RevDigits(v, base, upper)| <= 11
  {
    DigitCountBy8(v, base, upper, 11);
  }

  function Pow8(k: nat): (p: nat)
    ensures p > 0
  {
    if k == 0 then 1 else 8 * Pow8(k - 1)
  }

  lemma {:induction false} DigitCountBy8(v: nat, base: nat, upper: bool, k: nat)
    requires BaseOk(base) && base != 2 && k >= 1 && v < Pow8(k)
    ensures |RevDigits(v, base, upper)| <= k
    decreases k
  {
    Quotient(v, base);
    if v >= base {
      assert v / base <= v / 8;
      DigitCountBy8(v / base, base, upper, k - 1);
    }
  }

  lemma ReverseNumber(d: string, zs: string, sign: string)
    requires Reverse(zs) == zs
    ensures Reverse((d + zs) + sign) == Reverse(sign) + (zs + Reverse(d))
  {
    hide *;
    ReverseConcat(d + zs, sign);
    ReverseConcat(d, zs);
  }

  /** The digits fit, with room for a sign where there is one. */
  lemma DigitsRoom(value: Word, negative: bool, base: nat, f: Flags)
    requires BaseOk(base) && (base == 2 ==> Sign(negative, f) == [])
    ensures |LongDigits(value, base, f)| + |Sign(negative, f)| <= NTOA_BUFFER_SIZE
  {
    DigitsFit(value, base, f.upper);
    if base != 2 {
      FewDigits(value, base, f.upper);
    }
  }

  lemma InnerGap(negative: bool, width: nat, f: Flags)
    requires f.zero && !f.left
    ensures var a, b := InnerWidth(negative, width, f), width - |Sign(negative, f)|;
            a == b || (a == 0 && b <= 0)
  {
  }

  /** `n` zeros behind a reversed number. */
  function Lead(d: string, n: int): string { if n > 0 then d + ZeroDigits(n) else d }

  /** The buffer of `_ntoa_format` when it does not overflow. */
  lemma FinishedIs(d: string, negative: bool, base: nat, prec: nat, width: nat, f: Flags)
    requires Usual(negative, base, prec, f) && |d| + |Sign(negative, f)| <= NTOA_BUFFER_SIZE
    requires if f.left then true else if f.zero then width <= NTOA_BUFFER_SIZE
             else prec + |Sign(negative, f)| <= NTOA_BUFFER_SIZE
    ensures var n := if f.left then 0 else if f.zero then InnerWidth(negative, width, f) - |d| else prec - |d|;
            Finished(d, negative, base, prec, width, f) == Lead(d, n) + Sign(negative, f)
  {
    assert ZeroTo(d, 0) == d;
    var z := Zeroed(d, negative, prec, width, f);
    assert Sign(negative, f) == [] ==> z + Sign(negative, f) == z;
  }

  lemma {:induction false} LeadingDigit(v: nat, base: nat, upper: bool)
    requires BaseOk(base) && v > 0
    ensures var s := RevDigits(v, base, upper); s[|s| - 1] != '0' && s[|s| - 1] != ' '
    decreases v
  {
    Quotient(v, base);
    if v >= base {
      LeadingDigit(v / base, base, upper);
    }
  }

  lemma LongTextIs(value: Word, negative: bool, base: nat, prec: nat, width: nat, f: Flags)
    requires BaseOk(base) && !f.hash
    ensures LongText(value, negative, base, prec, width, f) ==
              Padded(Finished(LongDigits(value, base, f), negative, base, prec, width, f),
                  InnerWidth(negative, width, f), f)
  {
    assert f.(hash := false) == f;
  }

  lemma PaddedZero(d: string, zs: string, sign: string, w: nat, f: Flags)
    requires f.zero && !f.left && Reverse(zs) == zs
    ensures Padded((d + zs) + sign, w, f) == Reverse(sign) + (zs + Reverse(d))
  {
    hide Reverse, Spaces;
    ReverseNumber(d, zs, sign);
  }

  lemma PaddedBlank(d: string, zs: string, sign: string, w: nat, f: Flags, n: int)
    requires !f.zero && !f.left && Reverse(zs) == zs && n == w - |(d + zs) + sign|
    ensures Padded((d + zs) + sign, w, f) == Spaces(n) + (Reverse(sign) + (zs + Reverse(d)))
  {
    hide Reverse, Spaces;
    ReverseNumber(d, zs, sign);
  }

  lemma PaddedShort(d: string, sign: string, w: nat, f: Flags, n: int)
    requires !f.zero || f.left ==> n == w - |d + sign|
    ensures Padded(d + sign, w, f) == if f.left then Reverse(sign) + Reverse(d) + Spaces(n)
                                      else if f.zero then Reverse(sign) + Reverse(d)
                                      else Spaces(n) + (Reverse(sign) + Reverse(d))
  {
    hide Reverse, Spaces;
    ReverseConcat(d, sign);
  }

  /** The standard text, with the digits reversed and the sign given. */
  function Laid(d: string, sign: string, prec: nat, width: nat, f: Flags): string {
    Placed(sign, Number(Reverse(d), prec), width, f)
  }

  lemma StandardIs(value: Word, negative: bool, base: nat, prec: nat, width: nat, f: Flags)
    requires BaseOk(base) && !(f.hash && (base == 8 || (base == 16 && value != 0)))
    ensures Standard(value, negative, base, prec, width, f) ==
              Laid(LongDigits(value, base, f), Sign(negative, f), prec, width, f)
  {
    hide LongDigits, Reverse, Placed, Sign;
    assert Sign(negative, f) + [] == Sign(negative, f);
  }

  lemma ReverseLength(d: string)
    ensures |Reverse(d)| == |d|
  {
  }

  lemma BlankAligned(d: string, sign: string, prec: nat, width: nat, f: Flags)
    requires !f.zero && !f.left
    ensures Padded(Lead(d, prec - |d|) + sign, width, f) == Laid(d, Reverse(sign), prec, width, f)
  {
    hide Padded, Reverse, ZeroDigits, Spaces;
    var n := width - |sign| - |Number(Reverse(d), prec)|;
    if prec > |d| {
      ReverseZeros(prec - |d|);
      PaddedBlank(d, ZeroDigits(prec - |d|), sign, width, f, n);
    } else {
      PaddedShort(d, sign, width, f, n);
    }
  }

  lemma ZeroAligned(d: string, sign: string, width: nat, f: Flags, w: nat)
    requires !f.left && f.zero && (w == width - |sign| || (w == 0 && width - |sign| <= 0))
    ensures Padded(Lead(d, w - |d|) + sign, w, f) == Laid(d, Reverse(sign), 0, width, f)
  {
    hide Padded, Reverse, ZeroDigits, Spaces;
    if w > |d| {
      ReverseZeros(w - |d|);
      PaddedZero(d, ZeroDigits(w - |d|), sign, w, f);
    } else {
      PaddedShort(d, sign, w, f, 0);
    }
  }

  lemma LeftFull(d: string, sign: string, prec: nat, width: nat, f: Flags)
    requires f.left && prec <= |d|
    ensures Padded(d + sign, width, f) == Laid(d, Reverse(sign), prec, width, f)
  {
    hide Padded, Reverse, Spaces, Number, ZeroDigits;
    NumberShort(Reverse(d), prec);
    PaddedShort(d, sign, width, f, width - |sign| - |Number(Reverse(d), prec)|);
  }

  lemma LeftShort(d: string, sign: string, prec: nat, width: nat, f: Flags)
    requires f.left && prec > |d| && (d == [] || Reverse(d)[0] != '0')
    ensures Padded(d + sign, width, f) != Laid(d, Reverse(sign), prec, width, f)
  {
    hide Padded, Reverse, Spaces, Number, ZeroDigits;
    var number := Number(Reverse(d), prec);
    PaddedShort(d, sign, width, f, width - |sign| - |d|);
    NumberStart(Reverse(d), prec);
    LeftDiffers(Reverse(sign), Reverse(d), width - |sign| - |d|, number, width - |sign| - |number|);
  }

  lemma NumberShort(digits: string, prec: nat)
    requires prec <= |digits|
    ensures Number(digits, prec) == digits
  {
  }

  lemma NumberStart(digits: string, prec: nat)
    requires prec > |digits|
    ensures Number(digits, prec)[0] == '0'
  {
    RepeatAll('0', prec - |digits|);
  }

  /** With a precision, the digits are missing or do not start with a zero. */
  lemma NoDigits(value: Word, base: nat, f: Flags)
    requires BaseOk(base)
    ensures f.precision ==> LongDigits(value, base, f) == [] || Reverse(LongDigits(value, base, f))[0] != '0'
  {
    if f.precision && value != 0 {
      LeadingDigit(value, base, f.upper);
      LastReversed(LongDigits(value, base, f));
    }
  }

  lemma LastReversed(d: string)
    requires d != []
    ensures Reverse(d)[0] == d[|d| - 1]
  {
    ReverseAt(d, 0);
  }

  /** Behind the sign, one text has a zero and the other its first digit, a blank, or nothing. */
  lemma LeftDiffers(sign: string, x: string, n: int, y: string, m: int)
    requires y != [] && y[0] == '0' && (x == [] || x[0] != '0')
    ensures sign + x + Spaces(n) != sign + y + Spaces(m)
  {
    RepeatAll(' ', n);
    var a, b := sign + x + Spaces(n), sign + y + Spaces(m);
    assert b[|sign|] == '0';
    if x != [] {
      assert a[|sign|] == x[0];
    } else if |a| > |sign| {
      assert a[|sign|] == ' ';
    }
  }

  /** Zeros for a width beyond the buffer are cut off. */
  lemma WideShort(d: string, negative: bool, base: nat, prec: nat, width: nat, f: Flags)
    requires !f.left && f.zero && width > NTOA_BUFFER_SIZE && |d| <= NTOA_BUFFER_SIZE && !f.hash
    ensures Padded(Finished(d, negative, base, prec, width, f), InnerWidth(negative, width, f), f)
         != Laid(d, Sign(negative, f), prec, width, f)
  {
    assert |Finished(d, negative, base, prec, width, f)| <= NTOA_BUFFER_SIZE;
    LaidLength(d, Sign(negative, f), prec, width, f);
  }

  lemma LaidLength(d: string, sign: string, prec: nat, width: nat, f: Flags)
    ensures |Laid(d, sign, prec, width, f)| == Max(width, |sign| + Max(prec, |d|))
  {
    ReverseLength(d);
  }

  /** Zeros for a precision that leaves no room for the sign fill the buffer. */
  lemma FullBuffer(d: string, negative: bool, base: nat, prec: nat, width: nat, f: Flags)
    requires !f.left && !f.zero && !f.hash && prec >= NTOA_BUFFER_SIZE >= |d|
    ensures Finished(d, negative, base, prec, width, f) == Lead(d, NTOA_BUFFER_SIZE - |d|)
    ensures |Lead(d, NTOA_BUFFER_SIZE - |d|)| == NTOA_BUFFER_SIZE
  {
  }

  /** With a precision beyond the buffer the text agrees with the standard only where a blank sign is taken for
      padding. */
  lemma BlankFull(d: string, negative: bool, base: nat, prec: nat, width: nat, f: Flags)
    requires !f.left && !f.zero && !f.hash && |d| <= NTOA_BUFFER_SIZE
    requires prec + |Sign(negative, f)| > NTOA_BUFFER_SIZE
    ensures Padded(Finished(d, negative, base, prec, width, f), width, f) == Laid(d, Sign(negative, f), prec, width, f)
            <==> prec == NTOA_BUFFER_SIZE < width && Sign(negative, f) == [' ']
  {
    var sign, z, number := Sign(negative, f), Lead(d, NTOA_BUFFER_SIZE - |d|), Number(Reverse(d), prec);
    ReverseSign(negative, f);
    FullBuffer(d, negative, base, prec, width, f);
    FullNumber(d, prec);
    hide Reverse, ZeroDigits, Spaces, Sign, Finished, Lead, Number;
    FullCompared(sign, Reverse(z), number, prec, width);
  }

  /** The zeros that fit, beside those that the precision asks for. */
  lemma FullNumber(d: string, prec: nat)
    requires |d| <= NTOA_BUFFER_SIZE <= prec
    ensures var number, shown := Number(Reverse(d), prec), Reverse(Lead(d, NTOA_BUFFER_SIZE - |d|));
            && |number| == prec && |shown| == NTOA_BUFFER_SIZE
            && if prec == NTOA_BUFFER_SIZE then number == shown else number[prec - 33] == '0'
  {
    ReversedLead(d, NTOA_BUFFER_SIZE - |d|);
    ReverseLength(d);
    ReverseLength(Lead(d, NTOA_BUFFER_SIZE - |d|));
    if prec > NTOA_BUFFER_SIZE {
      hide Reverse, Number;
      NumberZero(Reverse(d), prec, prec - 33);
    }
  }

  /** The full buffer and the text of the standard. */
  lemma FullCompared(sign: string, shown: string, number: string, prec: nat, width: nat)
    requires |sign| <= 1 && |shown| == NTOA_BUFFER_SIZE <= prec == |number| && prec + |sign| > NTOA_BUFFER_SIZE
    requires if prec == NTOA_BUFFER_SIZE then number == shown else number[prec - 33] == '0'
    ensures Spaces(width - |shown|) + shown == Spaces(width - |sign| - prec) + (sign + number)
            <==> prec == NTOA_BUFFER_SIZE < width && sign == [' ']
  {
    var a, b := Spaces(width - |shown|) + shown, Spaces(width - |sign| - prec) + (sign + number);
    assert |a| == Max(width, NTOA_BUFFER_SIZE) && |b| == Max(width, |sign| + prec);
    hide Repeat;
    if width >= |sign| + prec {
      if prec == NTOA_BUFFER_SIZE {
        SignOrBlank(sign, shown, width - NTOA_BUFFER_SIZE);
      } else {
        LostZero(sign, shown, number, prec, width);
      }
    }
  }

  lemma ReversedLead(d: string, n: nat)
    ensures Reverse(Lead(d, n)) == Number(Reverse(d), |d| + n)
  {
    if n > 0 {
      ReverseConcat(d, ZeroDigits(n));
      ReverseZeros(n);
    }
    ReverseLength(d);
  }

  lemma NumberZero(digits: string, prec: nat, i: nat)
    requires i < prec - |digits|
    ensures Number(digits, prec)[i] == '0'
  {
    RepeatAll('0', prec - |digits|);
  }

  /** A blank in front of the number is as good as a blank sign. */
  lemma SignOrBlank(sign: string, number: string, n: nat)
    requires |sign| == 1 && n > 0
    ensures Spaces(n) + number == Spaces(n - 1) + (sign + number) <==> sign == [' ']
  {
    var a, b := Spaces(n) + number, Spaces(n - 1) + (sign + number);
    assert Spaces(n) == Spaces(n - 1) + [' '];
    assert a[n - 1] == ' ' && b[n - 1] == sign[0];
    if sign == [' '] {
      assert a == b;
    }
  }

  /** A zero of the number that does not fit into the buffer shows as a blank. */
  lemma LostZero(sign: string, shown: string, number: string, prec: nat, width: nat)
    requires |shown| == NTOA_BUFFER_SIZE < prec == |number| && width >= |sign| + prec
    requires number[prec - 33] == '0'
    ensures Spaces(width - |shown|) + shown != Spaces(width - |sign| - prec) + (sign + number)
  {
    RepeatAll(' ', width - |shown|);
    var a, b := Spaces(width - |shown|) + shown, Spaces(width - |sign| - prec) + (sign + number);
    assert a[width - 33] == ' ' && b[width - 33] == number[prec - 33];
  }

  /** Without `#`, the conversion prints what the standard says exactly under the condition above, for every width
      and precision. */
  lemma PlainStandard(value: Word, negative: bool, base: nat, prec: nat, width: nat, f: Flags)
    requires BaseOk(base) && Usual(negative, base, prec, f)
    ensures LongText(value, negative, base, prec, width, f) == Standard(value, negative, base, prec, width, f)
            <==> Follows(|LongDigits(value, base, f)|, negative, prec, width, f)
  {
    hide LongText, Standard, Padded, Finished, Reverse, ZeroDigits, Spaces, LongDigits, Sign, Laid;
    var d, sign := LongDigits(value, base, f), Sign(negative, f);
    DigitsRoom(value, negative, base, f);
    LongTextIs(value, negative, base, prec, width, f);
    StandardIs(value, negative, base, prec, width, f);
    ReverseSign(negative, f);
    if f.left {
      FinishedIs(d, negative, base, prec, width, f);
      NoDigits(value, base, f);
      if prec <= |d| {
        LeftFull(d, sign, prec, width, f);
      } else {
        LeftShort(d, sign, prec, width, f);
      }
    } else if f.zero {
      if width <= NTOA_BUFFER_SIZE {
        FinishedIs(d, negative, base, prec, width, f);
        InnerGap(negative, width, f);
        ZeroAligned(d, sign, width, f, InnerWidth(negative, width, f));
      } else {
        WideShort(d, negative, base, prec, width, f);
      }
    } else if prec + |sign| <= NTOA_BUFFER_SIZE {
      FinishedIs(d, negative, base, prec, width, f);
      BlankAligned(d, sign, prec, width, f);
    } else {
      BlankFull(d, negative, base, prec, width, f);
    }
  }

  // ---------- the flag # ----------

  /** What `#` puts behind the reversed digits. */
  function Hash(base: nat, f: Flags): (s: string)
    ensures |s| == if base == 16 then 2 else 1
  {
    if base == 16 then [if f.upper then 'X' else 'x', '0'] else ['0']
  }

  /** What `#` asks for, seen as a sign. */
  lemma HashReversed(base: nat, f: Flags)
    ensures Reverse(Hash(base, f)) == if base == 16 then ['0', if f.upper then 'X' else 'x'] else ['0']
  {
    var h := Hash(base, f);
    assert h[1..] == if base == 16 then ['0'] else [];
    SingleReversed('0');
  }

  /** The precision apart from the first digit of an octal number. */
  function Behind(base: nat, prec: nat): nat { if base == 16 || prec == 0 then prec else prec - 1 }

  lemma ZerosShift(n: nat)
    ensures ZeroDigits(n) + ['0'] == ['0'] + ZeroDigits(n)
  {
    RepeatAll('0', n);
  }

  lemma ZeroInFront(digits: string, n: nat)
    ensures Number(['0'] + digits, n) == ['0'] + Number(digits, if n == 0 then 0 else n - 1)
    ensures n > |digits| ==> Number(digits, n) == ['0'] + Number(digits, n - 1)
  {
    if n > |digits| {
      var k := n - |digits| - 1;
      ZerosShift(k);
      assert ZeroDigits(k + 1) == ZeroDigits(k) + ['0'];
      assert ZeroDigits(k) + (['0'] + digits) == (ZeroDigits(k) + ['0']) + digits;
      assert (['0'] + ZeroDigits(k)) + digits == ['0'] + (ZeroDigits(k) + digits);
    }
  }

  /** A number other than 0 does not start with a zero. */
  lemma FirstDigit(value: Word, base: nat, f: Flags)
    requires BaseOk(base) && value != 0
    ensures var d := LongDigits(value, base, f); d != [] && Reverse(d)[0] != '0'
  {
    LeadingDigit(value, base, f.upper);
    LastReversed(LongDigits(value, base, f));
  }

  /** What the integer conversions make sure of where they keep `#`. */
  predicate HashUsual(negative: bool, base: nat, prec: nat, f: Flags) {
    && f.hash && (base == 8 || base == 16) && Sign(negative, f) == []
    && (f.precision ==> !f.zero) && (!f.precision ==> prec == 0)
  }

  /** The standard lays out a prefix like a sign. */
  lemma HashStandardIs(value: Word, negative: bool, base: nat, prec: nat, width: nat, f: Flags)
    requires HashUsual(negative, base, prec, f) && value != 0
    ensures Standard(value, negative, base, prec, width, f)
         == Laid(LongDigits(value, base, f), Reverse(Hash(base, f)), Behind(base, prec), width, f)
  {
    hide LongDigits, Reverse, Hash, Placed, Sign, Number;
    HashReversed(base, f);
    FirstDigit(value, base, f);
    var digits := Reverse(LongDigits(value, base, f));
    assert Sign(negative, f) + Prefix(value, base, f) == Prefix(value, base, f);
    if base == 8 {
      OctalNumber(digits, prec, f);
      ZeroPlaced(Number(digits, Behind(8, prec)), width, f);
    }
  }

  /** The first digit of an octal number can be seen as its prefix. */
  lemma ZeroPlaced(number: string, width: nat, f: Flags)
    ensures Placed([], ['0'] + number, width, f) == Placed(['0'], number, width, f)
  {
    ZeroInFront(number, width);
    hide Number, Repeat;
    var all := ['0'] + number;
    assert [] + all == all && [] + Number(all, width) == Number(all, width);
  }

  lemma OctalNumber(digits: string, prec: nat, f: Flags)
    requires f.hash && digits != [] && digits[0] != '0'
    ensures FirstZero(Number(digits, prec), 8, f) == ['0'] + Number(digits, Behind(8, prec))
  {
    hide ZeroDigits;
    if prec > |digits| {
      ZeroInFront(digits, prec);
    }
  }

  /** When `_ntoa_long` prints what the standard says about a number other than 0 with `#`: the precision must not ask
      for zeros beside `-`, must leave room for the prefix, and must not ask for more than the octal digits unless
      it fills the buffer; and the digits must not be as wide as the field, nor, with `0`, the field too narrow
      for digits and prefix. */
  predicate HashFollows(digits: nat, base: nat, prec: nat, width: nat, f: Flags) {
    if f.precision then
      if f.left then Behind(base, prec) <= digits
      else if base == 16 then prec + 2 <= NTOA_BUFFER_SIZE
      else prec <= digits || prec == NTOA_BUFFER_SIZE
    else if f.zero && !f.left then
      width <= NTOA_BUFFER_SIZE && !(digits <= width < digits + (if base == 16 then 2 else 1))
    else digits != width
  }

  /** The prefix goes behind the reversed digits where there is room and nothing has to give way. */
  lemma HashedIs(z: string, base: nat, prec: nat, width: nat, f: Flags)
    requires f.hash && (base == 8 || base == 16) && |z| + |Hash(base, f)| <= NTOA_BUFFER_SIZE
    requires f.precision || (prec == 0 < |z| && |z| != width)
    ensures Hashed(z, base, prec, width, f) == z + Hash(base, f)
  {
  }

  /** Texts of different lengths, right-aligned. */
  lemma LengthsDiffer(a: string, b: string, width: nat)
    requires |a| > |b| && a[0] != ' '
    ensures Spaces(width - |a|) + a != Spaces(width - |b|) + b
  {
    RepeatAll(' ', width - |b|);
    hide Repeat;
    var x, y := Spaces(width - |a|) + a, Spaces(width - |b|) + b;
    if width >= |a| {
      assert x[width - |a|] == a[0] && y[width - |a|] == ' ';
    }
  }

  /** Reversed digits of a number other than 0, with room for a prefix. */
  predicate DigitsOk(d: string) { d != [] && |d| <= 11 && Reverse(d)[0] != '0' }

  lemma HashLeft(d: string, negative: bool, base: nat, prec: nat, width: nat, f: Flags)
    requires HashUsual(negative, base, prec, f) && DigitsOk(d) && f.left
    ensures var text := Padded(Finished(d, negative, base, prec, width, f), width, f);
            text == Laid(d, Reverse(Hash(base, f)), Behind(base, prec), width, f)
            <==> HashFollows(|d|, base, prec, width, f)
  {
    var h, k := Hash(base, f), Behind(base, prec);
    if f.precision || |d| != width {
      HashedIs(d, base, prec, width, f);
      assert Finished(d, negative, base, prec, width, f) == d + h;
      hide Padded, Reverse, Spaces, Laid, Hash;
      if k <= |d| {
        LeftFull(d, h, k, width, f);
      } else {
        LeftShort(d, h, k, width, f);
      }
    } else {
      assert |Finished(d, negative, base, prec, width, f)| < |h| + |d|;
      LaidLength(d, Reverse(h), k, width, f);
    }
  }

  /** The prefix takes the place of zeros. */
  lemma HashTakes(d: string, base: nat, width: nat, f: Flags)
    requires f.hash && (base == 8 || base == 16) && !f.precision && d != []
    requires |d| + |Hash(base, f)| <= width <= NTOA_BUFFER_SIZE
    ensures Hashed(Lead(d, width - |d|), base, 0, width, f) == Lead(d, width - |Hash(base, f)| - |d|) + Hash(base, f)
  {
    var p := |Hash(base, f)|;
    ZerosAdd(width - |d| - p, p);
    var z := Lead(d, width - |d|);
    assert z[..width - p] == Lead(d, width - p - |d|);
  }

  /** Zeros for the width leave room for the prefix. */
  lemma ZeroFits(d: string, negative: bool, base: nat, prec: nat, width: nat, f: Flags)
    requires HashUsual(negative, base, prec, f) && DigitsOk(d) && !f.left && f.zero
    requires HashFollows(|d|, base, prec, width, f)
    ensures Finished(d, negative, base, prec, width, f)
         == Lead(d, Max(0, width - |Hash(base, f)|) - |d|) + Hash(base, f)
  {
    var z := Lead(d, width - |d|);
    assert Zeroed(d, negative, prec, width, f) == z;
    hide Lead, Zeroed, Reverse, Repeat;
    if width < |d| {
      NoLead(d, width - |d|);
      NoLead(d, Max(0, width - |Hash(base, f)|) - |d|);
      HashedIs(z, base, prec, width, f);
    } else {
      HashTakes(d, base, width, f);
    }
  }

  lemma NoLead(d: string, n: int)
    requires n <= 0
    ensures Lead(d, n) == d
  {
  }

  /** Digits or zeros have to give way, or do not fit. */
  lemma ZeroMisfit(d: string, negative: bool, base: nat, prec: nat, width: nat, f: Flags)
    requires HashUsual(negative, base, prec, f) && DigitsOk(d) && !f.left && f.zero
    requires !HashFollows(|d|, base, prec, width, f)
    ensures |Finished(d, negative, base, prec, width, f)| < Max(width, |Hash(base, f)| + |d|)
  {
    FinishedLength(d, negative, base, prec, width, f);
    if width <= NTOA_BUFFER_SIZE {
      assert |Zeroed(d, negative, prec, width, f)| == width;
      hide Zeroed, Reverse, Repeat;
    }
  }

  lemma ZeroPadded(buf: string, width: nat, w: nat, f: Flags)
    requires !f.left && f.zero
    ensures Padded(buf, width, f) == Padded(buf, w, f) && |Padded(buf, width, f)| == |buf|
  {
  }

  lemma HashZero(d: string, negative: bool, base: nat, prec: nat, width: nat, f: Flags)
    requires HashUsual(negative, base, prec, f) && DigitsOk(d) && !f.left && f.zero
    ensures var text := Padded(Finished(d, negative, base, prec, width, f), width, f);
            text == Laid(d, Reverse(Hash(base, f)), 0, width, f) <==> HashFollows(|d|, base, prec, width, f)
  {
    hide Padded, Finished, Laid, Reverse, Hash, HashFollows;
    var h, w := Hash(base, f), Max(0, width - |Hash(base, f)|);
    ZeroPadded(Finished(d, negative, base, prec, width, f), width, w, f);
    if HashFollows(|d|, base, prec, width, f) {
      ZeroFits(d, negative, base, prec, width, f);
      ZeroAligned(d, h, width, f, w);
    } else {
      ZeroMisfit(d, negative, base, prec, width, f);
      LaidLength(d, Reverse(h), 0, width, f);
    }
  }

  lemma HashBlank(d: string, negative: bool, base: nat, prec: nat, width: nat, f: Flags)
    requires HashUsual(negative, base, prec, f) && DigitsOk(d) && !f.left && !f.zero
    ensures var text := Padded(Finished(d, negative, base, prec, width, f), width, f);
            text == Laid(d, Reverse(Hash(base, f)), Behind(base, prec), width, f)
            <==> HashFollows(|d|, base, prec, width, f)
  {
    var h, k := Hash(base, f), Behind(base, prec);
    if HashFollows(|d|, base, prec, width, f) {
      HashFits(d, negative, base, prec, width, f);
      BlankAligned(d, h, k, width, f);
    } else {
      HashMisfit(d, negative, base, prec, width, f);
    }
  }

  lemma HashFits(d: string, negative: bool, base: nat, prec: nat, width: nat, f: Flags)
    requires HashUsual(negative, base, prec, f) && DigitsOk(d) && !f.left && !f.zero
    requires HashFollows(|d|, base, prec, width, f)
    ensures Finished(d, negative, base, prec, width, f) == Lead(d, Behind(base, prec) - |d|) + Hash(base, f)
  {
    var z := Lead(d, prec - |d|);
    assert Zeroed(d, negative, prec, width, f) == z;
    if base == 8 && prec == NTOA_BUFFER_SIZE {
      assert z == Lead(d, 31 - |d|) + ['0'];
    } else {
      HashedIs(z, base, prec, width, f);
    }
  }

  lemma HashMisfit(d: string, negative: bool, base: nat, prec: nat, width: nat, f: Flags)
    requires HashUsual(negative, base, prec, f) && DigitsOk(d) && !f.left && !f.zero
    requires !HashFollows(|d|, base, prec, width, f)
    ensures Padded(Finished(d, negative, base, prec, width, f), width, f)
         != Laid(d, Reverse(Hash(base, f)), Behind(base, prec), width, f)
  {
    HashReversed(base, f);
    if f.precision && base == 8 && prec < NTOA_BUFFER_SIZE {
      ExtraZero(d, negative, prec, width, f);
    } else {
      Misfit(d, negative, base, prec, width, f);
    }
    hide Finished, Reverse, Number, Repeat, Padded, Laid;
    PaddedDiffers(Finished(d, negative, base, prec, width, f), d, Reverse(Hash(base, f)), Behind(base, prec), width, f);
  }

  lemma PaddedRight(buf: string, width: nat, f: Flags)
    requires !f.left && !f.zero
    ensures Padded(buf, width, f) == Spaces(width - |buf|) + Reverse(buf) && |Reverse(buf)| == |buf|
  {
  }

  lemma LaidRight(d: string, sign: string, prec: nat, width: nat, f: Flags)
    requires !f.left && !f.zero
    ensures var text := sign + Number(Reverse(d), prec);
            |text| == |sign| + Max(prec, |d|) && Laid(d, sign, prec, width, f) == Spaces(width - |text|) + text
  {
    hide Reverse, Number, Repeat;
  }

  /** Without zeros for the width, a text of another length is not the one of the standard. */
  lemma PaddedDiffers(buf: string, d: string, sign: string, prec: nat, width: nat, f: Flags)
    requires !f.left && !f.zero && |buf| != |sign| + Max(prec, |d|) && sign != [] && sign[0] != ' '
    requires |buf| > |sign| + Max(prec, |d|) ==> Reverse(buf)[0] != ' '
    ensures Padded(buf, width, f) != Laid(d, sign, prec, width, f)
  {
    hide Reverse, Number, Repeat, Padded, Laid, Max;
    var text := sign + Number(Reverse(d), prec);
    PaddedRight(buf, width, f);
    LaidRight(d, sign, prec, width, f);
    if |buf| > |text| {
      LengthsDiffer(Reverse(buf), text, width);
    } else {
      LengthsDiffer(text, Reverse(buf), width);
    }
  }

  /** Digits or zeros are missing. */
  lemma Misfit(d: string, negative: bool, base: nat, prec: nat, width: nat, f: Flags)
    requires HashUsual(negative, base, prec, f) && DigitsOk(d) && !f.left && !f.zero
    requires !HashFollows(|d|, base, prec, width, f) && !(f.precision && base == 8 && prec < NTOA_BUFFER_SIZE)
    ensures |Finished(d, negative, base, prec, width, f)| < |Hash(base, f)| + Max(Behind(base, prec), |d|)
  {
    if f.precision {
      FinishedLength(d, negative, base, prec, width, f);
    } else {
      assert Zeroed(d, negative, prec, width, f) == d;
    }
  }

  /** The octal prefix comes on top of the zeros for the precision. */
  lemma ExtraZero(d: string, negative: bool, prec: nat, width: nat, f: Flags)
    requires HashUsual(negative, 8, prec, f) && !f.left && !f.zero && f.precision && |d| < prec < NTOA_BUFFER_SIZE
    ensures var buf := Finished(d, negative, 8, prec, width, f); |buf| == prec + 1 && Reverse(buf)[0] == '0'
  {
    var buf := Finished(d, negative, 8, prec, width, f);
    assert buf == Lead(d, prec - |d|) + ['0'];
    LastReversed(buf);
  }

  /** With `#`, in base 8 or 16, the conversion of a number other than 0 prints what the standard says exactly under
      the condition above, for every width and precision. */
  lemma HashStandard(value: Word, negative: bool, base: nat, prec: nat, width: nat, f: Flags)
    requires HashUsual(negative, base, prec, f) && value != 0
    ensures LongText(value, negative, base, prec, width, f) == Standard(value, negative, base, prec, width, f)
            <==> HashFollows(|LongDigits(value, base, f)|, base, prec, width, f)
  {
    HashStandardIs(value, negative, base, prec, width, f);
    FirstDigit(value, base, f);
    FewDigits(value, base, f.upper);
    var d := LongDigits(value, base, f);
    assert DigitsOk(d);
    hide LongText, Standard, Padded, Finished, LongDigits, Laid, HashFollows, DigitsOk, Reverse, Hash, Sign;
    if f.left {
      HashLeft(d, negative, base, prec, width, f);
    } else if f.zero {
      HashZero(d, negative, base, prec, width, f);
    } else {
      HashBlank(d, negative, base, prec, width, f);
    }
  }

  /** With `#`, the number 0 is printed like without it, and the standard has a digit for it in base 8. */
  lemma HashOfZero(negative: bool, base: nat, prec: nat, width: nat, f: Flags)
    requires HashUsual(negative, base, prec, f)
    ensures LongText(0, negative, base, prec, width, f) == Standard(0, negative, base, prec, width, f)
            <==> Follows(|LongDigits(0, base, f)|, negative, prec, width, f)
                 && !(base == 8 && f.precision && prec == 0)
  {
    var g := f.(hash := false);
    PlainStandard(0, negative, base, prec, width, g);
    assert LongText(0, negative, base, prec, width, f) == LongText(0, negative, base, prec, width, g);
    assert Sign(negative, g) == [] && |LongDigits(0, base, f)| == |LongDigits(0, base, g)|;
    hide LongText, Standard, Sign, LongDigits;
    if base == 8 && f.precision && prec == 0 {
      OctalZero(negative, width, f);
    } else {
      SameZero(negative, base, prec, width, f);
    }
  }

  /** The octal number 0 with the precision 0. */
  lemma OctalZero(negative: bool, width: nat, f: Flags)
    requires HashUsual(negative, 8, 0, f) && f.precision
    ensures Standard(0, negative, 8, 0, width, f) != Standard(0, negative, 8, 0, width, f.(hash := false))
  {
    var g := f.(hash := false);
    ZeroDigitsOf(8, 0, f);
    StandardIs(0, negative, 8, 0, width, g);
    SingleReversed('0');
    hide Reverse, Placed;
    assert Standard(0, negative, 8, 0, width, f) == Laid(['0'], [], 0, width, f);
    assert Standard(0, negative, 8, 0, width, g) == Laid([], [], 0, width, g);
    NothingForZero([], width, g, f);
  }

  lemma SameZero(negative: bool, base: nat, prec: nat, width: nat, f: Flags)
    requires HashUsual(negative, base, prec, f) && !(base == 8 && f.precision && prec == 0)
    ensures Standard(0, negative, base, prec, width, f) == Standard(0, negative, base, prec, width, f.(hash := false))
  {
    ZeroDigitsOf(base, prec, f);
    var g := f.(hash := false);
    assert Sign(negative, g) == Sign(negative, f) && LongDigits(0, base, g) == LongDigits(0, base, f);
    hide Reverse, Number, LongDigits, Sign, Placed;
    PlacedAlike(Sign(negative, f) + [], Number(Reverse(LongDigits(0, base, f)), prec), width, f, g);
  }

  lemma PlacedAlike(sign: string, number: string, width: nat, f: Flags, g: Flags)
    requires f.left == g.left && f.zero == g.zero
    ensures Placed(sign, number, width, f) == Placed(sign, number, width, g)
  {
  }

  lemma ZeroDigitsOf(base: nat, prec: nat, f: Flags)
    requires BaseOk(base)
    ensures var number := Number(Reverse(LongDigits(0, base, f)), prec);
            if f.precision && prec == 0 then number == [] else number != [] && number[0] == '0'
  {
    SingleReversed('0');
    RepeatAll('0', prec);
    RepeatAll('0', prec - 1);
  }

  /** When `_ntoa_long` prints what the standard says, with and without `#`. */
  predicate Conforms(value: Word, negative: bool, base: nat, prec: nat, width: nat, f: Flags)
    requires BaseOk(base)
  {
    var digits := |LongDigits(value, base, f)|;
    if f.hash && value != 0 then HashFollows(digits, base, prec, width, f)
    else Follows(digits, negative, prec, width, f) && !(f.hash && base == 8 && f.precision && prec == 0)
  }

  /** The conversion prints what the standard says exactly under the condition above, for every value, width and
      precision, in base 8 and 16 with and without `#`. */
  lemma FollowsStandard(value: Word, negative: bool, base: nat, prec: nat, width: nat, f: Flags)
    requires BaseOk(base) && (Usual(negative, base, prec, f) || HashUsual(negative, base, prec, f))
    ensures LongText(value, negative, base, prec, width, f) == Standard(value, negative, base, prec, width, f)
            <==> Conforms(value, negative, base, prec, width, f)
  {
    hide LongText, Standard, LongDigits, Sign;
    if !f.hash {
      PlainStandard(value, negative, base, prec, width, f);
    } else if value != 0 {
      HashStandard(value, negative, base, prec, width, f);
    } else {
      HashOfZero(negative, base, prec, width, f);
    }
  }

  lemma LongTextLength(value: Word, negative: bool, base: nat, prec: nat, width: nat, f: Flags)
    requires BaseOk(base)
    ensures |LongText(value, negative, base, prec, width, f)| <= Max(width, NTOA_BUFFER_SIZE)
  {
    DigitsFit(value, base, f.upper);
    var g := if value == 0 then f.(hash := false) else f;
    FinishedLength(LongDigits(value, base, f), negative, base, prec, width, g);
    hide RevDigits, Reverse, Repeat, Finished;
  }

  lemma FinishedLength(d: string, negative: bool, base: nat, prec: nat, width: nat, f: Flags)
    requires |d| <= NTOA_BUFFER_SIZE
    ensures |Finished(d, negative, base, prec, width, f)| <= NTOA_BUFFER_SIZE
  {
    hide InnerWidth, Hashed, Zeroed, Sign;
    ZeroedLength(d, negative, prec, width, f);
    HashedLength(Zeroed(d, negative, prec, width, f), base, prec, InnerWidth(negative, width, f), f);
    SignLength(negative, f);
  }

  lemma ZeroedLength(d: string, negative: bool, prec: nat, width: nat, f: Flags)
    requires |d| <= NTOA_BUFFER_SIZE
    ensures |Zeroed(d, negative, prec, width, f)| <= NTOA_BUFFER_SIZE
  {
    hide InnerWidth, Repeat;
  }

  lemma HashedLength(z: string, base: nat, prec: nat, width: nat, f: Flags)
    requires |z| <= NTOA_BUFFER_SIZE
    ensures |Hashed(z, base, prec, width, f)| <= NTOA_BUFFER_SIZE
  {
    assert |HashRoom(z, base, prec, width, f)| <= NTOA_BUFFER_SIZE;
    hide HashRoom;
  }

  lemma SignLength(negative: bool, f: Flags)
    ensures |Sign(negative, f)| <= 1
  {
  }

  lemma StandardLength(value: Word, negative: bool, base: nat, prec: nat, width: nat, f: Flags)
    requires BaseOk(base)
    ensures |Standard(value, negative, base, prec, width, f)| >= Max(width, prec)
  {
    hide LongDigits, Reverse, Repeat;
  }

  // ---------- a precision 0 and no precision ----------

  /** When the text with the precision 0 is what the standard says without a precision: the value is not 0, and the
      flag `0` has no zeros to add. */
  predicate Omissible(value: Word, negative: bool, base: nat, width: nat, f: Flags, zero: bool)
    requires BaseOk(base)
  {
    var prefix := if f.hash then |Hash(base, f)| else 0;
    value != 0 && !(zero && !f.left && width > |Sign(negative, f)| + prefix + |LongDigits(value, base, f)|)
  }

  /** Without zeros to add, and with the precision 0, the source follows the standard. */
  lemma NoZerosFollow(value: Word, negative: bool, base: nat, width: nat, f: Flags)
    requires BaseOk(base) && Usual(negative, base, 0, f) && !f.zero
    ensures LongText(value, negative, base, 0, width, f)
         == Laid(LongDigits(value, base, f), Sign(negative, f), 0, width, f)
  {
    hide LongText, Standard, LongDigits, Laid;
    PlainStandard(value, negative, base, 0, width, f);
    StandardIs(value, negative, base, 0, width, f);
  }

  lemma SignNoZero(negative: bool, f: Flags)
    ensures '0' !in Sign(negative, f) && |Sign(negative, f)| <= 1
  {
  }

  lemma PlainOmitted(value: Word, negative: bool, base: nat, width: nat, f: Flags, g: Flags)
    requires BaseOk(base) && Usual(negative, base, 0, f) && !f.zero && f.precision
    requires g == f.(zero := g.zero, precision := false)
    ensures LongText(value, negative, base, 0, width, f) == Standard(value, negative, base, 0, width, g)
            <==> Omissible(value, negative, base, width, f, g.zero)
  {
    var sign := Sign(negative, f);
    assert Sign(negative, g) == sign;
    SignNoZero(negative, f);
    NoZerosFollow(value, negative, base, width, f);
    StandardIs(value, negative, base, 0, width, g);
    if value == 0 {
      assert LongDigits(value, base, f) == [] && LongDigits(value, base, g) == ['0'];
      hide LongText, Standard, Laid, Sign;
      NothingForZero(sign, width, f, g);
    } else {
      assert LongDigits(value, base, g) == LongDigits(value, base, f);
      hide LongText, Standard, Laid, Sign, RevDigits;
      BlanksOrZeros(LongDigits(value, base, f), sign, width, f, g);
    }
  }

  lemma HashOmitted(value: Word, negative: bool, base: nat, width: nat, f: Flags, g: Flags)
    requires HashUsual(negative, base, 0, f) && !f.zero && f.precision && value != 0
    requires g == f.(zero := g.zero, precision := false)
    ensures LongText(value, negative, base, 0, width, f) == Standard(value, negative, base, 0, width, g)
            <==> Omissible(value, negative, base, width, f, g.zero)
  {
    var d, sign := LongDigits(value, base, f), Reverse(Hash(base, f));
    assert HashUsual(negative, base, 0, g) && LongDigits(value, base, g) == d && Hash(base, g) == Hash(base, f);
    HashReversed(base, f);
    FirstDigit(value, base, f);
    HashStandard(value, negative, base, 0, width, f);
    HashStandardIs(value, negative, base, 0, width, f);
    HashStandardIs(value, negative, base, 0, width, g);
    hide LongText, Standard, Laid, LongDigits, Hash, Reverse;
    PrefixBlanks(d, sign, width, f, g);
  }

  /** Blanks in front of a prefix and zeros behind it are the same exactly when there are none. */
  lemma PrefixBlanks(d: string, sign: string, width: nat, f: Flags, g: Flags)
    requires sign != [] && sign[0] == '0' && !f.zero && g.left == f.left && d != []
    ensures Laid(d, sign, 0, width, f) == Laid(d, sign, 0, width, g)
            <==> !(g.zero && !g.left && width > |sign| + |d|)
  {
    var n := width - |sign| - |d|;
    if g.zero && !g.left && n > 0 {
      RepeatAll(' ', n);
      hide Repeat, Reverse;
      assert Laid(d, sign, 0, width, f)[0] == ' ' && Laid(d, sign, 0, width, g)[0] == '0';
    }
  }

  /** The source takes the precision 0 where the standard has none. */
  lemma OmittedPrecision(value: Word, negative: bool, base: nat, width: nat, f: Flags, g: Flags)
    requires BaseOk(base) && (Usual(negative, base, 0, f) || HashUsual(negative, base, 0, f))
    requires !f.zero && f.precision && g == f.(zero := g.zero, precision := false)
    ensures LongText(value, negative, base, 0, width, f) == Standard(value, negative, base, 0, width, g)
            <==> Omissible(value, negative, base, width, f, g.zero)
  {
    if !f.hash {
      PlainOmitted(value, negative, base, width, f, g);
    } else if value != 0 {
      HashOmitted(value, negative, base, width, f, g);
    } else {
      var f', g' := f.(hash := false), g.(hash := false);
      assert LongText(0, negative, base, 0, width, f) == LongText(0, negative, base, 0, width, f');
      assert Sign(negative, f') == Sign(negative, f);
      hide LongText, Standard, Sign;
      PlainOmitted(0, negative, base, width, f', g');
      SameZero(negative, base, 0, width, g);
    }
  }

  // ---------- reading the number back ----------

  /** `text` is the sign and the number, padded with blanks to the width as the flags say. */
  predicate Shows(text: string, sign: string, number: string, width: nat, f: Flags) {
    var blanks := Spaces(width - |sign| - |number|);
    text == if f.left then sign + number + blanks else if f.zero then sign + number else blanks + (sign + number)
  }

  /** The sign that is shown: none if the 32-byte buffer is full. */
  function ShownSign(value: Word, negative: bool, base: nat, prec: nat, width: nat, f: Flags): string
    requires BaseOk(base)
  {
    if |Zeroed(LongDigits(value, base, f), negative, prec, width, f)| < NTOA_BUFFER_SIZE then Sign(negative, f) else []
  }

  /** The sign is lost exactly when the zeros for the precision or the width fill the buffer. */
  lemma SignLost(value: Word, negative: bool, base: nat, prec: nat, width: nat, f: Flags)
    requires BaseOk(base) && base != 2 && Sign(negative, f) != []
    ensures ShownSign(value, negative, base, prec, width, f) == Sign(negative, f)
            <==> f.left || (prec < NTOA_BUFFER_SIZE && (f.zero ==> InnerWidth(negative, width, f) < NTOA_BUFFER_SIZE))
  {
    FewDigits(value, base, f.upper);
  }

  lemma ZeroedIs(d: string, negative: bool, prec: nat, width: nat, f: Flags) returns (n: int)
    ensures Zeroed(d, negative, prec, width, f) == Lead(d, n)
  {
    var a := ZeroTo(d, prec);
    n := if f.left then 0 else |if f.zero then ZeroTo(a, InnerWidth(negative, width, f)) else a| - |d|;
    if !f.left && f.zero && |a| > |d| && n > |a| - |d| {
      ZerosAdd(|a| - |d|, n - (|a| - |d|));
      assert (d + ZeroDigits(|a| - |d|)) + ZeroDigits(n - (|a| - |d|)) ==
          d + (ZeroDigits(|a| - |d|) + ZeroDigits(n - (|a| - |d|)));
    }
  }

  lemma {:induction false} ZerosAdd(a: nat, b: nat)
    ensures ZeroDigits(a) + ZeroDigits(b) == ZeroDigits(a + b)
    decreases b
  {
    if b > 0 {
      ZerosAdd(a, b - 1);
      assert ZeroDigits(a) + (ZeroDigits(b - 1) + ['0']) == (ZeroDigits(a) + ZeroDigits(b - 1)) + ['0'];
    } else {
      assert ZeroDigits(a) + [] == ZeroDigits(a);
    }
  }

  lemma LeadDecodes(d: string, n: int, base: nat)
    ensures Decode(Reverse(Lead(d, n)), base) == Decode(Reverse(d), base)
  {
    if n > 0 {
      ReverseConcat(d, ZeroDigits(n));
      ReverseZeros(n);
      ZerosDecode(n, Reverse(d), base);
    }
  }

  lemma LongDigitsDecode(value: Word, base: nat, f: Flags)
    requires BaseOk(base)
    ensures Decode(Reverse(LongDigits(value, base, f)), base) == value
  {
    if !(f.precision && value == 0) {
      DigitsDecode(value, base, f.upper);
    }
  }

  /** Whatever the width and the precision, the digits that are shown decode to the number. */
  lemma ReadsBack(value: Word, negative: bool, base: nat, prec: nat, width: nat, f: Flags) returns (number: string)
    requires BaseOk(base) && !f.hash
    ensures Decode(number, base) == value
    ensures Shows(LongText(value, negative, base, prec, width, f),
                  ShownSign(value, negative, base, prec, width, f),
                  number, InnerWidth(negative, width, f), f)
  {
    hide Reverse, Spaces, Decode, Lead;
    var d := LongDigits(value, base, f);
    var z := Zeroed(d, negative, prec, width, f);
    var n := ZeroedIs(d, negative, prec, width, f);
    number := Reverse(z);
    LongDigitsDecode(value, base, f);
    LeadDecodes(d, n, base);
    LongTextIs(value, negative, base, prec, width, f);
    var sign := ShownSign(value, negative, base, prec, width, f);
    ReverseShown(value, negative, base, prec, width, f);
    FinishedShows(d, negative, base, prec, width, f);
    PaddedShort(z, sign, InnerWidth(negative, width, f), f, InnerWidth(negative, width, f) - |sign| - |number|);
  }

  lemma ReverseShown(value: Word, negative: bool, base: nat, prec: nat, width: nat, f: Flags)
    requires BaseOk(base)
    ensures var sign := ShownSign(value, negative, base, prec, width, f); Reverse(sign) == sign
  {
    ReverseSign(negative, f);
  }

  lemma FinishedShows(d: string, negative: bool, base: nat, prec: nat, width: nat, f: Flags)
    requires !f.hash
    ensures var z := Zeroed(d, negative, prec, width, f);
            Finished(d, negative, base, prec, width, f) == z + if |z| < NTOA_BUFFER_SIZE then Sign(negative, f) else []
  {
    var z := Zeroed(d, negative, prec, width, f);
    assert z + [] == z;
  }

  // ---------- digits dropped and zeros not added ----------

  lemma SingleReversed(c: char)
    ensures Reverse([c]) == [c]
  {
    assert [c][1..] == [];
  }

  lemma InConcat(a: string, b: string, c: char)
    ensures c in a + b <==> c in a || c in b
  {
    forall i | 0 <= i < |a| ensures (a + b)[i] == a[i] {
    }
    forall i | 0 <= i < |b| ensures (a + b)[|a| + i] == b[i] {
    }
  }

  lemma NoZeroShown(sign: string, width: nat, f: Flags)
    requires '0' !in sign && !f.zero
    ensures '0' !in Laid([], sign, 0, width, f)
  {
    RepeatAll(' ', width - |sign|);
    InConcat(sign, Spaces(width - |sign|), '0');
    InConcat(Spaces(width - |sign|), sign, '0');
    assert sign + [] == sign;
  }

  lemma ZeroShown(sign: string, width: nat, f: Flags)
    ensures '0' in Laid(['0'], sign, 0, width, f)
  {
    SingleReversed('0');
    hide Repeat, Reverse;
    var number := if f.left || !f.zero then ['0'] else Number(['0'], Max(0, width - |sign|));
    assert number[|number| - 1] == '0';
    InConcat(sign, number, '0');
    InConcat(sign + number, Spaces(width - |sign| - 1), '0');
    InConcat(Spaces(width - |sign| - 1), sign + number, '0');
  }

  /** The C standard has a digit for the value 0 where `_ntoa_long` was told of a precision 0 and shows none. */
  lemma NothingForZero(sign: string, width: nat, f: Flags, g: Flags)
    requires '0' !in sign && !f.zero
    ensures Laid([], sign, 0, width, f) != Laid(['0'], sign, 0, width, g)
  {
    hide Laid;
    NoZeroShown(sign, width, f);
    ZeroShown(sign, width, g);
  }

  /** Blanks in front of the sign and zeros behind it are the same exactly when there are none. */
  lemma BlanksOrZeros(d: string, sign: string, width: nat, f: Flags, g: Flags)
    requires |sign| <= 1 && '0' !in sign && !f.zero && g.left == f.left && d != []
    ensures Laid(d, sign, 0, width, f) == Laid(d, sign, 0, width, g)
            <==> !(g.zero && !g.left && width > |sign| + |d|)
  {
    var number, n := Reverse(d), width - |sign| - |d|;
    ReverseLength(d);
    if g.zero && !g.left && n > 0 {
      RepeatAll(' ', n);
      RepeatAll('0', n);
      var a, b := Laid(d, sign, 0, width, f), Laid(d, sign, 0, width, g);
      assert a == Spaces(n) + (sign + number) && b == sign + (ZeroDigits(n) + number);
      assert b[|sign|] == '0';
      assert a[|sign|] != '0';
    }
  }
}
