// The printf family as loops over a bounded output buffer.
module Printf {
  import opened Machine
  import opened Format
  import opened Directives

  /** The index of the next character, a `size_t` that wraps around. */
  function Index(text: string): Word { |text| % 0x1_0000_0000 }

  function After(idx: Word): Word { (idx + 1) % 0x1_0000_0000 }

  /** The last of `n` characters that is stored at index `i`: the index wraps around at 32 bits. */
  function Lasting(i: Word, n: nat): (k: nat)
    requires i < n
    ensures k < n
  {
    i + (n - 1 - i) / 0x1_0000_0000 * 0x1_0000_0000
  }

  /** What the buffer holds after the output `text`; before it held `b0`. */
  ghost predicate Holds(b: seq<char>, b0: seq<char>, maxlen: Word, text: string) {
    && |b| == |b0|
    && forall i :: 0 <= i < |b| ==> b[i] == if i < |text| && i < maxlen then text[Lasting(i, |text|)] else b0[i]
  }

  /** One more character replaces the one at its index and no other. */
  lemma LastingMore(i: Word, n: nat)
    ensures n % 0x1_0000_0000 == i ==> i < n + 1 && Lasting(i, n + 1) == n
    ensures n % 0x1_0000_0000 != i ==> (i < n + 1 <==> i < n) && (i < n ==> Lasting(i, n + 1) == Lasting(i, n))
  {
    if i < n {
      var q, r := (n - 1 - i) / 0x1_0000_0000, (n - 1 - i) % 0x1_0000_0000;
      assert n == i + 0x1_0000_0000 * q + (r + 1);
    }
  }

  lemma LastingMoves(n: nat)
    ensures n % 0x1_0000_0000 < n + 1 && Lasting(n % 0x1_0000_0000, n + 1) == n
    ensures forall i: Word :: i != n % 0x1_0000_0000 ==>
              (i < n + 1 <==> i < n) && (i < n ==> Lasting(i, n + 1) == Lasting(i, n))
  {
    hide Lasting;
    LastingMore(n % 0x1_0000_0000, n);
    forall i: Word | i != n % 0x1_0000_0000
      ensures (i < n + 1 <==> i < n) && (i < n ==> Lasting(i, n + 1) == Lasting(i, n))
    {
      LastingMore(i, n);
    }
  }

  /** Below 2 to the 32 characters nothing is replaced. */
  lemma LastingShort(i: Word, n: nat)
    requires i < n <= 0x1_0000_0000
    ensures Lasting(i, n) == i
  {
  }

  /** `_out_buffer`. */
  method OutBuffer(c: char, buffer: array<char>, idx: Word, maxlen: Word, ghost b0: seq<char>, ghost text: string)
    requires maxlen <= buffer.Length && idx == Index(text) && Holds(buffer[..], b0, maxlen, text)
    modifies buffer
    ensures Holds(buffer[..], b0, maxlen, text + [c]) && Index(text + [c]) == After(idx)
  {
    hide Lasting;
    if idx < maxlen {
      buffer[idx] := c;
    }
    LastingMoves(|text|);
  }

  lemma OneMore(text: string, part: string, c: char)
    ensures (text + part) + [c] == text + (part + [c])
  {
  }

  /** The loops that print blanks: `n` of them. */
  method OutSpaces(n: int, buffer: array<char>, idx: Word, maxlen: Word, ghost b0: seq<char>, ghost text: string)
    returns (idx': Word)
    requires maxlen <= buffer.Length && idx == Index(text) && Holds(buffer[..], b0, maxlen, text)
    modifies buffer
    ensures Holds(buffer[..], b0, maxlen, text + Spaces(n)) && idx' == Index(text + Spaces(n))
  {
    hide Holds;
    idx' := idx;
    var i := 0;
    assert text + Spaces(0) == text;
    while i < n
      invariant 0 <= i <= Max(0, n)
      invariant Holds(buffer[..], b0, maxlen, text + Spaces(i)) && idx' == Index(text + Spaces(i))
    {
      OutBuffer(' ', buffer, idx', maxlen, b0, text + Spaces(i));
      OneMore(text, Spaces(i), ' ');
      idx' := After(idx');
      i := i + 1;
    }
    assert Spaces(i) == Spaces(n);
  }

  lemma ReverseStep(s: string, k: nat)
    requires 0 < k <= |s|
    ensures Reverse(s[k - 1..]) == Reverse(s[k..]) + [s[k - 1]]
  {
    assert s[k - 1..][1..] == s[k..];
  }

  /** The loop that prints the buffer backwards. */
  method OutReversed(buf: array<char>, len: nat, buffer: array<char>, idx: Word, maxlen: Word, ghost b0: seq<char>,
                     ghost text: string)
    returns (idx': Word)
    requires len <= buf.Length && buf != buffer
    requires maxlen <= buffer.Length && idx == Index(text) && Holds(buffer[..], b0, maxlen, text)
    modifies buffer
    ensures Holds(buffer[..], b0, maxlen, text + Reverse(buf[..len])) && idx' == Index(text + Reverse(buf[..len]))
  {
    hide Holds, Reverse;
    idx' := idx;
    var k := len;
    ghost var s := buf[..len];
    assert s[len..] == [] && text + [] == text;
    while k > 0
      invariant 0 <= k <= len && buf[..len] == s
      invariant Holds(buffer[..], b0, maxlen, text + Reverse(s[k..])) && idx' == Index(text + Reverse(s[k..]))
    {
      ReverseStep(s, k);
      k := k - 1;
      OutBuffer(buf[k], buffer, idx', maxlen, b0, text + Reverse(s[k + 1..]));
      OneMore(text, Reverse(s[k + 1..]), buf[k]);
      idx' := After(idx');
    }
    assert s[0..] == s;
  }

  lemma Join3(a: string, b: string, c: string)
    ensures (a + b) + c == a + (b + c)
  {
  }

  /** `_out_rev`. */
  method OutRev(buf: array<char>, len: nat, width: nat, flags: Flags,
                buffer: array<char>, idx: Word, maxlen: Word, ghost b0: seq<char>, ghost text: string)
    returns (idx': Word)
    requires len <= buf.Length && buf != buffer
    requires maxlen <= buffer.Length && idx == Index(text) && Holds(buffer[..], b0, maxlen, text)
    modifies buffer
    ensures Holds(buffer[..], b0, maxlen, text + Padded(buf[..len], width, flags))
    ensures idx' == Index(text + Padded(buf[..len], width, flags))
  {
    hide Holds, Reverse, Spaces;
    idx' := idx;
    ghost var done := text;
    if !flags.left && !flags.zero {
      idx' := OutSpaces(width - len, buffer, idx', maxlen, b0, done);
      done := text + Spaces(width - len);
    }
    idx' := OutReversed(buf, len, buffer, idx', maxlen, b0, done);
    Join3(text, Spaces(width - len), Reverse(buf[..len]));
    done := done + Reverse(buf[..len]);
    if flags.left {
      idx' := OutSpaces(width - len, buffer, idx', maxlen, b0, done);
      Join3(text, Reverse(buf[..len]), Spaces(width - len));
    }
  }

  // ---------- integers ----------

  lemma LeadStep(d: string, n: int)
    requires n >= 0
    ensures Lead(d, n) + ['0'] == Lead(d, n + 1) && |Lead(d, n)| == |d| + n
  {
    if n > 0 {
      OneMore(d, ZeroDigits(n), '0');
    } else {
      assert ZeroDigits(1) == ZeroDigits(0) + ['0'];
    }
  }

  /** The loops that add leading zeros to the reversed number. */
  method ZeroPad(buf: array<char>, len: nat, limit: nat) returns (n: nat)
    requires buf.Length == NTOA_BUFFER_SIZE && len <= buf.Length
    modifies buf
    ensures n <= buf.Length && buf[..n] == ZeroTo(old(buf[..len]), limit)
  {
    ghost var d := buf[..len];
    n := len;
    while n < limit && n < NTOA_BUFFER_SIZE
      invariant len <= n <= NTOA_BUFFER_SIZE && (n > len ==> n <= limit)
      invariant buf[..n] == Lead(d, n - len)
    {
      LeadStep(d, n - len);
      buf[n] := '0';
      assert buf[..n + 1] == buf[..n] + ['0'];
      n := n + 1;
    }
  }

  /** The first part of `_ntoa_format`: leading zeros, for the precision and for the width. */
  method PadNumber(buf: array<char>, len: nat, negative: bool, prec: nat, width: nat, flags: Flags)
    returns (n: nat, w: nat)
    requires buf.Length == NTOA_BUFFER_SIZE && len <= buf.Length
    modifies buf
    ensures n <= buf.Length && buf[..n] == Zeroed(old(buf[..len]), negative, prec, width, flags)
    ensures w == InnerWidth(negative, width, flags)
  {
    hide ZeroTo;
    n, w := len, width;
    if !flags.left {
      if w != 0 && flags.zero && (negative || flags.plus || flags.space) {
        w := w - 1;
      }
      n := ZeroPad(buf, n, prec);
      if flags.zero {
        n := ZeroPad(buf, n, w);
      }
    }
  }

  /** Appends a character to the number if its buffer has room. */
  method AddChar(buf: array<char>, len: nat, c: char) returns (n: nat)
    requires buf.Length == NTOA_BUFFER_SIZE && len <= buf.Length
    modifies buf
    ensures n <= buf.Length && buf[..n] == Add(old(buf[..len]), [c])
  {
    n := len;
    if n < NTOA_BUFFER_SIZE {
      buf[n] := c;
      n := n + 1;
    }
  }

  lemma AddNothing(s: string)
    ensures Add(s, []) == s
  {
    assert s + [] == s;
  }

  /** The part of `_ntoa_format` that handles `#`. */
  method AddPrefix(buf: array<char>, len: nat, base: nat, prec: nat, width: nat, flags: Flags) returns (n: nat)
    requires buf.Length == NTOA_BUFFER_SIZE && len <= buf.Length
    modifies buf
    ensures n <= buf.Length && buf[..n] == Hashed(old(buf[..len]), base, prec, width, flags)
  {
    n := len;
    if flags.hash {
      ghost var d := buf[..len];
      if !flags.precision && n != 0 && (n == prec || n == width) {
        n := n - 1;
        if n != 0 && base == 16 {
          n := n - 1;
        }
      }
      assert buf[..n] == HashRoom(d, base, prec, width, flags);
      hide HashRoom, Add;
      AddNothing(buf[..n]);
      if base == 16 && !flags.upper {
        n := AddChar(buf, n, 'x');
      } else if base == 16 && flags.upper {
        n := AddChar(buf, n, 'X');
      } else if base == 2 {
        n := AddChar(buf, n, 'b');
      }
      n := AddChar(buf, n, '0');
    }
  }

  /** `_ntoa_format`. */
  method NtoaFormat(buf: array<char>, len: nat, negative: bool, base: nat, prec: nat, width: nat, flags: Flags,
                    buffer: array<char>, idx: Word, maxlen: Word, ghost b0: seq<char>, ghost text: string)
    returns (idx': Word)
    requires buf.Length == NTOA_BUFFER_SIZE && len <= buf.Length && buf != buffer
    requires maxlen <= buffer.Length && idx == Index(text) && Holds(buffer[..], b0, maxlen, text)
    modifies buffer, buf
    ensures Holds(buffer[..], b0, maxlen, text + FormatText(old(buf[..len]), negative, base, prec, width, flags))
    ensures idx' == Index(text + FormatText(old(buf[..len]), negative, base, prec, width, flags))
  {
    hide Holds, Hashed, Zeroed, Padded, Add, InnerWidth;
    var n, w := PadNumber(buf, len, negative, prec, width, flags);
    n := AddPrefix(buf, n, base, prec, w, flags);
    AddNothing(buf[..n]);
    if negative {
      n := AddChar(buf, n, '-');
    } else if flags.plus {
      n := AddChar(buf, n, '+');
    } else if flags.space {
      n := AddChar(buf, n, ' ');
    }
    idx' := OutRev(buf, n, w, flags, buffer, idx, maxlen, b0, text);
  }

  lemma DigitStep(done: string, v: nat, base: nat, upper: bool)
    requires BaseOk(base)
    ensures v % base < 16
    ensures done + RevDigits(v, base, upper)
         == if v / base == 0 then done + [DigitChar(v % base, upper)]
            else (done + [DigitChar(v % base, upper)]) + RevDigits(v / base, base, upper)
  {
    Quotient(v, base);
    hide DigitChar;
    if v >= base {
      Join3(done, [DigitChar(v % base, upper)], RevDigits(v / base, base, upper));
    }
  }

  /** The digit loop of `_ntoa_long`. */
  method PutDigits(buf: array<char>, value: Word, base: nat, upper: bool) returns (len: nat)
    requires buf.Length == NTOA_BUFFER_SIZE && BaseOk(base)
    modifies buf
    ensures len <= buf.Length && buf[..len] == RevDigits(value, base, upper)
  {
    hide RevDigits, DigitChar;
    DigitsFit(value, base, upper);
    len := 0;
    var v: nat := value;
    assert buf[..0] + RevDigits(value, base, upper) == RevDigits(value, base, upper);
    while true
      invariant len < NTOA_BUFFER_SIZE && 0 <= v
      invariant buf[..len] + RevDigits(v, base, upper) == RevDigits(value, base, upper)
      decreases v
    {
      Quotient(v, base);
      DigitStep(buf[..len], v, base, upper);
      ghost var done := buf[..len];
      buf[len] := DigitChar(v % base, upper);
      assert buf[..len + 1] == done + [DigitChar(v % base, upper)];
      len := len + 1;
      v := v / base;
      if !(v != 0 && len < NTOA_BUFFER_SIZE) {
        break;
      }
    }
  }

  /** `_ntoa_long`. */
  method NtoaLong(value: Word, negative: bool, base: nat, prec: nat, width: nat, flags: Flags,
                  buffer: array<char>, idx: Word, maxlen: Word, ghost b0: seq<char>, ghost text: string)
    returns (idx': Word)
    requires BaseOk(base)
    requires maxlen <= buffer.Length && idx == Index(text) && Holds(buffer[..], b0, maxlen, text)
    modifies buffer
    ensures Holds(buffer[..], b0, maxlen, text + LongText(value, negative, base, prec, width, flags))
    ensures idx' == Index(text + LongText(value, negative, base, prec, width, flags))
  {
    hide Holds, FormatText;
    var buf := new char[NTOA_BUFFER_SIZE];
    var len := 0;
    var f := if value == 0 then flags.(hash := false) else flags;
    if !f.precision || value != 0 {
      len := PutDigits(buf, value, base, f.upper);
    }
    assert buf[..len] == LongDigits(value, base, flags);
    idx' := NtoaFormat(buf, len, negative, base, prec, width, f, buffer, idx, maxlen, b0, text);
  }

  // ---------- reading a directive ----------

  lemma {:induction false} FlagRunStep(f: string, n: nat)
    requires n <= FlagRun(f)
    ensures n + FlagRun(f[n..]) == FlagRun(f)
  {
    if n > 0 {
      FlagRunStep(f[1..], n - 1);
      assert f[1..][n - 1..] == f[n..];
    } else {
      assert f[0..] == f;
    }
  }

  /** The flag loop of `_vsnprintf`. */
  method ReadFlags(f: string, used: nat) returns (d: Directive)
    ensures d == FlagStage(f, used)
  {
    d := Directive(NoFlags(), 0, 0, Plain, 0, used);
    while IsFlag(At(f, d.pos))
      invariant d.pos <= FlagRun(f) && d == Directive(FlagsOf(f[..d.pos]), 0, 0, Plain, d.pos, used)
      decreases |f| - d.pos
    {
      FlagRunStep(f, d.pos);
      assert f[..d.pos + 1][..d.pos] == f[..d.pos];
      d := d.(flags := AddFlag(d.flags, f[d.pos]), pos := d.pos + 1);
    }
    FlagRunStep(f, d.pos);
  }

  lemma {:induction false} DigitRunStep(f: string, n: nat)
    requires n <= DigitRun(f)
    ensures n + DigitRun(f[n..]) == DigitRun(f)
  {
    if n > 0 {
      DigitRunStep(f[1..], n - 1);
      assert f[1..][n - 1..] == f[n..];
    } else {
      assert f[0..] == f;
    }
  }

  lemma AtoiNone(s: string)
    requires s == ""
    ensures Atoi(s) == 0
  {
  }

  lemma AtoiStep(g: string, n: nat)
    requires n < |g| && forall i :: 0 <= i <= n ==> IsDigit(g[i])
    ensures Atoi(g[..n + 1]) == (Atoi(g[..n]) * 10 + (g[n] as int - '0' as int)) % 0x1_0000_0000
  {
    assert g[..n + 1][..n] == g[..n];
  }

  /** `_atoi`. */
  method ReadNumber(f: string, start: nat) returns (n: Word, pos: nat)
    requires start <= |f|
    ensures n == NumberAt(f, start) && pos == start + DigitRun(f[start..]) <= |f|
  {
    hide Atoi, DigitRun;
    n, pos := 0, start;
    ghost var g := f[start..];
    assert Atoi(g[..0]) == 0 by { AtoiNone(g[..0]); }
    while IsDigit(At(f, pos))
      invariant start <= pos <= start + DigitRun(g)
      invariant n == Atoi(g[..pos - start])
      decreases |f| - pos
    {
      DigitRunStep(g, pos - start);
      AtoiStep(g, pos - start);
      n := (n * 10 + (f[pos] as int - '0' as int)) % 0x1_0000_0000;
      pos := pos + 1;
    }
    DigitRunStep(g, pos - start);
  }

  /** The part of `_vsnprintf` that reads flags, width, precision and length of a directive. */
  method ReadDirective(f: string, args: seq<Word>, used: nat) returns (d: Directive)
    ensures d == Parse(f, args, used)
  {
    hide FlagsOf, FlagRun, NumberAt, DigitRun;
    d := ReadFlags(f, used);
    if IsDigit(At(f, d.pos)) {
      var n, pos := ReadNumber(f, d.pos);
      d := d.(width := n, pos := pos);
    } else if At(f, d.pos) == '*' {
      var w := Signed(Arg(args, d.used));
      if w < 0 {
        d := d.(flags := d.flags.(left := true), width := -w);
      } else {
        d := d.(width := w);
      }
      d := d.(pos := d.pos + 1, used := d.used + 1);
    }
    assert d == WidthStage(f, FlagStage(f, used), args);
    d := ReadPrecision(f, d, args);
    d := ReadLength(f, d);
  }

  method ReadPrecision(f: string, d0: Directive, args: seq<Word>) returns (d: Directive)
    requires d0.pos <= |f|
    ensures d == PrecisionStage(f, d0, args)
  {
    hide NumberAt, DigitRun;
    d := d0;
    if At(f, d.pos) == '.' {
      d := d.(flags := d.flags.(precision := true), pos := d.pos + 1);
      if IsDigit(At(f, d.pos)) {
        var n, pos := ReadNumber(f, d.pos);
        d := d.(precision := n, pos := pos);
      } else if At(f, d.pos) == '*' {
        var p := Signed(Arg(args, d.used));
        d := d.(precision := if p > 0 then p else 0, pos := d.pos + 1, used := d.used + 1);
      }
    }
  }

  method ReadLength(f: string, d0: Directive) returns (d: Directive)
    requires d0.pos <= |f|
    ensures d == LengthStage(f, d0)
  {
    d := d0;
    match At(f, d.pos) {
      case 'l' =>
        d := d.(length := Long, pos := d.pos + 1);
        if At(f, d.pos) == 'l' {
          d := d.(length := LongLong, pos := d.pos + 1);
        }
      case 'h' =>
        d := d.(length := Short, pos := d.pos + 1);
        if At(f, d.pos) == 'h' {
          d := d.(length := Byte, pos := d.pos + 1);
        }
      case 't' => d := d.(length := Long, pos := d.pos + 1);
      case 'j' => d := d.(length := LongLong, pos := d.pos + 1);
      case 'z' => d := d.(length := Long, pos := d.pos + 1);
      case _ =>
    }
  }

  // ---------- conversions ----------

  /** The flags that count for an integer conversion. */
  method AdjustFlags(f: Flags, c: char) returns (flags: Flags)
    requires IsInteger(c)
    ensures flags == IntegerFlags(f, c)
  {
    var hash, upper, plus, space, zero := f.hash, f.upper, f.plus, f.space, f.zero;
    if BaseOf(c) == 10 {
      hash := false;
    }
    if c == 'X' {
      upper := true;
    }
    if c != 'i' && c != 'd' {
      plus, space := false, false;
    }
    if f.precision {
      zero := false;
    }
    flags := f.(hash := hash, upper := upper, plus := plus, space := space, zero := zero);
  }

  /** The integer conversions of `_vsnprintf`. */
  method PrintInteger(d: Directive, c: char, w: Word,
                      buffer: array<char>, idx: Word, maxlen: Word, ghost b0: seq<char>, ghost text: string)
    returns (idx': Word)
    requires IsInteger(c)
    requires maxlen <= buffer.Length && idx == Index(text) && Holds(buffer[..], b0, maxlen, text)
    modifies buffer
    ensures Holds(buffer[..], b0, maxlen, text + IntegerText(d, c, w)) && idx' == Index(text + IntegerText(d, c, w))
  {
    hide Holds, LongText, SignedArg, UnsignedArg, IntegerFlags, BaseOf;
    var base := BaseOf(c);
    var flags := AdjustFlags(d.flags, c);
    assert text + "" == text;
    idx' := idx;
    if !d.length.LongLong? {
      if c == 'i' || c == 'd' {
        ArgRange(d.length, w);
        var value := SignedArg(d.length, w);
        idx' := NtoaLong(Magnitude(value), value < 0, base, d.precision, d.width, flags, buffer, idx, maxlen, b0, text);
      } else {
        idx' := NtoaLong(UnsignedArg(d.length, w), false, base, d.precision, d.width, flags, buffer, idx, maxlen, b0,
            text);
      }
    }
  }

  /** The conversion `%c`. */
  method PrintChar(d: Directive, w: Word,
                   buffer: array<char>, idx: Word, maxlen: Word, ghost b0: seq<char>, ghost text: string)
    returns (idx': Word)
    requires maxlen <= buffer.Length && idx == Index(text) && Holds(buffer[..], b0, maxlen, text)
    modifies buffer
    ensures Holds(buffer[..], b0, maxlen, text + CharText(d, w)) && idx' == Index(text + CharText(d, w))
  {
    hide Holds, Spaces;
    idx' := idx;
    ghost var done := text;
    if !d.flags.left {
      idx' := OutSpaces(d.width - 1, buffer, idx', maxlen, b0, done);
      done := text + Spaces(d.width - 1);
    }
    var c := (w % 0x100) as char;
    OutBuffer(c, buffer, idx', maxlen, b0, done);
    OneMore(text, Spaces(d.width - 1), c);
    idx' := After(idx');
    if d.flags.left {
      Join3(text, [c], Spaces(d.width - 1));
      idx' := OutSpaces(d.width - 1, buffer, idx', maxlen, b0, text + [c]);
    }
  }

  /** The loop that prints the characters of a string: as long as there are some, and as many as the precision
      says if there is one. */
  method OutString(s: CText, bounded: bool, limit: nat,
                   buffer: array<char>, idx: Word, maxlen: Word, ghost b0: seq<char>, ghost text: string)
    returns (idx': Word)
    requires maxlen <= buffer.Length && idx == Index(text) && Holds(buffer[..], b0, maxlen, text)
    modifies buffer
    ensures var shown := if bounded && limit < |s| then s[..limit] else s;
            Holds(buffer[..], b0, maxlen, text + shown) && idx' == Index(text + shown)
  {
    hide Holds;
    idx' := idx;
    var p := 0;
    assert text + s[..0] == text;
    while p < |s| && (!bounded || p < limit)
      invariant 0 <= p <= |s| && (bounded ==> p <= limit)
      invariant Holds(buffer[..], b0, maxlen, text + s[..p]) && idx' == Index(text + s[..p])
    {
      OutBuffer(s[p], buffer, idx', maxlen, b0, text + s[..p]);
      assert text + s[..p + 1] == (text + s[..p]) + [s[p]];
      idx' := After(idx');
      p := p + 1;
    }
    assert s[..|s|] == s;
  }

  /** The conversion `%s`. */
  method PrintString(d: Directive, s: CText,
                     buffer: array<char>, idx: Word, maxlen: Word, ghost b0: seq<char>, ghost text: string)
    returns (idx': Word)
    requires !d.flags.precision ==> d.precision == 0
    requires maxlen <= buffer.Length && idx == Index(text) && Holds(buffer[..], b0, maxlen, text)
    modifies buffer
    ensures Holds(buffer[..], b0, maxlen, text + StringText(d, s)) && idx' == Index(text + StringText(d, s))
  {
    hide Holds, Spaces;
    assert d.precision != 0 ==> d.flags.precision;
    ghost var shown := if d.flags.precision && d.precision < |s| then s[..d.precision] else s;
    var l := if d.precision != 0 && d.precision < |s| then d.precision else |s|;
    if d.flags.precision {
      l := if l < d.precision then l else d.precision;
    }
    idx' := idx;
    ghost var done := text;
    if !d.flags.left {
      assert l == |shown|;
      idx' := OutSpaces(d.width - l, buffer, idx', maxlen, b0, done);
      done := text + Spaces(d.width - l);
      Join3(text, Spaces(d.width - l), shown);
    }
    idx' := OutString(s, d.flags.precision, d.precision, buffer, idx', maxlen, b0, done);
    if d.flags.left {
      Join3(text, shown, Spaces(d.width - l));
      idx' := OutSpaces(d.width - l, buffer, idx', maxlen, b0, text + shown);
    }
  }

  /** The last part of a directive: the conversion itself. */
  method Convert(d: Directive, c: char, args: seq<Word>, mem: map<Word, CText>,
                 buffer: array<char>, idx: Word, maxlen: Word, ghost b0: seq<char>, ghost text: string)
    returns (idx': Word, used: nat)
    requires !d.flags.precision ==> d.precision == 0
    requires maxlen <= buffer.Length && idx == Index(text) && Holds(buffer[..], b0, maxlen, text)
    modifies buffer
    ensures Holds(buffer[..], b0, maxlen, text + Converted(d, c, args, mem).0)
    ensures idx' == Index(text + Converted(d, c, args, mem).0) && used == Converted(d, c, args, mem).1
  {
    hide Holds, IntegerText, CharText, StringText, LongText;
    used := d.used;
    var w := Arg(args, d.used);
    if IsInteger(c) {
      idx' := PrintInteger(d, c, w, buffer, idx, maxlen, b0, text);
      if !d.length.LongLong? {
        used := used + 1;
      }
    } else if c == 'c' {
      idx' := PrintChar(d, w, buffer, idx, maxlen, b0, text);
      used := used + 1;
    } else if c == 's' {
      idx' := PrintString(d, StringAt(mem, w), buffer, idx, maxlen, b0, text);
      used := used + 1;
    } else if c == 'p' {
      idx' := NtoaLong(w, false, 16, d.precision, 8, d.flags.(zero := true, upper := true), buffer, idx, maxlen, b0,
          text);
      used := used + 1;
    } else {
      OutBuffer(c, buffer, idx, maxlen, b0, text);
      idx' := After(idx);
    }
  }

  /** `_vsnprintf`. What is kept of the output depends on the capacity, the result does not: it is the length
      as an `int`. From 2 to the 32 characters on, the index wraps around and earlier characters are
      overwritten, but never outside the capacity. */
  method Vsnprintf(buffer: array<char>, maxlen: Word, format: CText, args: seq<Word>, mem: map<Word, CText>)
    returns (r: int)
    requires maxlen <= buffer.Length && Complete(format)
    modifies buffer
    ensures r == (|Text(format, args, 0, mem)| + 0x8000_0000) % 0x1_0000_0000 - 0x8000_0000
    ensures var t := Text(format, args, 0, mem);
            |t| < 0x1_0000_0000 && maxlen > 0 ==>
              var n := if |t| < maxlen - 1 then |t| else maxlen - 1;
              && buffer[..n] == t[..n] && buffer[n] == '\0'
              && forall i :: n < i < maxlen ==> buffer[i] == old(buffer[i])
    ensures maxlen > 0 ==> '\0' in buffer[..maxlen]
    ensures forall i :: maxlen <= i < buffer.Length ==> buffer[i] == old(buffer[i])
  {
    hide Holds, Parse, Converted, Text, Complete, Signed;
    ghost var b0, done := buffer[..], "";
    var rest, idx, used := format, 0, 0;
    Begin(b0, maxlen, Text(format, args, 0, mem));
    while rest != ""
      invariant Complete(rest) && idx == Index(done) && buffer.Length == |b0|
      invariant Holds(buffer[..], b0, maxlen, done)
      invariant done + Text(rest, args, used, mem) == Text(format, args, 0, mem)
      decreases |rest|
    {
      if rest[0] != '%' {
        TextPlain(rest, args, used, mem);
        OutBuffer(rest[0], buffer, idx, maxlen, b0, done);
        Join3(done, [rest[0]], Text(rest[1..], args, used, mem));
        done := done + [rest[0]];
        rest, idx := rest[1..], After(idx);
      } else {
        var f := rest[1..];
        var d := ReadDirective(f, args, used);
        CompleteDirective(rest, f, args, used);
        TextDirective(rest, args, used, mem);
        NoPrecision(f, args, used);
        var c := f[d.pos];
        ghost var text := Converted(d, c, args, mem).0;
        idx, used := Convert(d, c, args, mem, buffer, idx, maxlen, b0, done);
        Join3(done, text, Text(f[d.pos + 1..], args, used, mem));
        done := done + text;
        rest := f[d.pos + 1..];
      }
    }
    TextDone(done, args, used, mem);
    ghost var b1 := buffer[..];
    var last := if idx < maxlen then idx else maxlen - 1;
    if maxlen > 0 {
      buffer[last] := '\0';
    }
    Finish(b0, b1, buffer[..], maxlen, done);
    LengthWraps(|done|);
    r := Signed(idx);
  }

  lemma Begin(b0: seq<char>, maxlen: Word, text: string)
    ensures Holds(b0, b0, maxlen, "") && "" + text == text
  {
  }

  lemma TextPlain(a: CText, args: seq<Word>, used: nat, mem: map<Word, CText>)
    requires a != "" && a[0] != '%' && Complete(a)
    ensures Complete(a[1..]) && Text(a, args, used, mem) == [a[0]] + Text(a[1..], args, used, mem)
  {
  }

  lemma TextDone(done: string, args: seq<Word>, used: nat, mem: map<Word, CText>)
    ensures done + Text("", args, used, mem) == done
  {
  }

  /** Writing the NUL ends the output. */
  lemma Finish(b0: seq<char>, b1: seq<char>, b2: seq<char>, maxlen: Word, text: string)
    requires Holds(b1, b0, maxlen, text) && maxlen <= |b0|
    requires b2 == if maxlen > 0 then b1[(if Index(text) < maxlen then Index(text) else maxlen - 1) := '\0'] else b1
    ensures |text| < 0x1_0000_0000 && maxlen > 0 ==>
              var n := if |text| < maxlen - 1 then |text| else maxlen - 1;
              && b2[..n] == text[..n] && b2[n] == '\0'
              && forall i :: n < i < maxlen ==> b2[i] == b0[i]
    ensures maxlen > 0 ==> '\0' in b2[..maxlen]
    ensures |b2| == |b0| && forall i :: maxlen <= i < |b0| ==> b2[i] == b0[i]
  {
    hide Lasting;
    if |text| < 0x1_0000_0000 {
      forall i: Word | i < |text| ensures Lasting(i, |text|) == i {
        LastingShort(i, |text|);
      }
    }
    if maxlen > 0 {
      var last := if Index(text) < maxlen then Index(text) else maxlen - 1;
      assert b2[..maxlen][last] == '\0';
    }
  }

  /** The result is the length as an `int`. */
  lemma LengthWraps(n: nat)
    ensures Signed(n % 0x1_0000_0000) == (n + 0x8000_0000) % 0x1_0000_0000 - 0x8000_0000
  {
    var q, r := n / 0x1_0000_0000, n % 0x1_0000_0000;
    assert n + 0x8000_0000 == 0x1_0000_0000 * q + (r + 0x8000_0000);
  }
}
