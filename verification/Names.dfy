// 8.3 names: the conversion of a path component to the padded form on disk and back.
module Names {
  import opened Disk
  import opened Directory

  /** A C string: the bytes before the terminating NUL. */
  type CString = s: seq<byte> | 0 !in s witness []

  predicate IsLower(c: byte) { 0x61 <= c <= 0x7A }

  function UpperChar(c: byte): byte { if IsLower(c) then c - 0x20 else c }

  function Upper(s: seq<byte>): (r: seq<byte>)
    ensures |r| == |s|
  {
    seq(|s|, i requires 0 <= i < |s| => UpperChar(s[i]))
  }

  function Min(a: nat, b: nat): nat { if a < b then a else b }

  /** `s` cut to `n` bytes, in upper case, filled up with blanks. */
  function Field(s: seq<byte>, n: nat): (r: seq<byte>)
    ensures |r| == n
  {
    Upper(s[..Min(|s|, n)]) + seq(n - Min(|s|, n), _ => BLANK)
  }

  /** The position of the first dot, or the length. */
  function DotAt(s: seq<byte>): (n: nat)
    ensures n <= |s| && DOT !in s[..n] && (n < |s| ==> s[n] == DOT)
  {
    if s == [] || s[0] == DOT then 0 else
    var n := 1 + DotAt(s[1..]);
    assert s[..n] == [s[0]] + s[1..][..n - 1];
    n
  }

  function Stem(s: seq<byte>): seq<byte> { s[..DotAt(s)] }

  function Ext(s: seq<byte>): seq<byte> { if DotAt(s) < |s| then s[DotAt(s) + 1..] else [] }

  /** What `to_fat12_name` computes. */
  function ToKey(s: seq<byte>): (k: Key)
  {
    Field(Stem(s), 8) + Field(Ext(s), 3)
  }

  function Trim(s: seq<byte>): (r: seq<byte>)
    ensures r <= s && (r != [] ==> r[|r| - 1] != BLANK)
    ensures forall i :: |r| <= i < |s| ==> s[i] == BLANK
  {
    if s != [] && s[|s| - 1] == BLANK then Trim(s[..|s| - 1]) else s
  }

  /** The bytes that `from_fat12_name` stores before its NUL. */
  function FromKey(k: Key): (s: seq<byte>)
  {
    Trim(k[..8]) + (if Trim(k[8..]) == [] then [] else [DOT] + Trim(k[8..]))
  }

  /** The C string in a buffer with the bytes `s`: those before the first NUL. */
  function CutAtNul(s: seq<byte>): (r: CString)
    ensures r <= s && (|r| < |s| ==> s[|r|] == 0)
  {
    if s == [] || s[0] == 0 then [] else [s[0]] + CutAtNul(s[1..])
  }

  /** The text that a reader of the result of `from_fat12_name` sees. */
  function Shown(k: Key): CString { CutAtNul(FromKey(k)) }

  // ---------- facts ----------

  /** The dot position is the one place where the text before it has no dot. */
  lemma {:induction false} DotAtIs(s: seq<byte>, n: nat)
    requires n <= |s| && (forall i :: 0 <= i < n ==> s[i] != DOT) && (n < |s| ==> s[n] == DOT)
    ensures DotAt(s) == n
    decreases n
  {
    if n > 0 {
      DotAtIs(s[1..], n - 1);
    }
  }

  /** A converted name never looks like "." or ".." and never starts with the end marker; it
      starts with the tombstone byte exactly when the component does. */
  lemma KeyStart(s: CString)
    requires s != []
    ensures ToKey(s)[0] != DOT && ToKey(s)[0] != 0
    ensures ToKey(s)[0] == FREE <==> s[0] == FREE
  {
    assert s[0] in s;
    if DotAt(s) > 0 {
      assert s[..DotAt(s)][0] == s[0];
    }
  }

  lemma TrimField(s: seq<byte>, n: nat)
    requires |s| == n && forall i :: 0 <= i < n ==> !IsLower(s[i])
    ensures Field(Trim(s), n) == s
  {
  }

  /** Disk form to text and back: the identity exactly on the names that have no lower-case letter, no NUL,
      and no dot in the first part. A NUL inside the name cuts the text off there. */
  lemma KeyRoundTrip(k: Key)
    ensures ToKey(Shown(k)) == k
            <==> (forall i :: 0 <= i < 11 ==> !(0x61 <= k[i] <= 0x7A)) && 0x2E !in k[..8] && 0 !in k
  {
    if 0 !in k {
      NoNul(k);
      CutNothing(FromKey(k));
      TrimmedRoundTrip(k);
    } else {
      ToKeyNoNul(Shown(k));
    }
  }

  lemma NoNul(k: Key)
    requires 0 !in k
    ensures 0 !in FromKey(k)
  {
    var a, b := Trim(k[..8]), Trim(k[8..]);
    assert 0 !in k[..8] && 0 !in k[8..];
    assert 0 !in a && 0 !in b;
  }

  lemma {:induction false} CutNothing(s: seq<byte>)
    requires 0 !in s
    ensures CutAtNul(s) == s
  {
    if s != [] {
      CutNothing(s[1..]);
      assert s == [s[0]] + s[1..];
    }
  }

  /** A converted name has no NUL. */
  lemma ToKeyNoNul(s: CString)
    ensures 0 !in ToKey(s)
  {
    FieldNoNul(Stem(s), 8);
    FieldNoNul(Ext(s), 3);
  }

  lemma FieldNoNul(s: seq<byte>, n: nat)
    requires 0 !in s
    ensures 0 !in Field(s, n)
  {
    forall i | 0 <= i < n ensures Field(s, n)[i] != 0 {
      if i < |s| {
        assert Field(s, n)[i] == UpperChar(s[i]) && s[i] in s;
      }
    }
  }

  /** The same without the question where the text ends. */
  lemma TrimmedRoundTrip(k: Key)
    ensures ToKey(FromKey(k)) == k <==> (forall i :: 0 <= i < 11 ==> !IsLower(k[i])) && DOT !in k[..8]
  {
    var t := FromKey(k);
    if (forall i :: 0 <= i < 11 ==> !IsLower(k[i])) && DOT !in k[..8] {
      var name, ext := Trim(k[..8]), Trim(k[8..]);
      assert DOT !in name;
      assert t[..|name|] == name;
      DotAtIs(t, |name|);
      assert Stem(t) == name;
      assert Ext(t) == ext;
      TrimField(k[..8], 8);
      TrimField(k[8..], 3);
    }
    if ToKey(t) == k {
      forall i | 0 <= i < 11
        ensures !IsLower(ToKey(t)[i]) && (i < 8 ==> ToKey(t)[i] != DOT)
      {
        FieldChars(Stem(t), 8);
        FieldChars(Ext(t), 3);
        assert ToKey(t)[i] == if i < 8 then Field(Stem(t), 8)[i] else Field(Ext(t), 3)[i - 8];
      }
    }
  }

  lemma FieldChars(s: seq<byte>, n: nat)
    ensures forall i :: 0 <= i < n ==> !IsLower(Field(s, n)[i])
    ensures DOT !in s ==> DOT !in Field(s, n)
  {
    forall i | 0 <= i < n
      ensures !IsLower(Field(s, n)[i]) && (DOT !in s ==> Field(s, n)[i] != DOT)
    {
      if i < |s| {
        assert Field(s, n)[i] == UpperChar(s[i]);
      }
    }
  }

  /** A text in 8.3 form: no part too long or ending in a blank, and no dot without an extension. */
  predicate Is83(s: seq<byte>) {
    && |Stem(s)| <= 8 && Trim(Stem(s)) == Stem(s)
    && |Ext(s)| <= 3 && Trim(Ext(s)) == Ext(s)
    && (DotAt(s) < |s| ==> Ext(s) != [])
  }

  lemma TrimOfField(s: seq<byte>, n: nat)
    ensures Trim(Field(s, n)) == Upper(Trim(s[..Min(|s|, n)]))
  {
    var c := s[..Min(|s|, n)];
    var t := Upper(Trim(c));
    var f := Field(s, n);
    assert t <= f;
    assert forall i :: |t| <= i < n ==> f[i] == BLANK;
    assert t != [] ==> t[|t| - 1] != BLANK;
    TrimIs(f, t);
  }

  lemma {:induction false} TrimIs(s: seq<byte>, t: seq<byte>)
    requires t <= s && (t != [] ==> t[|t| - 1] != BLANK)
    requires forall i :: |t| <= i < |s| ==> s[i] == BLANK
    ensures Trim(s) == t
  {
    if |t| < |s| {
      TrimIs(s[..|s| - 1], t);
    }
  }

  /** Text to disk form and back, part by part. */
  lemma TextParts(s: seq<byte>)
    ensures var a, b := Upper(Trim(Stem(s)[..Min(|Stem(s)|, 8)])), Upper(Trim(Ext(s)[..Min(|Ext(s)|, 3)]));
            FromKey(ToKey(s)) == a + if b == [] then [] else [DOT] + b
  {
    var k := ToKey(s);
    assert k[..8] == Field(Stem(s), 8) && k[8..] == Field(Ext(s), 3);
    TrimOfField(Stem(s), 8);
    TrimOfField(Ext(s), 3);
  }

  lemma UpperParts(s: seq<byte>)
    ensures Upper(s) == Upper(Stem(s)) + if DotAt(s) < |s| then [DOT] + Upper(Ext(s)) else []
  {
    if DotAt(s) < |s| {
      UpperSplit(s, DotAt(s));
    } else {
      assert s[..DotAt(s)] == s;
    }
  }

  lemma UpperSplit(s: seq<byte>, d: nat)
    requires d < |s| && s[d] == DOT
    ensures Upper(s) == Upper(s[..d]) + ([DOT] + Upper(s[d + 1..]))
  {
    var r := Upper(s[..d]) + ([DOT] + Upper(s[d + 1..]));
    forall i | 0 <= i < |s| ensures Upper(s)[i] == r[i] {
    }
  }

  /** Text to disk form and back gives the text in upper case exactly on 8.3 texts. */
  lemma TextRoundTrip(s: seq<byte>)
    ensures FromKey(ToKey(s)) == Upper(s) <==> Is83(s)
  {
    TextParts(s);
    UpperParts(s);
    hide Upper, FromKey, ToKey, Trim, DotAt, Stem, Ext;
    if Is83(s) {
      assert Stem(s)[..Min(|Stem(s)|, 8)] == Stem(s) && Ext(s)[..Min(|Ext(s)|, 3)] == Ext(s);
      EmptyUpper(Ext(s));
      ExtOfDot(s);
    } else if FromKey(ToKey(s)) == Upper(s) {
      SameLengths(s);
    }
  }

  lemma EmptyUpper(s: seq<byte>)
    ensures Upper(s) == [] <==> s == []
  {
    assert |Upper(s)| == |s|;
  }

  lemma ExtOfDot(s: seq<byte>)
    ensures DotAt(s) >= |s| ==> Ext(s) == []
  {
  }

  /** If the text survives, nothing was cut off. */
  lemma SameLengths(s: seq<byte>)
    requires FromKey(ToKey(s)) == Upper(s)
    ensures Is83(s)
  {
    TextParts(s);
    UpperParts(s);
    var a, b := Trim(Stem(s)[..Min(|Stem(s)|, 8)]), Trim(Ext(s)[..Min(|Ext(s)|, 3)]);
    hide Upper, FromKey, ToKey, Trim, DotAt;
    assert |FromKey(ToKey(s))| == |a| + if b == [] then 0 else 1 + |b|;
    assert |Upper(s)| == |Stem(s)| + if DotAt(s) < |s| then 1 + |Ext(s)| else 0;
    assert |a| == |Stem(s)| ==> a == Stem(s);
    assert |b| == |Ext(s)| ==> b == Ext(s);
  }

  /** Names that differ only in ASCII case are stored, and therefore found, under the same key. */
  lemma CaseInsensitive(s: seq<byte>, t: seq<byte>)
    requires Upper(s) == Upper(t)
    ensures ToKey(s) == ToKey(t)
  {
    SameUpper(s, t);
    forall i | 0 <= i < DotAt(s)
      ensures t[i] != DOT
    {
      assert s[..DotAt(s)][i] == s[i];
    }
    DotAtIs(t, DotAt(s));
    SameField(Stem(s), Stem(t), 8);
    SameField(Ext(s), Ext(t), 3);
  }

  lemma SameUpper(s: seq<byte>, t: seq<byte>)
    requires Upper(s) == Upper(t)
    ensures |s| == |t| && forall i :: 0 <= i < |s| ==> UpperChar(s[i]) == UpperChar(t[i])
  {
    assert |Upper(s)| == |Upper(t)|;
    forall i | 0 <= i < |s|
      ensures UpperChar(s[i]) == UpperChar(t[i])
    {
      assert Upper(s)[i] == Upper(t)[i];
    }
  }

  lemma SameField(s: seq<byte>, t: seq<byte>, n: nat)
    requires |s| == |t| && forall i :: 0 <= i < |s| ==> UpperChar(s[i]) == UpperChar(t[i])
    ensures Field(s, n) == Field(t, n)
  {
  }

  // ---------- the loops ----------

  /** The copying loops of `to_fat12_name`: at most `limit` bytes from `i` on, in upper case, up to
      the end or (in the first part) up to a dot. */
  method CopyUpper(src: CString, i: nat, limit: nat, stopAtDot: bool) returns (part: seq<byte>)
    requires i <= |src|
    ensures |part| <= limit && i + |part| <= |src| && part == Upper(src[i..i + |part|])
    ensures stopAtDot ==> DOT !in src[i..i + |part|]
    ensures |part| == limit || i + |part| == |src| || (stopAtDot && src[i + |part|] == DOT)
  {
    part := [];
    while i + |part| < |src| && (!stopAtDot || src[i + |part|] != DOT) && |part| < limit
      invariant |part| <= limit && i + |part| <= |src|
      invariant part == Upper(src[i..i + |part|])
      invariant stopAtDot ==> DOT !in src[i..i + |part|]
      decreases limit - |part|
    {
      var j := i + |part|;
      assert src[i..j + 1] == src[i..j] + [src[j]];
      part := part + [UpperChar(src[j])];
    }
  }

  /** A copied part and the blanks that were there before make the field. */
  lemma FieldFrom(s: seq<byte>, part: seq<byte>, n: nat)
    requires |part| == Min(|s|, n) && part == Upper(s[..|part|])
    ensures Field(s, n) == part + seq(n - |part|, _ => BLANK)
  {
  }

  /** The part of `to_fat12_name` that finds the end of the stem. */
  method CopyStem(src: CString) returns (name: seq<byte>, i: nat)
    ensures i == DotAt(src)
    ensures |name| == Min(|Stem(src)|, 8) && name == Upper(Stem(src)[..|name|])
  {
    name := CopyUpper(src, 0, 8, true);
    i := |name|;
    while i < |src| && src[i] != DOT
      invariant |name| <= i <= |src|
      invariant DOT !in src[..i]
      invariant i > |name| ==> |name| == 8
    {
      assert src[..i + 1] == src[..i] + [src[i]];
      i := i + 1;
    }
    DotAtIs(src, i);
    assert Stem(src)[..|name|] == src[0..|name|];
  }

  /** `to_fat12_name`. */
  method ToFat12Name(src: CString) returns (key: Key)
    ensures key == ToKey(src)
  {
    var name, i := CopyStem(src);
    var ext := [];
    if i < |src| {
      ext := CopyUpper(src, i + 1, 3, false);
      assert Ext(src)[..|ext|] == src[i + 1..i + 1 + |ext|];
    }
    FieldFrom(Stem(src), name, 8);
    FieldFrom(Ext(src), ext, 3);
    hide Field, Stem, Ext, Upper;
    key := (name + seq(8 - |name|, _ => BLANK)) + (ext + seq(3 - |ext|, _ => BLANK));
  }

  /** The loop with which `from_fat12_name` drops the blanks at the end of one part. */
  method TrimLength(s: seq<byte>) returns (n: nat)
    ensures n <= |s| && s[..n] == Trim(s)
  {
    n := |s|;
    while n > 0 && s[n - 1] == BLANK
      invariant n <= |s|
      invariant Trim(s[..n]) == Trim(s)
    {
      assert s[..n][..n - 1] == s[..n - 1];
      n := n - 1;
    }
  }

  /** `from_fat12_name`: the bytes stored before the NUL at the end. */
  method FromFat12Name(key: Key) returns (s: seq<byte>)
    ensures s == FromKey(key)
  {
    var n := TrimLength(key[..8]);
    s := key[..8][..n];
    var e := TrimLength(key[8..]);
    if e > 0 {
      s := s + [DOT] + key[8..][..e];
    }
  }
}
