// Names of files in plain bytes: which texts the driver takes for the same name, and what it shows.
module Spelling {
  import opened Disk
  import opened Directory
  import opened Names
  import opened Paths

  /** The parts of a name in 8.3 form: neither is too long or ends in a blank, and no dot is in the first. */
  predicate Parts(stem: seq<byte>, ext: seq<byte>) {
    && |stem| <= 8 && 0x2E !in stem && (stem != [] ==> stem[|stem| - 1] != 0x20)
    && |ext| <= 3 && (ext != [] ==> ext[|ext| - 1] != 0x20)
  }

  /** The text of a name: the parts with a dot between them. */
  function Dotted(stem: seq<byte>, ext: seq<byte>): seq<byte> { stem + if ext == [] then [] else [0x2E] + ext }

  /** The same byte, or the two forms of an ASCII letter. */
  predicate SameLetter(a: byte, b: byte) {
    a == b || (0x41 <= a <= 0x5A && b == a + 0x20) || (0x41 <= b <= 0x5A && a == b + 0x20)
  }

  predicate SameLetters(s: seq<byte>, t: seq<byte>) {
    |s| == |t| && forall i :: 0 <= i < |s| ==> SameLetter(s[i], t[i])
  }

  lemma LetterUpper(a: byte, b: byte)
    ensures SameLetter(a, b) <==> UpperChar(a) == UpperChar(b)
  {
  }

  lemma LettersUpper(s: seq<byte>, t: seq<byte>)
    ensures SameLetters(s, t) <==> Upper(s) == Upper(t)
  {
    if Upper(s) == Upper(t) {
      SameUpper(s, t);
    }
    if |s| == |t| {
      forall i | 0 <= i < |s| ensures SameLetter(s[i], t[i]) <==> UpperChar(s[i]) == UpperChar(t[i]) {
        LetterUpper(s[i], t[i]);
      }
    }
    hide UpperChar, SameLetter;
  }

  lemma {:induction false} TrimsNothing(s: seq<byte>)
    requires s != [] ==> s[|s| - 1] != 0x20
    ensures Trim(s) == s
  {
  }

  /** The driver sees the parts of such a text. */
  lemma DottedParts(stem: seq<byte>, ext: seq<byte>)
    requires Parts(stem, ext)
    ensures Stem(Dotted(stem, ext)) == stem && Ext(Dotted(stem, ext)) == ext && Is83(Dotted(stem, ext))
  {
    DotAtIs(Dotted(stem, ext), |stem|);
    TrimsNothing(stem);
    TrimsNothing(ext);
  }

  /** Two texts in 8.3 form stand for the same name exactly when they are equal but for the case of ASCII letters. */
  lemma SameName(s: seq<byte>, e: seq<byte>, t: seq<byte>, f: seq<byte>)
    requires Parts(s, e) && Parts(t, f)
    ensures ToKey(Dotted(s, e)) == ToKey(Dotted(t, f)) <==> SameLetters(Dotted(s, e), Dotted(t, f))
  {
    var a, b := Dotted(s, e), Dotted(t, f);
    DottedParts(s, e);
    DottedParts(t, f);
    TextRoundTrip(a);
    TextRoundTrip(b);
    LettersUpper(a, b);
    hide Dotted, ToKey, FromKey, Upper, Is83;
    if SameLetters(a, b) {
      CaseInsensitive(a, b);
    }
  }

  /** A text in 8.3 form without lower-case letters is shown again as it was. */
  lemma ShownAgain(stem: seq<byte>, ext: seq<byte>)
    requires Parts(stem, ext) && 0 !in Dotted(stem, ext)
    requires forall i :: 0 <= i < |Dotted(stem, ext)| ==> !(0x61 <= Dotted(stem, ext)[i] <= 0x7A)
    ensures Shown(ToKey(Dotted(stem, ext))) == Dotted(stem, ext)
  {
    var s := Dotted(stem, ext);
    DottedParts(stem, ext);
    TextRoundTrip(s);
    assert Upper(s) == s;
    CutNothing(s);
  }

  /** The byte of a name for byte `b` of a text. */
  function Capital(b: byte): byte { if 0x61 <= b <= 0x7A then b - 0x20 else b }

  /** What any text is stored as: up to 8 bytes before the first dot, up to 3 bytes behind it, blanks elsewhere. */
  lemma StoredBytes(s: seq<byte>, n: nat)
    requires n <= |s| && 0x2E !in s[..n] && (n < |s| ==> s[n] == 0x2E)
    ensures var k := ToKey(s);
            && (forall i :: 0 <= i < 8 ==> k[i] == if i < n then Capital(s[i]) else 0x20)
            && (forall i :: 8 <= i < 11 ==> k[i] == if n + i - 7 < |s| then Capital(s[n + i - 7]) else 0x20)
  {
    forall i | 0 <= i < n ensures s[i] != DOT {
      assert s[..n][i] == s[i];
    }
    DotAtIs(s, n);
  }

  /** The names that a path is looked up by: those of its texts without slashes, cut to 255 bytes, in order. */
  lemma PathNames(seps: seq<nat>, cs: seq<seq<byte>>, tail: nat)
    requires |seps| == |cs| && (forall i :: 0 <= i < |cs| ==> cs[i] != [] && 0x2F !in cs[i])
    requires (forall i :: 1 <= i < |seps| ==> seps[i] > 0) && 0 !in Route(seps, cs, tail)
    ensures var ks := Keys(Route(seps, cs, tail));
            |ks| == |cs| && forall i :: 0 <= i < |cs| ==> ks[i] == ToKey(if |cs[i]| <= 255 then cs[i] else cs[i][..255])
  {
    SplitRoute(seps, cs, tail);
    hide Components, ToKey, Route;
  }
}
