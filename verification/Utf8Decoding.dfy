/** The decoder against the definition of UTF-8: well-formed characters are read, and anything
    else becomes one replacement character for its longest part that could begin one. */
module Utf8Decoding {
  import opened ByteStrings
  import opened LogTail

  /** The bytes could be the beginning of a character. */
  ghost predicate CouldBegin(s: Bytes) {
    exists c :: Scalar(c) && s <= EncodeChar(c)
  }

  ghost predicate Fits(c: Char, s: Bytes) {
    Scalar(c) && EncodeChar(c) <= s
  }

  /** Where the bytes of an encoded character lie. */
  lemma EncodedRanges(c: Char)
    requires Scalar(c)
    ensures var e := EncodeChar(c);
      && |e| == 1 + Extra(e[0]) && (|e| == 1 <==> e[0] < 0x80)
      && (|e| > 1 ==> Lowest(e[0]) <= e[1] <= Highest(e[0]))
      && (|e| > 2 ==> 0x80 <= e[2] <= 0xBF) && (|e| > 3 ==> 0x80 <= e[3] <= 0xBF)
  {
    if 0x10000 <= c {
      SplitFour(c);
    } else if 0x800 <= c {
      assert c / 0x1000 == c / 0x40 / 0x40;
    }
  }

  /** Six more bits. */
  function Join(a: nat, b: nat): nat {
    a * 0x40 + b
  }

  lemma TwoByteChar(a: nat, b: nat)
    requires 2 <= a < 0x20 && b < 0x40
    ensures Scalar(Join(a, b)) && EncodeChar(Join(a, b)) == [0xC0 + a, 0x80 + b]
  {
    var c := a * 0x40 + b;
    assert c / 0x40 == a && c % 0x40 == b;
  }

  lemma ThreeByteChar(a: nat, b: nat, d: nat)
    requires a < 0x10 && b < 0x40 && d < 0x40 && (a == 0 ==> b >= 0x20) && (a == 0xD ==> b < 0x20)
    ensures var c := Join(Join(a, b), d);
      Scalar(c) && EncodeChar(c) == [0xE0 + a, 0x80 + b, 0x80 + d]
  {
    var u := a * 0x40 + b;
    var c := u * 0x40 + d;
    assert c / 0x40 == u && c % 0x40 == d && u / 0x40 == a && u % 0x40 == b;
    assert c / 0x1000 == u / 0x40;
  }

  lemma FourByteChar(a: nat, b: nat, d: nat, e: nat)
    requires a < 5 && b < 0x40 && d < 0x40 && e < 0x40 && (a == 0 ==> b >= 0x10) && (a == 4 ==> b < 0x10)
    ensures var c := Join(Join(Join(a, b), d), e);
      Scalar(c) && EncodeChar(c) == [0xF0 + a, 0x80 + b, 0x80 + d, 0x80 + e]
  {
    var t := a * 0x40 + b;
    var u := t * 0x40 + d;
    var c := u * 0x40 + e;
    assert t / 0x40 == a && t % 0x40 == b;
    assert u / 0x40 == t && u % 0x40 == d;
    assert c / 0x40 == u && c % 0x40 == e;
    assert c / 0x1000 == u / 0x40 && c / 0x40000 == t / 0x40;
  }

  /** A valid lead byte with a valid second byte, and any continuation bytes, are a character
      or, cut off, the beginning of one. */
  lemma Complete(s: Bytes) returns (c: Char)
    requires s != [] && |s| == 1 + Extra(s[0]) && Extra(s[0]) > 0
    requires Lowest(s[0]) <= s[1] <= Highest(s[0])
    requires forall i :: 2 <= i < |s| ==> 0x80 <= s[i] <= 0xBF
    ensures Scalar(c) && EncodeChar(c) == s
  {
    if |s| == 2 {
      TwoByteChar(s[0] - 0xC0, s[1] - 0x80);
      c := Join(s[0] - 0xC0, s[1] - 0x80);
    } else if |s| == 3 {
      ThreeByteChar(s[0] - 0xE0, s[1] - 0x80, s[2] - 0x80);
      c := Join(Join(s[0] - 0xE0, s[1] - 0x80), s[2] - 0x80);
    } else {
      FourByteChar(s[0] - 0xF0, s[1] - 0x80, s[2] - 0x80, s[3] - 0x80);
      c := Join(Join(Join(s[0] - 0xF0, s[1] - 0x80), s[2] - 0x80), s[3] - 0x80);
    }
    hide EncodeChar;
  }

  /** The valid prefixes, byte by byte. */
  predicate ValidPrefix(s: Bytes) {
    && s != [] && |s| <= 1 + Extra(s[0])
    && (|s| == 1 ==> s[0] < 0x80 || Extra(s[0]) > 0)
    && (|s| > 1 ==> Lowest(s[0]) <= s[1] <= Highest(s[0]))
    && forall i :: 2 <= i < |s| ==> 0x80 <= s[i] <= 0xBF
  }

  function Filler(n: nat): (s: Bytes)
    ensures |s| == n && forall i :: 0 <= i < n ==> s[i] == 0x80
  {
    seq(n, _ => 0x80)
  }

  lemma PrefixCompletes(s: Bytes)
    requires ValidPrefix(s)
    ensures CouldBegin(s)
  {
    if Extra(s[0]) == 0 {
      assert EncodeChar(s[0]) == s && Scalar(s[0]);
    } else {
      var more := if |s| == 1 then [Lowest(s[0])] + Filler(Extra(s[0]) - 1) else Filler(1 + Extra(s[0]) - |s|);
      var c := Complete(s + more);
      assert s <= EncodeChar(c);
    }
  }

  lemma BeginsIsValid(s: Bytes)
    requires s != []
    ensures CouldBegin(s) ==> ValidPrefix(s)
  {
    if c :| Scalar(c) && s <= EncodeChar(c) {
      EncodedRanges(c);
      var e := EncodeChar(c);
      assert forall i :: 0 <= i < |s| ==> s[i] == e[i];
      hide EncodeChar, Scalar, Lowest, Highest, Extra;
    }
  }

  /** A character that stands in front is the one decoded. */
  lemma FittingIsDecoded(c: Char, s: Bytes)
    requires s != [] && Fits(c, s)
    ensures FirstUnit(s) == Unit(c, |EncodeChar(c)|)
  {
    var e := EncodeChar(c);
    assert s == e + s[|e|..];
    CharDecodes(c, s[|e|..]);
  }

  /** A whole character stands in front. */
  predicate Whole(s: Bytes) {
    s != [] && (s[0] < 0x80 || (0 < Extra(s[0]) < |s| && ValidPrefix(s[..Extra(s[0]) + 1])))
  }

  lemma WholeFits(s: Bytes)
    ensures Whole(s) ==> exists c :: Fits(c, s)
  {
    if Whole(s) {
      if s[0] < 0x80 {
        assert EncodeChar(s[0]) == [s[0]] && Fits(s[0], s);
      } else {
        var c := Complete(s[..Extra(s[0]) + 1]);
        assert Fits(c, s);
      }
    }
  }

  /** Where the decoder stops on something that is no character. */
  lemma BrokenUnit(s: Bytes)
    requires s != [] && !Whole(s)
    ensures FirstUnit(s).code == REPLACEMENT
    ensures var n := FirstUnit(s).size;
      && (n == 1 || ValidPrefix(s[..n]))
      && (n < |s| ==> !ValidPrefix(s[..n + 1]))
  {
    hide Low;
  }

  /** The first unit of any bytes: the character that stands there, or else one replacement
      character for the longest part that could begin a character, at least one byte. */
  lemma FirstUnitIsRight(s: Bytes)
    requires s != []
    ensures forall c :: Fits(c, s) ==> FirstUnit(s) == Unit(c, |EncodeChar(c)|)
    ensures (!exists c :: Fits(c, s)) ==>
      && FirstUnit(s).code == REPLACEMENT
      && (FirstUnit(s).size == 1 || CouldBegin(s[..FirstUnit(s).size]))
      && (FirstUnit(s).size < |s| ==> !CouldBegin(s[..FirstUnit(s).size + 1]))
  {
    forall c | Fits(c, s) ensures FirstUnit(s) == Unit(c, |EncodeChar(c)|) {
      FittingIsDecoded(c, s);
    }
    if !exists c :: Fits(c, s) {
      WholeFits(s);
      BrokenUnit(s);
      var n := FirstUnit(s).size;
      hide FirstUnit, ValidPrefix, CouldBegin, Fits, Whole;
      if n > 1 {
        PrefixCompletes(s[..n]);
      }
      if n < |s| {
        BeginsIsValid(s[..n + 1]);
      }
    }
  }
}
