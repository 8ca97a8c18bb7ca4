/** `tail`: reading a log backward in blocks shows the same last lines as reading all of it. */
module LogTail {
  import opened ByteStrings

  /** A Unicode code point. */
  type Char = nat

  const REPLACEMENT: Char := 0xFFFD
  const NEWLINE: Char := 0x0A
  const BLOCK: nat := 4096

  // ------------------------------------------------------------------ UTF-8 with replacement

  /** How many continuation bytes a lead byte asks for; zero means it leads nothing. */
  function Extra(lead: Byte): nat {
    if 0xC2 <= lead <= 0xDF then 1
    else if 0xE0 <= lead <= 0xEF then 2
    else if 0xF0 <= lead <= 0xF4 then 3
    else 0
  }

  /** The first continuation byte is narrowed to exclude overlong forms, surrogates and
      values above the last code point. */
  function Lowest(lead: Byte): Byte {
    if lead == 0xE0 then 0xA0 else if lead == 0xF0 then 0x90 else 0x80
  }

  function Highest(lead: Byte): Byte {
    if lead == 0xED then 0x9F else if lead == 0xF4 then 0x8F else 0xBF
  }

  predicate InRange(b: Byte, lo: Byte, hi: Byte) {
    lo <= b <= hi
  }

  predicate ByteIn(s: Bytes, i: nat, lo: Byte, hi: Byte) {
    i < |s| && InRange(s[i], lo, hi)
  }

  datatype Unit = Unit(code: Char, size: nat)

  /** The first character of the bytes; a broken sequence yields one replacement character
      for its longest valid part. */
  function FirstUnit(s: Bytes): (u: Unit)
    requires s != []
    ensures 1 <= u.size <= |s|
  {
    var b := s[0];
    if b < 0x80 then Unit(b, 1)
    else if Extra(b) == 0 || !ByteIn(s, 1, Lowest(b), Highest(b)) then Unit(REPLACEMENT, 1)
    else if Extra(b) == 1 then Unit(Low(b, 0x20) * 0x40 + Low(s[1], 0x40), 2)
    else if !ByteIn(s, 2, 0x80, 0xBF) then Unit(REPLACEMENT, 2)
    else if Extra(b) == 2 then Unit(Low(b, 0x10) * 0x1000 + Low(s[1], 0x40) * 0x40 + Low(s[2], 0x40), 3)
    else if !ByteIn(s, 3, 0x80, 0xBF) then Unit(REPLACEMENT, 3)
    else Unit(Low(b, 0x08) * 0x40000 + Low(s[1], 0x40) * 0x1000 + Low(s[2], 0x40) * 0x40 + Low(s[3], 0x40), 4)
  }

  /** The payload bits of a byte, those below `top`. */
  function Low(b: nat, top: nat): nat
    requires top > 0
  {
    b % top
  }

  function Decode(s: Bytes): seq<Char> {
    if s == [] then [] else [FirstUnit(s).code] + Decode(s[FirstUnit(s).size..])
  }

  // ------------------------------------------------------------------ what is decoded

  /** A code point that UTF-8 can hold: no surrogate. */
  predicate Scalar(c: Char) {
    c < 0xD800 || 0xE000 <= c < 0x110000
  }

  /** UTF-8 as RFC 3629, section 3 defines it. */
  function EncodeChar(c: Char): (s: Bytes)
    requires Scalar(c)
    ensures 1 <= |s| <= 4
  {
    if c < 0x80 then [c]
    else if c < 0x800 then [0xC0 + c / 0x40, 0x80 + c % 0x40]
    else if c < 0x10000 then [0xE0 + c / 0x1000, 0x80 + c / 0x40 % 0x40, 0x80 + c % 0x40]
    else [0xF0 + c / 0x40000, 0x80 + c / 0x1000 % 0x40, 0x80 + c / 0x40 % 0x40, 0x80 + c % 0x40]
  }

  function Encode(text: seq<Char>): Bytes
    requires forall c :: c in text ==> Scalar(c)
  {
    if text == [] then [] else EncodeChar(text[0]) + Encode(text[1..])
  }

  lemma CharDecodes(c: Char, rest: Bytes)
    requires Scalar(c)
    ensures FirstUnit(EncodeChar(c) + rest) == Unit(c, |EncodeChar(c)|)
  {
    var s := EncodeChar(c) + rest;
    if c < 0x80 {
    } else if c < 0x800 {
      assert s[0] == 0xC0 + c / 0x40 && s[1] == 0x80 + c % 0x40;
    } else if c < 0x10000 {
      ThreeBytes(c, s);
    } else {
      FourBytes(c, s);
    }
  }

  lemma ThreeBytes(c: Char, s: Bytes)
    requires 0x800 <= c < 0x10000 && Scalar(c) && |s| >= 3
    requires s[0] == 0xE0 + c / 0x1000 && s[1] == 0x80 + c / 0x40 % 0x40 && s[2] == 0x80 + c % 0x40
    ensures FirstUnit(s) == Unit(c, 3)
  {
    var a, b, d := c / 0x1000, c / 0x40 % 0x40, c % 0x40;
    assert c == a * 0x1000 + b * 0x40 + d;
    assert Low(s[0], 0x10) == a && Low(s[1], 0x40) == b && Low(s[2], 0x40) == d;
    assert ByteIn(s, 1, Lowest(s[0]), Highest(s[0])) && ByteIn(s, 2, 0x80, 0xBF);
    hide Low, ByteIn;
  }

  lemma FourBytes(c: Char, s: Bytes)
    requires 0x10000 <= c < 0x110000 && |s| >= 4
    requires s[0] == 0xF0 + c / 0x40000 && s[1] == 0x80 + c / 0x1000 % 0x40
    requires s[2] == 0x80 + c / 0x40 % 0x40 && s[3] == 0x80 + c % 0x40
    ensures FirstUnit(s) == Unit(c, 4)
  {
    var a, b, d, e := c / 0x40000, c / 0x1000 % 0x40, c / 0x40 % 0x40, c % 0x40;
    SplitFour(c);
    hide Low;
    LeadPayload(a);
    Payload(b);
    Payload(d);
    Payload(e);
    assert ByteIn(s, 1, Lowest(s[0]), Highest(s[0])) && ByteIn(s, 2, 0x80, 0xBF) && ByteIn(s, 3, 0x80, 0xBF);
    hide ByteIn, Lowest, Highest;
  }

  lemma LeadPayload(a: nat)
    requires a < 0x08
    ensures Low(0xF0 + a, 0x08) == a
  {
  }

  lemma Payload(b: nat)
    requires b < 0x40
    ensures Low(0x80 + b, 0x40) == b
  {
  }

  lemma SplitFour(c: nat)
    requires 0x10000 <= c < 0x110000
    ensures c == c / 0x40000 * 0x40000 + c / 0x1000 % 0x40 * 0x1000 + c / 0x40 % 0x40 * 0x40 + c % 0x40
    ensures c / 0x40000 < 5 && c / 0x1000 % 0x40 < 0x40 && c / 0x40 % 0x40 < 0x40
    ensures c / 0x40000 == 0 ==> c / 0x1000 % 0x40 >= 0x10
    ensures c / 0x40000 == 4 ==> c / 0x1000 % 0x40 < 0x10
  {
    var u, v := c / 0x40, c / 0x1000;
    assert v == u / 0x40 && c / 0x40000 == v / 0x40;
  }

  /** Well-formed text comes back as it was written. */
  lemma {:induction false} DecodeInvertsEncode(text: seq<Char>)
    requires forall c :: c in text ==> Scalar(c)
    ensures Decode(Encode(text)) == text
  {
    if text != [] {
      var first, rest := EncodeChar(text[0]), Encode(text[1..]);
      hide FirstUnit, EncodeChar, Scalar;
      CharDecodes(text[0], rest);
      DecodeInvertsEncode(text[1..]);
      assert (first + rest)[|first|..] == rest;
      assert text == [text[0]] + text[1..];
    }
  }

  // ------------------------------------------------------------------ splitlines

  predicate EndsLine(c: Char) {
    c in {0x0A, 0x0B, 0x0C, 0x0D, 0x1C, 0x1D, 0x1E, 0x85, 0x2028, 0x2029}
  }

  /** The position of the first line boundary, or the length. */
  function LineEnd(t: seq<Char>): (k: nat)
    ensures k <= |t|
    ensures k < |t| ==> EndsLine(t[k])
    ensures forall i :: 0 <= i < k ==> !EndsLine(t[i])
  {
    if t == [] || EndsLine(t[0]) then 0 else 1 + LineEnd(t[1..])
  }

  /** A carriage return and a line feed are one boundary. */
  function BoundaryEnd(t: seq<Char>, k: nat): (e: nat)
    requires k < |t|
    ensures k < e <= |t|
  {
    if t[k] == 0x0D && k + 1 < |t| && t[k + 1] == 0x0A then k + 2 else k + 1
  }

  function Lines(t: seq<Char>): seq<seq<Char>> {
    if t == [] then []
    else
      var k := LineEnd(t);
      if k == |t| then [t] else [t[..k]] + Lines(t[BoundaryEnd(t, k)..])
  }

  function LastOf<T>(xs: seq<T>, n: nat): (r: seq<T>)
    ensures |r| <= n && |r| <= |xs| && r == xs[|xs| - |r|..]
    ensures |r| == n || r == xs
  {
    if |xs| <= n then xs else xs[|xs| - n..]
  }

  /** The last lines of the whole file. */
  function LastLines(file: Bytes, n: nat): seq<seq<Char>> {
    LastOf(Lines(Decode(file)), n)
  }

  function CountLF(s: Bytes): nat {
    if s == [] then 0 else (if s[0] == LF then 1 else 0) + CountLF(s[1..])
  }

  // ------------------------------------------------------------------ what a line is

  /** The line boundaries of the text model: one of ten characters, or a carriage return and
      a line feed together. */
  predicate IsBreak(b: seq<Char>) {
    b in {[0x0A], [0x0B], [0x0C], [0x0D], [0x1C], [0x1D], [0x1E], [0x85], [0x2028], [0x2029], [0x0D, 0x0A]}
  }

  predicate Unbroken(line: seq<Char>) {
    forall c :: c in line ==> !IsBreak([c])
  }

  /** A line without boundaries inside, a boundary that is not the first half of a longer one,
      and a rest split on its own. With the two texts below this determines every split. */
  lemma LinesOfBreak(line: seq<Char>, b: seq<Char>, rest: seq<Char>)
    requires Unbroken(line) && IsBreak(b) && (b == [0x0D] && rest != [] ==> rest[0] != 0x0A)
    ensures Lines(line + b + rest) == [line] + Lines(rest)
  {
    var t, n := line + b + rest, |line|;
    assert t[n] == b[0] && t[n + |b|..] == rest && t[..n] == line;
    assert forall i :: 0 <= i < n ==> t[i] == line[i];
    assert |b| == 2 ==> t[n + 1] == 0x0A;
    assert |b| == 1 && rest != [] ==> t[n + 1] == rest[0];
    forall i | 0 <= i < n ensures !EndsLine(t[i]) {
      assert line[i] in line && !IsBreak([line[i]]);
    }
    FirstBoundary(t, n);
  }

  lemma LinesOfRest(line: seq<Char>)
    requires Unbroken(line)
    ensures Lines(line) == if line == [] then [] else [line]
  {
    forall i | 0 <= i < |line| ensures !EndsLine(line[i]) {
      assert line[i] in line && !IsBreak([line[i]]);
    }
  }

  // ------------------------------------------------------------------ a line feed is a clean cut

  /** No line feed continues a character, so the test of a byte comes out the same whether
      the bytes end there or a line feed follows. */
  lemma ByteBeforeLF(a: Bytes, b: Bytes, i: nat, lo: Byte, hi: Byte)
    requires i <= |a| && lo > LF
    ensures ByteIn(a + [LF] + b, i, lo, hi) <==> ByteIn(a, i, lo, hi)
    ensures ByteIn(a, i, lo, hi) ==> i < |a| && (a + [LF] + b)[i] == a[i]
  {
    ByteAt(a, b, i);
    LineFeedOut(lo, hi);
    hide InRange, LF;
  }

  lemma LineFeedOut(lo: Byte, hi: Byte)
    requires lo > LF
    ensures !InRange(LF, lo, hi)
  {
  }

  lemma ByteAt(a: Bytes, b: Bytes, i: nat)
    requires i <= |a|
    ensures i < |a + [LF] + b| && (a + [LF] + b)[i] == if i < |a| then a[i] else LF
  {
  }

  lemma LowestAboveLF(lead: Byte)
    ensures Lowest(lead) > LF
  {
  }

  lemma FirstUnitBeforeLF(a: Bytes, b: Bytes)
    requires a != []
    ensures FirstUnit(a + [LF] + b) == FirstUnit(a)
  {
    hide ByteIn, Extra, Lowest, Highest;
    var s, lead := a + [LF] + b, a[0];
    assert s[0] == lead;
    LowestAboveLF(lead);
    ByteBeforeLF(a, b, 1, Lowest(lead), Highest(lead));
    if ByteIn(a, 1, Lowest(lead), Highest(lead)) {
      ByteBeforeLF(a, b, 2, 0x80, 0xBF);
      if ByteIn(a, 2, 0x80, 0xBF) {
        ByteBeforeLF(a, b, 3, 0x80, 0xBF);
      }
    }
  }

  /** No character reaches across a line feed. */
  lemma {:induction false} DecodeCuts(a: Bytes, b: Bytes)
    ensures Decode(a + [LF] + b) == Decode(a) + [NEWLINE] + Decode(b)
    decreases |a|
  {
    var s := a + [LF] + b;
    if a == [] {
      assert s == [LF] + b && s[1..] == b;
      assert FirstUnit(s) == Unit(NEWLINE, 1);
    } else {
      FirstUnitBeforeLF(a, b);
      hide FirstUnit;
      var n := FirstUnit(a).size;
      CutAfter(a, b, n);
      DecodeCuts(a[n..], b);
      hide Decode;
      var first := [FirstUnit(a).code];
      assert first + (Decode(a[n..]) + [NEWLINE] + Decode(b)) == (first + Decode(a[n..])) + [NEWLINE] + Decode(b);
    }
  }

  lemma CutAfter(a: Bytes, b: Bytes, n: nat)
    requires n <= |a|
    ensures (a + [LF] + b)[n..] == a[n..] + [LF] + b
  {
  }

  lemma {:induction false} FirstBoundary(t: seq<Char>, k: nat)
    requires k < |t| && EndsLine(t[k]) && forall i :: 0 <= i < k ==> !EndsLine(t[i])
    ensures LineEnd(t) == k
  {
    if k > 0 {
      FirstBoundary(t[1..], k - 1);
    }
  }

  lemma LineEndOfPrefix(t: seq<Char>, u: seq<Char>)
    requires LineEnd(t) < |t|
    ensures LineEnd(t + u) == LineEnd(t)
  {
    var k := LineEnd(t);
    assert forall i :: 0 <= i <= k ==> (t + u)[i] == t[i];
    FirstBoundary(t + u, k);
  }

  /** The first line and its boundary come off the text. */
  lemma LinesStep(t: seq<Char>)
    requires LineEnd(t) < |t|
    ensures Lines(t) == [t[..LineEnd(t)]] + Lines(t[BoundaryEnd(t, LineEnd(t))..])
  {
  }

  /** The boundary of the first line lies within a text that ends in a line feed. */
  lemma BoundaryStays(a: seq<Char>, b: seq<Char>)
    ensures var t := a + [NEWLINE];
      && LineEnd(t) < |t| && LineEnd(t + b) == LineEnd(t) && (t + b)[..LineEnd(t)] == t[..LineEnd(t)]
      && BoundaryEnd(t + b, LineEnd(t)) == BoundaryEnd(t, LineEnd(t))
  {
    var t := a + [NEWLINE];
    assert EndsLine(t[|a|]);
    assert LineEnd(t) <= |a|;
    LineEndOfPrefix(t, b);
  }

  /** Lines up to and including a line feed are independent of what follows. */
  lemma {:induction false} LinesCut(a: seq<Char>, b: seq<Char>)
    ensures Lines(a + [NEWLINE] + b) == Lines(a + [NEWLINE]) + Lines(b)
    decreases |a|
  {
    hide LineEnd, BoundaryEnd, Lines;
    var t := a + [NEWLINE];
    BoundaryStays(a, b);
    LinesStep(t);
    LinesStep(t + b);
    var k := LineEnd(t);
    var e := BoundaryEnd(t, k);
    var first := [t[..k]];
    if e == |t| {
      assert (t + b)[e..] == b && t[e..] == [];
      NoLines();
    } else {
      var rest := a[e..];
      assert t[e..] == rest + [NEWLINE] && (t + b)[e..] == rest + [NEWLINE] + b;
      LinesCut(rest, b);
      assert first + (Lines(rest + [NEWLINE]) + Lines(b)) == (first + Lines(rest + [NEWLINE])) + Lines(b);
    }
  }

  lemma NoLines()
    ensures Lines([]) == []
  {
  }

  function FirstLF(s: Bytes): (q: nat)
    requires CountLF(s) > 0
    ensures q < |s| && s[q] == LF && CountLF(s[q + 1..]) == CountLF(s) - 1
  {
    if s[0] == LF then 0
    else
      var q := FirstLF(s[1..]);
      assert s[1..][q + 1..] == s[q + 2..];
      q + 1
  }

  lemma FileCut(a: Bytes, b: Bytes)
    ensures Lines(Decode(a + [LF] + b)) == Lines(Decode(a) + [NEWLINE]) + Lines(Decode(b))
  {
    DecodeCuts(a, b);
    LinesCut(Decode(a), Decode(b));
  }

  lemma {:induction false} AtLeastOneLineEach(s: Bytes)
    ensures |Lines(Decode(s))| >= CountLF(s)
    decreases |s|
  {
    if CountLF(s) > 0 {
      var q := FirstLF(s);
      assert s == s[..q] + [LF] + s[q + 1..];
      FileCut(s[..q], s[q + 1..]);
      assert Decode(s[..q]) + [NEWLINE] != [];
      AtLeastOneLineEach(s[q + 1..]);
    }
  }

  lemma LastOfAppend<T>(xs: seq<T>, ys: seq<T>, n: nat)
    requires |ys| >= n
    ensures LastOf(xs + ys, n) == LastOf(ys, n)
  {
  }

  lemma CutAtFirstLF(data: Bytes) returns (front: Bytes, rest: Bytes)
    requires CountLF(data) > 0
    ensures data == front + [LF] + rest && CountLF(rest) == CountLF(data) - 1
  {
    var q := FirstLF(data);
    front, rest := data[..q], data[q + 1..];
  }

  /** A suffix with more than `n` line feeds determines the last `n` lines, wherever it
      cuts the file, even inside a character. */
  lemma SuffixDecides(file: Bytes, pos: nat, n: nat)
    requires pos <= |file| && CountLF(file[pos..]) > n
    ensures LastLines(file[pos..], n) == LastLines(file, n)
  {
    var data, before := file[pos..], file[..pos];
    var front, rest := CutAtFirstLF(data);
    AtLeastOneLineEach(rest);
    hide CountLF, Lines, Decode, LastLines;
    assert file == before + data;
    assert before + (front + [LF] + rest) == (before + front) + [LF] + rest;
    LinesAfterCut(front, rest, n);
    LinesAfterCut(before + front, rest, n);
  }

  lemma LinesAfterCut(a: Bytes, b: Bytes, n: nat)
    requires |Lines(Decode(b))| >= n
    ensures LastLines(a + [LF] + b, n) == LastLines(b, n)
  {
    FileCut(a, b);
    hide Lines, Decode;
    LastOfAppend(Lines(Decode(a) + [NEWLINE]), Lines(Decode(b)), n);
  }

  // ------------------------------------------------------------------ the method

  datatype Source = Missing | Present(file: Bytes)

  /** `tail`: blocks are read backward until the data holds more line feeds than lines are
      asked for; the lines then pass through a queue of bounded length. */
  method Tail(source: Source, lines: int) returns (result: seq<seq<Char>>, end: nat)
    ensures lines <= 0 || source.Missing? ==> result == [] && end == 0
    ensures lines > 0 && source.Present? ==> result == LastLines(source.file, lines) && end == |source.file|
  {
    if lines <= 0 || source.Missing? {
      return [], 0;
    }
    hide Lines, Decode, CountLF;
    var file := source.file;
    end := |file|;
    var data: Bytes := [];
    var pos := end;
    while pos > 0
      invariant 0 <= pos <= |file|
      invariant data == file[pos..]
    {
      var readSize := if BLOCK < pos then BLOCK else pos;
      pos := pos - readSize;
      data := file[pos..pos + readSize] + data;
      assert data == file[pos..];
      if CountLF(data) > lines {
        SuffixDecides(file, pos, lines);
        break;
      }
    }
    assert LastLines(data, lines) == LastLines(file, lines) by {
      assert file[0..] == file;
    }
    result := KeepLast(Lines(Decode(data)), lines);
  }

  lemma LastOfOneMore<T>(xs: seq<T>, x: T, n: nat)
    requires n > 0
    ensures var grown := LastOf(xs, n) + [x];
      LastOf(xs + [x], n) == if |grown| > n then grown[1..] else grown
  {
    if |xs| >= n {
      var k := |xs| - n;
      assert LastOf(xs, n) == xs[k..];
      assert (xs[k..] + [x])[1..] == xs[k + 1..] + [x];
      assert (xs + [x])[k + 1..] == xs[k + 1..] + [x];
    }
  }

  lemma LastOfGrows<T>(split: seq<T>, i: nat, n: nat)
    requires i < |split| && n > 0
    ensures var grown := LastOf(split[..i], n) + [split[i]];
      LastOf(split[..i + 1], n) == if |grown| > n then grown[1..] else grown
  {
    assert split[..i + 1] == split[..i] + [split[i]];
    hide LastOf;
    LastOfOneMore(split[..i], split[i], n);
  }

  /** A queue of bounded length that all lines pass through. */
  method KeepLast(split: seq<seq<Char>>, lines: int) returns (result: seq<seq<Char>>)
    requires lines > 0
    ensures result == LastOf(split, lines)
  {
    result := [];
    for i := 0 to |split|
      invariant result == LastOf(split[..i], lines)
    {
      LastOfGrows(split, i, lines);
      result := result + [split[i]];
      if |result| > lines {
        result := result[1..];
      }
    }
    assert split[..|split|] == split;
  }
}
