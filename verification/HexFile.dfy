/**
 The hex file between assembler and disassembler: write_hex of m65f32asm.c and read_hex of m65f32dis.c.
 A file is its sequence of lines without line ends. How a word is printed is a parameter; HexCodec gives
 the hexadecimal form.
 */
module HexFile {
  import opened Common
  import opened Backpatch

  const PADDING: Byte := 0xCD
  const PADDING_WORD: Word := 0xCDCD_CDCD

  type EightChars = s: string | |s| == 8 witness "00000000"

  /** word, bytes: a word and its four bytes in memory; print, parse: a word and its eight characters. */
  datatype Codec = Codec(word: Quad -> Word, bytes: Word -> Quad, print8: Word -> EightChars,
                         parse: string -> Option<Word>)

  predicate BytesLaw(c: Codec, q: Quad) { c.bytes(c.word(q)) == q }

  predicate PrintLaw(c: Codec, w: Word) { c.parse(c.print8(w)) == Some(w) }

  ghost predicate Lawful(c: Codec)
  {
    (forall q: Quad :: BytesLaw(c, q)) && (forall w: Word :: PrintLaw(c, w))
  }

  function Read32(c: Codec, img: Image, a: nat): Word
    requires a + 4 <= MAX_CODE_BYTES
  {
    c.word(img[a..a + 4])
  }

  // ------------------------------------------------------------------ writing

  /** Four words, the one at the highest address first. */
  function HexLine(c: Codec, img: Image, a: nat): (line: string)
    requires a + 16 <= MAX_CODE_BYTES
    ensures |line| == 32
  {
    c.print8(Read32(c, img, a + 12)) + c.print8(Read32(c, img, a + 8)) + c.print8(Read32(c, img, a + 4))
      + c.print8(Read32(c, img, a))
  }

  function FileLines(c: Codec, img: Image, n: nat): (lines: seq<string>)
    requires 16 * n <= MAX_CODE_BYTES
    ensures |lines| == n
  {
    if n == 0 then [] else FileLines(c, img, n - 1) + [HexLine(c, img, 16 * (n - 1))]
  }

  /** The end of the file: the end of the code rounded up to a line, and at least one line of RAM. */
  function FileEnd(maxPhy: nat): (end: nat)
    ensures end % 16 == 0 && end >= maxPhy && end >= 0x1_0010 && (end < maxPhy + 16 || end == 0x1_0010)
    ensures maxPhy <= MAX_CODE_BYTES ==> end <= MAX_CODE_BYTES
  {
    var end := (maxPhy + 15) / 16 * 16;
    if end < 0x1_0010 then 0x1_0010 else end
  }

  // ------------------------------------------------------------------ reading

  datatype Loaded = Loaded(image: Image, maxPhy: nat)

  /** The line has 32 characters, and all four words can be read. */
  predicate Readable(c: Codec, line: string)
  {
    |line| >= 32 && forall k: nat :: k < 4 ==> c.parse(Slice(line, k)).Some?
  }

  /** The characters of the word that goes to address offset 4 * k. */
  function Slice(line: string, k: nat): string
    requires |line| >= 32 && k < 4
  {
    line[24 - 8 * k..32 - 8 * k]
  }

  function PutWord(c: Codec, l: Loaded, a: nat, w: Word): Loaded
  {
    if a + 3 < MAX_CODE_BYTES
    then Loaded(WriteBytes(l.image, a, c.bytes(w)), if w != PADDING_WORD && a + 4 > l.maxPhy then a + 4 else l.maxPhy)
    else l
  }

  function LineWord(c: Codec, line: string, k: nat): Word
    requires Readable(c, line) && k < 4
  {
    c.parse(Slice(line, k)).value
  }

  function PutLine(c: Codec, l: Loaded, a: nat, line: string): Loaded
  {
    if !Readable(c, line) then l
    else PutFour(c, l, a, LineWord(c, line, 0), LineWord(c, line, 1), LineWord(c, line, 2), LineWord(c, line, 3))
  }

  function PutFour(c: Codec, l: Loaded, a: nat, w0: Word, w1: Word, w2: Word, w3: Word): Loaded
  {
    PutWord(c, PutWord(c, PutWord(c, PutWord(c, l, a, w0), a + 4, w1), a + 8, w2), a + 12, w3)
  }

  function Blank(): Image { seq(MAX_CODE_BYTES, _ => PADDING) }

  /** A line that cannot be read still takes its 16 bytes. */
  function ReadFile(c: Codec, lines: seq<string>): Loaded
  {
    if lines == [] then Loaded(Blank(), 0)
    else PutLine(c, ReadFile(c, lines[..|lines| - 1]), 16 * (|lines| - 1), lines[|lines| - 1])
  }

  // ------------------------------------------------------------------ the file keeps the image

  lemma LineWords(c: Codec, img: Image, a: nat)
    requires Lawful(c)
    requires a + 16 <= MAX_CODE_BYTES
    ensures var line := HexLine(c, img, a);
            && Readable(c, line)
            && LineWord(c, line, 0) == Read32(c, img, a) && LineWord(c, line, 1) == Read32(c, img, a + 4)
            && LineWord(c, line, 2) == Read32(c, img, a + 8) && LineWord(c, line, 3) == Read32(c, img, a + 12)
  {
    var line := HexLine(c, img, a);
    var w0, w1, w2, w3 := Read32(c, img, a), Read32(c, img, a + 4), Read32(c, img, a + 8), Read32(c, img, a + 12);
    FourWords(c, w0, w1, w2, w3);
    assert line == c.print8(w3) + c.print8(w2) + c.print8(w1) + c.print8(w0);
  }

  lemma Slices(x3: EightChars, x2: EightChars, x1: EightChars, x0: EightChars)
    ensures var line := x3 + x2 + x1 + x0;
            Slice(line, 3) == x3 && Slice(line, 2) == x2 && Slice(line, 1) == x1 && Slice(line, 0) == x0
  {
    var line := x3 + x2 + x1 + x0;
    assert line[0..8] == x3;
    assert line[8..16] == x2;
    assert line[16..24] == x1;
    assert line[24..32] == x0;
  }

  lemma FourWords(c: Codec, w0: Word, w1: Word, w2: Word, w3: Word)
    requires Lawful(c)
    ensures var line := c.print8(w3) + c.print8(w2) + c.print8(w1) + c.print8(w0);
            && Readable(c, line)
            && LineWord(c, line, 0) == w0 && LineWord(c, line, 1) == w1
            && LineWord(c, line, 2) == w2 && LineWord(c, line, 3) == w3
  {
    Slices(c.print8(w3), c.print8(w2), c.print8(w1), c.print8(w0));
    assert PrintLaw(c, w0) && PrintLaw(c, w1) && PrintLaw(c, w2) && PrintLaw(c, w3);
  }

  /** Word k of the image is padding. */
  predicate IsPadding(c: Codec, img: Image, k: nat)
    requires 4 * k + 4 <= MAX_CODE_BYTES
  {
    Read32(c, img, 4 * k) == PADDING_WORD
  }

  /** Word e - 1 is the last one below word k that is not padding. */
  ghost predicate CodeEnd(c: Codec, img: Image, e: nat, k: nat)
    requires 4 * k <= MAX_CODE_BYTES
  {
    && e <= k
    && (e > 0 ==> !IsPadding(c, img, e - 1))
    && forall j: nat :: e <= j < k ==> IsPadding(c, img, j)
  }

  /** The first k words of the image have been read back, and e ends the code in them. */
  ghost predicate Restored(c: Codec, img: Image, l: Loaded, e: nat, k: nat)
    requires 4 * k <= MAX_CODE_BYTES
  {
    && (forall i :: 0 <= i < MAX_CODE_BYTES ==> l.image[i] == if i < 4 * k then img[i] else PADDING)
    && l.maxPhy == 4 * e && CodeEnd(c, img, e, k)
  }

  lemma PutWordRestores(c: Codec, img: Image, l: Loaded, e: nat, k: nat, a: nat, w: Word) returns (f: nat)
    requires Lawful(c) && a == 4 * k && a + 4 <= MAX_CODE_BYTES && Restored(c, img, l, e, k) && w == Read32(c, img, a)
    ensures Restored(c, img, PutWord(c, l, a, w), f, k + 1)
  {
    assert BytesLaw(c, img[a..a + 4]);
    f := if IsPadding(c, img, k) then e else k + 1;
  }

  lemma PutFourRestores(c: Codec, img: Image, l: Loaded, e: nat, k: nat, a: nat, w0: Word, w1: Word, w2: Word, w3: Word)
    returns (f: nat)
    requires Lawful(c) && a == 4 * k && a + 16 <= MAX_CODE_BYTES && Restored(c, img, l, e, k)
    requires w0 == Read32(c, img, a) && w1 == Read32(c, img, a + 4)
    requires w2 == Read32(c, img, a + 8) && w3 == Read32(c, img, a + 12)
    ensures Restored(c, img, PutFour(c, l, a, w0, w1, w2, w3), f, k + 4)
  {
    f := PutWordRestores(c, img, l, e, k, a, w0);
    var l1 := PutWord(c, l, a, w0);
    f := PutWordRestores(c, img, l1, f, k + 1, a + 4, w1);
    var l2 := PutWord(c, l1, a + 4, w1);
    f := PutWordRestores(c, img, l2, f, k + 2, a + 8, w2);
    var l3 := PutWord(c, l2, a + 8, w2);
    f := PutWordRestores(c, img, l3, f, k + 3, a + 12, w3);
  }

  lemma PutLineFour(c: Codec, img: Image, l: Loaded, a: nat)
    requires Lawful(c) && a + 16 <= MAX_CODE_BYTES
    ensures PutLine(c, l, a, HexLine(c, img, a)) ==
            PutFour(c, l, a, Read32(c, img, a), Read32(c, img, a + 4), Read32(c, img, a + 8), Read32(c, img, a + 12))
  {
    LineWords(c, img, a);
  }

  lemma ReadLast(c: Codec, img: Image, n: nat)
    requires 0 < n && 16 * n <= MAX_CODE_BYTES
    ensures ReadFile(c, FileLines(c, img, n)) ==
            PutLine(c, ReadFile(c, FileLines(c, img, n - 1)), 16 * (n - 1), HexLine(c, img, 16 * (n - 1)))
  {
    assert FileLines(c, img, n)[..n - 1] == FileLines(c, img, n - 1);
  }

  lemma LineRestores(c: Codec, img: Image, l: Loaded, e: nat, n: nat) returns (f: nat)
    requires Lawful(c) && 16 * n + 16 <= MAX_CODE_BYTES && Restored(c, img, l, e, 4 * n)
    ensures Restored(c, img, PutLine(c, l, 16 * n, HexLine(c, img, 16 * n)), f, 4 * n + 4)
  {
    var a := 16 * n;
    PutLineFour(c, img, l, a);
    f := PutFourRestores(c, img, l, e, 4 * n, a,
                         Read32(c, img, a), Read32(c, img, a + 4), Read32(c, img, a + 8), Read32(c, img, a + 12));
  }

  /** Reading back the lines written restores every byte they cover, and finds the end of the code. */
  lemma {:induction false} FileRestores(c: Codec, img: Image, n: nat) returns (e: nat)
    requires Lawful(c) && 16 * n <= MAX_CODE_BYTES
    ensures Restored(c, img, ReadFile(c, FileLines(c, img, n)), e, 4 * n)
  {
    if n == 0 { e := 0; }
    else {
      e := FileRestores(c, img, n - 1);
      e := LineRestores(c, img, ReadFile(c, FileLines(c, img, n - 1)), e, n - 1);
      ReadLast(c, img, n);
    }
  }

  /**
   The whole image comes back, with the padding that the assembler left above its code, and the end that
   the reader reports is the end of the last word that is not padding.
   */
  lemma HexRoundTrip(c: Codec, img: Image, maxPhy: nat) returns (e: nat)
    requires Lawful(c) && maxPhy <= MAX_CODE_BYTES && forall i :: maxPhy <= i < MAX_CODE_BYTES ==> img[i] == PADDING
    ensures ReadFile(c, FileLines(c, img, FileEnd(maxPhy) / 16)) == Loaded(img, 4 * e)
    ensures CodeEnd(c, img, e, FileEnd(maxPhy) / 4)
  {
    var n := FileEnd(maxPhy) / 16;
    e := FileRestores(c, img, n);
    assert ReadFile(c, FileLines(c, img, n)).image == img;
  }

  // ------------------------------------------------------------------ any file

  /** The byte that the lines give for place i: from line i / 16, if that line can be read. */
  function ByteGiven(c: Codec, lines: seq<string>, i: nat): Byte
  {
    var k := i / 16;
    if k < |lines| && Readable(c, lines[k]) then c.bytes(LineWord(c, lines[k], i % 16 / 4))[i % 4] else PADDING
  }

  lemma PutWordPlaces(c: Codec, l: Loaded, a: nat, w: Word, i: nat)
    requires i < MAX_CODE_BYTES && a % 4 == 0
    ensures PutWord(c, l, a, w).image[i] == if a <= i < a + 4 then c.bytes(w)[i - a] else l.image[i]
  {
  }

  /** The byte of four words that lies at offset d. */
  function Among(c: Codec, w0: Word, w1: Word, w2: Word, w3: Word, d: nat): Byte
    requires d < 16
  {
    if d < 4 then c.bytes(w0)[d] else if d < 8 then c.bytes(w1)[d - 4]
    else if d < 12 then c.bytes(w2)[d - 8] else c.bytes(w3)[d - 12]
  }

  lemma PutFourPlaces(c: Codec, l: Loaded, a: nat, w0: Word, w1: Word, w2: Word, w3: Word, i: nat)
    requires i < MAX_CODE_BYTES && a % 4 == 0
    ensures PutFour(c, l, a, w0, w1, w2, w3).image[i] ==
            if a <= i < a + 16 then Among(c, w0, w1, w2, w3, i - a) else l.image[i]
  {
    PutWordPlaces(c, l, a, w0, i);
    var l1 := PutWord(c, l, a, w0);
    PutWordPlaces(c, l1, a + 4, w1, i);
    var l2 := PutWord(c, l1, a + 4, w1);
    PutWordPlaces(c, l2, a + 8, w2, i);
    var l3 := PutWord(c, l2, a + 8, w2);
    PutWordPlaces(c, l3, a + 12, w3, i);
  }

  lemma AmongLine(c: Codec, line: string, d: nat, k: nat, b: nat)
    requires Readable(c, line) && d < 16 && k < 4 && b < 4 && d == 4 * k + b
    ensures Among(c, LineWord(c, line, 0), LineWord(c, line, 1), LineWord(c, line, 2), LineWord(c, line, 3), d) ==
            c.bytes(LineWord(c, line, k))[b]
  {
    if k == 0 { assert b == d; }
    else if k == 1 { assert b == d - 4; }
    else if k == 2 { assert b == d - 8; }
    else { assert k == 3 && b == d - 12; }
  }

  lemma PutLinePlaces(c: Codec, l: Loaded, n: nat, line: string, i: nat)
    requires i < MAX_CODE_BYTES
    ensures PutLine(c, l, 16 * n, line).image[i] ==
            if Readable(c, line) && i / 16 == n then c.bytes(LineWord(c, line, i % 16 / 4))[i % 4] else l.image[i]
  {
    if Readable(c, line) {
      PutFourPlaces(c, l, 16 * n, LineWord(c, line, 0), LineWord(c, line, 1),
                    LineWord(c, line, 2), LineWord(c, line, 3), i);
      Offset(i, n);
      if i / 16 == n { AmongLine(c, line, i - 16 * n, i % 16 / 4, i % 4); }
    }
  }

  lemma Offset(i: nat, n: nat)
    ensures i / 16 == n <==> 16 * n <= i < 16 * n + 16
    ensures i / 16 == n ==> i - 16 * n == 4 * (i % 16 / 4) + i % 4
  {
  }

  /** Line k stands for the places 16 * k .. 16 * k + 15, whatever the lines before it are. */
  lemma {:induction false} ReadPlaces(c: Codec, lines: seq<string>, i: nat)
    requires i < MAX_CODE_BYTES
    ensures ReadFile(c, lines).image[i] == ByteGiven(c, lines, i)
  {
    if lines != [] {
      var n := |lines| - 1;
      ReadPlaces(c, lines[..n], i);
      PutLinePlaces(c, ReadFile(c, lines[..n]), n, lines[n], i);
    }
  }

  // ------------------------------------------------------------------ the loops of the source

  lemma MoreLines(c: Codec, img: Image, n: nat)
    requires 16 * n + 16 <= MAX_CODE_BYTES
    ensures FileLines(c, img, n + 1) == FileLines(c, img, n) + [HexLine(c, img, 16 * n)]
  {
  }

  method WriteHex(c: Codec, code: array<Byte>, maxPhy: nat) returns (lines: seq<string>)
    requires code.Length == MAX_CODE_BYTES && maxPhy <= MAX_CODE_BYTES
    ensures lines == FileLines(c, code[..], FileEnd(maxPhy) / 16)
  {
    var end := FileEnd(maxPhy);
    ghost var n, last, img := 0, FileEnd(maxPhy) / 16, code[..];
    WholeLines(maxPhy, end, last);
    lines := [];
    var a := 0;
    while a < end
      invariant a == 16 * n && n <= last && lines == FileLines(c, img, n)
    {
      var line := HexLine(c, code[..], a);
      MoreLines(c, img, n);
      lines := lines + [line];
      a := a + 16;
      n := n + 1;
    }
  }

  lemma WholeLines(maxPhy: nat, end: nat, last: nat)
    requires end == FileEnd(maxPhy) && last == end / 16 && maxPhy <= MAX_CODE_BYTES
    ensures end == 16 * last <= MAX_CODE_BYTES
  {
  }

  method ReadHex(c: Codec, lines: seq<string>, code: array<Byte>) returns (maxPhy: nat)
    requires code.Length == MAX_CODE_BYTES
    modifies code
    ensures Loaded(code[..], maxPhy) == ReadFile(c, lines)
  {
    for i := 0 to MAX_CODE_BYTES
      invariant forall j :: 0 <= j < i ==> code[j] == PADDING
    {
      code[i] := PADDING;
    }
    assert code[..] == Blank();
    maxPhy := 0;
    var addr := 0;
    for n := 0 to |lines|
      invariant addr == 16 * n && Loaded(code[..], maxPhy) == ReadFile(c, lines[..n])
    {
      var line := lines[n];
      assert lines[..n + 1][..n] == lines[..n];
      if Readable(c, line) {
        maxPhy := StoreWord(c, code, maxPhy, addr, LineWord(c, line, 0));
        maxPhy := StoreWord(c, code, maxPhy, addr + 4, LineWord(c, line, 1));
        maxPhy := StoreWord(c, code, maxPhy, addr + 8, LineWord(c, line, 2));
        maxPhy := StoreWord(c, code, maxPhy, addr + 12, LineWord(c, line, 3));
      }
      addr := addr + 16;
    }
    assert lines[..|lines|] == lines;
  }

  method StoreWord(c: Codec, code: array<Byte>, maxPhy: nat, a: nat, w: Word) returns (newMax: nat)
    requires code.Length == MAX_CODE_BYTES
    modifies code
    ensures Loaded(code[..], newMax) == PutWord(c, Loaded(old(code[..]), maxPhy), a, w)
  {
    newMax := maxPhy;
    if a + 3 < MAX_CODE_BYTES {
      var q := c.bytes(w);
      code[a] := q[0];
      code[a + 1] := q[1];
      code[a + 2] := q[2];
      code[a + 3] := q[3];
      if w != PADDING_WORD && a + 4 > maxPhy { newMax := a + 4; }
    }
  }
}
