/** How write_hex prints a word and read_hex reads it back, and how a word lies in bytes. */
module HexCodec {
  import opened Common
  import opened Backpatch
  import opened AsmTargets
  import HexFile

  // ------------------------------------------------------------------ hexadecimal numbers

  function HexChar(n: Word): char
  {
    if n == 0 then '0' else if n == 1 then '1' else if n == 2 then '2' else if n == 3 then '3'
    else if n == 4 then '4' else if n == 5 then '5' else if n == 6 then '6' else if n == 7 then '7'
    else if n == 8 then '8' else if n == 9 then '9' else if n == 10 then 'A' else if n == 11 then 'B'
    else if n == 12 then 'C' else if n == 13 then 'D' else if n == 14 then 'E' else 'F'
  }

  function HexValue(c: char): Option<Word>
  {
    if c == '0' then Some(0) else if c == '1' then Some(1) else if c == '2' then Some(2) else if c == '3' then Some(3)
    else if c == '4' then Some(4) else if c == '5' then Some(5) else if c == '6' then Some(6)
    else if c == '7' then Some(7)
    else if c == '8' then Some(8) else if c == '9' then Some(9)
    else if c == 'A' || c == 'a' then Some(10) else if c == 'B' || c == 'b' then Some(11)
    else if c == 'C' || c == 'c' then Some(12) else if c == 'D' || c == 'd' then Some(13)
    else if c == 'E' || c == 'e' then Some(14) else if c == 'F' || c == 'f' then Some(15) else None
  }

  /** %08X */
  function Hex8(w: Word): HexFile.EightChars
  {
    [HexChar((w >> 28) & 0xF), HexChar((w >> 24) & 0xF), HexChar((w >> 20) & 0xF), HexChar((w >> 16) & 0xF),
     HexChar((w >> 12) & 0xF), HexChar((w >> 8) & 0xF), HexChar((w >> 4) & 0xF), HexChar(w & 0xF)]
  }

  function Join(a: Word, b: Word, c: Word, d: Word, e: Word, f: Word, g: Word, h: Word): Word
  {
    (a << 28) | (b << 24) | (c << 20) | (d << 16) | (e << 12) | (f << 8) | (g << 4) | h
  }

  predicate AllHex(s: string) { forall i :: 0 <= i < |s| ==> HexValue(s[i]).Some? }

  /** Eight hexadecimal digits read as a word. */
  function Parse8(s: string): Word
    requires |s| == 8 && AllHex(s)
  {
    Join(HexValue(s[0]).value, HexValue(s[1]).value, HexValue(s[2]).value, HexValue(s[3]).value,
         HexValue(s[4]).value, HexValue(s[5]).value, HexValue(s[6]).value, HexValue(s[7]).value)
  }

  lemma HexRoundTrip(n: Word)
    requires n < 16
    ensures HexValue(HexChar(n)) == Some(n)
  {
    if n == 0 {} else if n == 1 {} else if n == 2 {} else if n == 3 {}
    else if n == 4 {} else if n == 5 {} else if n == 6 {} else if n == 7 {}
    else if n == 8 {} else if n == 9 {} else if n == 10 {} else if n == 11 {}
    else if n == 12 {} else if n == 13 {} else if n == 14 {} else { assert n == 15; }
  }

  lemma JoinDigits(w: Word)
    ensures Join((w >> 28) & 0xF, (w >> 24) & 0xF, (w >> 20) & 0xF, (w >> 16) & 0xF,
                 (w >> 12) & 0xF, (w >> 8) & 0xF, (w >> 4) & 0xF, w & 0xF) == w
  {
  }

  lemma DigitsSmall(w: Word)
    ensures (w >> 28) & 0xF < 16 && (w >> 24) & 0xF < 16 && (w >> 20) & 0xF < 16 && (w >> 16) & 0xF < 16
    ensures (w >> 12) & 0xF < 16 && (w >> 8) & 0xF < 16 && (w >> 4) & 0xF < 16 && w & 0xF < 16
  {
  }

  lemma WordRoundTrip(w: Word)
    ensures AllHex(Hex8(w)) && Parse8(Hex8(w)) == w
  {
    DigitsSmall(w);
    HexRoundTrip((w >> 28) & 0xF);
    HexRoundTrip((w >> 24) & 0xF);
    HexRoundTrip((w >> 20) & 0xF);
    HexRoundTrip((w >> 16) & 0xF);
    HexRoundTrip((w >> 12) & 0xF);
    HexRoundTrip((w >> 8) & 0xF);
    HexRoundTrip((w >> 4) & 0xF);
    HexRoundTrip(w & 0xF);
    JoinDigits(w);
  }

  // ------------------------------------------------------------------ words and bytes

  function WordOf(q: Quad): Word
  {
    (q[0] as Word) | ((q[1] as Word) << 8) | ((q[2] as Word) << 16) | ((q[3] as Word) << 24)
  }

  lemma JoinBytes(a: Byte, b: Byte, c: Byte, d: Byte)
    ensures var w := (a as Word) | ((b as Word) << 8) | ((c as Word) << 16) | ((d as Word) << 24);
            && (w & 0xFF) as Byte == a && ((w >> 8) & 0xFF) as Byte == b
            && ((w >> 16) & 0xFF) as Byte == c && ((w >> 24) & 0xFF) as Byte == d
  {
  }

  lemma BytesRoundTrip(q: Quad)
    ensures Bytes(WordOf(q)) == q
  {
    JoinBytes(q[0], q[1], q[2], q[3]);
  }

  lemma WordOfBytes(w: Word)
    ensures WordOf(Bytes(w)) == w
  {
  }

  /** Eight hexadecimal digits, or nothing. */
  function Parse(s: string): Option<Word>
  {
    if |s| == 8 && AllHex(s) then Some(Parse8(s)) else None
  }

  function Hexadecimal(): HexFile.Codec
  {
    HexFile.Codec(WordOf, Bytes, Hex8, Parse)
  }

  lemma HexadecimalLawful()
    ensures HexFile.Lawful(Hexadecimal())
  {
    forall q: Quad ensures HexFile.BytesLaw(Hexadecimal(), q) { BytesRoundTrip(q); }
    forall w: Word ensures HexFile.PrintLaw(Hexadecimal(), w) { WordRoundTrip(w); }
  }

  // ------------------------------------------------------------------ what a line shows

  lemma Nibbles(w: Word, a: Byte, b: Byte, c: Byte, d: Byte)
    requires w == (a as Word) | ((b as Word) << 8) | ((c as Word) << 16) | ((d as Word) << 24)
    ensures (w >> 4) & 0xF == (a >> 4) as Word && w & 0xF == (a & 0xF) as Word
    ensures (w >> 12) & 0xF == (b >> 4) as Word && (w >> 8) & 0xF == (b & 0xF) as Word
    ensures (w >> 20) & 0xF == (c >> 4) as Word && (w >> 16) & 0xF == (c & 0xF) as Word
    ensures (w >> 28) & 0xF == (d >> 4) as Word && (w >> 24) & 0xF == (d & 0xF) as Word
  {
  }

  function HighDigit(b: Byte): char { HexChar((b >> 4) as Word) }

  function LowDigit(b: Byte): char { HexChar((b & 0xF) as Word) }

  /** The two digits of a byte. */
  function Digits(b: Byte): string { [HighDigit(b), LowDigit(b)] }

  /** The eight digits of a word are those of these bytes. */
  predicate Shows(w: Word, a: Byte, b: Byte, c: Byte, d: Byte)
  {
    Hex8(w) == [HighDigit(d), LowDigit(d), HighDigit(c), LowDigit(c),
                HighDigit(b), LowDigit(b), HighDigit(a), LowDigit(a)]
  }

  lemma ShowsBytes(w: Word, a: Byte, b: Byte, c: Byte, d: Byte)
    requires w == (a as Word) | ((b as Word) << 8) | ((c as Word) << 16) | ((d as Word) << 24)
    ensures Shows(w, a, b, c, d)
  {
    Nibbles(w, a, b, c, d);
  }

  lemma ShownDigits(w: Word, a: Byte, b: Byte, c: Byte, d: Byte)
    requires Shows(w, a, b, c, d)
    ensures Hex8(w) == Digits(d) + Digits(c) + Digits(b) + Digits(a)
  {
  }

  lemma WordDigits(q: Quad)
    ensures Hex8(WordOf(q)) == Digits(q[3]) + Digits(q[2]) + Digits(q[1]) + Digits(q[0])
  {
    var w := WordOf(q);
    ShowsBytes(w, q[0], q[1], q[2], q[3]);
    ShownDigits(w, q[0], q[1], q[2], q[3]);
  }

  /** The digits of four bytes, the one at the highest address first. */
  function FourBytes(img: Image, p: nat): string
    requires p + 4 <= MAX_CODE_BYTES
  {
    Digits(img[p + 3]) + Digits(img[p + 2]) + Digits(img[p + 1]) + Digits(img[p])
  }

  lemma WordShowsBytes(img: Image, p: nat)
    requires p + 4 <= MAX_CODE_BYTES
    ensures Hex8(HexFile.Read32(Hexadecimal(), img, p)) == FourBytes(img, p)
  {
    WordDigits(img[p..p + 4]);
  }

  /** A line shows its sixteen bytes as digits, the one at the highest address first: what a memory file needs. */
  lemma LineShowsBytes(img: Image, a: nat)
    requires a + 16 <= MAX_CODE_BYTES
    ensures HexFile.HexLine(Hexadecimal(), img, a)
            == FourBytes(img, a + 12) + FourBytes(img, a + 8) + FourBytes(img, a + 4) + FourBytes(img, a)
  {
    WordShowsBytes(img, a);
    WordShowsBytes(img, a + 4);
    WordShowsBytes(img, a + 8);
    WordShowsBytes(img, a + 12);
  }
}
