/**
 * The field checksum of the EPOS serial protocol: a bit-serial CRC with the
 * CCITT generator 0x1021 (x^16 + x^12 + x^5 + 1), register starting at 0,
 * data shifted in most significant bit first, no reflection and no final
 * XOR.  It runs over 16-bit words packed from the first bytes of a frame.
 *
 * The register is a `bv16`, so every value it takes fits in 16 bits.  The
 * driver's tests `(x) > 0` on unsigned values are written `x != 0` here.
 */
module Crc {
  import opened Bytes

  const Generator: bv16 := 0x1021
  /** The first mask of the inner loop: the word's most significant bit. */
  const TopBit: bv16 := 0x8000

  /** The word the driver forms from a high and a low byte, `(ushort)(hi * 256 + lo)`. */
  function Word(hi: byte, lo: byte): bv16
  {
    (hi as bv16) * 256 + lo as bv16
  }

  /** How many bytes the word packing reads for `n` words, and the driver's limit of six words. */
  predicate Packable(len: nat, n: nat)
  {
    n <= 6 && len >= 8 && (n > 4 ==> len >= 12)
  }

  /**
   * Word k of the driver's word array.  Word 0 takes its FIRST byte as the
   * high part; words 1 to 5 take their SECOND byte as the high part.
   */
  function WordAt(b: seq<byte>, k: nat): bv16
    requires 2 * k + 1 < |b|
  {
    if k == 0 then Word(b[0], b[1]) else Word(b[2 * k + 1], b[2 * k])
  }

  /**
   * The driver's six-entry word array after decoding: words 0 to 3 always,
   * words 4 and 5 only for more than four words, otherwise left at 0.
   */
  function WordArray(b: seq<byte>, n: nat): (w: seq<bv16>)
    requires Packable(|b|, n)
    ensures |w| == 6
  {
    [WordAt(b, 0), WordAt(b, 1), WordAt(b, 2), WordAt(b, 3),
     if n > 4 then WordAt(b, 4) else 0, if n > 4 then WordAt(b, 5) else 0]
  }

  /** The checksum runs over the first n entries of the word array. */
  lemma WordArrayPacks(b: seq<byte>, n: nat)
    requires Packable(|b|, n)
    ensures WordArray(b, n)[..n] == PackedWords(b, n)
  {
    var w := WordArray(b, n);
    forall k | 0 <= k < n
      ensures w[k] == PackedWords(b, n)[k]
    {
    }
  }

  /** The words the checksum runs over: the first `n` entries of the word array. */
  function PackedWords(b: seq<byte>, n: nat): (w: seq<bv16>)
    requires Packable(|b|, n)
    ensures |w| == n
  {
    seq(n, k requires 0 <= k < n => WordAt(b, k))
  }

  /**
   * One pass of the inner loop: the carry is the register's top bit before
   * the shift, the data bit under `shifter` is added in at bit 0 after the
   * shift, and the generator is XORed in when the carry was set.
   */
  function ShiftIn(crc: bv16, data: bv16, shifter: bv16): bv16
  {
    var carry := crc & 0x8000;
    var shifted := if data & shifter != 0 then (crc << 1) + 1 else crc << 1;
    if carry != 0 then shifted ^ Generator else shifted
  }

  /**
   * The inner do-while loop from a given `shifter` mask on: shift in the
   * bit of `word` under the mask, halve the mask, stop when it reaches 0.
   */
  function ShiftInFrom(crc: bv16, word: bv16, shifter: bv16): bv16
    decreases shifter
  {
    if shifter == 0 then crc
    else
      Halving(shifter);
      ShiftInFrom(ShiftIn(crc, word, shifter), word, shifter >> 1)
  }

  lemma Halving(s: bv16)
    requires s != 0
    ensures s >> 1 < s
  {}

  /** The register after a whole word: 16 passes, most significant bit first. */
  function ShiftInWord(crc: bv16, word: bv16): bv16
  {
    ShiftInFrom(crc, word, TopBit)
  }

  /** The register after a sequence of words, starting from `crc`: the words go in first to last. */
  function CrcOf(crc: bv16, words: seq<bv16>): bv16
    decreases |words|
  {
    if words == [] then crc else ShiftInWord(CrcOf(crc, words[..|words| - 1]), words[|words| - 1])
  }

  /** `CalcFieldCrc(b, n)`: the checksum of the first n packed words, from a zero register. */
  function FieldCrc(b: seq<byte>, n: nat): bv16
    requires Packable(|b|, n)
  {
    CrcOf(0, PackedWords(b, n))
  }

  /** The inner loop stops when the mask reaches 0. */
  lemma ShiftInFromDone(crc: bv16, word: bv16)
    ensures ShiftInFrom(crc, word, 0) == crc
  {}

  /** One more pass of the inner loop. */
  lemma ShiftInFromStep(crc: bv16, word: bv16, shifter: bv16)
    requires shifter != 0
    ensures ShiftInFrom(crc, word, shifter) == ShiftInFrom(ShiftIn(crc, word, shifter), word, shifter >> 1)
    ensures shifter >> 1 < shifter
  {
    Halving(shifter);
  }

  /** The inner loop's body, statement by statement, is one pass. */
  lemma PassStatements(crc: bv16, data: bv16, shifter: bv16, carry: bv16, shifted: bv16, added: bv16, result: bv16)
    requires carry == crc & 0x8000 && shifted == crc << 1
    requires added == if data & shifter != 0 then shifted + 1 else shifted
    requires result == if carry != 0 then added ^ Generator else added
    ensures result == ShiftIn(crc, data, shifter)
  {
    var s := ShiftIn(crc, data, shifter);
    if carry != 0 {
      assert s == added ^ Generator;
    } else {
      assert s == added;
    }
  }

  /** One more word of the outer loop. */
  lemma CrcOfStep(crc: bv16, words: seq<bv16>, k: nat)
    requires k < |words|
    ensures CrcOf(crc, words[..k + 1]) == ShiftInWord(CrcOf(crc, words[..k]), words[k])
  {
    assert words[..k + 1][..k] == words[..k];
  }

  // ---------------------------------------------------------------------
  // Word packing

  /** A word splits back into the two bytes it was formed from. */
  lemma WordBytes(hi: byte, lo: byte)
    ensures HighByte(Word(hi, lo)) == hi
    ensures LowByte(Word(hi, lo)) == lo
  {}

  /** A word determines both of its bytes. */
  lemma WordInjective(hi: byte, lo: byte, hi': byte, lo': byte)
    ensures Word(hi, lo) == Word(hi', lo') <==> hi == hi' && lo == lo'
  {
    WordBytes(hi, lo);
    WordBytes(hi', lo');
  }

  /** The packing is asymmetric: word 0 is big-endian, every later word little-endian. */
  lemma PackingOrder(b: seq<byte>, n: nat, k: nat)
    requires Packable(|b|, n) && k < n
    ensures k == 0 ==> (HighByte(PackedWords(b, n)[k]) == b[0] && LowByte(PackedWords(b, n)[k]) == b[1])
    ensures k > 0 ==> (HighByte(PackedWords(b, n)[k]) == b[2 * k + 1] && LowByte(PackedWords(b, n)[k]) == b[2 * k])
  {
    if k == 0 {
      WordBytes(b[0], b[1]);
    } else {
      WordBytes(b[2 * k + 1], b[2 * k]);
    }
  }

  /** The checksum reads only the first 2n bytes. */
  lemma FieldCrcPrefix(b: seq<byte>, b': seq<byte>, n: nat)
    requires Packable(|b|, n) && Packable(|b'|, n)
    requires b[..2 * n] == b'[..2 * n]
    ensures FieldCrc(b, n) == FieldCrc(b', n)
  {
    forall k | 0 <= k < n
      ensures WordAt(b, k) == WordAt(b', k)
    {
      assert b[2 * k] == b[..2 * n][2 * k] == b'[2 * k];
      assert b[2 * k + 1] == b[..2 * n][2 * k + 1] == b'[2 * k + 1];
    }
    assert PackedWords(b, n) == PackedWords(b', n);
  }

  // ---------------------------------------------------------------------
  // The register on zero input

  lemma {:induction false} ShiftInFromZero(s: bv16)
    ensures ShiftInFrom(0, 0, s) == 0
    decreases s
  {
    if s != 0 {
      Halving(s);
      ShiftInFromZero(s >> 1);
    }
  }

  predicate AllZero(ws: seq<bv16>)
  {
    forall i :: 0 <= i < |ws| ==> ws[i] == 0
  }

  lemma {:induction false} CrcOfZeros(ws: seq<bv16>)
    requires AllZero(ws)
    ensures CrcOf(0, ws) == 0
    decreases |ws|
  {
    if ws != [] {
      ShiftInFromZero(0x8000);
      CrcOfZeros(ws[..|ws| - 1]);
    }
  }

  /** All-zero input gives a zero checksum. */
  lemma FieldCrcOfZeros(b: seq<byte>, n: nat)
    requires Packable(|b|, n)
    requires forall i :: 0 <= i < |b| ==> b[i] == 0
    ensures FieldCrc(b, n) == 0
  {
    var ws := PackedWords(b, n);
    forall k | 0 <= k < n
      ensures ws[k] == 0
    {
      if k == 0 {
        assert b[0] == 0 && b[1] == 0;
      } else {
        assert b[2 * k] == 0 && b[2 * k + 1] == 0;
      }
    }
    CrcOfZeros(ws);
  }

  // ---------------------------------------------------------------------
  // The first word into an empty register

  /**
   * From a zero register the first word is shifted in without any carry,
   * so the register ends up holding exactly that word.
   */
  lemma FirstWordPassesThrough(w: bv16)
    ensures ShiftInWord(0, w) == w
  {
    PassesFrom(w, 0);
  }

  /** Pass j of the first word: the j bits of `w` above the mask are already in the register. */
  lemma {:induction false} PassesFrom(w: bv16, j: bv8)
    requires j <= 16
    ensures ShiftInFrom(w >> (16 - j), w, TopBit >> j) == w
    decreases 16 - j
  {
    if j < 16 {
      NoCarry(w, j);
      assert (TopBit >> j) >> 1 == TopBit >> (j + 1);
      PassesFrom(w, j + 1);
    }
  }

  /** With fewer than 16 bits in the register there is no carry, and the bit under the mask comes in. */
  lemma NoCarry(w: bv16, j: bv8)
    requires j < 16
    ensures ShiftIn(w >> (16 - j), w, TopBit >> j) == w >> (15 - j)
  {}
  // ---------------------------------------------------------------------
  // Known answers

  /**
   * The inner loop written out pass by pass, mask 0x8000 down to 0x0001:
   * the register after one word, in a form the verifier can evaluate on
   * given values.
   */
  function UnrolledWord(crc: bv16, w: bv16): bv16
  {
    var c1 := ShiftIn(crc, w, 0x8000);
    var c2 := ShiftIn(c1, w, 0x4000);
    var c3 := ShiftIn(c2, w, 0x2000);
    var c4 := ShiftIn(c3, w, 0x1000);
    var c5 := ShiftIn(c4, w, 0x0800);
    var c6 := ShiftIn(c5, w, 0x0400);
    var c7 := ShiftIn(c6, w, 0x0200);
    var c8 := ShiftIn(c7, w, 0x0100);
    var c9 := ShiftIn(c8, w, 0x0080);
    var c10 := ShiftIn(c9, w, 0x0040);
    var c11 := ShiftIn(c10, w, 0x0020);
    var c12 := ShiftIn(c11, w, 0x0010);
    var c13 := ShiftIn(c12, w, 0x0008);
    var c14 := ShiftIn(c13, w, 0x0004);
    var c15 := ShiftIn(c14, w, 0x0002);
    var c16 := ShiftIn(c15, w, 0x0001);
    c16
  }

  /** The bit loop over one word is the sixteen passes written out. */
  lemma ShiftInWordUnrolled(crc: bv16, w: bv16)
    ensures ShiftInWord(crc, w) == UnrolledWord(crc, w)
  {
    var r := crc;
    ShiftInFromStep(r, w, 0x8000); r := ShiftIn(r, w, 0x8000);
    ShiftInFromStep(r, w, 0x4000); r := ShiftIn(r, w, 0x4000);
    ShiftInFromStep(r, w, 0x2000); r := ShiftIn(r, w, 0x2000);
    ShiftInFromStep(r, w, 0x1000); r := ShiftIn(r, w, 0x1000);
    ShiftInFromStep(r, w, 0x0800); r := ShiftIn(r, w, 0x0800);
    ShiftInFromStep(r, w, 0x0400); r := ShiftIn(r, w, 0x0400);
    ShiftInFromStep(r, w, 0x0200); r := ShiftIn(r, w, 0x0200);
    ShiftInFromStep(r, w, 0x0100); r := ShiftIn(r, w, 0x0100);
    ShiftInFromStep(r, w, 0x0080); r := ShiftIn(r, w, 0x0080);
    ShiftInFromStep(r, w, 0x0040); r := ShiftIn(r, w, 0x0040);
    ShiftInFromStep(r, w, 0x0020); r := ShiftIn(r, w, 0x0020);
    ShiftInFromStep(r, w, 0x0010); r := ShiftIn(r, w, 0x0010);
    ShiftInFromStep(r, w, 0x0008); r := ShiftIn(r, w, 0x0008);
    ShiftInFromStep(r, w, 0x0004); r := ShiftIn(r, w, 0x0004);
    ShiftInFromStep(r, w, 0x0002); r := ShiftIn(r, w, 0x0002);
    ShiftInFromStep(r, w, 0x0001); r := ShiftIn(r, w, 0x0001);
    ShiftInFromDone(r, w);
  }
}
