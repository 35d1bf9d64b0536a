/**
 * Little-endian byte arithmetic: unsigned values of any width, 32-bit words
 * and 16-bit two's-complement integers, as Python's `struct` module reads
 * and writes them with the `<` (little-endian, standard size) prefix.
 */
module LittleEndian {

  newtype byte = x: int | 0 <= x < 256

  const TWO_16: nat := 0x1_0000
  const TWO_32: nat := 0x1_0000_0000

  /** A raw 32-bit word: the bit pattern of a `<f` float or a `<I` unsigned integer. */
  type Word32 = x: int | 0 <= x < 0x1_0000_0000

  function Pow256(n: nat): (r: nat)
    ensures r > 0
  {
    if n == 0 then 1 else 256 * Pow256(n - 1)
  }

  lemma Pow256Widths()
    ensures Pow256(2) == TWO_16
    ensures Pow256(4) == TWO_32
  {
  }

  /** The unsigned value of `b`, least significant byte first. */
  function FromLE(b: seq<byte>): (r: nat)
    ensures r < Pow256(|b|)
  {
    if |b| == 0 then 0
    else
      var rest := FromLE(b[1..]);
      assert rest <= Pow256(|b| - 1) - 1;
      assert 256 * rest <= 256 * Pow256(|b| - 1) - 256;
      b[0] as int + 256 * rest
  }

  /** The `len` bytes of `n`, least significant first. */
  function ToLE(n: nat, len: nat): (r: seq<byte>)
    requires n < Pow256(len)
    ensures |r| == len
  {
    if len == 0 then []
    else [(n % 256) as byte] + ToLE(n / 256, len - 1)
  }

  lemma {:induction false} FromLEOfToLE(n: nat, len: nat)
    requires n < Pow256(len)
    ensures FromLE(ToLE(n, len)) == n
  {
    if len > 0 {
      var b := ToLE(n, len);
      FromLEOfToLE(n / 256, len - 1);
      assert b[1..] == ToLE(n / 256, len - 1);
    }
  }

  lemma {:induction false} ToLEOfFromLE(b: seq<byte>)
    ensures ToLE(FromLE(b), |b|) == b
  {
    if |b| > 0 {
      var n := FromLE(b);
      assert n == b[0] as int + 256 * FromLE(b[1..]);
      assert n % 256 == b[0] as int && n / 256 == FromLE(b[1..]);
      ToLEOfFromLE(b[1..]);
    }
  }

  /** Two bytes read as a little-endian two's-complement 16-bit integer (`<h`). */
  function Int16FromLE(b: seq<byte>): (v: int)
    requires |b| == 2
    ensures -0x8000 <= v < 0x8000
    ensures v >= 0 <==> b[1] < 0x80
    ensures v % TWO_16 == b[0] as int + 256 * b[1] as int
  {
    Pow256Widths();
    var u := FromLE(b);
    assert u == b[0] as int + 256 * b[1] as int by {
      assert FromLE(b[1..]) == b[1] as int + 256 * FromLE(b[2..]);
      assert b[2..] == [];
    }
    if u >= 0x8000 then u - TWO_16 else u
  }

  /** A 16-bit signed integer written as two little-endian two's-complement bytes. */
  function Int16ToLE(v: int): (b: seq<byte>)
    requires -0x8000 <= v < 0x8000
    ensures |b| == 2
  {
    Pow256Widths();
    ToLE(if v < 0 then v + TWO_16 else v, 2)
  }

  lemma Int16RoundTrip(v: int)
    requires -0x8000 <= v < 0x8000
    ensures Int16FromLE(Int16ToLE(v)) == v
  {
    Pow256Widths();
    FromLEOfToLE(if v < 0 then v + TWO_16 else v, 2);
  }

  lemma Int16BytesRoundTrip(b: seq<byte>)
    requires |b| == 2
    ensures Int16ToLE(Int16FromLE(b)) == b
  {
    Pow256Widths();
    ToLEOfFromLE(b);
  }

  /** Four bytes read as one little-endian 32-bit word (`<I`, or the bits of `<f`). */
  function Word32FromLE(b: seq<byte>): (w: Word32)
    requires |b| == 4
    ensures w == b[0] as int + 0x100 * b[1] as int + 0x1_0000 * b[2] as int + 0x100_0000 * b[3] as int
  {
    Pow256Widths();
    assert FromLE(b[3..]) == b[3] as int by { assert FromLE(b[3..]) == b[3] as int + 256 * FromLE(b[4..]); }
    assert FromLE(b[2..]) == b[2] as int + 256 * FromLE(b[3..]);
    assert FromLE(b[1..]) == b[1] as int + 256 * FromLE(b[2..]);
    FromLE(b)
  }

  function Word32ToLE(w: Word32): (b: seq<byte>)
    ensures |b| == 4
  {
    Pow256Widths();
    ToLE(w, 4)
  }

  lemma Word32RoundTrip(w: Word32)
    ensures Word32FromLE(Word32ToLE(w)) == w
  {
    Pow256Widths();
    FromLEOfToLE(w, 4);
  }

  lemma Word32BytesRoundTrip(b: seq<byte>)
    requires |b| == 4
    ensures Word32ToLE(Word32FromLE(b)) == b
  {
    ToLEOfFromLE(b);
  }

  /** Consecutive 4-byte little-endian words of `p`, in payload order. */
  function Words(p: seq<byte>): (ws: seq<Word32>)
    requires |p| % 4 == 0
    ensures |ws| == |p| / 4
    ensures forall i :: 0 <= i < |ws| ==> ws[i] == Word32FromLE(p[4 * i .. 4 * i + 4])
  {
    if |p| == 0 then []
    else
      var rest := Words(p[4..]);
      assert forall i :: 1 <= i < |p| / 4 ==> p[4..][4 * (i - 1) .. 4 * (i - 1) + 4] == p[4 * i .. 4 * i + 4];
      [Word32FromLE(p[..4])] + rest
  }

  /** The words written one after another, 4 little-endian bytes each. */
  function PackWords(ws: seq<Word32>): (p: seq<byte>)
    ensures |p| == 4 * |ws|
  {
    if |ws| == 0 then [] else Word32ToLE(ws[0]) + PackWords(ws[1..])
  }

  lemma {:induction false} WordsOfPackWords(ws: seq<Word32>)
    ensures Words(PackWords(ws)) == ws
  {
    if |ws| > 0 {
      var p := PackWords(ws);
      assert p[..4] == Word32ToLE(ws[0]);
      assert p[4..] == PackWords(ws[1..]);
      Word32RoundTrip(ws[0]);
      WordsOfPackWords(ws[1..]);
    }
  }

  lemma {:induction false} PackWordsOfWords(p: seq<byte>)
    requires |p| % 4 == 0
    ensures PackWords(Words(p)) == p
  {
    if |p| > 0 {
      var ws := Words(p);
      assert ws[1..] == Words(p[4..]);
      Word32BytesRoundTrip(p[..4]);
      PackWordsOfWords(p[4..]);
      assert p == p[..4] + p[4..];
    }
  }
}
