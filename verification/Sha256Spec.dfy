/**
  SHA-256 as FIPS 180-4 states it: a one-shot function of the whole message.
 */
module Sha256Spec {

  type Byte = bv8
  type Word = bv32

  const LENGTH_MODULUS: nat := 0x1_0000_0000_0000_0000

  /** Section 4.2.2. */
  const K: seq<Word> :=
    [ 0x428a2f98, 0x71374491, 0xb5c0fbcf, 0xe9b5dba5, 0x3956c25b, 0x59f111f1, 0x923f82a4, 0xab1c5ed5,
        0xd807aa98, 0x12835b01, 0x243185be, 0x550c7dc3, 0x72be5d74, 0x80deb1fe, 0x9bdc06a7, 0xc19bf174 ]
    + [ 0xe49b69c1, 0xefbe4786, 0x0fc19dc6, 0x240ca1cc, 0x2de92c6f, 0x4a7484aa, 0x5cb0a9dc, 0x76f988da,
        0x983e5152, 0xa831c66d, 0xb00327c8, 0xbf597fc7, 0xc6e00bf3, 0xd5a79147, 0x06ca6351, 0x14292967 ]
    + [ 0x27b70a85, 0x2e1b2138, 0x4d2c6dfc, 0x53380d13, 0x650a7354, 0x766a0abb, 0x81c2c92e, 0x92722c85,
        0xa2bfe8a1, 0xa81a664b, 0xc24b8b70, 0xc76c51a3, 0xd192e819, 0xd6990624, 0xf40e3585, 0x106aa070 ]
    + [ 0x19a4c116, 0x1e376c08, 0x2748774c, 0x34b0bcb5, 0x391c0cb3, 0x4ed8aa4a, 0x5b9cca4f, 0x682e6ff3,
        0x748f82ee, 0x78a5636f, 0x84c87814, 0x8cc70208, 0x90befffa, 0xa4506ceb, 0xbef9a3f7, 0xc67178f2 ]

  function Constants(): (k: seq<Word>)
    ensures |k| == 64
  {
    K
  }

  /** Section 5.3.3. */
  function InitialValue(): (h: seq<Word>)
    ensures |h| == 8
  {
    [ 0x6a09e667, 0xbb67ae85, 0x3c6ef372, 0xa54ff53a, 0x510e527f, 0x9b05688c, 0x1f83d9ab, 0x5be0cd19 ]
  }

  /** Addition modulo 2^32. */
  function Add(x: Word, y: Word): Word { x + y }

  function Xor3(x: Word, y: Word, z: Word): Word { x ^ y ^ z }

  // ----- Section 4.1.2.

  function Ch(x: Word, y: Word, z: Word): Word { (x & y) ^ ((!x) & z) }

  function Maj(x: Word, y: Word, z: Word): Word { Xor3(x & y, x & z, y & z) }

  function BigSigma0(x: Word): Word { Xor3(x.RotateRight(2), x.RotateRight(13), x.RotateRight(22)) }

  function BigSigma1(x: Word): Word { Xor3(x.RotateRight(6), x.RotateRight(11), x.RotateRight(25)) }

  function SmallSigma0(x: Word): Word { Xor3(x.RotateRight(7), x.RotateRight(18), x >> 3) }

  function SmallSigma1(x: Word): Word { Xor3(x.RotateRight(17), x.RotateRight(19), x >> 10) }

  // ----- Section 6.2.2.

  function BigEndianWord(b0: Byte, b1: Byte, b2: Byte, b3: Byte): Word {
    ((b0 as Word) << 24) | ((b1 as Word) << 16) | ((b2 as Word) << 8) | (b3 as Word)
  }

  /** The message schedule. */
  function Schedule(block: seq<Byte>, t: nat): Word
    requires |block| == 64 && t < 64
  {
    if t < 16 then BigEndianWord(block[4 * t], block[4 * t + 1], block[4 * t + 2], block[4 * t + 3])
    else Add(Add(Add(Schedule(block, t - 16), SmallSigma0(Schedule(block, t - 15))),
                 Schedule(block, t - 7)), SmallSigma1(Schedule(block, t - 2)))
  }

  datatype Registers = Registers(a: Word, b: Word, c: Word, d: Word, e: Word, f: Word, g: Word, h: Word)

  function Load(h: seq<Word>): Registers
    requires |h| == 8
  {
    Registers(h[0], h[1], h[2], h[3], h[4], h[5], h[6], h[7])
  }

  function Round(r: Registers, k: Word, w: Word): Registers {
    var t1 := Add(Add(Add(Add(r.h, BigSigma1(r.e)), Ch(r.e, r.f, r.g)), k), w);
    var t2 := Add(BigSigma0(r.a), Maj(r.a, r.b, r.c));
    Registers(Add(t1, t2), r.a, r.b, r.c, Add(r.d, t1), r.e, r.f, r.g)
  }

  /** The working variables after t rounds. */
  function Rounds(h: seq<Word>, block: seq<Byte>, t: nat): Registers
    requires |h| == 8 && |block| == 64 && t <= 64
  {
    if t == 0 then Load(h) else Round(Rounds(h, block, t - 1), Constants()[t - 1], Schedule(block, t - 1))
  }

  function Compress(h: seq<Word>, block: seq<Byte>): (r: seq<Word>)
    requires |h| == 8 && |block| == 64
    ensures |r| == 8
  {
    var v := Rounds(h, block, |Constants()|);
    [Add(h[0], v.a), Add(h[1], v.b), Add(h[2], v.c), Add(h[3], v.d),
     Add(h[4], v.e), Add(h[5], v.f), Add(h[6], v.g), Add(h[7], v.h)]
  }

  /** The hash value after all blocks of a message of whole blocks. */
  function HashBlocks(h: seq<Word>, m: seq<Byte>): (r: seq<Word>)
    requires |h| == 8 && |m| % 64 == 0
    ensures |r| == 8
    decreases |m|
  {
    if |m| == 0 then h else HashBlocks(Compress(h, m[..64]), m[64..])
  }

  // ----- Section 5.1.1.

  function Power256(k: nat): (p: nat)
    ensures p > 0
  {
    if k == 0 then 1 else 256 * Power256(k - 1)
  }

  function ByteOf(n: nat): Byte
    requires n < 256
  {
    n as Byte
  }

  /** v as eight bytes, the most significant first. */
  function BigEndian64(v: nat): (s: seq<Byte>)
    ensures |s| == 8
  {
    seq(8, i requires 0 <= i < 8 => ByteOf(v / Power256(7 - i) % 256))
  }

  function Zeros(k: nat): (s: seq<Byte>)
    ensures |s| == k
  {
    seq(k, i => 0)
  }

  ghost predicate FillsBlock(length: nat, k: nat) {
    (length + 1 + k) % 64 == 56
  }

  /** The number of zero bytes between the marker and the length. */
  function ZeroCount(length: nat): (k: nat)
    ensures FillsBlock(length, k)
    ensures forall j: nat :: FillsBlock(length, j) ==> k <= j
  {
    var k := (119 - length % 64) % 64;
    assert forall j: nat :: FillsBlock(length, j) ==> k <= j by {
      forall j: nat | FillsBlock(length, j) ensures k <= j {
        LeastFill(length, k, j);
      }
    }
    k
  }

  lemma LeastFill(length: nat, k: nat, j: nat)
    requires k < 64 && FillsBlock(length, k) && FillsBlock(length, j)
    ensures k <= j
  {
  }

  lemma WholeBlocks(length: nat, zeros: nat)
    requires FillsBlock(length, zeros)
    ensures (length + 1 + zeros + 8) % 64 == 0
  {
  }

  function Pad(m: seq<Byte>): (p: seq<Byte>)
    requires 8 * |m| < LENGTH_MODULUS
    ensures |p| % 64 == 0
  {
    hide *;
    WholeBlocks(|m|, ZeroCount(|m|));
    m + [0x80] + Zeros(ZeroCount(|m|)) + BigEndian64(8 * |m|)
  }

  function WordBytes(w: Word): (s: seq<Byte>)
    ensures |s| == 4
  {
    [((w >> 24) & 0xff) as Byte, ((w >> 16) & 0xff) as Byte, ((w >> 8) & 0xff) as Byte, (w & 0xff) as Byte]
  }

  function Bytes(h: seq<Word>): (s: seq<Byte>)
    ensures |s| == 4 * |h|
  {
    if |h| == 0 then [] else Bytes(h[..|h| - 1]) + WordBytes(h[|h| - 1])
  }

  function Sha256(m: seq<Byte>): (digest: seq<Byte>)
    requires 8 * |m| < LENGTH_MODULUS
    ensures |digest| == 32
  {
    Bytes(HashBlocks(InitialValue(), Pad(m)))
  }

  // ----- Whole blocks compose.

  lemma {:induction false} HashBlocksAppend(h: seq<Word>, m: seq<Byte>, block: seq<Byte>)
    requires |h| == 8 && |m| % 64 == 0 && |block| == 64
    ensures HashBlocks(h, m + block) == Compress(HashBlocks(h, m), block)
    decreases |m|
  {
    hide Compress;
    if |m| == 0 {
      assert m + block == block;
      assert block[..64] == block && block[64..] == [];
    } else {
      assert (m + block)[..64] == m[..64];
      assert (m + block)[64..] == m[64..] + block;
      HashBlocksAppend(Compress(h, m[..64]), m[64..], block);
    }
  }
}
