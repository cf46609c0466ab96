/**
  What the functions and constants of SHA-256 mean, said without their definitions: choice and
  majority bit by bit, words and their bytes, and the constants as fractional parts of roots of primes.
 */
module Sha256Meaning {
  import opened Sha256Spec
  import Sha256

  // ----- Section 4.1.2.

  /** Where x has a one, the choice takes y, and elsewhere z. */
  lemma ChoiceByBits(x: Word, y: Word, z: Word)
    ensures Ch(x, y, z) & x == y & x
    ensures Ch(x, y, z) & !x == z & !x
  {
  }

  /** A bit of the majority is one where two of the three are. */
  lemma MajorityByBits(x: Word, y: Word, z: Word)
    ensures Maj(x, y, z) == (x & y) | (z & (x | y))
  {
  }

  /** A bit of the triple sum is one where an odd number of the three are. */
  lemma ParityByBits(x: Word, y: Word, z: Word)
    ensures Xor3(x, y, z) == (x & !y & !z) | (!x & y & !z) | (!x & !y & z) | (x & y & z)
  {
  }

  lemma AddZero(x: Word)
    ensures Add(x, 0) == x
  {
  }

  /** Addition counts up from the first summand. */
  lemma AddNext(x: Word, y: Word)
    ensures Add(x, y + 1) == Add(x, y) + 1
  {
  }

  // ----- Words and bytes.

  /** A word's bytes are those it was made of, the first the most significant. */
  lemma WordOfBytes(b0: Byte, b1: Byte, b2: Byte, b3: Byte)
    ensures WordBytes(BigEndianWord(b0, b1, b2, b3)) == [b0, b1, b2, b3]
    ensures BigEndianWord(b0, b1, b2, b3) >> 24 == b0 as Word
  {
  }

  lemma BytesOfWord(w: Word)
    ensures var b := WordBytes(w); BigEndianWord(b[0], b[1], b[2], b[3]) == w
  {
  }

  /** The number that digits to the base 256 write, the most significant first. */
  function ValueOf(digits: seq<nat>): nat {
    if digits == [] then 0 else 256 * ValueOf(digits[..|digits| - 1]) + digits[|digits| - 1]
  }

  /** The length field consists of the digits that write the length. */
  lemma LengthDigits(digits: seq<nat>, i: nat)
    requires |digits| == 8 && (forall k :: 0 <= k < 8 ==> digits[k] < 256) && i < 8
    ensures BigEndian64(ValueOf(digits))[i] == digits[i] as Byte
  {
    hide Power256, ValueOf, BigEndian64;
    DigitAt(digits, i);
    FieldAt(ValueOf(digits), i, digits[i]);
  }

  lemma DigitAt(digits: seq<nat>, i: nat)
    requires |digits| == 8 && (forall k :: 0 <= k < 8 ==> digits[k] < 256) && i < 8
    ensures ValueOf(digits) / Power256(7 - i) % 256 == digits[i]
  {
    hide Power256, ValueOf;
    LengthPrefix(digits, i + 1);
    LastDigit(digits[..i + 1]);
  }

  lemma FieldAt(v: nat, i: nat, digit: nat)
    requires i < 8 && v / Power256(7 - i) % 256 == digit
    ensures BigEndian64(v)[i] == ByteOf(digit)
  {
    hide Power256, ByteOf;
  }

  lemma LastDigit(digits: seq<nat>)
    requires digits != [] && digits[|digits| - 1] < 256
    ensures ValueOf(digits) % 256 == digits[|digits| - 1]
    ensures ValueOf(digits) / 256 == ValueOf(digits[..|digits| - 1])
  {
  }

  lemma {:induction false} LengthPrefix(digits: seq<nat>, k: nat)
    requires k <= |digits| && forall i :: 0 <= i < |digits| ==> digits[i] < 256
    ensures ValueOf(digits) / Power256(|digits| - k) == ValueOf(digits[..k])
    decreases |digits| - k
  {
    hide ValueOf;
    if k == |digits| {
      assert digits[..k] == digits;
    } else {
      LengthPrefix(digits, k + 1);
      DivideTwice(ValueOf(digits), Power256(|digits| - k - 1));
      LastDigit(digits[..k + 1]);
      assert digits[..k + 1][..k] == digits[..k];
    }
  }

  lemma DivideTwice(v: nat, p: nat)
    requires p > 0
    ensures v / (256 * p) == v / p / 256
  {
    var a, s := v / p, v % p;
    var q, r := a / 256, a % 256;
    Distribute(p, q, r);
    assert p * r <= p * 255 by { Below(p, r, 255); }
    QuotientIs(v, 256 * p, q, p * r + s);
  }

  lemma Below(p: nat, r: nat, bound: nat)
    requires r <= bound
    ensures p * r <= p * bound
  {
  }

  lemma Distribute(p: nat, q: nat, r: nat)
    ensures p * (256 * q + r) == (256 * p) * q + p * r
  {
  }

  lemma QuotientIs(v: nat, d: nat, q: nat, r: nat)
    requires d > 0 && v == d * q + r && r < d
    ensures v / d == q
  {
    var x := v / d;
    assert x < q ==> d * (x + 1) <= d * q;
    assert q < x ==> d * (q + 1) <= d * x;
  }

  /** The value of a hexadecimal digit. */
  function DigitOf(c: char): int {
    if '0' <= c <= '9' then c as int - '0' as int else c as int - 'a' as int + 10
  }

  /** Two digits of the text give back each byte, the higher one first. */
  lemma {:induction false} HexReadsBack(bytes: seq<Byte>, i: nat)
    requires i < |bytes|
    ensures 16 * DigitOf(Sha256.Hex(bytes)[2 * i]) + DigitOf(Sha256.Hex(bytes)[2 * i + 1]) == bytes[i] as int
  {
    hide Sha256.HexDigit, DigitOf;
    var init, last := bytes[..|bytes| - 1], bytes[|bytes| - 1] as nat;
    HexStep(bytes);
    if i < |init| {
      HexReadsBack(init, i);
    } else {
      DigitReadsBack(last / 16);
      DigitReadsBack(last % 16);
    }
  }

  lemma HexStep(bytes: seq<Byte>)
    requires bytes != []
    ensures var init, last := bytes[..|bytes| - 1], bytes[|bytes| - 1] as nat;
            Sha256.Hex(bytes) == Sha256.Hex(init) + [Sha256.HexDigit(last / 16), Sha256.HexDigit(last % 16)]
  {
  }

  lemma DigitReadsBack(v: nat)
    requires v < 16
    ensures DigitOf(Sha256.HexDigit(v)) == v
  {
  }

  // ----- The primes.

  ghost predicate IsPrime(n: nat) {
    n >= 2 && forall d :: 2 <= d < n ==> n % d != 0
  }

  function Primes(): (primes: seq<nat>)
    ensures |primes| == 64
  {
    FIRST + FROM19 + FROM70 + FROM120 + FROM170 + FROM220 + FROM270
  }

  const FIRST: seq<nat> := [2, 3, 5, 7, 11, 13, 17]
  const FROM19: seq<nat> := [19, 23, 29, 31, 37, 41, 43, 47, 53, 59, 61, 67]
  const FROM70: seq<nat> := [71, 73, 79, 83, 89, 97, 101, 103, 107, 109, 113]
  const FROM120: seq<nat> := [127, 131, 137, 139, 149, 151, 157, 163, 167]
  const FROM170: seq<nat> := [173, 179, 181, 191, 193, 197, 199, 211]
  const FROM220: seq<nat> := [223, 227, 229, 233, 239, 241, 251, 257, 263, 269]
  const FROM270: seq<nat> := [271, 277, 281, 283, 293, 307, 311]

  /** Divisible by a prime below the square root of 361. */
  predicate Sieved(n: nat) {
    n % 2 == 0 || n % 3 == 0 || n % 5 == 0 || n % 7 == 0 || n % 11 == 0 || n % 13 == 0 || n % 17 == 0
  }

  // The sieve leaves exactly the numbers of the tables.

  lemma Left19(n: nat)
    requires 19 <= n < 37
    ensures Sieved(n) <==> n !in FROM19
  {
    assert n % 2 == 0 || n == 19 || n == 21 || n == 23 || n == 25 || n == 27 || n == 29 || n == 31 || n == 33
        || n == 35;
  }

  lemma Left37(n: nat)
    requires 37 <= n < 54
    ensures Sieved(n) <==> n !in FROM19
  {
    assert n % 2 == 0 || n == 37 || n == 39 || n == 41 || n == 43 || n == 45 || n == 47 || n == 49 || n == 51
        || n == 53;
  }

  lemma Left54(n: nat)
    requires 54 <= n < 70
    ensures Sieved(n) <==> n !in FROM19
  {
    assert n % 2 == 0 || n == 55 || n == 57 || n == 59 || n == 61 || n == 63 || n == 65 || n == 67 || n == 69;
  }

  lemma Left70(n: nat)
    requires 70 <= n < 87
    ensures Sieved(n) <==> n !in FROM70
  {
    assert n % 2 == 0 || n == 71 || n == 73 || n == 75 || n == 77 || n == 79 || n == 81 || n == 83 || n == 85;
  }

  lemma Left87(n: nat)
    requires 87 <= n < 104
    ensures Sieved(n) <==> n !in FROM70
  {
    assert n % 2 == 0 || n == 87 || n == 89 || n == 91 || n == 93 || n == 95 || n == 97 || n == 99 || n == 101
        || n == 103;
  }

  lemma Left104(n: nat)
    requires 104 <= n < 120
    ensures Sieved(n) <==> n !in FROM70
  {
    assert n % 2 == 0 || n == 105 || n == 107 || n == 109 || n == 111 || n == 113 || n == 115 || n == 117 || n == 119;
  }

  lemma Left120(n: nat)
    requires 120 <= n < 137
    ensures Sieved(n) <==> n !in FROM120
  {
    assert n % 2 == 0 || n == 121 || n == 123 || n == 125 || n == 127 || n == 129 || n == 131 || n == 133 || n == 135;
  }

  lemma Left137(n: nat)
    requires 137 <= n < 154
    ensures Sieved(n) <==> n !in FROM120
  {
    assert n % 2 == 0 || n == 137 || n == 139 || n == 141 || n == 143 || n == 145 || n == 147 || n == 149
        || n == 151 || n == 153;
  }

  lemma Left154(n: nat)
    requires 154 <= n < 170
    ensures Sieved(n) <==> n !in FROM120
  {
    assert n % 2 == 0 || n == 155 || n == 157 || n == 159 || n == 161 || n == 163 || n == 165 || n == 167 || n == 169;
  }

  lemma Left170(n: nat)
    requires 170 <= n < 187
    ensures Sieved(n) <==> n !in FROM170
  {
    assert n % 2 == 0 || n == 171 || n == 173 || n == 175 || n == 177 || n == 179 || n == 181 || n == 183 || n == 185;
  }

  lemma Left187(n: nat)
    requires 187 <= n < 204
    ensures Sieved(n) <==> n !in FROM170
  {
    assert n % 2 == 0 || n == 187 || n == 189 || n == 191 || n == 193 || n == 195 || n == 197 || n == 199
        || n == 201 || n == 203;
  }

  lemma Left204(n: nat)
    requires 204 <= n < 220
    ensures Sieved(n) <==> n !in FROM170
  {
    assert n % 2 == 0 || n == 205 || n == 207 || n == 209 || n == 211 || n == 213 || n == 215 || n == 217 || n == 219;
  }

  lemma Left220(n: nat)
    requires 220 <= n < 237
    ensures Sieved(n) <==> n !in FROM220
  {
    assert n % 2 == 0 || n == 221 || n == 223 || n == 225 || n == 227 || n == 229 || n == 231 || n == 233 || n == 235;
  }

  lemma Left237(n: nat)
    requires 237 <= n < 254
    ensures Sieved(n) <==> n !in FROM220
  {
    assert n % 2 == 0 || n == 237 || n == 239 || n == 241 || n == 243 || n == 245 || n == 247 || n == 249
        || n == 251 || n == 253;
  }

  lemma Left254(n: nat)
    requires 254 <= n < 270
    ensures Sieved(n) <==> n !in FROM220
  {
    assert n % 2 == 0 || n == 255 || n == 257 || n == 259 || n == 261 || n == 263 || n == 265 || n == 267 || n == 269;
  }

  lemma Left270(n: nat)
    requires 270 <= n < 284
    ensures Sieved(n) <==> n !in FROM270
  {
    assert n % 2 == 0 || n == 271 || n == 273 || n == 275 || n == 277 || n == 279 || n == 281 || n == 283;
  }

  lemma Left284(n: nat)
    requires 284 <= n < 298
    ensures Sieved(n) <==> n !in FROM270
  {
    assert n % 2 == 0 || n == 285 || n == 287 || n == 289 || n == 291 || n == 293 || n == 295 || n == 297;
  }

  lemma Left298(n: nat)
    requires 298 <= n < 312
    ensures Sieved(n) <==> n !in FROM270
  {
    assert n % 2 == 0 || n == 299 || n == 301 || n == 303 || n == 305 || n == 307 || n == 309 || n == 311;
  }

  lemma LeftBySieve(n: nat)
    requires 19 <= n < 312
    ensures n in FROM19 + FROM70 + FROM120 + FROM170 + FROM220 + FROM270 <==> !Sieved(n)
  {
    TableRanges(n);
    hide Sieved, FROM19, FROM70, FROM120, FROM170, FROM220, FROM270;
    if 19 <= n < 37 { Left19(n); }
    if 37 <= n < 54 { Left37(n); }
    if 54 <= n < 70 { Left54(n); }
    if 70 <= n < 87 { Left70(n); }
    if 87 <= n < 104 { Left87(n); }
    if 104 <= n < 120 { Left104(n); }
    if 120 <= n < 137 { Left120(n); }
    if 137 <= n < 154 { Left137(n); }
    if 154 <= n < 170 { Left154(n); }
    if 170 <= n < 187 { Left170(n); }
    if 187 <= n < 204 { Left187(n); }
    if 204 <= n < 220 { Left204(n); }
    if 220 <= n < 237 { Left220(n); }
    if 237 <= n < 254 { Left237(n); }
    if 254 <= n < 270 { Left254(n); }
    if 270 <= n < 284 { Left270(n); }
    if 284 <= n < 298 { Left284(n); }
    if 298 <= n < 312 { Left298(n); }
  }

  lemma TableRanges(n: nat)
    ensures n in FROM19 ==> 19 <= n < 70
    ensures n in FROM70 ==> 70 <= n < 120
    ensures n in FROM120 ==> 120 <= n < 170
    ensures n in FROM170 ==> 170 <= n < 220
    ensures n in FROM220 ==> 220 <= n < 270
    ensures n in FROM270 ==> 270 <= n < 312
  {
  }

  /** Below 361 a number above 17 is prime exactly when the sieve leaves it. */
  lemma SievedIff(n: nat)
    requires 18 < n < 361
    ensures IsPrime(n) <==> !Sieved(n)
  {
    if Sieved(n) {
      assert n % 2 == 0 || n % 3 == 0 || n % 5 == 0 || n % 7 == 0 || n % 11 == 0 || n % 13 == 0 || n % 17 == 0;
    } else {
      forall d | 2 <= d < n ensures n % d != 0 {
        if n % d == 0 {
          HasSmallDivisor(n, d);
        }
      }
    }
  }

  lemma HasSmallDivisor(n: nat, d: nat)
    requires 18 < n < 361 && 2 <= d < n && n % d == 0
    ensures Sieved(n)
  {
    hide Sieved;
    var e := n / d;
    assert n == d * e;
    if d <= 18 {
      SmallDivisor(n, d, e);
    } else {
      SmallCofactor(n, d, e);
      SmallDivisor(n, e, d);
    }
  }

  lemma SmallCofactor(n: nat, d: nat, e: nat)
    requires n == d * e && d < n < 361 && d >= 19
    ensures 2 <= e <= 18
  {
    assert d * e >= 19 * e;
    assert e <= 1 ==> d * e <= d;
  }

  /** With the divisor known, each product is linear. */
  lemma SmallDivisor(n: nat, d: nat, e: nat)
    requires n == d * e && 2 <= d <= 18
    ensures Sieved(n)
  {
    if d == 2 { Sieved2(n, e); }
    if d == 3 { Sieved3(n, e); }
    if d == 4 { Sieved2(n, 2 * e); }
    if d == 5 { Sieved5(n, e); }
    if d == 6 { Sieved2(n, 3 * e); }
    if d == 7 { Sieved7(n, e); }
    if d == 8 { Sieved2(n, 4 * e); }
    if d == 9 { Sieved3(n, 3 * e); }
    if d == 10 { Sieved2(n, 5 * e); }
    if d == 11 { Sieved11(n, e); }
    if d == 12 { Sieved2(n, 6 * e); }
    if d == 13 { Sieved13(n, e); }
    if d == 14 { Sieved2(n, 7 * e); }
    if d == 15 { Sieved3(n, 5 * e); }
    if d == 16 { Sieved2(n, 8 * e); }
    if d == 17 { Sieved17(n, e); }
    if d == 18 { Sieved2(n, 9 * e); }
  }

  lemma Sieved2(n: nat, m: nat)
    requires n == 2 * m
    ensures Sieved(n)
  {
    assert n % 2 == 0;
  }

  lemma Sieved3(n: nat, m: nat)
    requires n == 3 * m
    ensures Sieved(n)
  {
    assert n % 3 == 0;
  }

  lemma Sieved5(n: nat, m: nat)
    requires n == 5 * m
    ensures Sieved(n)
  {
    assert n % 5 == 0;
  }

  lemma Sieved7(n: nat, m: nat)
    requires n == 7 * m
    ensures Sieved(n)
  {
    assert n % 7 == 0;
  }

  lemma Sieved11(n: nat, m: nat)
    requires n == 11 * m
    ensures Sieved(n)
  {
    assert n % 11 == 0;
  }

  lemma Sieved13(n: nat, m: nat)
    requires n == 13 * m
    ensures Sieved(n)
  {
    assert n % 13 == 0;
  }

  lemma Sieved17(n: nat, m: nat)
    requires n == 17 * m
    ensures Sieved(n)
  {
    assert n % 17 == 0;
  }

  /** The table lists exactly the primes below 312. */
  lemma PrimesAreAll(n: nat)
    requires n < 312
    ensures n in Primes() <==> IsPrime(n)
  {
    hide Sieved, IsPrime;
    TableRanges(n);
    var rest := FROM19 + FROM70 + FROM120 + FROM170 + FROM220 + FROM270;
    assert Primes() == FIRST + rest;
    hide FROM19, FROM70, FROM120, FROM170, FROM220, FROM270;
    if n >= 19 {
      LeftBySieve(n);
      SievedIff(n);
    } else {
      SmallPrimes(n);
    }
  }

  lemma {:induction false} PrimesIncrease(i: nat, j: nat)
    requires i < j < 64
    ensures Primes()[i] < Primes()[j]
    decreases j - i
  {
    hide Primes;
    if i + 1 < j {
      PrimesIncrease(i + 1, j);
    }
    PrimesStep(i);
  }

  lemma PrimesStep(i: nat)
    requires i < 63
    ensures Primes()[i] < Primes()[i + 1]
  {
    hide Primes;
    if 0 <= i < 8 { PrimesStep00(i); }
    if 8 <= i < 16 { PrimesStep08(i); }
    if 16 <= i < 24 { PrimesStep16(i); }
    if 24 <= i < 32 { PrimesStep24(i); }
    if 32 <= i < 40 { PrimesStep32(i); }
    if 40 <= i < 48 { PrimesStep40(i); }
    if 48 <= i < 56 { PrimesStep48(i); }
    if 56 <= i { PrimesStep56(i); }
  }

  lemma PrimesStep00(i: nat)
    requires 0 <= i < 8
    ensures Primes()[i] < Primes()[i + 1]
  {
  }

  lemma PrimesStep08(i: nat)
    requires 8 <= i < 16
    ensures Primes()[i] < Primes()[i + 1]
  {
  }

  lemma PrimesStep16(i: nat)
    requires 16 <= i < 24
    ensures Primes()[i] < Primes()[i + 1]
  {
  }

  lemma PrimesStep24(i: nat)
    requires 24 <= i < 32
    ensures Primes()[i] < Primes()[i + 1]
  {
  }

  lemma PrimesStep32(i: nat)
    requires 32 <= i < 40
    ensures Primes()[i] < Primes()[i + 1]
  {
  }

  lemma PrimesStep40(i: nat)
    requires 40 <= i < 48
    ensures Primes()[i] < Primes()[i + 1]
  {
  }

  lemma PrimesStep48(i: nat)
    requires 48 <= i < 56
    ensures Primes()[i] < Primes()[i + 1]
  {
  }

  lemma PrimesStep56(i: nat)
    requires 56 <= i < 63
    ensures Primes()[i] < Primes()[i + 1]
  {
  }

  lemma SmallPrimes(n: nat)
    requires n < 19
    ensures IsPrime(n) <==> n in FIRST
  {
    if n in [4, 6, 8, 10, 12, 14, 16, 18] {
      assert n % 2 == 0;
    } else if n == 9 || n == 15 {
      assert n % 3 == 0;
    }
  }

  // ----- Sections 4.2.2 and 5.3.3.

  /** w holds the first thirty-two bits of the fractional part of the cube root of p. */
  ghost predicate IsCubeRootPart(p: nat, w: Word) {
    exists whole: nat :: IsCubeRoot(p, whole * 0x1_0000_0000 + w as nat)
  }

  /** n is the integer part of 2^32 times the cube root of p. */
  ghost predicate IsCubeRoot(p: nat, n: nat) {
    n * n * n <= p * 0x1_0000_0000_0000_0000_0000_0000 < (n + 1) * (n + 1) * (n + 1)
  }

  ghost predicate IsSquareRootPart(p: nat, w: Word) {
    exists whole: nat :: IsSquareRoot(p, whole * 0x1_0000_0000 + w as nat)
  }

  ghost predicate IsSquareRoot(p: nat, n: nat) {
    n * n <= p * 0x1_0000_0000_0000_0000 < (n + 1) * (n + 1)
  }

  lemma CubeRoot(p: nat, w: Word, whole: nat, n: nat)
    requires n == whole * 0x1_0000_0000 + w as nat && IsCubeRoot(p, n)
    ensures IsCubeRootPart(p, w)
  {
  }

  lemma SquareRoot(p: nat, w: Word, whole: nat, n: nat)
    requires n == whole * 0x1_0000_0000 + w as nat && IsSquareRoot(p, n)
    ensures IsSquareRootPart(p, w)
  {
  }

  lemma Cubes00()
    ensures forall i :: 0 <= i < 4 ==> IsCubeRootPart(Primes()[i], K[i])
  {
    CubeRoot(2, 0x428a2f98, 1, 5411319704);
    CubeRoot(3, 0x71374491, 1, 6194414737);
    CubeRoot(5, 0xb5c0fbcf, 1, 7344290767);
    CubeRoot(7, 0xe9b5dba5, 1, 8215976869);
  }

  lemma Cubes04()
    ensures forall i :: 4 <= i < 8 ==> IsCubeRootPart(Primes()[i], K[i])
  {
    CubeRoot(11, 0x3956c25b, 2, 9551921755);
    CubeRoot(13, 0x59f111f1, 2, 10098905585);
    CubeRoot(17, 0x923f82a4, 2, 11043570340);
    CubeRoot(19, 0xab1c5ed5, 2, 11460697813);
  }

  lemma Cubes08()
    ensures forall i :: 8 <= i < 12 ==> IsCubeRootPart(Primes()[i], K[i])
  {
    CubeRoot(23, 0xd807aa98, 2, 12214315672);
    CubeRoot(29, 0x12835b01, 3, 13195500289);
    CubeRoot(31, 0x243185be, 3, 13492127166);
    CubeRoot(37, 0x550c7dc3, 3, 14311783875);
  }

  lemma Cubes12()
    ensures forall i :: 12 <= i < 16 ==> IsCubeRootPart(Primes()[i], K[i])
  {
    CubeRoot(41, 0x72be5d74, 3, 14809980276);
    CubeRoot(43, 0x80deb1fe, 3, 15046980094);
    CubeRoot(47, 0x9bdc06a7, 3, 15499789991);
    CubeRoot(53, 0xc19bf174, 3, 16133124468);
  }

  lemma Cubes16()
    ensures forall i :: 16 <= i < 20 ==> IsCubeRootPart(Primes()[i], K[i])
  {
    CubeRoot(59, 0xe49b69c1, 3, 16720292289);
    CubeRoot(61, 0xefbe4786, 3, 16907126662);
    CubeRoot(67, 0x0fc19dc6, 4, 17444216262);
    CubeRoot(71, 0x240ca1cc, 4, 17784676812);
  }

  lemma Cubes20()
    ensures forall i :: 20 <= i < 24 ==> IsCubeRootPart(Primes()[i], K[i])
  {
    CubeRoot(73, 0x2de92c6f, 4, 17950125167);
    CubeRoot(79, 0x4a7484aa, 4, 18429019306);
    CubeRoot(83, 0x5cb0a9dc, 4, 18734950876);
    CubeRoot(89, 0x76f988da, 4, 19175934170);
  }

  lemma Cubes24()
    ensures forall i :: 24 <= i < 28 ==> IsCubeRootPart(Primes()[i], K[i])
  {
    CubeRoot(97, 0x983e5152, 4, 19734090066);
    CubeRoot(101, 0xa831c66d, 4, 20001703533);
    CubeRoot(103, 0xb00327c8, 4, 20132865992);
    CubeRoot(107, 0xbf597fc7, 4, 20390182855);
  }

  lemma Cubes28()
    ensures forall i :: 28 <= i < 32 ==> IsCubeRootPart(Primes()[i], K[i])
  {
    CubeRoot(109, 0xc6e00bf3, 4, 20516441075);
    CubeRoot(113, 0xd5a79147, 4, 20764397895);
    CubeRoot(127, 0x06ca6351, 5, 21588763473);
    CubeRoot(131, 0x14292967, 5, 21813078375);
  }

  lemma Cubes32()
    ensures forall i :: 32 <= i < 36 ==> IsCubeRootPart(Primes()[i], K[i])
  {
    CubeRoot(137, 0x27b70a85, 5, 22141143685);
    CubeRoot(139, 0x2e1b2138, 5, 22248366392);
    CubeRoot(149, 0x4d2c6dfc, 5, 22769593852);
    CubeRoot(151, 0x53380d13, 5, 22871018771);
  }

  lemma Cubes36()
    ensures forall i :: 36 <= i < 40 ==> IsCubeRootPart(Primes()[i], K[i])
  {
    CubeRoot(157, 0x650a7354, 5, 23170020180);
    CubeRoot(163, 0x766a0abb, 5, 23461497531);
    CubeRoot(167, 0x81c2c92e, 5, 23651862830);
    CubeRoot(173, 0x92722c85, 5, 23931792517);
  }

  lemma Cubes40()
    ensures forall i :: 40 <= i < 44 ==> IsCubeRootPart(Primes()[i], K[i])
  {
    CubeRoot(179, 0xa2bfe8a1, 5, 24205322401);
    CubeRoot(181, 0xa81a664b, 5, 24295138891);
    CubeRoot(191, 0xc24b8b70, 5, 24734567280);
    CubeRoot(193, 0xc76c51a3, 5, 24820601251);
  }

  lemma Cubes44()
    ensures forall i :: 44 <= i < 48 ==> IsCubeRootPart(Primes()[i], K[i])
  {
    CubeRoot(197, 0xd192e819, 5, 24990902297);
    CubeRoot(199, 0xd6990624, 5, 25075189284);
    CubeRoot(211, 0xf40e3585, 5, 25569408389);
    CubeRoot(223, 0x106aa070, 6, 26045227120);
  }

  lemma Cubes48()
    ensures forall i :: 48 <= i < 52 ==> IsCubeRootPart(Primes()[i], K[i])
  {
    CubeRoot(227, 0x19a4c116, 6, 26200031510);
    CubeRoot(229, 0x1e376c08, 6, 26276752392);
    CubeRoot(233, 0x2748774c, 6, 26428864332);
    CubeRoot(239, 0x34b0bcb5, 6, 26653801653);
  }

  lemma Cubes52()
    ensures forall i :: 52 <= i < 56 ==> IsCubeRootPart(Primes()[i], K[i])
  {
    CubeRoot(241, 0x391c0cb3, 6, 26727943347);
    CubeRoot(251, 0x4ed8aa4a, 6, 27092625994);
    CubeRoot(257, 0x5b9cca4f, 6, 27306805839);
    CubeRoot(263, 0x682e6ff3, 6, 27517677555);
  }

  lemma Cubes56()
    ensures forall i :: 56 <= i < 60 ==> IsCubeRootPart(Primes()[i], K[i])
  {
    CubeRoot(269, 0x748f82ee, 6, 27725365998);
    CubeRoot(271, 0x78a5636f, 6, 27793908591);
    CubeRoot(277, 0x84c87814, 6, 27997534228);
    CubeRoot(281, 0x8cc70208, 6, 28131656200);
  }

  lemma Cubes60()
    ensures forall i :: 60 <= i < 64 ==> IsCubeRootPart(Primes()[i], K[i])
  {
    CubeRoot(283, 0x90befffa, 6, 28198240250);
    CubeRoot(293, 0xa4506ceb, 6, 28526537963);
    CubeRoot(307, 0xbef9a3f7, 6, 28973835255);
    CubeRoot(311, 0xc67178f2, 6, 29099129074);
  }

  /** The round constants are the fractional parts of the cube roots of the first sixty-four primes. */
  lemma ConstantsAreCubeRoots(i: nat)
    requires i < 64
    ensures IsCubeRootPart(Primes()[i], Constants()[i])
  {
    hide IsCubeRootPart;
    Cubes00(); Cubes04(); Cubes08(); Cubes12();
    Cubes16(); Cubes20(); Cubes24(); Cubes28();
    Cubes32(); Cubes36(); Cubes40(); Cubes44();
    Cubes48(); Cubes52(); Cubes56(); Cubes60();
  }

  /** The initial value is that of the square roots of the first eight. */
  lemma InitialValueIsSquareRoots(i: nat)
    requires i < 8
    ensures IsSquareRootPart(Primes()[i], InitialValue()[i])
  {
    SquareRoot(2, 0x6a09e667, 1, 6074000999);
    SquareRoot(3, 0xbb67ae85, 1, 7439101573);
    SquareRoot(5, 0x3c6ef372, 2, 9603838834);
    SquareRoot(7, 0xa54ff53a, 2, 11363415354);
    SquareRoot(11, 0x510e527f, 3, 14244795007);
    SquareRoot(13, 0x9b05688c, 3, 15485724812);
    SquareRoot(17, 0x1f83d9ab, 4, 17708603819);
    SquareRoot(19, 0x5be0cd19, 4, 18721328409);
  }
}
