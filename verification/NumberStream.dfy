/**
  The hash-driven number stream behind the initial weights.  The digest words and the transform of
  a pair of uniforms into a pair of normals are arbitrary functions.
 */
module NumberStream {

  const WORDS_PER_DIGEST: nat := 8
  const WORD_LIMIT: nat := 0x1_0000_0000

  /** Word `index` of digest number `counter`. */
  type Words = (nat, nat) -> nat

  ghost predicate AreWords(word: Words) {
    forall c: nat, i: nat :: word(c, i) < WORD_LIMIT
  }

  /** A word as a number strictly between 0 and 1. */
  function Uniform(word: nat): real {
    (word as real + 0.5) / 4294967296.0
  }

  lemma UniformIsInside(word: nat)
    requires word < WORD_LIMIT
    ensures 0.0 < Uniform(word) < 1.0
  {
  }

  /** The i-th uniform: word i mod 8 of digest i div 8. */
  function UniformAt(word: Words, i: nat): real {
    Uniform(word(i / WORDS_PER_DIGEST, i % WORDS_PER_DIGEST))
  }

  function Even(count: nat): nat {
    count + count % 2
  }

  /** The cursor runs over the values, the counter over the digests; the inner loop may stop early. */
  method FillUniforms(word: Words, count: nat) returns (values: seq<real>)
    requires AreWords(word)
    ensures |values| == Even(count)
    ensures forall i :: 0 <= i < |values| ==> values[i] == UniformAt(word, i) && 0.0 < values[i] < 1.0
    ensures forall i :: 0 <= i < |values| ==> values[i] * 4294967296.0 - 0.5 == word(i / 8, i % 8) as real
  {
    var size := count + count % 2;
    var buffer := new real[size];
    var cursor, counter := 0, 0;
    while cursor < size
      invariant 0 <= cursor <= size
      invariant cursor < size ==> cursor == counter * WORDS_PER_DIGEST
      invariant forall i :: 0 <= i < cursor ==> buffer[i] == UniformAt(word, i)
      decreases size - cursor
    {
      var index := 0;
      while index < WORDS_PER_DIGEST && cursor < size
        invariant 0 <= index <= WORDS_PER_DIGEST && 0 <= cursor <= size
        invariant cursor == counter * WORDS_PER_DIGEST + index
        invariant forall i :: 0 <= i < cursor ==> buffer[i] == UniformAt(word, i)
      {
        WordPlace(counter, index);
        buffer[cursor] := Uniform(word(counter, index));
        cursor := cursor + 1;
        index := index + 1;
      }
      counter := counter + 1;
    }
    values := buffer[..];
    forall i | 0 <= i < |values| ensures 0.0 < values[i] < 1.0 {
      UniformIsInside(word(i / WORDS_PER_DIGEST, i % WORDS_PER_DIGEST));
    }
  }

  lemma WordPlace(counter: nat, index: nat)
    requires index < WORDS_PER_DIGEST
    ensures (counter * WORDS_PER_DIGEST + index) / WORDS_PER_DIGEST == counter
    ensures (counter * WORDS_PER_DIGEST + index) % WORDS_PER_DIGEST == index
  {
  }

  /** The normal at place i comes from the pair of uniforms around i. */
  function NormalAt(word: Words, transform: (real, real) -> (real, real), i: nat): real {
    var pair := transform(UniformAt(word, i - i % 2), UniformAt(word, i - i % 2 + 1));
    if i % 2 == 0 then pair.0 else pair.1
  }

  lemma NormalPair(word: Words, transform: (real, real) -> (real, real), k: nat)
    ensures var pair := transform(UniformAt(word, 2 * k), UniformAt(word, 2 * k + 1));
            NormalAt(word, transform, 2 * k) == pair.0 && NormalAt(word, transform, 2 * k + 1) == pair.1
  {
    hide UniformAt;
    assert (2 * k) % 2 == 0 && (2 * k + 1) % 2 == 1;
  }

  function Stream(word: Words, transform: (real, real) -> (real, real), count: nat): (s: seq<real>)
    ensures |s| == count
  {
    seq(count, i requires 0 <= i < count => NormalAt(word, transform, i))
  }

  /** Pairs of uniforms transformed into pairs of normals, cut to the count asked for. */
  method DeterministicNormals(word: Words, transform: (real, real) -> (real, real), count: nat)
    returns (result: seq<real>)
    requires AreWords(word)
    ensures result == Stream(word, transform, count)
  {
    hide NormalAt, UniformAt;
    var values := FillUniforms(word, count);
    var normals := new real[|values|];
    var k := 0;
    while 2 * k < |values|
      invariant 0 <= 2 * k <= |values|
      invariant forall i :: 0 <= i < 2 * k ==> normals[i] == NormalAt(word, transform, i)
    {
      var pair := transform(values[2 * k], values[2 * k + 1]);
      normals[2 * k] := pair.0;
      normals[2 * k + 1] := pair.1;
      NormalPair(word, transform, k);
      k := k + 1;
    }
    result := normals[..count];
  }

  /** Asking for more numbers only appends: the padding to an even length never shows. */
  lemma StreamIsPrefix(word: Words, transform: (real, real) -> (real, real), n: nat, m: nat)
    requires n <= m
    ensures Stream(word, transform, n) <= Stream(word, transform, m)
  {
  }
}
