/**
  The streaming SHA-256 of the layout provisioner: a context with a 64-byte buffer, updated
  in place.  Whatever the split into updates, the digest is that of the whole message.
 */
module Sha256 {
  import opened Sha256Spec

  function RotateRight(value: Word, count: nat): Word
    requires 0 < count < 32
  {
    (value >> count) | (value << (32 - count))
  }

  function Sum0(a: Word): Word { Xor3(RotateRight(a, 2), RotateRight(a, 13), RotateRight(a, 22)) }

  function Sum1(e: Word): Word { Xor3(RotateRight(e, 6), RotateRight(e, 11), RotateRight(e, 25)) }

  function Sigma0(left: Word): Word { Xor3(RotateRight(left, 7), RotateRight(left, 18), left >> 3) }

  function Sigma1(right: Word): Word { Xor3(RotateRight(right, 17), RotateRight(right, 19), right >> 10) }

  /** The shifted halves form the rotation, at every count in use. */
  lemma HalvesRotate(v: Word)
    ensures RotateRight(v, 2) == v.RotateRight(2) && RotateRight(v, 13) == v.RotateRight(13)
    ensures RotateRight(v, 22) == v.RotateRight(22) && RotateRight(v, 6) == v.RotateRight(6)
    ensures RotateRight(v, 11) == v.RotateRight(11) && RotateRight(v, 25) == v.RotateRight(25)
    ensures RotateRight(v, 7) == v.RotateRight(7) && RotateRight(v, 18) == v.RotateRight(18)
    ensures RotateRight(v, 17) == v.RotateRight(17) && RotateRight(v, 19) == v.RotateRight(19)
  {
  }

  lemma RotationsAgree(v: Word)
    ensures Sum0(v) == BigSigma0(v) && Sum1(v) == BigSigma1(v)
    ensures Sigma0(v) == SmallSigma0(v) && Sigma1(v) == SmallSigma1(v)
  {
    hide RotateRight, Xor3;
    HalvesRotate(v);
  }

  lemma ScheduleStep(block: seq<Byte>, t: nat)
    requires |block| == 64 && t < 64
    ensures t < 16 ==>
      Schedule(block, t) == BigEndianWord(block[4 * t], block[4 * t + 1], block[4 * t + 2], block[4 * t + 3])
    ensures t >= 16 ==>
      Schedule(block, t) == Add(Add(Add(Schedule(block, t - 16), Sigma0(Schedule(block, t - 15))),
                                    Schedule(block, t - 7)), Sigma1(Schedule(block, t - 2)))
  {
    hide Add, Sigma0, Sigma1, SmallSigma0, SmallSigma1, BigEndianWord;
    if t >= 16 {
      RotationsAgree(Schedule(block, t - 15));
      RotationsAgree(Schedule(block, t - 2));
    }
  }

  class Context {
    var state: seq<Word>
    var bitCount: nat
    var block: array<Byte>
    var blockSize: nat
    /** Everything passed to Update so far. */
    ghost var message: seq<Byte>

    /** The buffer holds the message's unfinished block, the state the hash of the finished ones. */
    ghost predicate Buffered()
      reads `state, `block, `blockSize, `message, block
    {
      && block.Length == 64 && |state| == 8
      && blockSize == |message| % 64
      && state == HashBlocks(InitialValue(), message[..|message| - blockSize])
      && block[..blockSize] == message[|message| - blockSize..]
    }

    ghost predicate Valid()
      reads this, block
    {
      Buffered() && blockSize < 64 && bitCount == BitLength(|message|)
    }

    constructor ()
      ensures Valid() && message == [] && fresh(block)
    {
      hide Constants, InitialValue;
      state := InitialValue();
      bitCount := 0;
      block := new Byte[64](_ => 0);
      blockSize := 0;
      message := [];
      new;
      assert message[..0] == [] && block[..0] == [];
    }

    method Transform(bytes: seq<Byte>)
      requires |bytes| == 64 && |state| == 8
      modifies this`state
      ensures state == Compress(old(state), bytes)
    {
      hide Add, Constants, Sum0, Sum1, BigSigma0, BigSigma1, Ch, Maj, Schedule;
      var words := ExpandSchedule(bytes);
      var constants := Constants();
      var a, b, c, d := state[0], state[1], state[2], state[3];
      var e, f, g, h := state[4], state[5], state[6], state[7];
      var index := 0;
      while index < 64
        invariant 0 <= index <= 64 && state == old(state)
        invariant Registers(a, b, c, d, e, f, g, h) == Rounds(state, bytes, index)
      {
        RotationsAgree(e);
        RotationsAgree(a);
        var sum1 := Sum1(e);
        var choice := Ch(e, f, g);
        var first := Add(Add(Add(Add(h, sum1), choice), constants[index]), words[index]);
        var sum0 := Sum0(a);
        var majority := Maj(a, b, c);
        var second := Add(sum0, majority);
        h := g;
        g := f;
        f := e;
        e := Add(d, first);
        d := c;
        c := b;
        b := a;
        a := Add(first, second);
        index := index + 1;
      }
      state := [Add(state[0], a), Add(state[1], b), Add(state[2], c), Add(state[3], d),
                Add(state[4], e), Add(state[5], f), Add(state[6], g), Add(state[7], h)];
    }

    method Update(bytes: seq<Byte>)
      requires Valid()
      modifies this, block
      ensures Valid() && message == old(message) + bytes && block == old(block)
    {
      hide BitLength, CountBits, Buffered;
      bitCount := CountBits(bitCount, |bytes|);
      BitLengthAdds(|message|, |bytes|);
      ghost var count := bitCount;
      var offset := 0;
      while offset < |bytes|
        invariant 0 <= offset <= |bytes| && blockSize < 64
        invariant Buffered() && block == old(block) && bitCount == count
        invariant message == old(message) + bytes[..offset]
      {
        var available := 64 - blockSize;
        var selected := if |bytes| - offset < available then |bytes| - offset else available;
        Append(bytes[offset..offset + selected]);
        assert bytes[..offset + selected] == bytes[..offset] + bytes[offset..offset + selected];
        offset := offset + selected;
      }
    }

    /** One pass of the update loop: copy into the buffer, and compress it once it is full. */
    method Append(chunk: seq<Byte>)
      requires Buffered() && blockSize < 64 && 0 < |chunk| <= 64 - blockSize
      modifies this`state, this`blockSize, this`message, block
      ensures Buffered() && blockSize < 64 && message == old(message) + chunk
    {
      hide HashBlocks, Compress, InitialValue;
      ghost var tail := message[|message| - blockSize..];
      BlockGrows(message, blockSize, chunk, state);
      Copy(block, blockSize, chunk);
      blockSize := blockSize + |chunk|;
      message := message + chunk;
      if blockSize == 64 {
        assert block[..] == block[..blockSize] == tail + chunk;
        Transform(block[..]);
        blockSize := 0;
      }
    }

    /** The marker and the zero bytes, through Update itself, up to the length field. */
    method AppendPadding()
      requires Valid()
      modifies this, block
      ensures Valid() && block == old(block)
      ensures message == old(message) + [0x80] + Zeros(ZeroCount(|old(message)|))
    {
      hide HashBlocks, Compress, InitialValue;
      ghost var m, zeros := message, ZeroCount(|message|);
      ghost var added := 0;
      Update([0x80]);
      assert m + [0x80] + Zeros(0) == m + [0x80];
      while blockSize != 56
        invariant Valid() && block == old(block) && 0 <= added <= zeros
        invariant message == m + [0x80] + Zeros(added)
        decreases zeros - added
      {
        assert added < zeros by { AddedNotFull(|m|, added, zeros); }
        ghost var was := message;
        Update([0]);
        assert Zeros(added) + [0] == Zeros(added + 1);
        assert message == m + [0x80] + (Zeros(added) + [0]);
        added := added + 1;
      }
      assert FillsBlock(|m|, added);
    }

    /** The digest is that of the message before the padding. */
    method Finalize() returns (digest: seq<Byte>)
      requires Valid()
      modifies this, block
      ensures |digest| == 32
      ensures 8 * |old(message)| < 0x1_0000_0000_0000_0000 ==> digest == Sha256(old(message))
    {
      hide HashBlocks, Compress, InitialValue, BigEndian64, Bytes, ZeroCount, Zeros, BitLength, FillsBlock, Pad;
      BitLengthExact(|message|);
      var original := bitCount;
      ghost var m := message;
      AppendPadding();
      var length := EncodeLength(original);
      Update(length);
      PaddedIsPad(m, length);
      assert blockSize == 0 && message[..|message|] == message;
      digest := EncodeState(state);
    }
  }

  lemma PaddedIsPad(m: seq<Byte>, length: seq<Byte>)
    requires |length| == 8
    ensures |m + [0x80] + Zeros(ZeroCount(|m|)) + length| % 64 == 0
    ensures 8 * |m| < LENGTH_MODULUS && length == BigEndian64(8 * |m|) ==>
      m + [0x80] + Zeros(ZeroCount(|m|)) + length == Pad(m)
  {
    hide BigEndian64, ZeroCount;
    assert FillsBlock(|m|, ZeroCount(|m|));
  }

  method Copy(block: array<Byte>, start: nat, chunk: seq<Byte>)
    requires start + |chunk| <= block.Length
    modifies block
    ensures block[..start + |chunk|] == old(block[..start]) + chunk
  {
    forall i | 0 <= i < |chunk| {
      block[start + i] := chunk[i];
    }
  }

  /** Where the finished blocks end once a chunk is added. */
  lemma BufferGrows(before: seq<Byte>, size: nat, chunk: seq<Byte>)
    requires size == |before| % 64 && size + |chunk| <= 64
    ensures var whole, tail, m := before[..|before| - size], before[|before| - size..], before + chunk;
            && m == whole + (tail + chunk)
            && m[..|m| - (size + |chunk|)] == whole && m[|m| - (size + |chunk|)..] == tail + chunk
            && m[..|m|] == m && m[|m|..] == []
            && |m| % 64 == (size + |chunk|) % 64
  {
  }

  /** The state and the buffer for the longer message, whether or not the chunk fills the block. */
  lemma BlockGrows(before: seq<Byte>, size: nat, chunk: seq<Byte>, state: seq<Word>)
    requires size == |before| % 64 && size + |chunk| <= 64 && |state| == 8
    requires state == HashBlocks(InitialValue(), before[..|before| - size])
    ensures var m, tail, n := before + chunk, before[|before| - size..], size + |chunk|;
            if n < 64 then
              |m| % 64 == n && m[|m| - n..] == tail + chunk && HashBlocks(InitialValue(), m[..|m| - n]) == state
            else
              && |m| % 64 == 0 && m[..|m|] == m && m[|m|..] == []
              && Compress(state, tail + chunk) == HashBlocks(InitialValue(), m)
  {
    hide HashBlocks, Compress, InitialValue;
    BufferGrows(before, size, chunk);
    if size + |chunk| == 64 {
      HashBlocksAppend(InitialValue(), before[..|before| - size], before[|before| - size..] + chunk);
    }
  }

  lemma AddedNotFull(length: nat, added: nat, zeros: nat)
    requires FillsBlock(length, zeros) && !FillsBlock(length, added) && added <= zeros
    ensures added < zeros
  {
  }

  /** The 64-bit counter after a number of bytes: it wraps around. */
  function BitLength(bytes: nat): nat {
    8 * bytes % LENGTH_MODULUS
  }

  function CountBits(count: nat, bytes: nat): nat {
    (count + bytes * 8) % LENGTH_MODULUS
  }

  lemma BitLengthAdds(before: nat, added: nat)
    ensures CountBits(BitLength(before), added) == BitLength(before + added)
  {
    var q := 8 * before / LENGTH_MODULUS;
    assert 8 * before == q * LENGTH_MODULUS + BitLength(before);
    WrapsAround(BitLength(before) + 8 * added, q);
  }

  lemma WrapsAround(x: nat, q: nat)
    ensures (x + q * LENGTH_MODULUS) % LENGTH_MODULUS == x % LENGTH_MODULUS
  {
  }

  lemma BitLengthExact(bytes: nat)
    ensures 8 * bytes < LENGTH_MODULUS ==> BitLength(bytes) == 8 * bytes
  {
  }

  /** The sixteen words of the block and the forty-eight derived from them. */
  method ExpandSchedule(bytes: seq<Byte>) returns (words: seq<Word>)
    requires |bytes| == 64
    ensures |words| == 64 && forall t :: 0 <= t < 64 ==> words[t] == Schedule(bytes, t)
  {
    hide Add, Sigma0, Sigma1, BigEndianWord, Schedule;
    var buffer := new Word[64];
    var index := 0;
    while index < 16
      invariant 0 <= index <= 16
      invariant forall t :: 0 <= t < index ==> buffer[t] == Schedule(bytes, t)
    {
      ScheduleStep(bytes, index);
      buffer[index] := BigEndianWord(bytes[index * 4], bytes[index * 4 + 1],
                                     bytes[index * 4 + 2], bytes[index * 4 + 3]);
      index := index + 1;
    }
    while index < 64
      invariant 16 <= index <= 64
      invariant forall t :: 0 <= t < index ==> buffer[t] == Schedule(bytes, t)
    {
      var left, right := buffer[index - 15], buffer[index - 2];
      ScheduleStep(bytes, index);
      var sigma0, sigma1 := Sigma0(left), Sigma1(right);
      buffer[index] := Add(Add(Add(buffer[index - 16], sigma0), buffer[index - 7]), sigma1);
      index := index + 1;
    }
    words := buffer[..];
  }

  /** The eight length bytes, filled from the least significant end. */
  method EncodeLength(value: nat) returns (bytes: seq<Byte>)
    ensures bytes == BigEndian64(value)
  {
    hide ByteOf, Power256;
    var length := new Byte[8];
    var index := 0;
    while index < 8
      invariant 0 <= index <= 8
      invariant forall i :: 0 <= i < index ==> length[7 - i] == ByteOf(value / Power256(i) % 256)
    {
      length[7 - index] := ByteOf(value / Power256(index) % 256);
      index := index + 1;
    }
    bytes := length[..];
    forall i | 0 <= i < 8 ensures bytes[i] == BigEndian64(value)[i] {
      assert bytes[i] == length[7 - (7 - i)];
    }
  }

  method EncodeState(state: seq<Word>) returns (digest: seq<Byte>)
    ensures digest == Bytes(state)
  {
    digest := [];
    var index := 0;
    while index < |state|
      invariant 0 <= index <= |state|
      invariant digest == Bytes(state[..index])
    {
      digest := digest + WordBytes(state[index]);
      assert state[..index + 1][..index] == state[..index];
      index := index + 1;
    }
    assert state[..|state|] == state;
  }

  // ----- Hashing a descriptor.

  function Concatenation(chunks: seq<seq<Byte>>): seq<Byte> {
    if |chunks| == 0 then [] else Concatenation(chunks[..|chunks| - 1]) + chunks[|chunks| - 1]
  }

  function HexDigit(v: nat): (c: char)
    requires v < 16
    ensures '0' <= c <= '9' || 'a' <= c <= 'f'
  {
    if v < 10 then '0' + v as char else 'a' + (v - 10) as char
  }

  function Hex(bytes: seq<Byte>): (s: string)
    ensures |s| == 2 * |bytes|
    ensures forall i :: 0 <= i < |s| ==> '0' <= s[i] <= '9' || 'a' <= s[i] <= 'f'
  {
    if |bytes| == 0 then []
    else
      var b := bytes[|bytes| - 1] as nat;
      Hex(bytes[..|bytes| - 1]) + [HexDigit(b / 16), HexDigit(b % 16)]
  }

  /** However the file's bytes arrive, the text is the hexadecimal SHA-256 of the whole file. */
  method HashDescriptor(chunks: seq<seq<Byte>>) returns (text: string)
    ensures |text| == 64
    ensures forall i :: 0 <= i < |text| ==> '0' <= text[i] <= '9' || 'a' <= text[i] <= 'f'
    ensures 8 * |Concatenation(chunks)| < 0x1_0000_0000_0000_0000 ==> text == Hex(Sha256(Concatenation(chunks)))
  {
    hide Sha256Spec.Sha256, Hex;
    hide Context.Buffered, BitLength;
    var context := new Context();
    var k := 0;
    while k < |chunks|
      invariant 0 <= k <= |chunks|
      invariant context.Valid() && fresh(context) && fresh(context.block)
      invariant context.message == Concatenation(chunks[..k])
    {
      context.Update(chunks[k]);
      assert chunks[..k + 1][..k] == chunks[..k];
      k := k + 1;
    }
    assert chunks[..k] == chunks;
    var digest := context.Finalize();
    text := Hex(digest);
  }
}
