/**
  The provisioner's receipt code: the printer with its fixed buffers and capacity checks, and
  the verifier's cursor over the text it read.
 */
module ReceiptCode {
  import opened ReceiptFormat
  import opened ReceiptRoundTrip
  import opened Options

  const ENTRIES_CAPACITY: nat := 6144
  const RECEIPT_CAPACITY: nat := 8192

  // ----- Printing.

  method CopyText(buffer: array<char>, used: nat, text: string)
    requires used + |text| <= buffer.Length
    modifies buffer
    ensures buffer[..used + |text|] == old(buffer[..used]) + text
  {
    forall i | 0 <= i < |text| {
      buffer[used + i] := text[i];
    }
  }

  /** Formatted printing at `used`: nothing is reported when text and terminator do not fit. */
  method PrintEntry(buffer: array<char>, used: nat, name: string, m: Metadata) returns (r: Option<nat>)
    requires used <= buffer.Length && m.mode < MODE_LIMIT
    modifies buffer
    ensures r.Some? <==> |EntryText(name, m)| < buffer.Length - used
    ensures r.Some? ==> r.value == |EntryText(name, m)|
    ensures r.Some? ==> buffer[..used + r.value] == old(buffer[..used]) + EntryText(name, m)
  {
    hide EntryText;
    var text := EntryText(name, m);
    if |text| >= buffer.Length - used {
      return None;
    }
    CopyText(buffer, used, text);
    r := Some(|text|);
  }

  /** For 64-bit metadata no capacity failure is reachable, every write is in bounds, and the
      text is that of the format. */
  method SerializeReceipt(hash: string, entries: seq<Metadata>) returns (r: Option<string>)
    requires ValidReceipt(Receipt(hash, entries))
    ensures r == Some(Text(Receipt(hash, entries)))
    ensures 1 <= |r.value| < RECEIPT_CAPACITY
  {
    hide EntryText, Label, Opening, BetweenHashes, BeforeEntries, Closing, ValidHash;
    var buffer := new char[ENTRIES_CAPACITY];
    var used := 0;
    var index := 0;
    while index < ENTRY_COUNT
      invariant 0 <= index <= ENTRY_COUNT
      invariant used == |Joined(entries, index)| <= index * ENTRY_BOUND
      invariant buffer[..used] == Joined(entries, index)
    {
      EntryLength(Label(index), entries[index]);
      JoinedLength(entries, index + 1);
      if index > 0 {
        buffer[used] := ',';
        used := used + 1;
        assert buffer[..used] == Joined(entries, index) + ",";
      }
      ghost var start := buffer[..used];
      assert start == Joined(entries, index) + (if index == 0 then "" else ",");
      var count := PrintEntry(buffer, used, Label(index), entries[index]);
      if count.None? {
        return None;
      }
      used := used + count.value;
      index := index + 1;
    }
    buffer[used] := '\0';
    var text := Opening() + hash + BetweenHashes() + hash + BeforeEntries() + buffer[..used] + Closing();
    TextLength(Receipt(hash, entries));
    if |text| >= RECEIPT_CAPACITY {
      return None;
    }
    r := Some(text);
  }

  // ----- Parsing with a cursor.

  lemma ValueMore(digits: string, c: char)
    requires IsDigit(c) && forall i :: 0 <= i < |digits| ==> IsDigit(digits[i])
    ensures Value(digits + [c]) == 10 * Value(digits) + DigitValue(c)
  {
    assert (digits + [c])[..|digits|] == digits;
  }

  /** The library's conversion: the leading digits and their value. */
  method ReadDigits(text: string, start: nat) returns (value: nat, end: nat)
    requires start <= |text|
    ensures start <= end <= |text| && (end < |text| ==> !IsDigit(text[end]))
    ensures forall i :: 0 <= i < end - start ==> IsDigit(text[start..end][i])
    ensures value == Value(text[start..end])
  {
    hide DigitValue, IsDigit;
    value, end := 0, start;
    ghost var digits := "";
    while end < |text| && IsDigit(text[end])
      invariant start <= end <= |text| && digits == text[start..end]
      invariant forall i :: 0 <= i < |digits| ==> IsDigit(digits[i])
      invariant value == Value(digits)
    {
      ValueMore(digits, text[end]);
      value := value * 10 + DigitValue(text[end]);
      digits := digits + [text[end]];
      end := end + 1;
    }
  }

  class Reader {
    const text: string
    var cursor: nat

    ghost predicate Valid()
      reads this
    {
      cursor <= |text|
    }

    ghost function Rest(): string
      requires Valid()
      reads this
    {
      text[cursor..]
    }

    constructor (text: string)
      ensures Valid() && this.text == text && Rest() == text
    {
      this.text := text;
      cursor := 0;
    }

    method Literal(literal: string) returns (ok: bool)
      requires Valid()
      modifies this
      ensures Valid()
      ensures ok == ConsumeLiteral(old(Rest()), literal).Accepted?
      ensures ok ==> Rest() == ConsumeLiteral(old(Rest()), literal).rest
    {
      if |text| - cursor < |literal| || text[cursor..cursor + |literal|] != literal {
        return false;
      }
      cursor := cursor + |literal|;
      ok := true;
    }

    /** Digit by digit, with the overflow report of the library conversion. */
    method Decimal() returns (r: Option<nat>)
      requires Valid()
      modifies this
      ensures Valid()
      ensures r.Some? == ConsumeDecimal(old(Rest())).Accepted?
      ensures r.Some? ==> Accepted(r.value, Rest()) == ConsumeDecimal(old(Rest()))
    {
      hide Value, DigitRun, IsDigit;
      if cursor >= |text| || !IsDigit(text[cursor]) {
        RunOfDigits("", text[cursor..]);
        assert "" + text[cursor..] == text[cursor..];
        return None;
      }
      var start := cursor;
      var value, end := ReadDigits(text, start);
      RunOfDigits(text[start..end], text[end..]);
      assert text[start..] == text[start..end] + text[end..];
      assert text[start..][..end - start] == text[start..end];
      assert text[start..][end - start..] == text[end..];
      if value >= UINTMAX_LIMIT || (text[start] == '0' && end - start > 1) {
        return None;
      }
      cursor := end;
      r := Some(value);
    }

    method Hash() returns (r: Option<string>)
      requires Valid()
      modifies this
      ensures Valid()
      ensures r.Some? == ConsumeHash(old(Rest())).Accepted?
      ensures r.Some? ==> Accepted(r.value, Rest()) == ConsumeHash(old(Rest()))
    {
      if |text| - cursor < HASH_LENGTH {
        return None;
      }
      var output := "";
      var index := 0;
      while index < HASH_LENGTH
        invariant 0 <= index <= HASH_LENGTH && cursor == old(cursor)
        invariant output == Rest()[..index] && forall i :: 0 <= i < index ==> IsHashDigit(output[i])
      {
        var value := text[cursor + index];
        if !IsHashDigit(value) {
          assert Rest()[..HASH_LENGTH][index] == value;
          return None;
        }
        output := output + [value];
        index := index + 1;
      }
      cursor := cursor + HASH_LENGTH;
      r := Some(output);
    }

    method Mode() returns (r: Option<nat>)
      requires Valid()
      modifies this
      ensures Valid()
      ensures r.Some? == ConsumeMode(old(Rest())).Accepted?
      ensures r.Some? ==> Accepted(r.value, Rest()) == ConsumeMode(old(Rest()))
    {
      if |text| - cursor < 4 {
        return None;
      }
      var value := 0;
      var index := 0;
      ghost var rest := Rest();
      while index < 4
        invariant 0 <= index <= 4 && cursor == old(cursor)
        invariant forall i :: 0 <= i < index ==> IsOctal(rest[i])
        invariant index == 0 ==> value == 0
        invariant index >= 1 ==> IsOctal(rest[0])
        invariant index == 1 ==> value == DigitValue(rest[0])
        invariant index >= 2 ==> IsOctal(rest[1])
        invariant index == 2 ==> value == DigitValue(rest[0]) * 8 + DigitValue(rest[1])
        invariant index >= 3 ==> IsOctal(rest[2])
        invariant index == 3 ==> value == (DigitValue(rest[0]) * 8 + DigitValue(rest[1])) * 8 + DigitValue(rest[2])
        invariant index == 4 ==> ConsumeMode(rest) == Accepted(value, rest[4..])
      {
        var digit := text[cursor + index];
        if !IsOctal(digit) {
          assert !IsOctal(rest[index]);
          return None;
        }
        value := value * 8 + DigitValue(digit);
        index := index + 1;
      }
      cursor := cursor + 4;
      r := Some(value);
    }

    method Entry(name: string, last: bool) returns (r: Option<Metadata>)
      requires Valid()
      modifies this
      ensures Valid()
      ensures r.Some? == ConsumeEntry(old(Rest()), name, last).Accepted?
      ensures r.Some? ==> Accepted(r.value, Rest()) == ConsumeEntry(old(Rest()), name, last)
    {
      hide ConsumeLiteral, ConsumeDecimal, ConsumeMode;
      hide Quote, BeforeDevice, BeforeInode, BeforeUid, BeforeGid, BeforeMode, EntryEnd;
      r := None;
      var ok := Literal(Quote());
      if !ok { return; }
      ok := Literal(name);
      if !ok { return; }
      ok := Literal(BeforeDevice());
      if !ok { return; }
      var device := Decimal();
      if device.None? { return; }
      ok := Literal(BeforeInode());
      if !ok { return; }
      var inode := Decimal();
      if inode.None? { return; }
      ok := Literal(BeforeUid());
      if !ok { return; }
      var uid := Decimal();
      if uid.None? { return; }
      ok := Literal(BeforeGid());
      if !ok { return; }
      var gid := Decimal();
      if gid.None? { return; }
      ok := Literal(BeforeMode());
      if !ok { return; }
      var mode := Mode();
      if mode.None? { return; }
      ok := Literal(EntryEnd(last));
      if !ok { return; }
      r := Some(Metadata(device.value, inode.value, uid.value, gid.value, mode.value));
    }

    method Entries(k: nat) returns (r: Option<seq<Metadata>>)
      requires Valid() && k <= ENTRY_COUNT
      modifies this
      ensures Valid()
      ensures r.Some? == ConsumeEntries(old(Rest()), k).Accepted?
      ensures r.Some? ==> Accepted(r.value, Rest()) == ConsumeEntries(old(Rest()), k)
      decreases ENTRY_COUNT - k
    {
      hide ConsumeEntry, Label;
      if k == ENTRY_COUNT {
        return Some([]);
      }
      var entry := Entry(Label(k), k == ENTRY_COUNT - 1);
      if entry.None? {
        return None;
      }
      var rest := Entries(k + 1);
      if rest.None? {
        return None;
      }
      r := Some([entry.value] + rest.value);
    }

    method Body() returns (r: Option<(string, string, seq<Metadata>)>)
      requires Valid()
      modifies this
      ensures Valid()
      ensures r.Some? == ConsumeReceipt(old(Rest())).Accepted?
      ensures r.Some? ==> Accepted(r.value, Rest()) == ConsumeReceipt(old(Rest()))
    {
      hide ConsumeLiteral, ConsumeHash, ConsumeEntries, Opening, BetweenHashes, BeforeEntries, Closing;
      r := None;
      var ok := Literal(Opening());
      if !ok { return; }
      var before := Hash();
      if before.None? { return; }
      ok := Literal(BetweenHashes());
      if !ok { return; }
      var after := Hash();
      if after.None? { return; }
      ok := Literal(BeforeEntries());
      if !ok { return; }
      var entries := Entries(0);
      if entries.None? { return; }
      ok := Literal(Closing());
      if !ok { return; }
      r := Some((before.value, after.value, entries.value));
    }
  }

  /** The verifier's reading of the text: it accepts exactly the printed receipts. */
  method ReadReceipt(text: string) returns (r: Option<Receipt>)
    ensures r.Some? == Parse(text).Accepted?
    ensures r.Some? ==> Parse(text) == Accepted(r.value, "")
    ensures r.Some? ==> ValidReceipt(r.value) && Text(r.value) == text
  {
    hide ConsumeReceipt, Text, ValidHash;
    var reader := new Reader(text);
    var body := reader.Body();
    if body.None? {
      return None;
    }
    var (before, after, entries) := body.value;
    assert reader.Rest() == "" <==> reader.cursor == |text|;
    if reader.cursor != |text| || before != after {
      return None;
    }
    PrintOfParse(text);
    r := Some(Receipt(after, entries));
  }
}
