/**
  Printing and parsing a whole receipt are mutually inverse, and the text fits its buffers.
 */
module ReceiptRoundTrip {
  import opened ReceiptFormat

  /** An entry followed by `rest`, nested to the right. */
  function EntryChain(name: string, m: Metadata, last: bool, rest: string): string
    requires m.mode < MODE_LIMIT
  {
    Quote() + (name + (BeforeDevice() + (Decimal(m.device) + (BeforeInode() + (Decimal(m.inode)
    + (BeforeUid() + (Decimal(m.uid) + (BeforeGid() + (Decimal(m.gid)
    + (BeforeMode() + (Octal(m.mode) + (EntryEnd(last) + rest))))))))))))
  }

  lemma EntryTextChain(name: string, m: Metadata, last: bool, rest: string)
    requires m.mode < MODE_LIMIT
    ensures EntryText(name, m) + (if last then "" else ",") + rest == EntryChain(name, m, last, rest)
  {
    hide Quote, BeforeDevice, BeforeInode, BeforeUid, BeforeGid, BeforeMode, Decimal, Octal;
    var separator := if last then "" else ",";
    assert EntryEnd(true) + separator == EntryEnd(last);
    hide EntryEnd;
    var tail := EntryEnd(last) + rest;
    assert EntryEnd(true) + separator + rest == tail;
    Chain12(Quote(), name, BeforeDevice(), Decimal(m.device), BeforeInode(), Decimal(m.inode), BeforeUid(),
            Decimal(m.uid), BeforeGid(), Decimal(m.gid), BeforeMode(), Octal(m.mode), EntryEnd(true), separator, rest);
  }

  lemma Chain12(a: string, b: string, c: string, d: string, e: string, f: string, g: string, h: string,
                i: string, j: string, k: string, l: string, end: string, separator: string, rest: string)
    ensures a + b + c + d + e + f + g + h + i + j + k + l + end + separator + rest
         == a + (b + (c + (d + (e + (f + (g + (h + (i + (j + (k + (l + (end + separator + rest)))))))))))) 
  {
    var t := end + separator + rest;
    var p := a + b + c + d + e + f;
    assert p + g + h + i + j + k + l + end + separator + rest == p + (g + h + i + j + k + l + t);
    assert g + h + i + j + k + l + t == g + (h + (i + (j + (k + (l + t)))));
    var u := g + (h + (i + (j + (k + (l + t)))));
    assert p + u == a + (b + (c + (d + (e + (f + u)))));
  }

  lemma EntryPrinted(name: string, m: Metadata, last: bool, rest: string)
    requires ValidMetadata(m)
    ensures ConsumeEntry(EntryChain(name, m, last, rest), name, last) == Accepted(m, rest)
  {
    hide Quote, BeforeDevice, BeforeInode, BeforeUid, BeforeGid, BeforeMode, EntryEnd, Decimal, Octal;
    hide ConsumeLiteral, ConsumeDecimal, ConsumeMode;
    var end := EntryEnd(last) + rest;
    LiteralPrinted(EntryEnd(last), rest);
    ModePrinted(m.mode, end);
    var mode := Octal(m.mode) + end;
    LiteralPrinted(BeforeMode(), mode);
    var gid := BeforeMode() + mode;
    DecimalPrinted(m.gid, gid);
    LiteralPrinted(BeforeGid(), Decimal(m.gid) + gid);
    var uid := BeforeGid() + (Decimal(m.gid) + gid);
    DecimalPrinted(m.uid, uid);
    LiteralPrinted(BeforeUid(), Decimal(m.uid) + uid);
    var inode := BeforeUid() + (Decimal(m.uid) + uid);
    DecimalPrinted(m.inode, inode);
    LiteralPrinted(BeforeInode(), Decimal(m.inode) + inode);
    var device := BeforeInode() + (Decimal(m.inode) + inode);
    DecimalPrinted(m.device, device);
    LiteralPrinted(BeforeDevice(), Decimal(m.device) + device);
    LiteralPrinted(name, BeforeDevice() + (Decimal(m.device) + device));
    LiteralPrinted(Quote(), name + (BeforeDevice() + (Decimal(m.device) + device)));
  }

  lemma EntryParsed(input: string, name: string, last: bool)
    requires ConsumeEntry(input, name, last).Accepted?
    ensures var r := ConsumeEntry(input, name, last);
            ValidMetadata(r.value) && input == EntryChain(name, r.value, last, r.rest)
  {
    hide Quote, BeforeDevice, BeforeInode, BeforeUid, BeforeGid, BeforeMode, EntryEnd, Decimal, Octal;
    hide ConsumeLiteral, ConsumeDecimal, ConsumeMode;
    var a := ConsumeLiteral(input, Quote()).rest;
    LiteralParsed(input, Quote());
    var b := ConsumeLiteral(a, name).rest;
    LiteralParsed(a, name);
    var c := ConsumeLiteral(b, BeforeDevice()).rest;
    LiteralParsed(b, BeforeDevice());
    var d := ConsumeDecimal(c).rest;
    DecimalParsed(c);
    var e := ConsumeLiteral(d, BeforeInode()).rest;
    LiteralParsed(d, BeforeInode());
    var f := ConsumeDecimal(e).rest;
    DecimalParsed(e);
    var g := ConsumeLiteral(f, BeforeUid()).rest;
    LiteralParsed(f, BeforeUid());
    var h := ConsumeDecimal(g).rest;
    DecimalParsed(g);
    var i := ConsumeLiteral(h, BeforeGid()).rest;
    LiteralParsed(h, BeforeGid());
    var j := ConsumeDecimal(i).rest;
    DecimalParsed(i);
    var k := ConsumeLiteral(j, BeforeMode()).rest;
    LiteralParsed(j, BeforeMode());
    var l := ConsumeMode(k).rest;
    ModeParsed(k);
    LiteralParsed(l, EntryEnd(last));
  }

  // ----- All entries.

  /** The entries from index k on, then `rest`. */
  function EntriesChain(entries: seq<Metadata>, k: nat, rest: string): string
    requires Modes(entries) && k <= ENTRY_COUNT
    decreases ENTRY_COUNT - k
  {
    if k == ENTRY_COUNT then rest
    else EntryChain(Label(k), entries[k], k == ENTRY_COUNT - 1, EntriesChain(entries, k + 1, rest))
  }

  /** The comma the printer writes before entry k. */
  function Separator(k: nat): string {
    if 0 < k < ENTRY_COUNT then "," else ""
  }

  lemma {:induction false} JoinedChain(entries: seq<Metadata>, k: nat, rest: string)
    requires Modes(entries) && k <= ENTRY_COUNT
    ensures Joined(entries, k) + Separator(k) + EntriesChain(entries, k, rest) == EntriesChain(entries, 0, rest)
  {
    hide EntryText, EntryChain, Label;
    if k == 0 {
      assert "" + "" + EntriesChain(entries, 0, rest) == EntriesChain(entries, 0, rest);
    } else {
      JoinedChain(entries, k - 1, rest);
      var tail := EntriesChain(entries, k, rest);
      var text := EntryText(Label(k - 1), entries[k - 1]);
      EntryTextChain(Label(k - 1), entries[k - 1], k - 1 == ENTRY_COUNT - 1, tail);
      assert EntriesChain(entries, k - 1, rest) == text + Separator(k) + tail;
      assert Joined(entries, k) == Joined(entries, k - 1) + Separator(k - 1) + text;
      Regroup(Joined(entries, k - 1) + Separator(k - 1), text, Separator(k), tail);
    }
  }

  lemma Regroup(a: string, b: string, c: string, d: string)
    ensures a + b + c + d == a + (b + c + d)
  {
  }

  lemma {:induction false} EntriesPrinted(entries: seq<Metadata>, k: nat, rest: string)
    requires Modes(entries) && k <= ENTRY_COUNT && forall i :: 0 <= i < ENTRY_COUNT ==> ValidMetadata(entries[i])
    ensures ConsumeEntries(EntriesChain(entries, k, rest), k) == Accepted(entries[k..], rest)
    decreases ENTRY_COUNT - k
  {
    hide ConsumeEntry, EntryChain, Label;
    if k < ENTRY_COUNT {
      EntriesPrinted(entries, k + 1, rest);
      EntryPrinted(Label(k), entries[k], k == ENTRY_COUNT - 1, EntriesChain(entries, k + 1, rest));
      assert entries[k..] == [entries[k]] + entries[k + 1..];
    } else {
      assert entries[k..] == [];
    }
  }

  lemma {:induction false} EntriesParsed(input: string, k: nat, before: seq<Metadata>)
    requires k <= ENTRY_COUNT && ConsumeEntries(input, k).Accepted? && |before| == k
    requires forall i :: 0 <= i < k ==> ValidMetadata(before[i])
    ensures var r := ConsumeEntries(input, k);
            var all := before + r.value;
            && Modes(all) && (forall i :: 0 <= i < ENTRY_COUNT ==> ValidMetadata(all[i]))
            && input == EntriesChain(all, k, r.rest)
    decreases ENTRY_COUNT - k
  {
    hide ConsumeEntry, EntryChain, Label;
    if k < ENTRY_COUNT {
      var last := k == ENTRY_COUNT - 1;
      EntryParsed(input, Label(k), last);
      var one := ConsumeEntry(input, Label(k), last);
      EntriesParsed(one.rest, k + 1, before + [one.value]);
      var rest := ConsumeEntries(one.rest, k + 1);
      assert before + ([one.value] + rest.value) == before + [one.value] + rest.value;
    }
  }

  // ----- The whole receipt.

  function ReceiptChain(before: string, after: string, entries: seq<Metadata>, rest: string): string
    requires Modes(entries)
  {
    Opening() + (before + (BetweenHashes() + (after + (BeforeEntries() + EntriesChain(entries, 0, Closing() + rest)))))
  }

  lemma TextChain(r: Receipt)
    requires Modes(r.entries)
    ensures Text(r) == ReceiptChain(r.hash, r.hash, r.entries, "")
  {
    hide Opening, BetweenHashes, BeforeEntries, Closing, Joined, EntriesChain;
    assert Closing() + "" == Closing();
    JoinedChain(r.entries, ENTRY_COUNT, Closing());
    assert EntriesChain(r.entries, ENTRY_COUNT, Closing()) == Closing() by { LastChain(r.entries, Closing()); }
    var all := Joined(r.entries, ENTRY_COUNT);
    assert all + "" + Closing() == all + Closing();
    Chain7(Opening(), r.hash, BetweenHashes(), BeforeEntries(), all, Closing());
  }

  lemma LastChain(entries: seq<Metadata>, rest: string)
    requires Modes(entries)
    ensures EntriesChain(entries, ENTRY_COUNT, rest) == rest
  {
  }

  lemma Chain7(a: string, b: string, c: string, d: string, e: string, f: string)
    ensures a + b + c + b + d + e + f == a + (b + (c + (b + (d + (e + f)))))
  {
    var t := d + (e + f);
    assert a + b + c + b + d + e + f == a + b + c + b + t;
    assert a + b + c + b + t == a + (b + (c + (b + t)));
  }

  lemma ReceiptPrinted(before: string, after: string, entries: seq<Metadata>, rest: string)
    requires ValidHash(before) && ValidReceipt(Receipt(after, entries))
    ensures ConsumeReceipt(ReceiptChain(before, after, entries, rest)) == Accepted((before, after, entries), rest)
  {
    hide Opening, BetweenHashes, BeforeEntries, Closing, EntriesChain, ValidHash;
    hide ConsumeLiteral, ConsumeHash, ConsumeEntries;
    LiteralPrinted(Closing(), rest);
    var a := EntriesChain(entries, 0, Closing() + rest);
    EntriesPrinted(entries, 0, Closing() + rest);
    assert entries[0..] == entries;
    LiteralPrinted(BeforeEntries(), a);
    HashPrinted(after, BeforeEntries() + a);
    LiteralPrinted(BetweenHashes(), after + (BeforeEntries() + a));
    HashPrinted(before, BetweenHashes() + (after + (BeforeEntries() + a)));
    LiteralPrinted(Opening(), before + (BetweenHashes() + (after + (BeforeEntries() + a))));
  }

  lemma ReceiptParsed(input: string)
    requires ConsumeReceipt(input).Accepted?
    ensures var r := ConsumeReceipt(input);
            var (before, after, entries) := r.value;
            && ValidHash(before) && ValidReceipt(Receipt(after, entries))
            && input == ReceiptChain(before, after, entries, r.rest)
  {
    hide Opening, BetweenHashes, BeforeEntries, Closing, EntriesChain, ValidHash;
    hide ConsumeLiteral, ConsumeHash, ConsumeEntries, ValidMetadata;
    LiteralParsed(input, Opening());
    var a := ConsumeLiteral(input, Opening()).rest;
    HashParsed(a);
    var b := ConsumeHash(a).rest;
    LiteralParsed(b, BetweenHashes());
    var c := ConsumeLiteral(b, BetweenHashes()).rest;
    HashParsed(c);
    var d := ConsumeHash(c).rest;
    LiteralParsed(d, BeforeEntries());
    var e := ConsumeLiteral(d, BeforeEntries()).rest;
    EntriesParsed(e, 0, []);
    assert [] + ConsumeEntries(e, 0).value == ConsumeEntries(e, 0).value;
    LiteralParsed(ConsumeEntries(e, 0).rest, Closing());
  }

  /** Reading a printed receipt gives back the hash and the six entries. */
  lemma ParseOfPrint(r: Receipt)
    requires ValidReceipt(r)
    ensures Parse(Text(r)) == Accepted(r, "")
  {
    hide ValidHash, ConsumeReceipt, Text, ReceiptChain;
    TextChain(r);
    ReceiptPrinted(r.hash, r.hash, r.entries, "");
  }

  /** Every text the parser accepts in full is the print of what it read, byte for byte. */
  lemma PrintOfParse(text: string)
    requires Parse(text).Accepted?
    ensures var r := Parse(text).value; ValidReceipt(r) && Text(r) == text
  {
    hide ValidHash, ConsumeReceipt, Text, ReceiptChain;
    ReceiptParsed(text);
    TextChain(Parse(text).value);
  }

  /** So the accepted texts are exactly the prints, and each names one receipt. */
  lemma AcceptedIffPrinted(text: string, r: Receipt)
    ensures Parse(text) == Accepted(r, "") <==> ValidReceipt(r) && Text(r) == text
  {
    hide Parse, Text;
    if Parse(text) == Accepted(r, "") {
      PrintOfParse(text);
    }
    if ValidReceipt(r) && Text(r) == text {
      ParseOfPrint(r);
    }
  }

  // ----- Size.

  lemma {:induction false} DecimalLength(n: nat, k: nat)
    requires k > 0 && n < Power10(k)
    ensures |Decimal(n)| <= k
  {
    if n >= 10 {
      DecimalLength(n / 10, k - 1);
    }
  }

  function Power10(k: nat): nat {
    if k == 0 then 1 else 10 * Power10(k - 1)
  }

  lemma UintmaxDigits(n: nat)
    requires n < UINTMAX_LIMIT
    ensures |Decimal(n)| <= 20
  {
    hide Decimal;
    assert Power10(20) == 100_000_000_000_000_000_000 by {
      assert Power10(5) == 100_000;
      assert Power10(10) == 10_000_000_000;
      assert Power10(15) == 1_000_000_000_000_000;
    }
    DecimalLength(n, 20);
  }

  const ENTRY_BOUND: nat := 190

  lemma EntryLength(name: string, m: Metadata)
    requires ValidMetadata(m) && |name| <= 22
    ensures |EntryText(name, m)| < ENTRY_BOUND
  {
    hide Quote, BeforeDevice, BeforeInode, BeforeUid, BeforeGid, BeforeMode, EntryEnd, Decimal, Octal;
    UintmaxDigits(m.device);
    UintmaxDigits(m.inode);
    UintmaxDigits(m.uid);
    UintmaxDigits(m.gid);
  }

  lemma {:induction false} JoinedLength(entries: seq<Metadata>, k: nat)
    requires Modes(entries) && k <= ENTRY_COUNT && forall i :: 0 <= i < ENTRY_COUNT ==> ValidMetadata(entries[i])
    ensures |Joined(entries, k)| <= k * ENTRY_BOUND
  {
    hide EntryText, Label;
    if k > 0 {
      JoinedLength(entries, k - 1);
      EntryLength(Label(k - 1), entries[k - 1]);
    }
  }

  /** Every receipt of 64-bit metadata is shorter than 1800 characters, far below both buffers. */
  lemma TextLength(r: Receipt)
    requires ValidReceipt(r)
    ensures 1 <= |Text(r)| < 1800
  {
    hide Opening, BetweenHashes, BeforeEntries, Closing, Joined;
    JoinedLength(r.entries, ENTRY_COUNT);
  }
}
