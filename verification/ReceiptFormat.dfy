/**
  The layout receipt as text: the printer's format and the parser as functions on the
  remaining input, proved to be exact inverses of each other.
 */
module ReceiptFormat {

  const UINTMAX_LIMIT: nat := 0x1_0000_0000_0000_0000
  const MODE_LIMIT: nat := 4096
  const ENTRY_COUNT: nat := 6
  const HASH_LENGTH: nat := 64

  /** What the receipt records of one filesystem entry. */
  datatype Metadata = Metadata(device: nat, inode: nat, uid: nat, gid: nat, mode: nat)

  datatype Receipt = Receipt(hash: string, entries: seq<Metadata>)

  predicate ValidMetadata(m: Metadata) {
    && m.device < UINTMAX_LIMIT && m.inode < UINTMAX_LIMIT
    && m.uid < UINTMAX_LIMIT && m.gid < UINTMAX_LIMIT && m.mode < MODE_LIMIT
  }

  predicate IsHashDigit(c: char) {
    '0' <= c <= '9' || 'a' <= c <= 'f'
  }

  predicate ValidHash(hash: string) {
    |hash| == HASH_LENGTH && forall i :: 0 <= i < |hash| ==> IsHashDigit(hash[i])
  }

  predicate ValidReceipt(r: Receipt) {
    && ValidHash(r.hash)
    && |r.entries| == ENTRY_COUNT
    && forall i :: 0 <= i < ENTRY_COUNT ==> ValidMetadata(r.entries[i])
  }

  // ----- Literals.

  /** A member's name, up to its value. */
  function Named(name: string): (s: string)
    ensures |s| == |name| + 3 && s[0] == '"'
  { "\"" + name + "\":" }

  /** A whole member with its comma. */
  function Item(name: string, value: string): (s: string)
    ensures |s| == |name| + |value| + 4 && s[0] == '"'
  { Named(name) + value + "," }

  function Opening(): (s: string)
    ensures |s| <= 330
  {
    "{" + Item("version", "1") + Item("kind", "\"" + "AutonomousSubmissionHandoffLayoutReceipt" + "\"")
    + Item("status", "\"" + "autonomous_submission_handoff_layout_ready" + "\"")
    + Item("ready", "true") + Item("databaseOpenedReadOnly", "true")
    + Item("databaseContentCreated", "false") + Item("credentialContentCreated", "false")
    + Item("authorityContentCreated", "false")
    + Named("databaseSha256Before") + "\"" + "sha256:"
  }

  function BetweenHashes(): (s: string)
    ensures |s| <= 40
  { "\"," + Named("databaseSha256After") + "\"" + "sha256:" }

  function BeforeEntries(): (s: string)
    ensures |s| <= 20
  { "\"," + Named("entries") + "{" }

  function Closing(): (s: string)
    ensures |s| == 3
  { "}}\n" }

  function Quote(): (s: string)
    ensures |s| == 1
  { "\"" }

  function BeforeDevice(): (s: string)
    ensures |s| <= 15 && s != "" && s[0] == '"'
  { "\":{" + Named("device") + "\"" }

  function BeforeInode(): (s: string)
    ensures |s| <= 15 && s != "" && s[0] == '"'
  { "\"," + Named("inode") + "\"" }

  function BeforeUid(): (s: string)
    ensures |s| <= 15 && s != "" && s[0] == '"'
  { "\"," + Named("uid") }

  function BeforeGid(): (s: string)
    ensures |s| <= 15 && s != "" && s[0] == ','
  { "," + Named("gid") }

  function BeforeMode(): (s: string)
    ensures |s| <= 15 && s != "" && s[0] == ','
  { "," + Named("mode") + "\"" }

  function EntryEnd(last: bool): (s: string)
    ensures |s| <= 3
  { if last then "\"}" else "\"}," }

  function Label(k: nat): (s: string)
    requires k < ENTRY_COUNT
    ensures |s| <= 22
  {
    match k
    case 0 => "runtimeRoot"
    case 1 => "autonomousResearchRoot"
    case 2 => "handoffRoot"
    case 3 => "database"
    case 4 => "dispatcherChallenges"
    case _ => "dispatcherCycles"
  }

  // ----- Printing.

  function Digit(d: nat): (c: char)
    requires d < 10
    ensures '0' <= c <= '9'
  {
    '0' + d as char
  }

  function DigitValue(c: char): (d: nat)
    requires IsDigit(c)
    ensures d < 10 && Digit(d) == c
  {
    (c - '0') as nat
  }

  predicate IsDigit(c: char) {
    '0' <= c <= '9'
  }

  function Decimal(n: nat): (s: string)
    ensures s != "" && forall i :: 0 <= i < |s| ==> IsDigit(s[i])
  {
    if n < 10 then [Digit(n)] else Decimal(n / 10) + [Digit(n % 10)]
  }

  function Octal(mode: nat): (s: string)
    requires mode < MODE_LIMIT
    ensures |s| == 4
  {
    [Digit(mode / 512), Digit(mode / 64 % 8), Digit(mode / 8 % 8), Digit(mode % 8)]
  }

  /** One entry without its separator. */
  function EntryText(name: string, m: Metadata): string
    requires m.mode < MODE_LIMIT
  {
    Quote() + name + BeforeDevice() + Decimal(m.device) + BeforeInode() + Decimal(m.inode)
    + BeforeUid() + Decimal(m.uid) + BeforeGid() + Decimal(m.gid)
    + BeforeMode() + Octal(m.mode) + EntryEnd(true)
  }

  predicate Modes(entries: seq<Metadata>) {
    |entries| == ENTRY_COUNT && forall i :: 0 <= i < ENTRY_COUNT ==> entries[i].mode < MODE_LIMIT
  }

  /** The first k entries, separated by commas: the loop of the printer. */
  function Joined(entries: seq<Metadata>, k: nat): string
    requires Modes(entries) && k <= ENTRY_COUNT
  {
    if k == 0 then ""
    else Joined(entries, k - 1) + (if k == 1 then "" else ",") + EntryText(Label(k - 1), entries[k - 1])
  }

  function Text(r: Receipt): string
    requires Modes(r.entries)
  {
    Opening() + r.hash + BetweenHashes() + r.hash + BeforeEntries() + Joined(r.entries, ENTRY_COUNT) + Closing()
  }

  // ----- Parsing.

  /** The value read and the input left, or a schema failure. */
  datatype Parsed<+T> = Accepted(value: T, rest: string) | Rejected
  {
    predicate IsFailure() { Rejected? }

    function PropagateFailure<U>(): Parsed<U>
      requires Rejected?
    { Rejected }

    function Extract(): (T, string)
      requires Accepted?
    { (value, rest) }
  }

  function ConsumeLiteral(input: string, literal: string): Parsed<()> {
    if literal <= input then Accepted((), input[|literal|..]) else Rejected
  }

  /** The number of leading digits. */
  function DigitRun(input: string): (k: nat)
    ensures k <= |input|
    ensures forall i :: 0 <= i < k ==> IsDigit(input[i])
    ensures k < |input| ==> !IsDigit(input[k])
  {
    if input == "" || !IsDigit(input[0]) then 0 else 1 + DigitRun(input[1..])
  }

  function Value(digits: string): nat
    requires forall i :: 0 <= i < |digits| ==> IsDigit(digits[i])
  {
    if digits == "" then 0 else
      assert IsDigit(digits[|digits| - 1]);
      10 * Value(digits[..|digits| - 1]) + DigitValue(digits[|digits| - 1])
  }

  function ConsumeDecimal(input: string): Parsed<nat> {
    var k := DigitRun(input);
    if k == 0 || Value(input[..k]) >= UINTMAX_LIMIT || (input[0] == '0' && k > 1) then Rejected
    else Accepted(Value(input[..k]), input[k..])
  }

  function ConsumeHash(input: string): Parsed<string> {
    if |input| >= HASH_LENGTH && ValidHash(input[..HASH_LENGTH])
    then Accepted(input[..HASH_LENGTH], input[HASH_LENGTH..]) else Rejected
  }

  predicate IsOctal(c: char) {
    '0' <= c <= '7'
  }

  function ConsumeMode(input: string): Parsed<nat> {
    if |input| < 4 || !IsOctal(input[0]) || !IsOctal(input[1]) || !IsOctal(input[2]) || !IsOctal(input[3]) then Rejected
    else Accepted(((DigitValue(input[0]) * 8 + DigitValue(input[1])) * 8 + DigitValue(input[2])) * 8
                  + DigitValue(input[3]), input[4..])
  }

  function ConsumeEntry(input: string, name: string, last: bool): Parsed<Metadata> {
    var (_, input) :- ConsumeLiteral(input, Quote());
    var (_, input) :- ConsumeLiteral(input, name);
    var (_, input) :- ConsumeLiteral(input, BeforeDevice());
    var (device, input) :- ConsumeDecimal(input);
    var (_, input) :- ConsumeLiteral(input, BeforeInode());
    var (inode, input) :- ConsumeDecimal(input);
    var (_, input) :- ConsumeLiteral(input, BeforeUid());
    var (uid, input) :- ConsumeDecimal(input);
    var (_, input) :- ConsumeLiteral(input, BeforeGid());
    var (gid, input) :- ConsumeDecimal(input);
    var (_, input) :- ConsumeLiteral(input, BeforeMode());
    var (mode, input) :- ConsumeMode(input);
    var (_, input) :- ConsumeLiteral(input, EntryEnd(last));
    Accepted(Metadata(device, inode, uid, gid, mode), input)
  }

  /** The entries from index k on. */
  function ConsumeEntries(input: string, k: nat): Parsed<seq<Metadata>>
    requires k <= ENTRY_COUNT
    decreases ENTRY_COUNT - k
  {
    if k == ENTRY_COUNT then Accepted([], input)
    else
      var (entry, input) :- ConsumeEntry(input, Label(k), k == ENTRY_COUNT - 1);
      var (entries, input) :- ConsumeEntries(input, k + 1);
      Accepted([entry] + entries, input)
  }

  function ConsumeReceipt(input: string): Parsed<(string, string, seq<Metadata>)> {
    var (_, input) :- ConsumeLiteral(input, Opening());
    var (before, input) :- ConsumeHash(input);
    var (_, input) :- ConsumeLiteral(input, BetweenHashes());
    var (after, input) :- ConsumeHash(input);
    var (_, input) :- ConsumeLiteral(input, BeforeEntries());
    var (entries, input) :- ConsumeEntries(input, 0);
    var (_, input) :- ConsumeLiteral(input, Closing());
    Accepted((before, after, entries), input)
  }

  /** The verifier's reading of a whole receipt. */
  function Parse(text: string): Parsed<Receipt> {
    var r := ConsumeReceipt(text);
    if r.Accepted? && r.rest == "" && r.value.0 == r.value.1 then Accepted(Receipt(r.value.1, r.value.2), "")
    else Rejected
  }

  // ----- Literals.

  lemma LiteralPrinted(literal: string, rest: string)
    ensures ConsumeLiteral(literal + rest, literal) == Accepted((), rest)
  {
    assert (literal + rest)[|literal|..] == rest;
  }

  lemma LiteralParsed(input: string, literal: string)
    requires ConsumeLiteral(input, literal).Accepted?
    ensures input == literal + ConsumeLiteral(input, literal).rest
  {
  }

  // ----- Decimals.

  lemma {:induction false} ValueOfDecimal(n: nat)
    ensures Value(Decimal(n)) == n
  {
    if n >= 10 {
      ValueOfDecimal(n / 10);
      assert Decimal(n)[..|Decimal(n)| - 1] == Decimal(n / 10);
    } else {
      assert Value([Digit(n)]) == 10 * Value([Digit(n)][..0]) + DigitValue(Digit(n));
    }
  }

  lemma {:induction false} DecimalHasNoLeadingZero(n: nat)
    ensures Decimal(n)[0] == '0' ==> n == 0
    ensures n < 10 <==> |Decimal(n)| == 1
  {
    if n >= 10 {
      DecimalHasNoLeadingZero(n / 10);
    }
  }

  lemma {:induction false} RunOfDigits(digits: string, rest: string)
    requires forall i :: 0 <= i < |digits| ==> IsDigit(digits[i])
    requires rest == "" || !IsDigit(rest[0])
    ensures DigitRun(digits + rest) == |digits|
  {
    if digits == "" {
      assert digits + rest == rest;
    } else {
      RunOfDigits(digits[1..], rest);
      assert (digits + rest)[1..] == digits[1..] + rest;
    }
  }

  lemma DecimalPrinted(n: nat, rest: string)
    requires n < UINTMAX_LIMIT && (rest == "" || !IsDigit(rest[0]))
    ensures ConsumeDecimal(Decimal(n) + rest) == Accepted(n, rest)
  {
    hide Decimal, Value, DigitRun;
    var d := Decimal(n);
    RunOfDigits(d, rest);
    ValueOfDecimal(n);
    DecimalHasNoLeadingZero(n);
    assert (d + rest)[..|d|] == d && (d + rest)[|d|..] == rest;
  }

  /** A digit string without a superfluous leading zero is the decimal of its value. */
  lemma {:induction false} DecimalOfValue(digits: string)
    requires digits != "" && forall i :: 0 <= i < |digits| ==> IsDigit(digits[i])
    requires digits[0] == '0' ==> |digits| == 1
    ensures Decimal(Value(digits)) == digits
    ensures digits[0] != '0' ==> Value(digits) > 0
  {
    var init, last := digits[..|digits| - 1], DigitValue(digits[|digits| - 1]);
    assert Value(digits) == 10 * Value(init) + last;
    if |digits| == 1 {
      assert init == "";
      assert digits == [Digit(last)];
    } else {
      DecimalOfValue(init);
      assert Value(digits) / 10 == Value(init) && Value(digits) % 10 == last;
      assert digits == init + [Digit(last)];
    }
  }

  lemma DecimalParsed(input: string)
    requires ConsumeDecimal(input).Accepted?
    ensures var r := ConsumeDecimal(input);
            input == Decimal(r.value) + r.rest && r.value < UINTMAX_LIMIT
  {
    hide Decimal, Value;
    var k := DigitRun(input);
    DecimalOfValue(input[..k]);
    assert input == input[..k] + input[k..];
  }

  // ----- Hashes and modes.

  lemma HashPrinted(hash: string, rest: string)
    requires ValidHash(hash)
    ensures ConsumeHash(hash + rest) == Accepted(hash, rest)
  {
    assert (hash + rest)[..HASH_LENGTH] == hash && (hash + rest)[HASH_LENGTH..] == rest;
  }

  lemma HashParsed(input: string)
    requires ConsumeHash(input).Accepted?
    ensures var r := ConsumeHash(input); input == r.value + r.rest && ValidHash(r.value)
  {
  }

  lemma DigitRoundTrip(d: nat)
    requires d < 10
    ensures DigitValue(Digit(d)) == d && (d < 8 <==> IsOctal(Digit(d)))
  {
  }

  lemma ModePrinted(mode: nat, rest: string)
    requires mode < MODE_LIMIT
    ensures ConsumeMode(Octal(mode) + rest) == Accepted(mode, rest)
  {
    hide Digit, DigitValue, IsOctal;
    var a, b, c, d := mode / 512, mode / 64 % 8, mode / 8 % 8, mode % 8;
    DigitRoundTrip(a);
    DigitRoundTrip(b);
    DigitRoundTrip(c);
    DigitRoundTrip(d);
    OctalDigits(mode);
    var input := Octal(mode) + rest;
    assert input[0] == Digit(a) && input[1] == Digit(b) && input[2] == Digit(c) && input[3] == Digit(d);
    assert input[4..] == rest;
  }

  lemma OctalDigits(mode: nat)
    requires mode < MODE_LIMIT
    ensures ((mode / 512 * 8 + mode / 64 % 8) * 8 + mode / 8 % 8) * 8 + mode % 8 == mode
  {
  }

  lemma OctalFactors(a: nat, b: nat, c: nat, d: nat)
    requires a < 8 && b < 8 && c < 8 && d < 8
    ensures var v := ((a * 8 + b) * 8 + c) * 8 + d;
            v < MODE_LIMIT && v / 512 == a && v / 64 % 8 == b && v / 8 % 8 == c && v % 8 == d
  {
  }

  lemma ModeParsed(input: string)
    requires ConsumeMode(input).Accepted?
    ensures var r := ConsumeMode(input);
            r.value < MODE_LIMIT && input == Octal(r.value) + r.rest
  {
    hide Digit, DigitValue;
    var a, b, c, d := DigitValue(input[0]), DigitValue(input[1]), DigitValue(input[2]), DigitValue(input[3]);
    DigitRoundTrip(a);
    DigitRoundTrip(b);
    DigitRoundTrip(c);
    DigitRoundTrip(d);
    OctalFactors(a, b, c, d);
    assert Octal(ConsumeMode(input).value) == [input[0], input[1], input[2], input[3]] == input[..4];
  }
}
