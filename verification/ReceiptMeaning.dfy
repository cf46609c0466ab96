/**
  What a reader of JSON finds in a receipt, name by name.
 */
module ReceiptMeaning {
  import opened ReceiptFormat
  import opened Options
  import Json

  type Members = seq<Json.Member>

  // ----- What a reader finds.

  /** A text that writes n in decimal, without a superfluous zero. */
  predicate WritesDecimal(j: Option<Json.Json>, n: nat) {
    && j.Some? && j.value.Text? && var s := j.value.text;
    && s != "" && Json.Digits(s) && Json.Numeral(s, 10) == n && (s[0] == '0' ==> s == "0")
  }

  /** A text of four octal digits that write n. */
  predicate WritesOctal(j: Option<Json.Json>, n: nat) {
    && j.Some? && j.value.Text? && var s := j.value.text;
    && |s| == 4 && Json.Digits(s) && Json.Numeral(s, 8) == n && forall i :: 0 <= i < 4 ==> s[i] <= '7'
  }

  predicate WritesNumber(j: Option<Json.Json>, n: nat) {
    j == Some(Json.Number(n))
  }

  predicate WritesFlag(j: Option<Json.Json>, flag: bool) {
    j == Some(Json.Flag(flag))
  }

  predicate WritesText(j: Option<Json.Json>, text: string) {
    j == Some(Json.Text(text))
  }

  /** The object records the metadata under the names of its five fields. */
  predicate Describes(j: Option<Json.Json>, m: Metadata) {
    hide Json.Field;
    && WritesDecimal(Json.Field(j, "device"), m.device)
    && WritesDecimal(Json.Field(j, "inode"), m.inode)
    && WritesNumber(Json.Field(j, "uid"), m.uid)
    && WritesNumber(Json.Field(j, "gid"), m.gid)
    && WritesOctal(Json.Field(j, "mode"), m.mode)
  }

  /** The receipt reports readiness and one hash of the database before and after. */
  predicate Reports(j: Option<Json.Json>, hash: string) {
    hide Json.Field;
    && WritesNumber(Json.Field(j, "version"), 1)
    && WritesText(Json.Field(j, "kind"), "AutonomousSubmissionHandoffLayoutReceipt")
    && WritesText(Json.Field(j, "status"), "autonomous_submission_handoff_layout_ready")
    && WritesFlag(Json.Field(j, "ready"), true)
    && WritesFlag(Json.Field(j, "databaseOpenedReadOnly"), true)
    && WritesFlag(Json.Field(j, "databaseContentCreated"), false)
    && WritesFlag(Json.Field(j, "credentialContentCreated"), false)
    && WritesFlag(Json.Field(j, "authorityContentCreated"), false)
    && WritesText(Json.Field(j, "databaseSha256Before"), "sha256:" + hash)
    && WritesText(Json.Field(j, "databaseSha256After"), "sha256:" + hash)
  }

  // ----- The receipt as a JSON value.

  function EntryMembers(m: Metadata): Members
    requires m.mode < MODE_LIMIT
  {
    [Json.Member("device", Json.Text(Decimal(m.device))), Json.Member("inode", Json.Text(Decimal(m.inode))),
     Json.Member("uid", Json.Number(m.uid)), Json.Member("gid", Json.Number(m.gid)),
     Json.Member("mode", Json.Text(Octal(m.mode)))]
  }

  function EntriesMembers(entries: seq<Metadata>): Members
    requires Modes(entries)
  {
    seq(ENTRY_COUNT, k requires 0 <= k < ENTRY_COUNT =>
      Json.Member(Label(k), Json.Object(EntryMembers(entries[k]))))
  }

  function ReceiptMembers(r: Receipt): (ms: Members)
    requires Modes(r.entries)
    ensures |ms| == 11
  {
    [Json.Member("version", Json.Number(1)),
     Json.Member("kind", Json.Text("AutonomousSubmissionHandoffLayoutReceipt")),
     Json.Member("status", Json.Text("autonomous_submission_handoff_layout_ready")),
     Json.Member("ready", Json.Flag(true)),
     Json.Member("databaseOpenedReadOnly", Json.Flag(true)),
     Json.Member("databaseContentCreated", Json.Flag(false)),
     Json.Member("credentialContentCreated", Json.Flag(false)),
     Json.Member("authorityContentCreated", Json.Flag(false)),
     Json.Member("databaseSha256Before", Json.Text("sha256:" + r.hash)),
     Json.Member("databaseSha256After", Json.Text("sha256:" + r.hash)),
     Json.Member("entries", Json.Object(EntriesMembers(r.entries)))]
  }

  // ----- The text is its print.

  lemma {:induction false} DecimalAgrees(n: nat)
    ensures Json.Decimal(n) == Decimal(n)
  {
    if n >= 10 {
      DecimalAgrees(n / 10);
    }
  }

  /** The members from index k on, as printed. */
  function From(ms: Members, k: nat): string
    requires k < |ms|
  {
    Json.PrintMembers(ms[k..])
  }

  lemma FromNext(ms: Members, k: nat)
    requires k + 1 < |ms|
    ensures From(ms, k) == Item(ms[k].name, Json.Print(ms[k].value)) + From(ms, k + 1)
  {
    hide Json.Print;
    var rest := ms[k..];
    assert rest[0] == ms[k] && rest[1..] == ms[k + 1..];
    var name, value, more := ms[k].name, Json.Print(ms[k].value), From(ms, k + 1);
    assert "\"" + name + "\":" + value + ("," + more) == Item(name, value) + more;
  }

  lemma FromLast(ms: Members)
    requires ms != []
    ensures From(ms, |ms| - 1) == Named(ms[|ms| - 1].name) + Json.Print(ms[|ms| - 1].value) + "}"
  {
    hide Json.Print;
    assert ms[|ms| - 1..][0] == ms[|ms| - 1];
  }

  lemma EntryIsPrint(name: string, m: Metadata)
    requires m.mode < MODE_LIMIT
    ensures EntryText(name, m) == Named(name) + Json.Print(Json.Object(EntryMembers(m)))
  {
    hide Json.Print, Json.PrintMembers, Decimal, Octal, From;
    var ms := EntryMembers(m);
    var device, inode, mode := Decimal(m.device), Decimal(m.inode), Octal(m.mode);
    var uid, gid := Decimal(m.uid), Decimal(m.gid);
    FromNext(ms, 0);
    FromNext(ms, 1);
    FromNext(ms, 2);
    FromNext(ms, 3);
    FromLast(ms);
    PrintsText(device);
    PrintsText(inode);
    PrintsText(mode);
    PrintsNumber(m.uid);
    PrintsNumber(m.gid);
    PrintsObject(ms);
    hide Named, Item;
    hide EntryMembers;
    assert From(ms, 3) == Item("gid", gid) + (Named("mode") + Quoted(mode) + "}");
    assert From(ms, 2) == Item("uid", uid) + From(ms, 3);
    assert From(ms, 1) == Item("inode", Quoted(inode)) + From(ms, 2);
    assert From(ms, 0) == Item("device", Quoted(device)) + From(ms, 1);
    EntryParts(name, device, inode, uid, gid, mode);
  }

  function Quoted(text: string): string {
    "\"" + text + "\""
  }

  lemma PrintsText(text: string)
    ensures Json.Print(Json.Text(text)) == Quoted(text)
  {
  }

  lemma PrintsNumber(n: nat)
    ensures Json.Print(Json.Number(n)) == Decimal(n)
  {
    DecimalAgrees(n);
  }

  lemma PrintsObject(ms: Members)
    requires ms != []
    ensures Json.Print(Json.Object(ms)) == "{" + From(ms, 0)
  {
    assert ms[0..] == ms;
  }

  /** The pieces of an entry's text, grouped as members. */
  lemma EntryParts(name: string, device: string, inode: string, uid: string, gid: string, mode: string)
    ensures Quote() + name + BeforeDevice() + device + BeforeInode() + inode + BeforeUid() + uid
            + BeforeGid() + gid + BeforeMode() + mode + EntryEnd(true)
         == Named(name) + ("{" + (Item("device", Quoted(device)) + (Item("inode", Quoted(inode))
            + (Item("uid", uid) + (Item("gid", gid) + (Named("mode") + Quoted(mode) + "}"))))))
  {
    EntryPartsOf(Named("device"), Named("inode"), Named("uid"), Named("gid"), Named("mode"),
                 name, device, inode, uid, gid, mode);
  }

  lemma EntryPartsOf(d: string, i: string, u: string, g: string, m: string,
                     name: string, device: string, inode: string, uid: string, gid: string, mode: string)
    ensures "\"" + name + ("\":{" + d + "\"") + device + ("\"," + i + "\"") + inode + ("\"," + u) + uid
            + ("," + g) + gid + ("," + m + "\"") + mode + "\"}"
         == "\"" + name + "\":" + ("{" + (d + ("\"" + device + "\"") + "," + (i + ("\"" + inode + "\"") + ","
            + (u + uid + "," + (g + gid + "," + (m + ("\"" + mode + "\"") + "}"))))))
  {
    var head := "\"" + name + ("\":{" + d + "\"") + device + ("\"," + i + "\"") + inode;
    var last := g + gid + "," + (m + ("\"" + mode + "\"") + "}");
    assert ("," + g) + gid + ("," + m + "\"") + mode + "\"}" == "," + last;
    var more := u + uid + "," + last;
    assert head + ("\"," + u) + uid + ("," + g) + gid + ("," + m + "\"") + mode + "\"}" == head + ("\"," + more);
    assert head + ("\"," + more)
        == "\"" + name + "\":" + ("{" + (d + ("\"" + device + "\"") + "," + (i + ("\"" + inode + "\"") + "," + more)));
  }

  /** The printer's commas come before entries, the members' after them. */
  lemma {:induction false} EntriesArePrint(entries: seq<Metadata>, k: nat)
    requires Modes(entries) && k < ENTRY_COUNT
    ensures Joined(entries, k) + (if k == 0 then "" else ",") + From(EntriesMembers(entries), k)
         == From(EntriesMembers(entries), 0)
  {
    hide EntryText, EntryMembers, Label, Named, Json.Print, From;
    var ms := EntriesMembers(entries);
    if k == 0 {
      assert "" + "" + From(ms, 0) == From(ms, 0);
    } else {
      EntriesArePrint(entries, k - 1);
      FromNext(ms, k - 1);
      EntryIsPrint(Label(k - 1), entries[k - 1]);
      var before := Joined(entries, k - 1) + (if k == 1 then "" else ",");
      var text := EntryText(Label(k - 1), entries[k - 1]);
      assert From(ms, k - 1) == text + "," + From(ms, k);
      assert before + text + "," + From(ms, k) == before + (text + "," + From(ms, k));
    }
  }

  lemma JoinedIsPrint(entries: seq<Metadata>)
    requires Modes(entries)
    ensures Json.Print(Json.Object(EntriesMembers(entries))) == "{" + (Joined(entries, ENTRY_COUNT) + "}")
  {
    hide EntryText, EntryMembers, Label, Named, Json.Print, From, Joined;
    var ms := EntriesMembers(entries);
    EntriesArePrint(entries, 5);
    FromLast(ms);
    PrintsObject(ms);
    EntryIsPrint(Label(5), entries[5]);
    var before, text := Joined(entries, 5) + ",", EntryText(Label(5), entries[5]);
    assert Joined(entries, 6) == before + text by { LastJoined(entries); }
    assert before + (text + "}") == before + text + "}";
  }

  lemma LastJoined(entries: seq<Metadata>)
    requires Modes(entries)
    ensures Joined(entries, 6) == Joined(entries, 5) + "," + EntryText(Label(5), entries[5])
  {
    hide EntryText, Label;
  }

  /** The members that name the two hashes and the entries. */
  lemma ClosingIsPrint(r: Receipt)
    requires Modes(r.entries)
    ensures From(ReceiptMembers(r), 8)
         == Item("databaseSha256Before", Quoted("sha256:" + r.hash))
            + (Item("databaseSha256After", Quoted("sha256:" + r.hash))
               + (Named("entries") + ("{" + (Joined(r.entries, ENTRY_COUNT) + "}")) + "}"))
  {
    hide Json.Print, From, Named, Item, Joined, EntriesMembers;
    var ms := ReceiptMembers(r);
    FromNext(ms, 8);
    FromNext(ms, 9);
    FromLast(ms);
    PrintsText("sha256:" + r.hash);
    JoinedIsPrint(r.entries);
  }

  /** The members before them. */
  lemma OpeningIsPrint(r: Receipt)
    requires Modes(r.entries)
    ensures From(ReceiptMembers(r), 0)
         == Item("version", "1") + (Item("kind", Quoted("AutonomousSubmissionHandoffLayoutReceipt"))
            + (Item("status", Quoted("autonomous_submission_handoff_layout_ready"))
            + (Item("ready", "true") + (Item("databaseOpenedReadOnly", "true")
            + (Item("databaseContentCreated", "false") + (Item("credentialContentCreated", "false")
            + (Item("authorityContentCreated", "false") + From(ReceiptMembers(r), 8))))))))
  {
    hide Json.Print, From, Named, Item, EntriesMembers;
    var ms := ReceiptMembers(r);
    FromNext(ms, 0);
    FromNext(ms, 1);
    FromNext(ms, 2);
    FromNext(ms, 3);
    FromNext(ms, 4);
    FromNext(ms, 5);
    FromNext(ms, 6);
    FromNext(ms, 7);
    PrintsOne();
    PrintsFlag(true);
    PrintsFlag(false);
    PrintsText(ms[1].value.text);
    PrintsText(ms[2].value.text);
  }

  lemma PrintsOne()
    ensures Json.Print(Json.Number(1)) == "1"
  {
  }

  lemma PrintsFlag(flag: bool)
    ensures Json.Print(Json.Flag(flag)) == if flag then "true" else "false"
  {
  }

  /** What follows the opening, regrouped. */
  lemma HashParts(b: string, a: string, e: string, sha: string, hash: string, joined: string)
    ensures b + "\"" + sha + (hash + ("\"," + a + "\"" + sha) + hash + ("\"," + e + "{") + joined + "}}\n")
         == b + ("\"" + (sha + hash) + "\"") + "," + (a + ("\"" + (sha + hash) + "\"") + ","
            + (e + ("{" + (joined + "}")) + "}")) + "\n"
  {
    var last := e + ("{" + (joined + "}")) + "}";
    assert ("\"," + e + "{") + joined + "}}\n" == "\"," + (last + "\n");
    var after := a + ("\"" + (sha + hash) + "\"") + "," + last;
    assert ("\"," + a + "\"" + sha) + hash + ("\"," + (last + "\n")) == "\"," + (after + "\n");
    assert hash + ("\"," + a + "\"" + sha) + hash + ("\"," + e + "{") + joined + "}}\n"
        == hash + (("\"," + a + "\"" + sha) + hash + (("\"," + e + "{") + joined + "}}\n"));
    assert b + "\"" + sha + (hash + ("\"," + (after + "\n"))) == b + ("\"" + (sha + hash) + "\"") + "," + after + "\n";
  }

  lemma TailIsPrint(r: Receipt)
    requires Modes(r.entries)
    ensures Named("databaseSha256Before") + "\"" + "sha256:"
            + (r.hash + BetweenHashes() + r.hash + BeforeEntries() + Joined(r.entries, ENTRY_COUNT) + Closing())
         == From(ReceiptMembers(r), 8) + "\n"
  {
    hide From, Named, Joined, ReceiptMembers;
    ClosingIsPrint(r);
    HashParts(Named("databaseSha256Before"), Named("databaseSha256After"), Named("entries"), "sha256:", r.hash,
              Joined(r.entries, ENTRY_COUNT));
  }

  lemma OpeningParts(a: string, b: string, c: string, d: string, e: string, f: string, g: string, h: string,
                     named: string, sha: string, rest: string, printed: string, end: string)
    requires named + "\"" + sha + rest == printed + end
    ensures "{" + a + b + c + d + e + f + g + h + named + "\"" + sha + rest
         == "{" + (a + (b + (c + (d + (e + (f + (g + (h + printed)))))))) + end
  {
    assert "{" + a + b + c + d + e + f + g + h + named + "\"" + sha + rest
        == "{" + a + b + c + d + e + f + g + h + (named + "\"" + sha + rest);
    assert "{" + a + b + c + d + e + f + g + h + (printed + end)
        == "{" + a + b + c + d + (e + (f + (g + (h + printed)))) + end;
  }

  /** The receipt is the print of its members, and a line end. */
  lemma TextIsPrint(r: Receipt)
    requires Modes(r.entries)
    ensures Text(r) == Json.Print(Json.Object(ReceiptMembers(r))) + "\n"
  {
    hide Json.Print, From, Named, Joined, ReceiptMembers, Item, BetweenHashes, BeforeEntries, Closing;
    var tail := r.hash + BetweenHashes() + r.hash + BeforeEntries() + Joined(r.entries, ENTRY_COUNT) + Closing();
    TailIsPrint(r);
    OpeningParts(Item("version", "1"), Item("kind", Quoted("AutonomousSubmissionHandoffLayoutReceipt")),
                 Item("status", Quoted("autonomous_submission_handoff_layout_ready")),
                 Item("ready", "true"), Item("databaseOpenedReadOnly", "true"),
                 Item("databaseContentCreated", "false"), Item("credentialContentCreated", "false"),
                 Item("authorityContentCreated", "false"), Named("databaseSha256Before"), "sha256:", tail,
                 From(ReceiptMembers(r), 8), "\n");
    OpeningIsPrint(r);
    PrintsObject(ReceiptMembers(r));
    assert Opening() + tail == Json.Print(Json.Object(ReceiptMembers(r))) + "\n";
    hide Opening;
    TextParts(Opening(), r.hash, BetweenHashes(), BeforeEntries(), Joined(r.entries, ENTRY_COUNT), Closing());
  }

  lemma TextParts(a: string, hash: string, b: string, c: string, d: string, e: string)
    ensures a + hash + b + hash + c + d + e == a + (hash + b + hash + c + d + e)
  {
  }

  // ----- Reading it.

  lemma {:induction false} DecimalWrites(n: nat)
    ensures WritesDecimal(Some(Json.Text(Decimal(n))), n)
  {
    hide Decimal, Json.Decimal, Json.Numeral;
    DecimalAgrees(n);
    Json.NumeralOfDecimal(n);
  }

  lemma OctalWrites(mode: nat)
    requires mode < MODE_LIMIT
    ensures WritesOctal(Some(Json.Text(Octal(mode))), mode)
  {
    var s := Octal(mode);
    var a, b, c := s[..3], s[..2], s[..1];
    assert s[..0] == "" && Json.Numeral("", 8) == 0;
    assert c[..0] == "" && Json.Numeral(c, 8) == mode / 512;
    assert b[..1] == c && Json.Numeral(b, 8) == 8 * (mode / 512) + mode / 64 % 8;
    assert a[..2] == b && Json.Numeral(a, 8) == 8 * Json.Numeral(b, 8) + mode / 8 % 8;
    assert Json.Numeral(s, 8) == 8 * Json.Numeral(a, 8) + mode % 8;
    OctalDigits(mode);
  }

  lemma EntryFields(m: Metadata)
    requires m.mode < MODE_LIMIT
    ensures Describes(Some(Json.Object(EntryMembers(m))), m)
  {
    hide Json.Find, Decimal, Octal, WritesDecimal, WritesOctal;
    var ms := EntryMembers(m);
    assert "uid"[0] != "gid"[0];
    Json.FindUnique(ms, 0);
    Json.FindUnique(ms, 1);
    Json.FindUnique(ms, 2);
    Json.FindUnique(ms, 3);
    Json.FindUnique(ms, 4);
    DecimalWrites(m.device);
    DecimalWrites(m.inode);
    OctalWrites(m.mode);
  }

  lemma LabelsDiffer(i: nat, k: nat)
    requires i < k < ENTRY_COUNT
    ensures Label(i) != Label(k)
  {
    assert "runtimeRoot"[0] != "handoffRoot"[0];
  }

  lemma EntryField(entries: seq<Metadata>, k: nat)
    requires Modes(entries) && k < ENTRY_COUNT
    ensures Describes(Json.Field(Some(Json.Object(EntriesMembers(entries))), Label(k)), entries[k])
  {
    hide Json.Find, Describes, EntryMembers, Label;
    var ms := EntriesMembers(entries);
    forall i | k < i < ENTRY_COUNT
      ensures ms[i].name != ms[k].name
    {
      LabelsDiffer(k, i);
    }
    Json.FindUnique(ms, k);
    EntryFields(entries[k]);
  }

  lemma EntriesFields(entries: seq<Metadata>)
    requires Modes(entries)
    ensures var j := Some(Json.Object(EntriesMembers(entries)));
            && Describes(Json.Field(j, "runtimeRoot"), entries[0])
            && Describes(Json.Field(j, "autonomousResearchRoot"), entries[1])
            && Describes(Json.Field(j, "handoffRoot"), entries[2])
            && Describes(Json.Field(j, "database"), entries[3])
            && Describes(Json.Field(j, "dispatcherChallenges"), entries[4])
            && Describes(Json.Field(j, "dispatcherCycles"), entries[5])
  {
    hide Json.Field, Describes, EntriesMembers;
    EntryField(entries, 0);
    EntryField(entries, 1);
    EntryField(entries, 2);
    EntryField(entries, 3);
    EntryField(entries, 4);
    EntryField(entries, 5);
  }

  /** No two members of a receipt share a name. */
  lemma NamesDiffer(r: Receipt, i: nat, k: nat)
    requires Modes(r.entries) && i < k < 11
    ensures ReceiptMembers(r)[i].name != ReceiptMembers(r)[k].name
  {
    hide EntriesMembers;
    assert "version"[0] != "entries"[0] && "databaseOpenedReadOnly"[8] != "databaseContentCreated"[8];
  }

  lemma ReceiptField(r: Receipt, k: nat)
    requires Modes(r.entries) && k < 11
    ensures var m := ReceiptMembers(r)[k];
            Json.Field(Some(Json.Object(ReceiptMembers(r))), m.name) == Some(m.value)
  {
    hide ReceiptMembers, Json.Find;
    forall i | k < i < 11
      ensures ReceiptMembers(r)[i].name != ReceiptMembers(r)[k].name
    {
      NamesDiffer(r, k, i);
    }
    Json.FindUnique(ReceiptMembers(r), k);
  }

  lemma ReceiptFields(r: Receipt)
    requires Modes(r.entries)
    ensures var j := Some(Json.Object(ReceiptMembers(r)));
            && Reports(j, r.hash)
            && Json.Field(j, "entries") == Some(Json.Object(EntriesMembers(r.entries)))
  {
    hide Json.Field, EntriesMembers;
    ReceiptField(r, 0);
    ReceiptField(r, 1);
    ReceiptField(r, 2);
    ReceiptField(r, 3);
    ReceiptField(r, 4);
    ReceiptField(r, 5);
    ReceiptField(r, 6);
    ReceiptField(r, 7);
    ReceiptField(r, 8);
    ReceiptField(r, 9);
    ReceiptField(r, 10);
  }

  lemma {:induction false} DecimalPlain(n: nat)
    ensures Json.Plain(Decimal(n))
  {
    forall i | 0 <= i < |Decimal(n)|
      ensures Json.IsPlain(Decimal(n)[i])
    {
      assert IsDigit(Decimal(n)[i]);
    }
  }

  predicate PrintableMember(m: Json.Member) {
    Json.Plain(m.name) && Json.Printable(m.value)
  }

  lemma PrintableByIndex(ms: Members)
    requires forall k :: 0 <= k < |ms| ==> PrintableMember(ms[k])
    ensures Json.Printable(Json.Object(ms))
  {
  }

  lemma EntryPrintable(m: Metadata)
    requires m.mode < MODE_LIMIT
    ensures Json.Printable(Json.Object(EntryMembers(m)))
  {
    var ms := EntryMembers(m);
    assert Json.Plain("device") && Json.Plain("inode") && Json.Plain("uid") && Json.Plain("gid") && Json.Plain("mode");
    forall k | 0 <= k < |ms|
      ensures PrintableMember(ms[k])
    {
      hide Decimal, Octal, Json.Plain;
      DecimalPlain(m.device);
      DecimalPlain(m.inode);
      OctalPlain(m.mode);
    }
    hide EntryMembers, PrintableMember;
    PrintableByIndex(ms);
  }

  lemma OctalPlain(mode: nat)
    requires mode < MODE_LIMIT
    ensures Json.Plain(Octal(mode))
  {
  }

  lemma LabelPlain(k: nat)
    requires k < ENTRY_COUNT
    ensures Json.Plain(Label(k))
  {
    assert Json.Plain("runtimeRoot") && Json.Plain("handoffRoot") && Json.Plain("database");
    assert Json.Plain("autonomousResearchRoot");
    assert Json.Plain("dispatcherChallenges") && Json.Plain("dispatcherCycles");
    hide Json.Plain;
  }

  lemma EntriesPrintable(entries: seq<Metadata>)
    requires Modes(entries)
    ensures Json.Printable(Json.Object(EntriesMembers(entries)))
  {
    hide Label, EntryMembers;
    forall k | 0 <= k < ENTRY_COUNT
      ensures Json.Plain(Label(k)) && Json.Printable(Json.Object(EntryMembers(entries[k])))
    {
      LabelPlain(k);
      EntryPrintable(entries[k]);
    }
  }

  lemma HashPlain(hash: string)
    requires ValidHash(hash)
    ensures Json.Plain("sha256:" + hash)
  {
    var s := "sha256:" + hash;
    forall i | 0 <= i < |s|
      ensures Json.IsPlain(s[i])
    {
      assert i < 7 || IsHashDigit(hash[i - 7]);
    }
  }

  lemma FixedTextsPlain()
    ensures Json.Plain("AutonomousSubmissionHandoffLayoutReceipt")
    ensures Json.Plain("autonomous_submission_handoff_layout_ready")
  {
  }

  lemma NamesPlain()
    ensures Json.Plain("version") && Json.Plain("kind") && Json.Plain("status") && Json.Plain("ready")
    ensures Json.Plain("databaseOpenedReadOnly") && Json.Plain("databaseContentCreated")
    ensures Json.Plain("credentialContentCreated") && Json.Plain("authorityContentCreated")
    ensures Json.Plain("databaseSha256Before") && Json.Plain("databaseSha256After") && Json.Plain("entries")
  {
  }

  lemma ReceiptPrintable(r: Receipt)
    requires ValidHash(r.hash) && Modes(r.entries)
    ensures Json.Printable(Json.Object(ReceiptMembers(r)))
  {
    var ms := ReceiptMembers(r);
    forall k | 0 <= k < |ms|
      ensures PrintableMember(ms[k])
    {
      hide EntriesMembers, Json.Plain;
      EntriesPrintable(r.entries);
      HashPlain(r.hash);
      FixedTextsPlain();
      NamesPlain();
    }
    hide ReceiptMembers, PrintableMember;
    PrintableByIndex(ms);
  }

  /** A reader of JSON finds readiness, the hash, and each entry's metadata under its own name. */
  lemma ReceiptReads(r: Receipt)
    requires ValidReceipt(r)
    ensures var j := Json.Load(Text(r));
            var entries := Json.Field(j, "entries");
            && Reports(j, r.hash)
            && Describes(Json.Field(entries, "runtimeRoot"), r.entries[0])
            && Describes(Json.Field(entries, "autonomousResearchRoot"), r.entries[1])
            && Describes(Json.Field(entries, "handoffRoot"), r.entries[2])
            && Describes(Json.Field(entries, "database"), r.entries[3])
            && Describes(Json.Field(entries, "dispatcherChallenges"), r.entries[4])
            && Describes(Json.Field(entries, "dispatcherCycles"), r.entries[5])
  {
    hide Json.ReadValue, Json.Print, Json.Printable, Json.Field;
    hide Text, ReceiptMembers, EntriesMembers, Describes, Reports;
    TextIsPrint(r);
    ReceiptPrintable(r);
    Json.ReadOfPrint(Json.Object(ReceiptMembers(r)), "\n");
    ReceiptFields(r);
    EntriesFields(r.entries);
  }
}
