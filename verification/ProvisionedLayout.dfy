/**
  What completed runs leave, in terms of users and of the receipt's readers: who has access to
  what, whose owners an interrupted run can leave, and what the receipt says.
 */
module ProvisionedLayout {
  import opened ReceiptFormat
  import opened ReceiptRoundTrip
  import opened ReceiptMeaning
  import opened Options
  import opened Provisioning
  import opened ProvisioningTheorems
  import opened ProvisioningRuns
  import opened Permissions
  import opened LeftTemporaries
  import Json
  import Sha256
  import Sha256Spec

  function TreeOf(l: Layout): Tree
    requires forall e: Entry :: e in l.entries
  {
    (e: Entry) => l.entries[e].meta
  }

  // ----- Access.

  /** The kinds and owners, and what every user may do with every entry. */
  ghost predicate Secured(ids: Identities, l: Layout) {
    && (forall e: Entry :: e in l.entries && l.entries[e].meta.uid == Owner(ids, e))
    && (forall e: Entry :: l.entries[e].directory <==> e != Database) && l.entries[Database].links == 1
    && (forall e: Entry, user :: Guards(ids, e, l.entries[e].meta, user))
    && (forall user ::
          && (MayWrite(user, TreeOf(l), Runtime) <==> user.uid == ids.supervisorUid)
          && (MayWrite(user, TreeOf(l), Research) <==> user.uid == ids.supervisorUid)
          && (MayWrite(user, TreeOf(l), Handoff) <==> Inside(ids, user))
          && (MayWrite(user, TreeOf(l), Database) <==> Inside(ids, user))
          && (MayWrite(user, TreeOf(l), Challenges) <==> Inside(ids, user) && user.uid == ids.supervisorUid)
          && (MayWrite(user, TreeOf(l), Cycles) <==> Inside(ids, user) && user.uid == ids.dispatcherUid))
    && (forall e: Entry, user :: e == Database || e == Challenges || e == Cycles ==>
          (MayRemove(user, TreeOf(l), e) <==>
             Inside(ids, user) && (user.uid == Owner(ids, e) || user.uid == ids.rootUid)))
  }

  lemma TargetsSecure(ids: Identities, l: Layout)
    requires forall e: Entry :: e in l.entries && Sound(e, l.entries[e]) && AtTarget(ids, e, l.entries[e].meta)
    ensures Secured(ids, l)
  {
    hide AtTarget, Guards, MayWrite, MayRemove, Inside;
    var n := TreeOf(l);
    forall e: Entry, user
      ensures Guards(ids, e, l.entries[e].meta, user) && l.entries[e].meta.uid == Owner(ids, e)
    {
      TargetGuards(ids, e, l.entries[e].meta, user);
    }
    assert forall e: Entry :: Guards(ids, e, l.entries[e].meta, User(0, {}));
    forall user
      ensures && (MayWrite(user, n, Runtime) <==> user.uid == ids.supervisorUid)
              && (MayWrite(user, n, Research) <==> user.uid == ids.supervisorUid)
              && (MayWrite(user, n, Handoff) <==> Inside(ids, user))
              && (MayWrite(user, n, Database) <==> Inside(ids, user))
              && (MayWrite(user, n, Challenges) <==> Inside(ids, user) && user.uid == ids.supervisorUid)
              && (MayWrite(user, n, Cycles) <==> Inside(ids, user) && user.uid == ids.dispatcherUid)
    {
      WritersAre(ids, n, user);
    }
    forall e: Entry, user | e == Database || e == Challenges || e == Cycles
      ensures MayRemove(user, n, e) <==>
              Inside(ids, user) && (user.uid == Owner(ids, e) || user.uid == ids.rootUid)
    {
      RemoversAre(ids, n, user, e);
    }
  }

  /** Root and the supervisor's group read the receipt, nobody writes it, and only root can put
      another in its place. */
  ghost predicate ReceiptGuarded(ids: Identities, l: Layout) {
    && l.receipt.Some? && l.receipt.value.links == 1 && l.parent.directory
    && forall user: User ::
         var receipt, parent := FileMetadata(l.receipt.value), l.parent.meta;
         var reader := user.uid == ids.rootUid || ids.supervisorGid in user.groups;
         && (Allowed(user, receipt, ToRead) <==> reader)
         && !Allowed(user, receipt, ToWrite) && !Allowed(user, receipt, ToSearch)
         && (Allowed(user, parent, ToRead) <==> reader) && (Allowed(user, parent, ToSearch) <==> reader)
         && (Allowed(user, parent, ToWrite) <==> user.uid == ids.rootUid)
  }

  /** Verify-only accepts no layout but a secured one with a guarded receipt. */
  lemma VerifiedIsSecured(ids: Identities, l: Layout)
    requires VerifyOnly(ids, l)
    ensures Secured(ids, l) && ReceiptGuarded(ids, l)
  {
    hide AtTarget, Secured, Parse, Metas;
    TargetsSecure(ids, l);
  }

  /** The entries that existed are still the same files. */
  ghost predicate KeepsFiles(l: Layout, m: Layout) {
    forall e :: e in l.entries ==>
      && e in m.entries && m.entries[e].meta.device == l.entries[e].meta.device
      && m.entries[e].meta.inode == l.entries[e].meta.inode
  }

  /** A completed run secures the layout. */
  lemma RunSecures(c: Context, counts: seq<nat>, l: Layout)
    requires ValidContext(c) && WellFormed(l) && Ready(c, l)
    ensures var r := Run(c, counts, l);
            && r.Ok? && r.state.layout.bytes == l.bytes && KeepsFiles(l, r.state.layout)
            && Secured(c.ids, r.state.layout) && ReceiptGuarded(c.ids, r.state.layout)
  {
    hide Run, FinalEntries, DatabaseHash, Text, AtTarget, ValidReceipt, Secured, ReceiptGuarded, VerifyOnly, Populated;
    RunCompletesIff(c, counts, l);
    VerifyAfterRun(c, l);
    VerifiedIsSecured(c.ids, Outcome(c, l));
    FinalKeepsFiles(c, l);
  }

  lemma FinalKeepsFiles(c: Context, l: Layout)
    requires Safe(c.ids, l)
    ensures forall e :: e in l.entries ==>
      FinalEntries(c, l)[e].meta.device == l.entries[e].meta.device
      && FinalEntries(c, l)[e].meta.inode == l.entries[e].meta.inode
  {
    hide FinalEntries, Safe, Populated;
    forall e | e in l.entries
      ensures e in Populated(c, l) && Populated(c, l)[e] == l.entries[e]
    {
      PopulatedKeeps(c, l, e);
    }
  }

  /** So does one after any interrupted runs. */
  lemma RestartSecures(ids: Identities, attempts: seq<Attempt>, d: Context, again: seq<nat>, l: Layout)
    requires AreAttempts(ids, attempts) && ValidContext(d) && d.ids == ids && WellFormed(l) && Safe(ids, l)
    ensures var r := Run(d, again, AfterAttempts(ids, attempts, l));
            r.Ok? ==>
              && r.state.layout.bytes == l.bytes && KeepsFiles(l, r.state.layout)
              && Secured(ids, r.state.layout) && ReceiptGuarded(ids, r.state.layout)
  {
    hide Run, FinalEntries, AtTarget, AfterAttempts, Secured, ReceiptGuarded, Safe, VerifyOnly;
    RestartAfterAttempts(ids, attempts, d, again, l);
    var r := Run(d, again, AfterAttempts(ids, attempts, l));
    if r.Ok? {
      VerifiedIsSecured(ids, r.state.layout);
      FinalKeepsFiles(d, l);
    }
  }

  // ----- Owners on the way.

  /** The tree before any run: the supervisor's, without the two directories. */
  ghost predicate Untouched(ids: Identities, l: Layout) {
    && l.entries.Keys == {Runtime, Research, Handoff, Database}
    && (forall e :: e in l.entries ==>
          l.entries[e].meta.uid == ids.supervisorUid && (l.entries[e].directory <==> e != Database))
    && l.entries[Database].links == 1
  }

  /** The owners a run may start from are exactly those that stopping a first run can leave. */
  lemma AllowedOwnersAreLeft(c: Context, counts: seq<nat>, l: Layout, e: Entry, uid: nat)
    requires ValidContext(c) && WellFormed(l) && Untouched(c.ids, l) && ParentReady(c.ids, l.parent)
    ensures OwnerAllowed(c.ids, e, uid) <==>
      exists k | 0 <= k <= |Program(counts)| ::
        e in Stopped(c, counts, l, k).entries && Stopped(c, counts, l, k).entries[e].meta.uid == uid
  {
    UntouchedIsSafe(c.ids, l);
    hide Safe, Stopped, Program, WellFormed, ValidContext;
    forall k | 0 <= k <= |Program(counts)|
      ensures var n := Stopped(c, counts, l, k).entries;
              e in n ==> OwnerAllowed(c.ids, e, n[e].meta.uid)
    {
      StoppedIsSafe(c, counts, l, k);
      SafeOwner(c.ids, Stopped(c, counts, l, k), e);
    }
    if OwnerAllowed(c.ids, e, uid) {
      var i, j := StoppedOwners(c, counts, l, e);
    }
  }

  lemma UntouchedIsSafe(ids: Identities, l: Layout)
    requires Untouched(ids, l) && ParentReady(ids, l.parent)
    ensures Safe(ids, l)
  {
  }

  lemma SafeOwner(ids: Identities, l: Layout, e: Entry)
    requires Safe(ids, l)
    ensures e in l.entries ==> OwnerAllowed(ids, e, l.entries[e].meta.uid)
  {
  }

  /** After opening, an entry has its first owner; after convergence, its last. */
  lemma StoppedOwners(c: Context, counts: seq<nat>, l: Layout, e: Entry) returns (i: nat, j: nat)
    requires ValidContext(c) && WellFormed(l) && Safe(c.ids, l) && Untouched(c.ids, l)
    ensures i <= |Program(counts)| && j <= |Program(counts)|
    ensures var n := Stopped(c, counts, l, i).entries;
            e in n && n[e].meta.uid == if e == Challenges || e == Cycles then c.ids.rootUid else c.ids.supervisorUid
    ensures var n := Stopped(c, counts, l, j).entries;
            e in n && n[e].meta.uid == TargetUid(c.ids, e)
  {
    hide Step, Exec, Converge, All, Populated, Settled, Safe, DatabaseHash, Untouched, Program;
    hide Provisioning.Opening;
    var opening, converge := Provisioning.Opening(), Converge(All());
    i, j := |opening|, |opening + converge|;
    StopsAfter(counts, opening, converge);
    assert ParentReady(c.ids, l.parent) by { SafeParent(c.ids, l); }
    OpeningRuns(c, l);
    var s := Exec(c, opening, Start(l)).state;
    ExecAppend(c, opening, converge, Start(l));
    PopulatedIsSound(c, l);
    ConvergeRuns(c, All(), s);
    AllEntries(e);
    SettledEverywhere(c.ids, Populated(c, l), All(), e);
    FirstAndLastOwner(c, l, e);
  }

  lemma SafeParent(ids: Identities, l: Layout)
    requires Safe(ids, l)
    ensures ParentReady(ids, l.parent)
  {
  }

  lemma PopulatedIsSound(c: Context, l: Layout)
    requires Safe(c.ids, l)
    ensures forall e: Entry :: e in Populated(c, l) && Sound(e, Populated(c, l)[e])
  {
    forall e: Entry
      ensures e in Populated(c, l) && Sound(e, Populated(c, l)[e])
    {
      assert e in l.entries || e == Challenges || e == Cycles by {
        match e case Runtime => case Research => case Handoff => case Database => case Challenges => case Cycles =>
      }
    }
  }

  lemma FirstAndLastOwner(c: Context, l: Layout, e: Entry)
    requires Untouched(c.ids, l)
    ensures var n := Populated(c, l);
            && e in n && Settled(c.ids, e, n[e]).meta.uid == TargetUid(c.ids, e)
            && n[e].meta.uid == if e == Challenges || e == Cycles then c.ids.rootUid else c.ids.supervisorUid
  {
  }

  lemma StopsAfter(counts: seq<nat>, opening: seq<Op>, converge: seq<Op>)
    requires opening == Provisioning.Opening() && converge == Converge(All())
    ensures var p := Program(counts);
            && |opening + converge| <= |p| && p[..|opening|] == opening
            && p[..|opening + converge|] == opening + converge
  {
    hide Provisioning.Opening, Converge, All, Rechecks, Publishing;
  }

  // ----- The receipt.

  /** The receipt describes the six entries, each under its own name. */
  ghost predicate DescribesAll(text: string, n: map<Entry, Node>)
    requires forall e: Entry :: e in n
  {
    hide Json.Field, Json.Load, Describes;
    var entries := Json.Field(Json.Load(text), "entries");
    && Describes(Json.Field(entries, "runtimeRoot"), n[Runtime].meta)
    && Describes(Json.Field(entries, "autonomousResearchRoot"), n[Research].meta)
    && Describes(Json.Field(entries, "handoffRoot"), n[Handoff].meta)
    && Describes(Json.Field(entries, "database"), n[Database].meta)
    && Describes(Json.Field(entries, "dispatcherChallenges"), n[Challenges].meta)
    && Describes(Json.Field(entries, "dispatcherCycles"), n[Cycles].meta)
  }

  lemma ReceiptDescribes(hash: string, n: map<Entry, Node>)
    requires (forall e: Entry :: e in n) && ValidReceipt(Receipt(hash, Metas(n)))
    ensures var text := Text(Receipt(hash, Metas(n)));
            DescribesAll(text, n) && Reports(Json.Load(text), hash)
  {
    hide Json.Field, Json.Load, Describes, Reports, Text, ValidReceipt;
    ReceiptReads(Receipt(hash, Metas(n)));
    var m := Metas(n);
    assert m[0] == n[Runtime].meta && m[1] == n[Research].meta && m[2] == n[Handoff].meta;
    assert m[3] == n[Database].meta && m[4] == n[Challenges].meta && m[5] == n[Cycles].meta;
  }

  /** A reader of a completed run's receipt finds the metadata the six entries then have, and the
      SHA-256 of the database's bytes. */
  lemma RunReceiptReads(c: Context, counts: seq<nat>, l: Layout)
    requires ValidContext(c) && WellFormed(l) && Ready(c, l)
    ensures var m := Run(c, counts, l).state.layout;
            && (forall e: Entry :: e in m.entries) && m.receipt.Some? && m.bytes == l.bytes
            && DescribesAll(m.receipt.value.text, m.entries)
            && Reports(Json.Load(m.receipt.value.text), Sha256.Hex(Sha256Spec.Sha256(l.bytes)))
  {
    hide Run, FinalEntries, Text, AtTarget, ValidReceipt, Metas, DescribesAll, Reports, Json.Load;
    hide Sha256.Hex, Sha256Spec.Sha256;
    RunCompletesIff(c, counts, l);
    FinalIsValid(c, l);
    ReceiptDescribes(DatabaseHash(l.bytes), FinalEntries(c, l));
  }

  /** Verify-only accepts only receipts that describe the entries as they are. */
  lemma VerifiedReceiptReads(ids: Identities, l: Layout)
    requires VerifyOnly(ids, l)
    ensures l.receipt.Some? && DescribesAll(l.receipt.value.text, l.entries)
    ensures exists hash :: ValidHash(hash) && Reports(Json.Load(l.receipt.value.text), hash)
  {
    hide Text, Metas, DescribesAll, Reports, Json.Load, Parse, AtTarget, ValidHash;
    VerifyOnlyIff(ids, l);
    var hash :| ValidReceipt(Receipt(hash, Metas(l.entries)))
                && l.receipt.value == ReceiptFile(ids, Text(Receipt(hash, Metas(l.entries))));
    ReceiptDescribes(hash, l.entries);
    assert ValidHash(hash) && Reports(Json.Load(l.receipt.value.text), hash);
  }
}
