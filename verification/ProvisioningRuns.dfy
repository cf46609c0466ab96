/**
  Whole provisioning runs: exactly when one completes, what it leaves, stopping anywhere and
  starting again, and the agreement with verify-only runs.
 */
module ProvisioningRuns {
  import opened ReceiptFormat
  import opened ReceiptRoundTrip
  import opened Options
  import opened Provisioning
  import opened ProvisioningTheorems

  // ----- What a completed run leaves.

  ghost function FinalEntries(c: Context, l: Layout): (n: map<Entry, Node>)
    requires Safe(c.ids, l)
    ensures forall e: Entry :: e in n
    ensures forall e: Entry :: e in Populated(c, l) && n[e] == Settled(c.ids, e, Populated(c, l)[e])
  {
    AllHandles(c, l);
    assert forall e: Entry :: e in Populated(c, l);
    assert forall e: Entry ::
        e in SettledMap(c.ids, Populated(c, l), All())
        && SettledMap(c.ids, Populated(c, l), All())[e] == Settled(c.ids, e, Populated(c, l)[e]) by {
      forall e: Entry
        ensures e in SettledMap(c.ids, Populated(c, l), All())
                && SettledMap(c.ids, Populated(c, l), All())[e] == Settled(c.ids, e, Populated(c, l)[e])
      {
        AllEntries(e);
        SettledEverywhere(c.ids, Populated(c, l), All(), e);
      }
    }
    SettledMap(c.ids, Populated(c, l), All())
  }

  lemma AllEntries(e: Entry)
    ensures e in All()
  {
    var all := All();
    assert all[0] == Runtime && all[1] == Research && all[2] == Handoff;
    assert all[3] == Database && all[4] == Challenges && all[5] == Cycles;
  }

  ghost function FinalText(c: Context, l: Layout): string
    requires Safe(c.ids, l) && Modes(Metas(FinalEntries(c, l)))
  {
    hide Text, DatabaseHash;
    Text(Receipt(DatabaseHash(l.bytes), Metas(FinalEntries(c, l))))
  }

  lemma FinalIsValid(c: Context, l: Layout)
    requires ValidContext(c) && WellFormed(l) && Safe(c.ids, l)
    ensures var n := FinalEntries(c, l);
            && ValidReceipt(Receipt(DatabaseHash(l.bytes), Metas(n)))
            && forall e: Entry :: Sound(e, n[e]) && AtTarget(c.ids, e, n[e].meta)
  {
    hide DatabaseHash;
    var n := FinalEntries(c, l);
    forall e: Entry ensures ValidMetadata(n[e].meta) && Sound(e, n[e]) {
      assert n[e] == Settled(c.ids, e, Populated(c, l)[e]);
    }
    var m := Metas(n);
    forall i | 0 <= i < ENTRY_COUNT ensures ValidMetadata(m[i]) {
      assert m[0] == n[Runtime].meta && m[1] == n[Research].meta && m[2] == n[Handoff].meta;
      assert m[3] == n[Database].meta && m[4] == n[Challenges].meta && m[5] == n[Cycles].meta;
    }
  }

  lemma ValidHasModes(r: Receipt)
    requires ValidReceipt(r)
    ensures Modes(r.entries)
  {
  }

  /** The layout after a completed run: six settled entries, the receipt of exactly those, the
      database and the leftover temporaries as before. */
  ghost function Outcome(c: Context, l: Layout): Layout
    requires ValidContext(c) && WellFormed(l) && Safe(c.ids, l)
  {
    FinalIsValid(c, l);
    ValidHasModes(Receipt(DatabaseHash(l.bytes), Metas(FinalEntries(c, l))));
    Layout(FinalEntries(c, l), l.bytes, l.parent, Some(ReceiptFile(c.ids, FinalText(c, l))), l.temporaries)
  }

  // ----- The middle of the program.

  /** From the opened tree to the finished temporary. */
  lemma MiddleRuns(c: Context, counts: seq<nat>, s: State, l: Layout)
    requires ValidContext(c) && WellFormed(l) && Safe(c.ids, l)
    requires s.layout == l.(entries := Populated(c, l)) && s.process.hashBefore == DatabaseHash(l.bytes)
    requires forall e: Entry ::
      e in Populated(c, l) && e in s.process.handles && s.process.handles[e] == Populated(c, l)[e]
    ensures Modes(Metas(FinalEntries(c, l)))
    ensures var r := Exec(c, Converge(All()) + ([HashAfter] + (Rechecks(All()) + Publishing(counts))), s);
            var a := FreeAttempt(l.temporaries, c.pid, 0);
            && (r.Ok? <==> a < ATTEMPTS)
            && (r.Ok? ==>
                  && r.state.layout == Layout(FinalEntries(c, l), l.bytes, l.parent, l.receipt,
                                              l.temporaries[(c.pid, a) := ReceiptFile(c.ids, FinalText(c, l))])
                  && r.state.process.attempt == a)
  {
    hide Step, Exec, DatabaseHash, Converge, Rechecks, Publishing, SettledMap, Text, Metas, All;
    hide ValidContext, Populated;
    var n := FinalEntries(c, l);
    FinalIsValid(c, l);
    ValidHasModes(Receipt(DatabaseHash(l.bytes), Metas(n)));
    var t3 := Rechecks(All()) + Publishing(counts);
    var t2 := [HashAfter] + t3;
    ExecAppend(c, Converge(All()), t2, s);
    ConvergeRuns(c, All(), s);
    var s1 := s.(layout := s.layout.(entries := n));
    assert Exec(c, Converge(All()), s) == Ok(s1);
    HashAfterRuns(c, t3, s1);
    var s2 := s1.(process := s1.process.(hashAfter := DatabaseHash(l.bytes)));
    ExecAppend(c, Rechecks(All()), Publishing(counts), s2);
    RechecksRun(c, All(), s2);
    PublishingRuns(c, counts, s2);
  }

  lemma HashAfterRuns(c: Context, rest: seq<Op>, s: State)
    requires s.process.hashBefore == DatabaseHash(s.layout.bytes)
    ensures Exec(c, [HashAfter] + rest, s)
         == Exec(c, rest, s.(process := s.process.(hashAfter := DatabaseHash(s.layout.bytes))))
  {
    hide DatabaseHash, Text, ReceiptVerifies, Metas, Exec;
    ExecCons(c, HashAfter, rest, s);
  }

  lemma RenameRuns(c: Context, s: State)
    requires Key(c, s.process) in s.layout.temporaries
    ensures var l := s.layout;
            var t := s.(layout := l.(receipt := Some(l.temporaries[Key(c, s.process)]),
                                     temporaries := l.temporaries - {Key(c, s.process)}));
            Exec(c, [Rename, VerifyReceipt], s)
            == if (forall e: Entry :: e in l.entries) && ReceiptVerifies(c.ids, t.layout) then Ok(t) else Fail(t)
  {
    hide DatabaseHash, ReceiptVerifies, Text, Metas, Exec;
    assert [Rename, VerifyReceipt] == [Rename] + [VerifyReceipt];
    ExecCons(c, Rename, [VerifyReceipt], s);
    ExecOne(c, VerifyReceipt, Step(c, Rename, s).state);
  }

  lemma OutcomeVerifies(c: Context, l: Layout)
    requires ValidContext(c) && WellFormed(l) && Safe(c.ids, l)
    ensures ReceiptVerifies(c.ids, Outcome(c, l))
  {
    hide DatabaseHash, Text, Parse, Metas, FinalEntries, ValidReceipt;
    FinalIsValid(c, l);
    var r := Receipt(DatabaseHash(l.bytes), Metas(FinalEntries(c, l)));
    ParseOfPrint(r);
    TextLength(r);
  }

  // ----- Completion.

  lemma ProgramSplits(counts: seq<nat>)
    ensures var middle := Converge(All()) + ([HashAfter] + (Rechecks(All()) + Publishing(counts)));
            && BeforeRename(counts) == Provisioning.Opening() + middle
            && Program(counts) == BeforeRename(counts) + [Rename, VerifyReceipt]
            && Program(counts) == BeforeRename(counts) + [Rename] + [VerifyReceipt]
  {
    hide Provisioning.Opening, Converge, Rechecks, Publishing, All;
    var o, a, h, r, p := Provisioning.Opening(), Converge(All()), [HashAfter], Rechecks(All()), Publishing(counts);
    assert o + a + h + r + p == o + (a + (h + (r + p)));
  }

  /** Up to the rename a run succeeds exactly from a ready layout; the receipt is still the old one. */
  lemma BeforeRenameRuns(c: Context, counts: seq<nat>, l: Layout)
    requires ValidContext(c) && WellFormed(l) && ParentReady(c.ids, l.parent)
    ensures Safe(c.ids, l) ==> Modes(Metas(FinalEntries(c, l)))
    ensures var r := Exec(c, BeforeRename(counts), Start(l));
            var a := FreeAttempt(l.temporaries, c.pid, 0);
            && (r.Ok? <==> Ready(c, l))
            && (r.Ok? ==>
                  && r.state.layout == Layout(FinalEntries(c, l), l.bytes, l.parent, l.receipt,
                                              l.temporaries[(c.pid, a) := ReceiptFile(c.ids, FinalText(c, l))])
                  && r.state.process.attempt == a)
  {
    hide Step, Exec, DatabaseHash, Converge, Rechecks, Publishing, Text, Metas, All, Safe;
    hide Populated, FinalEntries, BeforeRename;
    hide Provisioning.Opening;
    var middle := Converge(All()) + ([HashAfter] + (Rechecks(All()) + Publishing(counts)));
    ProgramSplits(counts);
    ExecAppend(c, Provisioning.Opening(), middle, Start(l));
    OpeningRuns(c, l);
    if Safe(c.ids, l) {
      MiddleRuns(c, counts, Exec(c, Provisioning.Opening(), Start(l)).state, l);
    }
  }

  /** A run completes exactly from a ready layout, whatever the write calls do, and its outcome is
      determined. */
  lemma RunCompletesIff(c: Context, counts: seq<nat>, l: Layout)
    requires ValidContext(c) && WellFormed(l)
    ensures Run(c, counts, l).Ok? <==> Ready(c, l)
    ensures Ready(c, l) ==> Run(c, counts, l).state.layout == Outcome(c, l)
  {
    hide Step, Exec, DatabaseHash, Text, Metas, FinalEntries, BeforeRename, ReceiptVerifies, Program;
    ProgramSplits(counts);
    if ParentReady(c.ids, l.parent) {
      BeforeRenameRuns(c, counts, l);
      ExecAppend(c, BeforeRename(counts), [Rename, VerifyReceipt], Start(l));
      if Ready(c, l) {
        var s := Exec(c, BeforeRename(counts), Start(l)).state;
        var a := FreeAttempt(l.temporaries, c.pid, 0);
        assert s.layout.temporaries - {(c.pid, a)} == l.temporaries;
        RenameRuns(c, s);
        OutcomeVerifies(c, l);
      }
    } else {
      ExecAppend(c, BeforeRename(counts) + [Rename], [VerifyReceipt], Start(l));
      var r := Exec(c, BeforeRename(counts) + [Rename], Start(l));
      ExecOne(c, VerifyReceipt, r.state);
      VerifyNeedsParent(c, r.state);
    }
  }

  lemma VerifyNeedsParent(c: Context, s: State)
    requires !ParentReady(c.ids, s.layout.parent)
    ensures Step(c, VerifyReceipt, s).Fail?
  {
    hide DatabaseHash, Text, Parse, Metas;
  }

  // ----- Verify-only and repeated runs.

  /** After a completed run, verify-only accepts. */
  lemma VerifyAfterRun(c: Context, l: Layout)
    requires ValidContext(c) && WellFormed(l) && Safe(c.ids, l)
    ensures VerifyOnly(c.ids, Outcome(c, l))
  {
    hide FinalEntries, DatabaseHash, Text, ReceiptVerifies, ValidReceipt;
    FinalIsValid(c, l);
    OutcomeVerifies(c, l);
  }

  /** Provisioning again, by any process with the same identities, changes nothing at all. */
  lemma RunAgainChangesNothing(c: Context, d: Context, counts: seq<nat>, l: Layout)
    requires ValidContext(c) && ValidContext(d) && c.ids == d.ids && WellFormed(l) && Ready(c, l) && Ready(d, l)
    ensures var m := Run(c, counts, l).state.layout;
            WellFormed(m) && Run(d, counts, m) == Ok(Run(d, counts, m).state) && Run(d, counts, m).state.layout == m
  {
    hide Step, Exec, DatabaseHash, Text, FinalEntries, Program, ValidReceipt;
    RunCompletesIff(c, counts, l);
    var m := Outcome(c, l);
    OutcomeIsReady(c, d, l);
    RunCompletesIff(d, counts, m);
    FinalEntriesStable(c, d, l);
  }

  lemma OutcomeIsReady(c: Context, d: Context, l: Layout)
    requires ValidContext(c) && c.ids == d.ids && WellFormed(l) && Ready(c, l) && Ready(d, l)
    ensures WellFormed(Outcome(c, l)) && Ready(d, Outcome(c, l))
  {
    hide FinalEntries, DatabaseHash, Text;
    FinalIsValid(c, l);
    var n := FinalEntries(c, l);
    assert Metas(n)[0] == n[Runtime].meta && Metas(n)[1] == n[Research].meta && Metas(n)[2] == n[Handoff].meta;
    assert Metas(n)[3] == n[Database].meta && Metas(n)[4] == n[Challenges].meta && Metas(n)[5] == n[Cycles].meta;
    forall e: Entry ensures ValidMetadata(n[e].meta) && OwnerAllowed(d.ids, e, n[e].meta.uid) {
      match e case Runtime => case Research => case Handoff => case Database => case Challenges => case Cycles =>
    }
  }

  lemma FinalEntriesStable(c: Context, d: Context, l: Layout)
    requires ValidContext(c) && c.ids == d.ids && WellFormed(l) && Ready(c, l) && Ready(d, Outcome(c, l))
    ensures FinalEntries(d, Outcome(c, l)) == FinalEntries(c, l)
  {
    hide DatabaseHash, Text;
    var m := Outcome(c, l);
    assert Populated(d, m) == m.entries;
    forall e: Entry ensures FinalEntries(d, m)[e] == FinalEntries(c, l)[e] {
      assert FinalEntries(c, l)[e] == Settled(c.ids, e, Populated(c, l)[e]);
      assert FinalEntries(d, m)[e] == Settled(d.ids, e, m.entries[e]);
    }
    assert FinalEntries(d, m).Keys == FinalEntries(c, l).Keys;
  }

  /** Verify-only accepts exactly the layouts whose six entries are at target and whose receipt is
      the print of their metadata with some hash; the database's bytes play no part. */
  lemma VerifyOnlyIff(ids: Identities, l: Layout)
    ensures VerifyOnly(ids, l) <==>
      && (forall e: Entry :: e in l.entries && Sound(e, l.entries[e]) && AtTarget(ids, e, l.entries[e].meta))
      && ParentReady(ids, l.parent)
      && l.receipt.Some?
      && exists hash :: ValidReceipt(Receipt(hash, Metas(l.entries)))
                        && l.receipt.value == ReceiptFile(ids, Text(Receipt(hash, Metas(l.entries))))
  {
    hide Parse, Text, Metas, ValidHash, Sound, AtTarget;
    if VerifyOnly(ids, l) {
      var f := l.receipt.value;
      PrintOfParse(f.text);
      var r := Parse(f.text).value;
      assert r == Receipt(r.hash, Metas(l.entries));
      assert f == ReceiptFile(ids, Text(Receipt(r.hash, Metas(l.entries))));
    }
    if (forall e: Entry :: e in l.entries) && l.receipt.Some? {
      forall hash | ValidReceipt(Receipt(hash, Metas(l.entries)))
                    && l.receipt.value == ReceiptFile(ids, Text(Receipt(hash, Metas(l.entries))))
        ensures 1 <= |l.receipt.value.text| < 8192
        ensures Parse(l.receipt.value.text) == Accepted(Receipt(hash, Metas(l.entries)), "")
      {
        ParseOfPrint(Receipt(hash, Metas(l.entries)));
        TextLength(Receipt(hash, Metas(l.entries)));
      }
    }
  }

  // ----- Stopping anywhere.

  /** Wherever a run stops, the preconditions of the next hold, the entries that existed keep their
      identity, and only this process's temporary names changed. */
  lemma StoppedIsSafe(c: Context, counts: seq<nat>, l: Layout, k: nat)
    requires ValidContext(c) && WellFormed(l) && Safe(c.ids, l) && k <= |Program(counts)|
    ensures var m := Stopped(c, counts, l, k);
            && WellFormed(m) && Safe(c.ids, m) && m.bytes == l.bytes && m.parent == l.parent
            && (forall e :: e in l.entries ==> e in m.entries && SameIdentity(l.entries[e], m.entries[e]))
            && (forall key: (nat, nat) :: key.0 != c.pid ==> SameFile(l.temporaries, m.temporaries, key))
  {
    hide Step, Exec, Program, Safe;
    ExecKeepsSafe(c, Program(counts)[..k], Start(l));
    ExecKeepsOthers(c, Program(counts)[..k], Start(l));
  }

  ghost predicate SameFile(a: map<(nat, nat), File>, b: map<(nat, nat), File>, key: (nat, nat)) {
    (key in a <==> key in b) && (key in a ==> a[key] == b[key])
  }

  lemma StepKeepsOthers(c: Context, op: Op, s: State)
    ensures forall key: (nat, nat) :: key.0 != c.pid ==>
              SameFile(s.layout.temporaries, Step(c, op, s).state.layout.temporaries, key)
  {
    hide DatabaseHash, Text, ReceiptVerifies, Metas;
  }

  lemma {:induction false} ExecKeepsOthers(c: Context, ops: seq<Op>, s: State)
    ensures forall key: (nat, nat) :: key.0 != c.pid ==>
              SameFile(s.layout.temporaries, Exec(c, ops, s).state.layout.temporaries, key)
  {
    hide Step;
    if |ops| > 0 {
      StepKeepsOthers(c, ops[0], s);
      StepKeepsBytes(c, ops[0], s);
      var r := Step(c, ops[0], s);
      if r.Ok? {
        ExecKeepsOthers(c, ops[1..], r.state);
      }
    }
  }

  lemma {:induction false} SameFreeAttempt(a: map<(nat, nat), File>, b: map<(nat, nat), File>, pid: nat, from: nat)
    requires from <= ATTEMPTS && forall i: nat :: (pid, i) in a <==> (pid, i) in b
    ensures FreeAttempt(a, pid, from) == FreeAttempt(b, pid, from)
    decreases ATTEMPTS - from
  {
    if from < ATTEMPTS && (pid, from) in a {
      SameFreeAttempt(a, b, pid, from + 1);
    }
  }

  /** Restart: after a stop at any step, a fresh run completes exactly when it finds a free temporary
      name, and a new process id that had one still has it. */
  lemma RestartCompletesIff(c: Context, d: Context, counts: seq<nat>, again: seq<nat>, l: Layout, k: nat)
    requires ValidContext(c) && ValidContext(d) && c.ids == d.ids
    requires WellFormed(l) && Safe(c.ids, l) && k <= |Program(counts)|
    ensures var m := Stopped(c, counts, l, k);
            && WellFormed(m) && Safe(d.ids, m)
            && (Run(d, again, m).Ok? <==> FreeAttempt(m.temporaries, d.pid, 0) < ATTEMPTS)
            && (d.pid != c.pid && Ready(d, l) ==> Run(d, again, m).Ok?)
  {
    hide Step, Exec, Program, Safe, Run, Stopped, Outcome;
    var m := Stopped(c, counts, l, k);
    StoppedIsSafe(c, counts, l, k);
    RunCompletesIff(d, again, m);
    if d.pid != c.pid {
      OthersKeepFreeAttempt(c.pid, d.pid, l.temporaries, m.temporaries);
    }
  }

  /** The fresh run reaches the very nodes the uninterrupted run would have; only a directory made
      before the stop keeps the inode it got then.  Verify-only accepts what it leaves. */
  lemma RestartReachesTarget(c: Context, d: Context, counts: seq<nat>, again: seq<nat>, l: Layout, k: nat)
    requires ValidContext(c) && ValidContext(d) && c.ids == d.ids
    requires WellFormed(l) && Safe(c.ids, l) && k <= |Program(counts)|
    requires FreeAttempt(Stopped(c, counts, l, k).temporaries, d.pid, 0) < ATTEMPTS
    ensures Stopped(c, counts, l, k).bytes == l.bytes
    ensures var n := Run(d, again, Stopped(c, counts, l, k)).state.layout;
            && n.bytes == l.bytes && VerifyOnly(d.ids, n)
            && (forall e: Entry :: e in n.entries && AtTarget(c.ids, e, n.entries[e].meta))
            && (forall e :: e in l.entries ==> n.entries[e] == FinalEntries(c, l)[e])
  {
    hide Step, Exec, Program, Safe, FinalEntries, Run, Text, DatabaseHash, AtTarget, Stopped, ReceiptVerifies;
    var m := Stopped(c, counts, l, k);
    StoppedIsSafe(c, counts, l, k);
    RunCompletesIff(d, again, m);
    VerifyAfterRun(d, m);
    forall e | e in l.entries ensures FinalEntries(d, m)[e] == FinalEntries(c, l)[e] {
      SameFinalNode(c, d, l, m, e);
    }
  }

  lemma OthersKeepFreeAttempt(pid: nat, other: nat, a: map<(nat, nat), File>, b: map<(nat, nat), File>)
    requires pid != other
    requires forall key: (nat, nat) :: key.0 != pid ==> SameFile(a, b, key)
    ensures FreeAttempt(b, other, 0) == FreeAttempt(a, other, 0)
  {
    forall i: nat ensures (other, i) in b <==> (other, i) in a {
      assert SameFile(a, b, (other, i));
    }
    SameFreeAttempt(b, a, other, 0);
  }

  lemma SameFinalNode(c: Context, d: Context, l: Layout, m: Layout, e: Entry)
    requires c.ids == d.ids && Safe(c.ids, l) && Safe(d.ids, m)
    requires e in l.entries && e in m.entries && SameIdentity(l.entries[e], m.entries[e])
    ensures FinalEntries(d, m)[e] == FinalEntries(c, l)[e]
  {
    hide Safe, FinalEntries, SameIdentity, Settled, Populated;
    PopulatedKeeps(d, m, e);
    PopulatedKeeps(c, l, e);
    SettledByIdentity(c.ids, e, l.entries[e], m.entries[e]);
  }

  lemma PopulatedKeeps(c: Context, l: Layout, e: Entry)
    requires e in l.entries
    ensures e in Populated(c, l) && Populated(c, l)[e] == l.entries[e]
  {
  }

  lemma SettledByIdentity(ids: Identities, e: Entry, a: Node, b: Node)
    requires SameIdentity(a, b)
    ensures Settled(ids, e, a) == Settled(ids, e, b)
  {
  }

  // ----- Any number of interrupted runs.

  /** A run of some process that stopped after k steps. */
  datatype Attempt = Attempt(c: Context, counts: seq<nat>, k: nat)

  ghost predicate IsAttempt(ids: Identities, a: Attempt) {
    ValidContext(a.c) && a.c.ids == ids && a.k <= |Program(a.counts)|
  }

  ghost predicate AreAttempts(ids: Identities, attempts: seq<Attempt>) {
    forall i :: 0 <= i < |attempts| ==> IsAttempt(ids, attempts[i])
  }

  /** The layout after the attempts, one after the other. */
  ghost function AfterAttempts(ids: Identities, attempts: seq<Attempt>, l: Layout): Layout
    requires AreAttempts(ids, attempts)
  {
    if |attempts| == 0 then l
    else
      var last := attempts[|attempts| - 1];
      assert IsAttempt(ids, last);
      Stopped(last.c, last.counts, AfterAttempts(ids, attempts[..|attempts| - 1], l), last.k)
  }

  ghost predicate SameIdentities(l: Layout, m: Layout) {
    forall e :: e in l.entries ==> e in m.entries && SameIdentity(l.entries[e], m.entries[e])
  }

  /** However many runs stopped, and wherever: the preconditions hold, the database is unchanged,
      entries keep their identity, and so do the temporaries of processes that did not run. */
  lemma {:induction false} AttemptsAreSafe(ids: Identities, attempts: seq<Attempt>, l: Layout)
    requires AreAttempts(ids, attempts) && WellFormed(l) && Safe(ids, l)
    ensures var m := AfterAttempts(ids, attempts, l);
            && WellFormed(m) && Safe(ids, m) && m.bytes == l.bytes && m.parent == l.parent && SameIdentities(l, m)
            && forall key: (nat, nat) :: (forall i :: 0 <= i < |attempts| ==> attempts[i].c.pid != key.0) ==>
                 SameFile(l.temporaries, m.temporaries, key)
  {
    hide Stopped, Safe, WellFormed, ValidContext, Program;
    if |attempts| > 0 {
      var last, init := attempts[|attempts| - 1], attempts[..|attempts| - 1];
      assert IsAttempt(ids, last);
      AttemptsAreSafe(ids, init, l);
      var u := AfterAttempts(ids, init, l);
      StoppedIsSafe(last.c, last.counts, u, last.k);
      var m := AfterAttempts(ids, attempts, l);
      forall key: (nat, nat) | forall i :: 0 <= i < |attempts| ==> attempts[i].c.pid != key.0
        ensures SameFile(l.temporaries, m.temporaries, key)
      {
        assert forall i :: 0 <= i < |init| ==> init[i] == attempts[i];
        assert SameFile(l.temporaries, u.temporaries, key) && SameFile(u.temporaries, m.temporaries, key);
      }
    }
  }

  /** After any list of interrupted runs a fresh one completes exactly when it finds a free temporary
      name, as a process that had one and did not run still does; it reaches the nodes that an
      uninterrupted run would have given the entries, and verify-only accepts. */
  lemma RestartAfterAttempts(ids: Identities, attempts: seq<Attempt>, d: Context, again: seq<nat>, l: Layout)
    requires AreAttempts(ids, attempts) && ValidContext(d) && d.ids == ids && WellFormed(l) && Safe(ids, l)
    ensures var m := AfterAttempts(ids, attempts, l);
            var r := Run(d, again, m);
            && (r.Ok? <==> FreeAttempt(m.temporaries, d.pid, 0) < ATTEMPTS)
            && ((forall i :: 0 <= i < |attempts| ==> attempts[i].c.pid != d.pid) && Ready(d, l) ==> r.Ok?)
            && (r.Ok? ==>
                  && r.state.layout.bytes == l.bytes && VerifyOnly(ids, r.state.layout)
                  && (forall e: Entry ::
                        e in r.state.layout.entries && AtTarget(ids, e, r.state.layout.entries[e].meta))
                  && (forall e :: e in l.entries ==> r.state.layout.entries[e] == FinalEntries(d, l)[e]))
  {
    hide Step, Exec, Program, Safe, FinalEntries, Run, Text, DatabaseHash, AtTarget, Stopped;
    hide ReceiptVerifies, AfterAttempts;
    var m := AfterAttempts(ids, attempts, l);
    AttemptsAreSafe(ids, attempts, l);
    RunCompletesIff(d, again, m);
    VerifyAfterRun(d, m);
    if forall i :: 0 <= i < |attempts| ==> attempts[i].c.pid != d.pid {
      forall i: nat ensures (d.pid, i) in l.temporaries <==> (d.pid, i) in m.temporaries {
        assert SameFile(l.temporaries, m.temporaries, (d.pid, i));
      }
      SameFreeAttempt(l.temporaries, m.temporaries, d.pid, 0);
    }
    forall e | e in l.entries ensures FinalEntries(d, m)[e] == FinalEntries(d, l)[e] {
      SameFinalNode(d, d, l, m, e);
    }
  }

  // ----- The receipt is published whole.

  lemma StepKeepsReceipt(c: Context, op: Op, s: State)
    requires op != Rename
    ensures Step(c, op, s).state.layout.receipt == s.layout.receipt
  {
    hide DatabaseHash, Text, ReceiptVerifies, Metas;
  }

  lemma {:induction false} ExecKeepsReceipt(c: Context, ops: seq<Op>, s: State)
    requires Rename !in ops
    ensures Exec(c, ops, s).state.layout.receipt == s.layout.receipt
  {
    hide Step;
    if |ops| > 0 {
      StepKeepsReceipt(c, ops[0], s);
      StepKeepsBytes(c, ops[0], s);
      var r := Step(c, ops[0], s);
      if r.Ok? {
        ExecKeepsReceipt(c, ops[1..], r.state);
      }
    }
  }

  lemma {:induction false} NoRename(es: seq<Entry>)
    ensures Rename !in Converge(es) && Rename !in Rechecks(es)
  {
    if |es| > 0 {
      NoRename(es[1..]);
    }
  }

  lemma {:induction false} WritesDoNotRename(counts: seq<nat>)
    ensures Rename !in Writes(counts)
  {
    if |counts| > 0 {
      WritesDoNotRename(counts[1..]);
    }
  }

  lemma BeforeRenameHasNone(counts: seq<nat>)
    ensures Rename !in BeforeRename(counts)
  {
    NoRename(All());
    WritesDoNotRename(counts);
    hide Converge, Rechecks, Writes, All;
    assert Rename !in Publishing(counts);
    hide Publishing;
    assert Rename !in Provisioning.Opening();
    hide Provisioning.Opening;
    var o, a, h, r, p := Provisioning.Opening(), Converge(All()), [HashAfter], Rechecks(All()), Publishing(counts);
    assert Rename !in o + a;
    assert Rename !in o + a + h;
    assert Rename !in o + a + h + r;
  }

  /** At every stop the published receipt is the old one or the complete new one. */
  lemma ReceiptIsAtomic(c: Context, counts: seq<nat>, l: Layout, k: nat)
    requires ValidContext(c) && WellFormed(l) && Safe(c.ids, l) && k <= |Program(counts)|
    ensures var m := Stopped(c, counts, l, k);
            m.receipt == l.receipt || m.receipt == Outcome(c, l).receipt
  {
    hide Step, Exec, FinalEntries, DatabaseHash, Text, BeforeRename;
    var front := BeforeRename(counts);
    BeforeRenameHasNone(counts);
    BeforeRenameRuns(c, counts, l);
    if k <= |front| {
      assert Program(counts)[..k] == front[..k];
      ExecKeepsReceipt(c, front[..k], Start(l));
    } else {
      var rest := if k == |front| + 1 then [Rename] else [Rename, VerifyReceipt];
      assert Program(counts)[..k] == front + rest;
      ExecAppend(c, front, rest, Start(l));
      var r := Exec(c, front, Start(l));
      if r.Ok? {
        RenamePublishes(c, r.state, rest);
      } else {
        ExecKeepsReceipt(c, front, Start(l));
      }
    }
  }

  lemma RenamePublishes(c: Context, s: State, rest: seq<Op>)
    requires Key(c, s.process) in s.layout.temporaries
    requires rest == [Rename] || rest == [Rename, VerifyReceipt]
    ensures Exec(c, rest, s).state.layout.receipt == Some(s.layout.temporaries[Key(c, s.process)])
  {
    hide DatabaseHash, Text, ReceiptVerifies, Metas, Exec;
    if rest == [Rename] {
      ExecOne(c, Rename, s);
    } else {
      RenameRuns(c, s);
    }
  }
}
