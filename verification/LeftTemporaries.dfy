/**
  What an interrupted provisioning run leaves beside the receipt: at most one temporary, which
  nobody but root can write and nobody outside the receipt's readers can read.
 */
module LeftTemporaries {
  import opened ReceiptFormat
  import opened Provisioning
  import opened ProvisioningTheorems
  import opened ProvisioningRuns
  import opened Permissions

  type Temporaries = map<(nat, nat), File>

  function FileMetadata(f: File): Metadata {
    Metadata(0, 0, f.uid, f.gid, f.mode)
  }

  /** Only root writes the file, and only root and the supervisor's group may ever read it. */
  ghost predicate Private(ids: Identities, f: File) {
    && f.links == 1
    && forall user: User ::
         && (Allowed(user, FileMetadata(f), ToWrite) ==> user.uid == ids.rootUid)
         && (Allowed(user, FileMetadata(f), ToRead) ==> user.uid == ids.rootUid || ids.supervisorGid in user.groups)
         && !Allowed(user, FileMetadata(f), ToSearch)
  }

  /** The states the program takes its temporary through. */
  predicate Guarded(ids: Identities, f: File, owned: bool) {
    && f.links == 1 && f.uid == ids.rootUid
    && (f.mode == 384 || (f.mode == 288 && f.gid == ids.supervisorGid))
    && (owned ==> f.gid == ids.supervisorGid)
  }

  lemma GuardedIsPrivate(ids: Identities, f: File, owned: bool)
    requires Guarded(ids, f, owned)
    ensures Private(ids, f)
  {
  }

  /** The process's own temporary is new and guarded, and every other is as before. */
  ghost predicate Kept(c: Context, before: Temporaries, s: State, owned: bool) {
    var key, now := Key(c, s.process), s.layout.temporaries;
    && key !in before && (forall k :: k != key ==> SameFile(before, now, k))
    && (key in now ==> Guarded(c.ids, now[key], owned))
  }

  // ----- Once the temporary exists.

  /** Only calls on the temporary, and its mode is opened up after it has its group. */
  predicate Ordered(ops: seq<Op>, owned: bool) {
    ops == [] || (IsLate(ops[0], owned) && Ordered(ops[1..], owned || ops[0] == OwnTemporary))
  }

  predicate IsLate(op: Op, owned: bool) {
    match op
    case Write(_) => true
    case WriteRest => true
    case OwnTemporary => true
    case ModeTemporary => owned
    case CheckTemporary => true
    case Rename => true
    case VerifyReceipt => true
    case _ => false
  }

  lemma StepKeeps(c: Context, op: Op, s: State, before: Temporaries, owned: bool)
    requires Kept(c, before, s, owned) && IsLate(op, owned)
    ensures var r := Step(c, op, s);
            Kept(c, before, r.state, owned) && (r.Ok? && op == OwnTemporary ==> Kept(c, before, r.state, true))
  {
    hide DatabaseHash, Text, ReceiptVerifies, Metas;
    var key, now, later := Key(c, s.process), s.layout.temporaries, Step(c, op, s).state.layout.temporaries;
    forall k | k != key
      ensures SameFile(before, later, k)
    {
      assert SameFile(before, now, k);
    }
  }

  lemma {:induction false} ExecKeeps(c: Context, ops: seq<Op>, k: nat, s: State, before: Temporaries, owned: bool)
    requires Kept(c, before, s, owned) && Ordered(ops, owned) && k <= |ops|
    ensures Kept(c, before, Exec(c, ops[..k], s).state, owned)
  {
    hide Step, Kept, IsLate;
    if k > 0 {
      var op, rest := ops[0], ops[1..];
      assert ops[..k] == [op] + rest[..k - 1];
      ExecCons(c, op, rest[..k - 1], s);
      StepKeeps(c, op, s, before, owned);
      var r := Step(c, op, s);
      if r.Ok? {
        ExecKeeps(c, rest, k - 1, r.state, before, owned || op == OwnTemporary);
        ForgetOwned(c, before, Exec(c, ops[..k], s).state, owned || op == OwnTemporary);
      }
    } else {
      assert ops[..0] == [];
    }
  }

  lemma ForgetOwned(c: Context, before: Temporaries, s: State, owned: bool)
    requires Kept(c, before, s, owned)
    ensures Kept(c, before, s, false)
  {
  }

  lemma {:induction false} LateIsOrdered(counts: seq<nat>)
    ensures Ordered(Late(counts), false)
  {
    hide IsLate;
    if |counts| == 0 {
      var tail := Late(counts);
      assert tail == [WriteRest, OwnTemporary, ModeTemporary, CheckTemporary, Rename, VerifyReceipt];
      TailIsOrdered();
    } else {
      LateIsOrdered(counts[1..]);
      assert Late(counts)[0] == Write(counts[0]) && Late(counts)[1..] == Late(counts[1..]);
      assert IsLate(Write(counts[0]), false) by { LateWrite(counts[0]); }
    }
  }

  lemma LateWrite(count: nat)
    ensures IsLate(Write(count), false)
  {
  }

  lemma TailIsOrdered()
    ensures Ordered([WriteRest, OwnTemporary, ModeTemporary, CheckTemporary, Rename, VerifyReceipt], false)
  {
    var ops := [WriteRest, OwnTemporary, ModeTemporary, CheckTemporary, Rename, VerifyReceipt];
    assert ops[1..][1..] == ops[2..] && ops[2..][1..] == ops[3..] && ops[3..][1..] == ops[4..];
    assert ops[4..][1..] == ops[5..] && ops[5..][1..] == [];
    assert Ordered(ops[5..], true);
    assert Ordered(ops[4..], true);
    assert Ordered(ops[3..], true);
    assert Ordered(ops[2..], true);
    assert Ordered(ops[1..], false);
  }

  // ----- Before it exists.

  predicate IsEarly(op: Op) {
    match op
    case Open(_) => true
    case Ensure(_) => true
    case HashBefore => true
    case ChangeOwner(_) => true
    case ChangeMode(_) => true
    case Confirm(_) => true
    case HashAfter => true
    case Recheck(_) => true
    case _ => false
  }

  lemma {:induction false} EarlyKeeps(c: Context, ops: seq<Op>, s: State)
    requires forall op :: op in ops ==> IsEarly(op)
    ensures Exec(c, ops, s).state.layout.temporaries == s.layout.temporaries
  {
    hide Step, IsEarly;
    if |ops| > 0 {
      assert ops[0] in ops;
      EarlyStep(c, ops[0], s);
      assert ops == [ops[0]] + ops[1..];
      ExecCons(c, ops[0], ops[1..], s);
      if Step(c, ops[0], s).Ok? {
        EarlyKeeps(c, ops[1..], Step(c, ops[0], s).state);
      }
    }
  }

  lemma EarlyStep(c: Context, op: Op, s: State)
    requires IsEarly(op)
    ensures Step(c, op, s).state.layout.temporaries == s.layout.temporaries
  {
    hide DatabaseHash, Text, ReceiptVerifies, Metas;
  }

  lemma {:induction false} ConvergeIsEarly(es: seq<Entry>)
    ensures forall op :: op in Converge(es) || op in Rechecks(es) ==> IsEarly(op)
  {
    if |es| > 0 {
      ConvergeIsEarly(es[1..]);
    }
  }

  function Early(): seq<Op> {
    Provisioning.Opening() + Converge(All()) + [HashAfter] + Rechecks(All())
  }

  function Late(counts: seq<nat>): seq<Op> {
    Writes(counts) + [WriteRest, OwnTemporary, ModeTemporary, CheckTemporary, Rename, VerifyReceipt]
  }

  lemma EarlyIsEarly(op: Op)
    requires op in Early()
    ensures IsEarly(op)
  {
    ConvergeIsEarly(All());
    hide Converge, Rechecks, All;
  }

  lemma ProgramIs(counts: seq<nat>)
    ensures Program(counts) == Early() + [CreateTemporary] + Late(counts)
  {
    hide Early, Writes;
    var early, writes := Early(), Writes(counts);
    assert BeforeRename(counts) == early + Publishing(counts) by { BeforeRenameIs(counts); }
    hide BeforeRename;
    var end: seq<Op> := [WriteRest, OwnTemporary, ModeTemporary, CheckTemporary];
    assert end + [Rename, VerifyReceipt]
        == [WriteRest, OwnTemporary, ModeTemporary, CheckTemporary, Rename, VerifyReceipt];
    Regrouped(early, [CreateTemporary], writes, end, [Rename, VerifyReceipt]);
  }

  lemma BeforeRenameIs(counts: seq<nat>)
    ensures BeforeRename(counts) == Early() + Publishing(counts)
  {
    hide Provisioning.Opening, Converge, Rechecks, Publishing, All;
  }

  lemma Regrouped(a: seq<Op>, b: seq<Op>, c: seq<Op>, d: seq<Op>, e: seq<Op>)
    ensures a + (b + c + d) + e == a + b + (c + (d + e))
  {
  }

  // ----- Stopping anywhere.

  /** Temporaries that were there are the same files; at most one is new, named by this process, and
      it is private. */
  ghost predicate LeavesPrivate(c: Context, before: Temporaries, after: Temporaries) {
    && (forall key :: key in before ==> SameFile(before, after, key))
    && (forall key :: key in after && key !in before ==> key.0 == c.pid && Private(c.ids, after[key]))
    && (forall a, b :: a in after && a !in before && b in after && b !in before ==> a == b)
  }

  lemma KeptIsPrivate(c: Context, before: Temporaries, s: State)
    requires Kept(c, before, s, false)
    ensures LeavesPrivate(c, before, s.layout.temporaries)
  {
    hide Private, Guarded;
    var key, now := Key(c, s.process), s.layout.temporaries;
    if key in now {
      GuardedIsPrivate(c.ids, now[key], false);
    }
    forall k | k in now && k !in before
      ensures k == key
    {
      assert k != key ==> SameFile(before, now, k);
    }
  }

  lemma CreateKeeps(c: Context, s: State)
    ensures var r := Step(c, CreateTemporary, s);
            if r.Ok? then Kept(c, s.layout.temporaries, r.state, false) else r.state == s
  {
    hide DatabaseHash, Text, ReceiptVerifies, Metas;
  }

  /** Wherever a run stops. */
  lemma StoppedLeavesPrivate(c: Context, counts: seq<nat>, l: Layout, k: nat)
    requires k <= |Program(counts)|
    ensures LeavesPrivate(c, l.temporaries, Stopped(c, counts, l, k).temporaries)
  {
    hide Step, Exec, Program, Kept, LeavesPrivate, Ordered, Early, Late;
    ProgramIs(counts);
    var early, late := Early(), Late(counts);
    assert forall op :: op in early ==> IsEarly(op) by {
      forall op | op in early ensures IsEarly(op) { EarlyIsEarly(op); }
    }
    NothingLeft(c, l.temporaries);
    if k <= |early| {
      assert Program(counts)[..k] == early[..k];
      EarlyKeeps(c, early[..k], Start(l));
    } else {
      var j := k - |early| - 1;
      assert Program(counts)[..k] == early + ([CreateTemporary] + late[..j]);
      ExecAppend(c, early, [CreateTemporary] + late[..j], Start(l));
      EarlyKeeps(c, early, Start(l));
      var s := Exec(c, early, Start(l)).state;
      ExecCons(c, CreateTemporary, late[..j], s);
      CreateKeeps(c, s);
      if Exec(c, early, Start(l)).Ok? && Step(c, CreateTemporary, s).Ok? {
        LateIsOrdered(counts);
        ExecKeeps(c, late, j, Step(c, CreateTemporary, s).state, l.temporaries, false);
        KeptIsPrivate(c, l.temporaries, Exec(c, Program(counts)[..k], Start(l)).state);
      }
    }
  }

  lemma NothingLeft(c: Context, before: Temporaries)
    ensures LeavesPrivate(c, before, before)
  {
  }

  /** However many runs stopped, and wherever: what was there before them all is untouched, and what
      they left is private. */
  lemma {:induction false} AttemptsLeavePrivate(ids: Identities, attempts: seq<Attempt>, l: Layout)
    requires AreAttempts(ids, attempts)
    ensures var after := AfterAttempts(ids, attempts, l).temporaries;
            && (forall key :: key in l.temporaries ==> SameFile(l.temporaries, after, key))
            && (forall key :: key in after && key !in l.temporaries ==> Private(ids, after[key]))
  {
    hide Stopped, Private, ValidContext, Program;
    if |attempts| > 0 {
      var last, init := attempts[|attempts| - 1], attempts[..|attempts| - 1];
      assert IsAttempt(ids, last);
      AttemptsLeavePrivate(ids, init, l);
      var u := AfterAttempts(ids, init, l);
      StoppedLeavesPrivate(last.c, last.counts, u, last.k);
      var after := AfterAttempts(ids, attempts, l).temporaries;
      forall key | key in l.temporaries
        ensures SameFile(l.temporaries, after, key)
      {
        assert SameFile(l.temporaries, u.temporaries, key) && SameFile(u.temporaries, after, key);
      }
      forall key | key in after && key !in l.temporaries
        ensures Private(ids, after[key])
      {
        assert key in u.temporaries ==> SameFile(u.temporaries, after, key);
      }
    }
  }
}
