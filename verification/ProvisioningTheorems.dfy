/**
  What every provisioning run keeps, what a completed one reaches, and why it can stop anywhere
  and be started again.
 */
module ProvisioningTheorems {
  import opened ReceiptFormat
  import opened Provisioning

  // ----- What a run may start from.

  /** Every owner precondition holds, and the receipt directory is as the verifier wants it. */
  ghost predicate Safe(ids: Identities, l: Layout) {
    && Runtime in l.entries && Research in l.entries && Handoff in l.entries && Database in l.entries
    && (forall e :: e in l.entries ==> Sound(e, l.entries[e]) && OwnerAllowed(ids, e, l.entries[e].meta.uid))
    && ParentReady(ids, l.parent)
  }

  ghost predicate Ready(c: Context, l: Layout) {
    Safe(c.ids, l) && FreeAttempt(l.temporaries, c.pid, 0) < ATTEMPTS
  }

  /** Whatever is executed, in whatever order, the preconditions of a fresh run keep holding, and
      entries that exist keep their identity. */
  lemma StepKeepsSafe(c: Context, op: Op, s: State)
    requires ValidContext(c) && WellFormed(s.layout) && Safe(c.ids, s.layout)
    ensures var l := Step(c, op, s).state.layout;
            && WellFormed(l) && Safe(c.ids, l)
            && forall e :: e in s.layout.entries ==> e in l.entries && SameIdentity(s.layout.entries[e], l.entries[e])
  {
    hide Step;
    StepKeepsBytes(c, op, s);
    var l := Step(c, op, s).state.layout;
    assert forall e: Entry :: OwnerAllowed(c.ids, e, TargetUid(c.ids, e));
    var e, node := StepEntries(c, op, s);
  }

  /** A step rewrites at most one node: a directory made, or an owner or mode set. */
  lemma StepEntries(c: Context, op: Op, s: State) returns (e: Entry, node: Node)
    ensures var old', new' := s.layout.entries, Step(c, op, s).state.layout.entries;
            || new' == old'
            || (new' == old'[e := node]
                && if e in old' then
                     && SameIdentity(old'[e], node)
                     && (node.meta.uid == old'[e].meta.uid
                         || (node.meta.uid == TargetUid(c.ids, e) && node.meta.gid == c.ids.handoffGid))
                     && (node.meta.gid == old'[e].meta.gid || node.meta.gid == c.ids.handoffGid)
                     && (node.meta.mode == c.chownMode(old'[e].meta.mode) || node.meta.mode == TargetMode(e))
                   else
                     (e == Challenges || e == Cycles) && node == CreatedNode(c, e))
  {
    hide DatabaseHash, Text, ReceiptVerifies, Metas;
    e, node := Runtime, Node(true, 2, Metadata(0, 0, 0, 0, 0));
    if op.Ensure? || op.ChangeOwner? || op.ChangeMode? {
      e := op.e;
      if e in Step(c, op, s).state.layout.entries {
        node := Step(c, op, s).state.layout.entries[e];
      }
    }
  }

  lemma {:induction false} ExecKeepsSafe(c: Context, ops: seq<Op>, s: State)
    requires ValidContext(c) && WellFormed(s.layout) && Safe(c.ids, s.layout)
    ensures var l := Exec(c, ops, s).state.layout;
            && WellFormed(l) && Safe(c.ids, l)
            && forall e :: e in s.layout.entries ==> e in l.entries && SameIdentity(s.layout.entries[e], l.entries[e])
  {
    hide Step, Safe, ValidContext;
    if |ops| > 0 {
      StepKeepsSafe(c, ops[0], s);
      var r := Step(c, ops[0], s);
      if r.Ok? {
        ExecKeepsSafe(c, ops[1..], r.state);
      }
    }
  }

  // ----- Composing executions.

  lemma {:induction false} ExecAppend(c: Context, a: seq<Op>, b: seq<Op>, s: State)
    ensures var r := Exec(c, a, s); Exec(c, a + b, s) == if r.Ok? then Exec(c, b, r.state) else r
  {
    hide Step;
    if |a| == 0 {
      assert a + b == b;
    } else {
      assert (a + b)[1..] == a[1..] + b;
      StepKeepsBytes(c, a[0], s);
      var r := Step(c, a[0], s);
      if r.Ok? {
        ExecAppend(c, a[1..], b, r.state);
      }
    }
  }

  lemma ExecOne(c: Context, op: Op, s: State)
    ensures Exec(c, [op], s) == Step(c, op, s)
  {
    hide Step;
    StepKeepsBytes(c, op, s);
    assert [op][1..] == [];
  }

  lemma ExecCons(c: Context, op: Op, rest: seq<Op>, s: State)
    ensures var r := Step(c, op, s);
            r.state.layout.bytes == s.layout.bytes
            && Exec(c, [op] + rest, s) == if r.Ok? then Exec(c, rest, r.state) else r
  {
    hide Step;
    ExecOne(c, op, s);
    ExecAppend(c, [op], rest, s);
    StepKeepsBytes(c, op, s);
  }

  // ----- Opening.

  function CreatedNode(c: Context, e: Entry): Node {
    Node(true, 2, c.created(e).(uid := c.ids.rootUid))
  }

  function WithDirectory(c: Context, entries: map<Entry, Node>, e: Entry): map<Entry, Node> {
    if e in entries then entries else entries[e := CreatedNode(c, e)]
  }

  /** All six entries once the missing directories are made. */
  function Populated(c: Context, l: Layout): map<Entry, Node> {
    WithDirectory(c, WithDirectory(c, l.entries, Challenges), Cycles)
  }

  lemma OpenStep(c: Context, e: Entry, rest: seq<Op>, s: State)
    ensures var l := s.layout;
            var ok := e in l.entries && Sound(e, l.entries[e]) && OwnerAllowed(c.ids, e, l.entries[e].meta.uid);
            Exec(c, [Open(e)] + rest, s) == if ok
              then Exec(c, rest, s.(process := s.process.(handles := s.process.handles[e := l.entries[e]])))
              else Fail(s)
  {
    hide DatabaseHash, Text, ReceiptVerifies, Metas, Exec;
    ExecCons(c, Open(e), rest, s);
  }

  lemma EnsureStep(c: Context, e: Entry, rest: seq<Op>, s: State)
    requires (e == Challenges || e == Cycles)
    ensures var l := s.layout;
            Exec(c, [Ensure(e)] + rest, s) == if e in l.entries && !Sound(e, l.entries[e]) then Fail(s)
              else Exec(c, rest, s.(layout := l.(entries := WithDirectory(c, l.entries, e))))
  {
    hide DatabaseHash, Text, ReceiptVerifies, Metas, Exec;
    ExecCons(c, Ensure(e), rest, s);
  }

  /** Opening the tree succeeds exactly when every owner precondition holds; it changes nothing but
      the two directories it may make. */
  lemma OpeningRuns(c: Context, l: Layout)
    ensures var r := Exec(c, Provisioning.Opening(), Start(l));
            && (ParentReady(c.ids, l.parent) ==> (r.Ok? <==> Safe(c.ids, l)))
            && (r.Ok? && ParentReady(c.ids, l.parent) ==>
                  && r.state.layout == l.(entries := Populated(c, l))
                  && r.state.process.hashBefore == DatabaseHash(l.bytes)
                  && forall e: Entry :: e in Populated(c, l) && e in r.state.process.handles
                                        && r.state.process.handles[e] == Populated(c, l)[e])
  {
    hide DatabaseHash, Step, Exec, ParentReady;
    var tail: seq<Op> := [Ensure(Challenges)] + ([Open(Challenges)] + ([Ensure(Cycles)] + ([Open(Cycles)] + [])));
    assert Provisioning.Opening()
        == [Open(Runtime)] + ([Open(Research)] + ([Open(Handoff)] + ([Open(Database)] + ([HashBefore] + tail))));
    OpeningFixed(c, l, Provisioning.Opening(), tail);
    if FixedReady(c.ids, l) {
      OpeningDirectories(c, tail, FixedOpened(c.ids, l));
      AllHandles(c, l);
      var r := Exec(c, Provisioning.Opening(), Start(l));
      if r.Ok? {
        var n := Populated(c, l);
        assert r.state.process.handles == FixedHandles(l)[Challenges := n[Challenges]][Cycles := n[Cycles]];
        forall e: Entry ensures e in n && e in r.state.process.handles && r.state.process.handles[e] == n[e] {
        }
      }
    }
  }

  /** The four entries a run never makes. */
  ghost predicate FixedReady(ids: Identities, l: Layout) {
    forall e: Entry :: e != Challenges && e != Cycles ==>
      e in l.entries && Sound(e, l.entries[e]) && OwnerAllowed(ids, e, l.entries[e].meta.uid)
  }

  ghost function FixedHandles(l: Layout): map<Entry, Node>
    requires Runtime in l.entries && Research in l.entries && Handoff in l.entries && Database in l.entries
  {
    map[Runtime := l.entries[Runtime], Research := l.entries[Research],
        Handoff := l.entries[Handoff], Database := l.entries[Database]]
  }

  ghost function FixedOpened(ids: Identities, l: Layout): State
    requires FixedReady(ids, l)
  {
    hide DatabaseHash;
    State(l, Start(l).process.(handles := FixedHandles(l), hashBefore := DatabaseHash(l.bytes)))
  }

  lemma AllHandles(c: Context, l: Layout)
    requires Runtime in l.entries && Research in l.entries && Handoff in l.entries && Database in l.entries
    ensures var n := Populated(c, l);
            forall e: Entry :: e in n && var h := FixedHandles(l)[Challenges := n[Challenges]][Cycles := n[Cycles]];
                               e in h && h[e] == n[e]
  {
    forall e: Entry
      ensures var n := Populated(c, l);
              e in n && var h := FixedHandles(l)[Challenges := n[Challenges]][Cycles := n[Cycles]];
                        e in h && h[e] == n[e]
    {
      match e case Runtime => case Research => case Handoff => case Database => case Challenges => case Cycles =>
    }
  }

  lemma OpeningFixed(c: Context, l: Layout, ops: seq<Op>, rest: seq<Op>)
    requires ops == [Open(Runtime)] + ([Open(Research)] + ([Open(Handoff)] + ([Open(Database)]
                                       + ([HashBefore] + rest))))
    ensures var r := Exec(c, ops, Start(l));
            if FixedReady(c.ids, l) then r == Exec(c, rest, FixedOpened(c.ids, l)) else r.Fail?
  {
    hide DatabaseHash, Step, Exec, Sound, OwnerAllowed;
    var s := Start(l);
    var t4 := [HashBefore] + rest;
    var t3 := [Open(Database)] + t4;
    var t2 := [Open(Handoff)] + t3;
    OpenStep(c, Runtime, [Open(Research)] + t2, s);
    if Runtime in l.entries {
      s := s.(process := s.process.(handles := s.process.handles[Runtime := l.entries[Runtime]]));
      OpenStep(c, Research, t2, s);
      if Research in l.entries {
        s := s.(process := s.process.(handles := s.process.handles[Research := l.entries[Research]]));
        OpenStep(c, Handoff, t3, s);
        if Handoff in l.entries {
          s := s.(process := s.process.(handles := s.process.handles[Handoff := l.entries[Handoff]]));
          OpenStep(c, Database, t4, s);
          if Database in l.entries {
            s := s.(process := s.process.(handles := s.process.handles[Database := l.entries[Database]]));
            ExecHashBefore(c, rest, s);
            assert s.process.handles == FixedHandles(l);
          }
        }
      }
    }
  }

  lemma ExecHashBefore(c: Context, rest: seq<Op>, s: State)
    ensures Exec(c, [HashBefore] + rest, s)
         == Exec(c, rest, s.(process := s.process.(hashBefore := DatabaseHash(s.layout.bytes))))
  {
    hide DatabaseHash, Text, ReceiptVerifies, Metas, Exec;
    ExecCons(c, HashBefore, rest, s);
  }

  /** The two directories: made when missing, then opened with their owner check. */
  lemma OpeningDirectories(c: Context, ops: seq<Op>, s: State)
    requires ops == [Ensure(Challenges)] + ([Open(Challenges)] + ([Ensure(Cycles)] + ([Open(Cycles)] + [])))
    ensures var l, r := s.layout, Exec(c, ops, s);
            && (r.Ok? <==> forall e :: e in l.entries && (e == Challenges || e == Cycles) ==>
                            Sound(e, l.entries[e]) && OwnerAllowed(c.ids, e, l.entries[e].meta.uid))
            && (r.Ok? ==> var n := Populated(c, l);
                  r.state == State(l.(entries := n), s.process.(handles :=
                    s.process.handles[Challenges := n[Challenges]][Cycles := n[Cycles]])))
  {
    hide Exec, Step;
    var l := s.layout;
    var n1 := WithDirectory(c, l.entries, Challenges);
    var n2 := WithDirectory(c, n1, Cycles);
    var handles := s.process.handles[Challenges := n2[Challenges]][Cycles := n2[Cycles]];
    ExecEmpty(c, State(l.(entries := n2), s.process.(handles := handles)));
    assert n2[Challenges] == n1[Challenges];
    EnsureStep(c, Challenges, [Open(Challenges)] + ([Ensure(Cycles)] + ([Open(Cycles)] + [])), s);
    var s1 := s.(layout := l.(entries := n1));
    OpenStep(c, Challenges, [Ensure(Cycles)] + ([Open(Cycles)] + []), s1);
    var s2 := s1.(process := s1.process.(handles := s1.process.handles[Challenges := n1[Challenges]]));
    EnsureStep(c, Cycles, [Open(Cycles)] + [], s2);
    var s3 := s2.(layout := l.(entries := n2));
    OpenStep(c, Cycles, [], s3);
  }

  lemma ExecEmpty(c: Context, s: State)
    ensures Exec(c, [], s) == Ok(s)
  {
  }

  // ----- Convergence.

  function Settled(ids: Identities, e: Entry, node: Node): Node {
    node.(meta := node.meta.(uid := TargetUid(ids, e), gid := ids.handoffGid, mode := TargetMode(e)))
  }

  function SettledMap(ids: Identities, entries: map<Entry, Node>, es: seq<Entry>): map<Entry, Node>
    requires forall e :: e in es ==> e in entries
  {
    if |es| == 0 then entries
    else SettledMap(ids, entries[es[0] := Settled(ids, es[0], entries[es[0]])], es[1..])
  }

  lemma ConvergeOne(c: Context, e: Entry, rest: seq<Op>, s: State)
    requires e in s.process.handles && e in s.layout.entries
    requires SameInode(s.process.handles[e], s.layout.entries[e]) && Sound(e, s.layout.entries[e])
    ensures Exec(c, [ChangeOwner(e), ChangeMode(e), Confirm(e)] + rest, s)
         == Exec(c, rest, s.(layout := SetNode(s.layout, e, Settled(c.ids, e, s.layout.entries[e]))))
  {
    hide DatabaseHash, Text, ReceiptVerifies, Metas, Exec;
    var node := s.layout.entries[e];
    var m := node.meta.(uid := TargetUid(c.ids, e), gid := c.ids.handoffGid, mode := c.chownMode(node.meta.mode));
    var s1 := s.(layout := SetNode(s.layout, e, node.(meta := m)));
    var s2 := s.(layout := SetNode(s.layout, e, Settled(c.ids, e, node)));
    var t2 := [Confirm(e)] + rest;
    var t1 := [ChangeMode(e)] + t2;
    assert [ChangeOwner(e), ChangeMode(e), Confirm(e)] + rest == [ChangeOwner(e)] + t1;
    ExecCons(c, ChangeOwner(e), t1, s);
    assert Step(c, ChangeOwner(e), s) == Ok(s1);
    ExecCons(c, ChangeMode(e), t2, s1);
    assert s1.layout.entries[e := Settled(c.ids, e, node)] == s2.layout.entries;
    assert Step(c, ChangeMode(e), s1) == Ok(s2);
    ExecCons(c, Confirm(e), rest, s2);
    assert Step(c, Confirm(e), s2) == Ok(s2);
  }

  lemma {:induction false} ConvergeRuns(c: Context, es: seq<Entry>, s: State)
    requires forall e :: e in es ==> e in s.process.handles && e in s.layout.entries
                                     && SameInode(s.process.handles[e], s.layout.entries[e])
                                     && Sound(e, s.layout.entries[e])
    ensures Exec(c, Converge(es), s) == Ok(s.(layout := s.layout.(entries := SettledMap(c.ids, s.layout.entries, es))))
  {
    hide Step, Exec;
    if |es| == 0 {
      ExecEmpty(c, s);
    } else {
      var e, rest := es[0], es[1..];
      var t := s.(layout := SetNode(s.layout, e, Settled(c.ids, e, s.layout.entries[e])));
      ConvergeOne(c, e, Converge(rest), s);
      ConvergeRuns(c, rest, t);
    }
  }

  lemma {:induction false} SettledEverywhere(ids: Identities, entries: map<Entry, Node>, es: seq<Entry>, e: Entry)
    requires e in entries && forall x :: x in es ==> x in entries
    ensures var r := SettledMap(ids, entries, es);
            && r.Keys == entries.Keys
            && r[e] == if e in es then Settled(ids, e, entries[e]) else entries[e]
  {
    if |es| > 0 {
      var next := entries[es[0] := Settled(ids, es[0], entries[es[0]])];
      assert next.Keys == entries.Keys;
      SettledEverywhere(ids, next, es[1..], e);
    }
  }

  /** The name still leads to the file that was opened, of its kind. */
  ghost predicate Unreplaced(s: State, e: Entry) {
    && e in s.process.handles && e in s.layout.entries
    && var before, now := s.process.handles[e], s.layout.entries[e];
    && now.meta.device == before.meta.device && now.meta.inode == before.meta.inode
    && (now.directory <==> e != Database) && (e == Database ==> now.links == 1)
  }

  /** Rechecking succeeds exactly when no entry was replaced, and changes nothing. */
  lemma {:induction false} RechecksRun(c: Context, es: seq<Entry>, s: State)
    ensures Exec(c, Rechecks(es), s) == Ok(s) || Exec(c, Rechecks(es), s) == Fail(s)
    ensures Exec(c, Rechecks(es), s).Ok? <==> forall e :: e in es ==> Unreplaced(s, e)
  {
    hide DatabaseHash, Text, ReceiptVerifies, Metas, Exec;
    if |es| == 0 {
      ExecEmpty(c, s);
    } else {
      ExecCons(c, Recheck(es[0]), Rechecks(es[1..]), s);
      assert Step(c, Recheck(es[0]), s) == if Unreplaced(s, es[0]) then Ok(s) else Fail(s);
      RechecksRun(c, es[1..], s);
      assert forall e :: e in es <==> e == es[0] || e in es[1..];
    }
  }

  // ----- Publishing.

  /** A temporary of this process, partly written. */
  ghost predicate Writing(c: Context, s: State, before: map<(nat, nat), File>) {
    && Key(c, s.process) in s.layout.temporaries && Key(c, s.process) !in before
    && s.layout.temporaries - {Key(c, s.process)} == before
    && s.layout.temporaries[Key(c, s.process)].text <= s.process.text
    && s.layout.temporaries[Key(c, s.process)].links == 1
  }

  lemma WriteStep(c: Context, count: nat, rest: seq<Op>, s: State, before: map<(nat, nat), File>) returns (t: State)
    requires Writing(c, s, before)
    ensures Writing(c, t, before) && t.process == s.process
    ensures t.layout == s.layout.(temporaries := t.layout.temporaries)
    ensures Exec(c, [Write(count)] + rest, s) == Exec(c, rest, t)
  {
    hide DatabaseHash, Text, ReceiptVerifies, Metas, Exec;
    ExecCons(c, Write(count), rest, s);
    t := Step(c, Write(count), s).state;
    assert t.layout.temporaries - {Key(c, s.process)} == s.layout.temporaries - {Key(c, s.process)};
  }

  lemma {:induction false} WritesRun(
    c: Context, counts: seq<nat>, rest: seq<Op>, s: State, before: map<(nat, nat), File>) returns (t: State)
    requires Writing(c, s, before)
    ensures Writing(c, t, before) && t.process == s.process
    ensures t.layout == s.layout.(temporaries := t.layout.temporaries)
    ensures Exec(c, Writes(counts) + rest, s) == Exec(c, rest, t)
    decreases |counts|
  {
    hide Step, Exec, Writing;
    if |counts| == 0 {
      t := s;
      assert Writes(counts) + rest == rest;
    } else {
      assert Writes(counts) + rest == [Write(counts[0])] + (Writes(counts[1..]) + rest);
      var u := WriteStep(c, counts[0], Writes(counts[1..]) + rest, s, before);
      t := WritesRun(c, counts[1..], rest, u, before);
    }
  }

  function ReceiptFile(ids: Identities, text: string): File {
    File(ids.rootUid, ids.supervisorGid, 288, 1, text)
  }

  /** The temporary once written, owned and protected. */
  lemma FinishTemporary(c: Context, s: State, before: map<(nat, nat), File>)
    requires Writing(c, s, before)
    ensures Exec(c, [WriteRest, OwnTemporary, ModeTemporary, CheckTemporary], s)
         == Ok(s.(layout := s.layout.(temporaries := before[Key(c, s.process) := ReceiptFile(c.ids, s.process.text)])))
  {
    hide Step, Exec;
    var key, f := Key(c, s.process), s.layout.temporaries[Key(c, s.process)];
    var g := f.(text := s.process.text);
    var h := g.(uid := c.ids.rootUid, gid := c.ids.supervisorGid);
    var i := ReceiptFile(c.ids, s.process.text);
    var s1, s2, s3 := WithTemporary(c, s, g), WithTemporary(c, s, h), WithTemporary(c, s, i);
    var t3: seq<Op> := [CheckTemporary] + [];
    var t2 := [ModeTemporary] + t3;
    var t1 := [OwnTemporary] + t2;
    assert [WriteRest, OwnTemporary, ModeTemporary, CheckTemporary] == [WriteRest] + t1;
    ExecCons(c, WriteRest, t1, s);
    RestWritten(c, s);
    ExecCons(c, OwnTemporary, t2, s1);
    ExecCons(c, ModeTemporary, t3, s2);
    ExecCons(c, CheckTemporary, [], s3);
    TemporarySteps(c, s1, g);
    TemporarySteps(c, s2, h);
    TemporarySteps(c, s3, i);
    Rewritten(c, s, g, h);
    Rewritten(c, s, h, i);
    ExecEmpty(c, s3);
    assert s3.layout.temporaries == before[key := i];
  }

  function WithTemporary(c: Context, s: State, f: File): State {
    s.(layout := SetTemporary(s.layout, Key(c, s.process), f))
  }

  lemma Rewritten(c: Context, s: State, f: File, g: File)
    ensures WithTemporary(c, WithTemporary(c, s, f), g) == WithTemporary(c, s, g)
  {
    var m, key := s.layout.temporaries, Key(c, s.process);
    assert m[key := f][key := g] == m[key := g];
  }

  lemma RestWritten(c: Context, s: State)
    requires Key(c, s.process) in s.layout.temporaries
    requires s.layout.temporaries[Key(c, s.process)].text <= s.process.text
    ensures Step(c, WriteRest, s)
         == Ok(WithTemporary(c, s, s.layout.temporaries[Key(c, s.process)].(text := s.process.text)))
  {
    hide DatabaseHash, Text, ReceiptVerifies, Metas;
    var f := s.layout.temporaries[Key(c, s.process)];
    assert f.text + s.process.text[|f.text|..] == s.process.text;
  }

  lemma TemporarySteps(c: Context, s: State, f: File)
    requires Key(c, s.process) in s.layout.temporaries && s.layout.temporaries[Key(c, s.process)] == f
    ensures Step(c, OwnTemporary, s) == Ok(WithTemporary(c, s, f.(uid := c.ids.rootUid, gid := c.ids.supervisorGid)))
    ensures Step(c, ModeTemporary, s) == Ok(WithTemporary(c, s, f.(mode := 288)))
    ensures f == ReceiptFile(c.ids, f.text) ==> Step(c, CheckTemporary, s) == Ok(s)
  {
    hide DatabaseHash, Text, ReceiptVerifies, Metas;
  }

  /** Publishing ends with the whole receipt text in a free temporary, or fails for want of one. */
  lemma PublishingRuns(c: Context, counts: seq<nat>, s: State)
    requires (forall e: Entry :: e in s.layout.entries) && Modes(Metas(s.layout.entries))
    ensures var l := s.layout;
            var a := FreeAttempt(l.temporaries, c.pid, 0);
            var text := Text(Receipt(s.process.hashAfter, Metas(l.entries)));
            Exec(c, Publishing(counts), s) == if a == ATTEMPTS then Fail(s)
              else Ok(State(l.(temporaries := l.temporaries[(c.pid, a) := ReceiptFile(c.ids, text)]),
                            s.process.(attempt := a, text := text)))
  {
    hide DatabaseHash, Text, ReceiptVerifies, Metas, Exec;
    var l := s.layout;
    var tail := Writes(counts) + [WriteRest, OwnTemporary, ModeTemporary, CheckTemporary];
    assert Publishing(counts) == [CreateTemporary] + tail;
    ExecCons(c, CreateTemporary, tail, s);
    var a := FreeAttempt(l.temporaries, c.pid, 0);
    if a < ATTEMPTS {
      var t := Step(c, CreateTemporary, s).state;
      assert t.layout.temporaries - {(c.pid, a)} == l.temporaries;
      var u := WritesRun(c, counts, [WriteRest, OwnTemporary, ModeTemporary, CheckTemporary], t, l.temporaries);
      FinishTemporary(c, u, l.temporaries);
    }
  }
}
