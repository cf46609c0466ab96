/**
  The provisioning run as a machine of single system calls over the handoff layout.  A run may
  stop after any step; nothing else touches the layout meanwhile.
 */
module Provisioning {
  import opened ReceiptFormat
  import opened Sha256Spec
  import opened Options
  import Sha256

  // ----- The layout.

  datatype Entry = Runtime | Research | Handoff | Database | Challenges | Cycles

  datatype Node = Node(directory: bool, links: nat, meta: Metadata)

  datatype File = File(uid: nat, gid: nat, mode: nat, links: nat, text: string)

  /** File content below the length limit of the hash. */
  type Content = bytes: seq<Byte> | 8 * |bytes| < LENGTH_MODULUS

  /** The six entries that exist, the database's bytes, and the receipt directory with its receipt
      and the temporary files named by process and attempt. */
  datatype Layout = Layout(
    entries: map<Entry, Node>,
    bytes: Content,
    parent: Node,
    receipt: Option<File>,
    temporaries: map<(nat, nat), File>)

  datatype Identities = Identities(
    supervisorUid: nat, supervisorGid: nat, dispatcherUid: nat, handoffGid: nat, rootUid: nat)

  /** One process: its identities, its id, and what the kernel decides for it. */
  datatype Context = Context(ids: Identities, pid: nat, created: Entry -> Metadata, chownMode: nat -> nat)

  const ATTEMPTS: nat := 128

  function All(): seq<Entry> {
    [Runtime, Research, Handoff, Database, Challenges, Cycles]
  }

  predicate IsDirectory(e: Entry) {
    e != Database
  }

  /** The entry is of its kind, and a file has a single link. */
  predicate Sound(e: Entry, node: Node) {
    node.directory == IsDirectory(e) && (!node.directory ==> node.links == 1)
  }

  function TargetUid(ids: Identities, e: Entry): nat {
    match e
    case Handoff => ids.rootUid
    case Cycles => ids.dispatcherUid
    case _ => ids.supervisorUid
  }

  function TargetMode(e: Entry): (mode: nat)
    ensures mode < MODE_LIMIT
  {
    match e
    case Runtime => 456     // 0710
    case Research => 456    // 0710
    case Handoff => 2040    // 03770
    case Database => 432    // 0660
    case Challenges => 1512 // 02750
    case Cycles => 1512     // 02750
  }

  /** The owners a run may start from. */
  predicate OwnerAllowed(ids: Identities, e: Entry, uid: nat) {
    match e
    case Handoff => uid == ids.supervisorUid || uid == ids.rootUid
    case Challenges => uid == ids.rootUid || uid == ids.supervisorUid
    case Cycles => uid == ids.rootUid || uid == ids.dispatcherUid
    case _ => uid == ids.supervisorUid
  }

  predicate AtTarget(ids: Identities, e: Entry, m: Metadata) {
    m.uid == TargetUid(ids, e) && m.gid == ids.handoffGid && m.mode == TargetMode(e)
  }

  predicate SameInode(a: Node, b: Node) {
    a.meta.device == b.meta.device && a.meta.inode == b.meta.inode
  }

  predicate SameIdentity(a: Node, b: Node) {
    SameInode(a, b) && a.directory == b.directory && a.links == b.links
  }

  /** Metadata fits its machine types. */
  ghost predicate WellFormed(l: Layout) {
    forall e :: e in l.entries ==> ValidMetadata(l.entries[e].meta)
  }

  ghost predicate ValidContext(c: Context) {
    && c.ids.supervisorUid < UINTMAX_LIMIT && c.ids.dispatcherUid < UINTMAX_LIMIT
    && c.ids.handoffGid < UINTMAX_LIMIT && c.ids.rootUid < UINTMAX_LIMIT
    && (forall e: Entry :: ValidMetadata(c.created(e)))
    && (forall m: nat :: m < MODE_LIMIT ==> c.chownMode(m) < MODE_LIMIT)
  }

  function DatabaseHash(bytes: Content): (hash: string)
    ensures ValidHash(hash)
  {
    Sha256.Hex(Sha256Spec.Sha256(bytes))
  }

  function Metas(entries: map<Entry, Node>): (m: seq<Metadata>)
    requires forall e: Entry :: e in entries
    ensures |m| == ENTRY_COUNT
  {
    [entries[Runtime].meta, entries[Research].meta, entries[Handoff].meta,
     entries[Database].meta, entries[Challenges].meta, entries[Cycles].meta]
  }

  // ----- The machine.

  datatype Op =
    | Open(e: Entry)          // open, and check kind and owner
    | Ensure(e: Entry)        // create the directory when it is missing
    | HashBefore
    | ChangeOwner(e: Entry)
    | ChangeMode(e: Entry)
    | Confirm(e: Entry)       // read back what convergence set
    | HashAfter
    | Recheck(e: Entry)       // the name still leads to the opened entry
    | CreateTemporary
    | Write(count: nat)       // one write call, of whatever length the kernel took
    | WriteRest
    | OwnTemporary
    | ModeTemporary
    | CheckTemporary
    | Rename
    | VerifyReceipt

  datatype Process = Process(
    handles: map<Entry, Node>, hashBefore: string, hashAfter: string, attempt: nat, text: string)

  datatype State = State(layout: Layout, process: Process)

  datatype Result = Ok(state: State) | Fail(state: State)

  /** The first free temporary name of the process, or the limit. */
  function FreeAttempt(temporaries: map<(nat, nat), File>, pid: nat, from: nat): (a: nat)
    requires from <= ATTEMPTS
    ensures from <= a <= 128
    ensures a < 128 ==> (pid, a) !in temporaries
    ensures forall i :: from <= i < a ==> (pid, i) in temporaries
    decreases ATTEMPTS - from
  {
    if from == ATTEMPTS || (pid, from) !in temporaries then from else FreeAttempt(temporaries, pid, from + 1)
  }

  /** What the published receipt must satisfy, in provisioning and in verify-only runs alike. */
  predicate ReceiptVerifies(ids: Identities, l: Layout)
    requires forall e: Entry :: e in l.entries
  {
    hide Parse;
    && ParentReady(ids, l.parent)
    && l.receipt.Some?
    && var f := l.receipt.value;
    && f.links == 1 && f.uid == ids.rootUid && f.gid == ids.supervisorGid && f.mode == 288 // 0440
    && 1 <= |f.text| < 8192
    && Parse(f.text).Accepted?
    && Parse(f.text).value.entries == Metas(l.entries)
  }

  predicate ParentReady(ids: Identities, parent: Node) {
    parent.directory && parent.meta.uid == ids.rootUid && parent.meta.gid == ids.supervisorGid
    && parent.meta.mode == 488 // 0750
  }

  function Key(c: Context, p: Process): (nat, nat) {
    (c.pid, p.attempt)
  }

  function SetNode(l: Layout, e: Entry, node: Node): Layout {
    l.(entries := l.entries[e := node])
  }

  function SetTemporary(l: Layout, key: (nat, nat), f: File): Layout {
    l.(temporaries := l.temporaries[key := f])
  }

  function Step(c: Context, op: Op, s: State): Result
  {
    hide Text, ReceiptVerifies, DatabaseHash;
    var l, p := s.layout, s.process;
    match op
    case Open(e) =>
      if e in l.entries && Sound(e, l.entries[e]) && OwnerAllowed(c.ids, e, l.entries[e].meta.uid)
      then Ok(s.(process := p.(handles := p.handles[e := l.entries[e]]))) else Fail(s)
    case Ensure(e) =>
      if e in l.entries then (if Sound(e, l.entries[e]) then Ok(s) else Fail(s))
      else if e == Challenges || e == Cycles
      then Ok(s.(layout := SetNode(l, e, Node(true, 2, c.created(e).(uid := c.ids.rootUid)))))
      else Fail(s)
    case HashBefore => Ok(s.(process := p.(hashBefore := DatabaseHash(l.bytes))))
    case ChangeOwner(e) =>
      if e !in p.handles || e !in l.entries then Fail(s)
      else
        var m := l.entries[e].meta;
        Ok(s.(layout := SetNode(l, e, l.entries[e].(meta :=
          m.(uid := TargetUid(c.ids, e), gid := c.ids.handoffGid, mode := c.chownMode(m.mode))))))
    case ChangeMode(e) =>
      if e !in p.handles || e !in l.entries then Fail(s)
      else Ok(s.(layout := SetNode(l, e, l.entries[e].(meta := l.entries[e].meta.(mode := TargetMode(e))))))
    case Confirm(e) =>
      if e in p.handles && e in l.entries && AtTarget(c.ids, e, l.entries[e].meta)
         && SameInode(p.handles[e], l.entries[e]) && Sound(e, l.entries[e])
      then Ok(s) else Fail(s)
    case HashAfter =>
      var hash := DatabaseHash(l.bytes);
      if hash == p.hashBefore then Ok(s.(process := p.(hashAfter := hash))) else Fail(s)
    case Recheck(e) =>
      if e in p.handles && e in l.entries && SameInode(p.handles[e], l.entries[e]) && Sound(e, l.entries[e])
      then Ok(s) else Fail(s)
    case CreateTemporary =>
      var a := FreeAttempt(l.temporaries, c.pid, 0);
      if a == ATTEMPTS || !(forall e: Entry :: e in l.entries) || !Modes(Metas(l.entries)) then Fail(s)
      else Ok(State(SetTemporary(l, (c.pid, a), File(c.ids.rootUid, 0, 384, 1, "")),
                    p.(attempt := a, text := Text(Receipt(p.hashAfter, Metas(l.entries))))))
    case Write(count) =>
      if Key(c, p) !in l.temporaries then Fail(s)
      else
        var f := l.temporaries[Key(c, p)];
        var upto := if |f.text| + count < |p.text| then |f.text| + count else |p.text|;
        if |f.text| > |p.text| then Fail(s)
        else Ok(s.(layout := SetTemporary(l, Key(c, p), f.(text := f.text + p.text[|f.text|..upto]))))
    case WriteRest =>
      if Key(c, p) !in l.temporaries || |l.temporaries[Key(c, p)].text| > |p.text| then Fail(s)
      else
        var f := l.temporaries[Key(c, p)];
        Ok(s.(layout := SetTemporary(l, Key(c, p), f.(text := f.text + p.text[|f.text|..]))))
    case OwnTemporary =>
      if Key(c, p) !in l.temporaries then Fail(s)
      else Ok(s.(layout := SetTemporary(l, Key(c, p),
                 l.temporaries[Key(c, p)].(uid := c.ids.rootUid, gid := c.ids.supervisorGid))))
    case ModeTemporary =>
      if Key(c, p) !in l.temporaries then Fail(s)
      else Ok(s.(layout := SetTemporary(l, Key(c, p), l.temporaries[Key(c, p)].(mode := 288))))
    case CheckTemporary =>
      if Key(c, p) !in l.temporaries then Fail(s)
      else
        var f := l.temporaries[Key(c, p)];
        if f.links == 1 && f.uid == c.ids.rootUid && f.gid == c.ids.supervisorGid && f.mode == 288
        then Ok(s) else Fail(s)
    case Rename =>
      if Key(c, p) !in l.temporaries then Fail(s)
      else Ok(s.(layout := l.(receipt := Some(l.temporaries[Key(c, p)]), temporaries := l.temporaries - {Key(c, p)})))
    case VerifyReceipt =>
      if (forall e: Entry :: e in l.entries) && ReceiptVerifies(c.ids, l) then Ok(s) else Fail(s)
  }

  lemma StepKeepsBytes(c: Context, op: Op, s: State)
    ensures Step(c, op, s).state.layout.bytes == s.layout.bytes
    ensures Step(c, op, s).state.layout.parent == s.layout.parent
  {
    hide DatabaseHash, Text, ReceiptVerifies, Metas;
  }

  /** Steps in order, up to the first that fails. */
  function Exec(c: Context, ops: seq<Op>, s: State): (r: Result)
    ensures r.state.layout.bytes == s.layout.bytes && r.state.layout.parent == s.layout.parent
  {
    if |ops| == 0 then Ok(s)
    else
      StepKeepsBytes(c, ops[0], s);
      match Step(c, ops[0], s)
      case Fail(t) => Fail(t)
      case Ok(t) => Exec(c, ops[1..], t)
  }

  // ----- The program.

  function Converge(es: seq<Entry>): seq<Op> {
    if |es| == 0 then [] else [ChangeOwner(es[0]), ChangeMode(es[0]), Confirm(es[0])] + Converge(es[1..])
  }

  function Rechecks(es: seq<Entry>): seq<Op> {
    if |es| == 0 then [] else [Recheck(es[0])] + Rechecks(es[1..])
  }

  function Writes(counts: seq<nat>): seq<Op> {
    if |counts| == 0 then [] else [Write(counts[0])] + Writes(counts[1..])
  }

  function Opening(): seq<Op> {
    [Open(Runtime), Open(Research), Open(Handoff), Open(Database), HashBefore,
     Ensure(Challenges), Open(Challenges), Ensure(Cycles), Open(Cycles)]
  }

  function Publishing(counts: seq<nat>): seq<Op> {
    [CreateTemporary] + Writes(counts) + [WriteRest, OwnTemporary, ModeTemporary, CheckTemporary]
  }

  /** Everything up to the rename. */
  function BeforeRename(counts: seq<nat>): seq<Op> {
    Opening() + Converge(All()) + [HashAfter] + Rechecks(All()) + Publishing(counts)
  }

  /** A whole provisioning run; `counts` are the lengths of its write calls but the last. */
  function Program(counts: seq<nat>): seq<Op> {
    BeforeRename(counts) + [Rename, VerifyReceipt]
  }

  function Start(l: Layout): State {
    State(l, Process(map[], "", "", 0, ""))
  }

  function Run(c: Context, counts: seq<nat>, l: Layout): Result
  {
    Exec(c, Program(counts), Start(l))
  }

  /** The layout a run leaves when it stops after k steps. */
  function Stopped(c: Context, counts: seq<nat>, l: Layout, k: nat): Layout
    requires k <= |Program(counts)|
  {
    Exec(c, Program(counts)[..k], Start(l)).state.layout
  }

  /** A verify-only run: exact metadata, then the receipt; no hash is taken. */
  predicate VerifyOnly(ids: Identities, l: Layout) {
    && (forall e: Entry :: e in l.entries)
    && (forall e: Entry :: Sound(e, l.entries[e]) && AtTarget(ids, e, l.entries[e].meta))
    && ReceiptVerifies(ids, l)
  }
}
