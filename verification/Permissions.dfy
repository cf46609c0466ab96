/**
  What the metadata of a provisioned layout lets a user do, by the permission rules of POSIX for
  users without privileges.
 */
module Permissions {
  import opened ReceiptFormat
  import opened Provisioning

  // ----- Permission bits.

  datatype Right = ToRead | ToWrite | ToSearch

  datatype User = User(uid: nat, groups: set<nat>)

  /** Whether three permission bits grant the right. */
  predicate Grants(bits: nat, right: Right) {
    match right
    case ToRead => bits / 4 % 2 == 1
    case ToWrite => bits / 2 % 2 == 1
    case ToSearch => bits % 2 == 1
  }

  /** The first class the user belongs to decides: owner, group, others. */
  predicate Allowed(user: User, m: Metadata, right: Right) {
    if user.uid == m.uid then Grants(m.mode / 64 % 8, right)
    else if m.gid in user.groups then Grants(m.mode / 8 % 8, right)
    else Grants(m.mode % 8, right)
  }

  predicate Sticky(m: Metadata) {
    m.mode / 512 % 2 == 1
  }

  predicate SetGroup(m: Metadata) {
    m.mode / 1024 % 2 == 1
  }

  predicate SetUser(m: Metadata) {
    m.mode / 2048 % 2 == 1
  }

  // ----- Access along a path.

  /** The directories on the way to an entry. */
  function Ancestors(e: Entry): set<Entry> {
    match e
    case Runtime => {}
    case Research => {Runtime}
    case Handoff => {Runtime, Research}
    case _ => {Runtime, Research, Handoff}
  }

  /** The metadata of all six entries. */
  type Tree = Entry -> Metadata

  predicate Reaches(user: User, n: Tree, e: Entry) {
    forall a | a in Ancestors(e) :: Allowed(user, n(a), ToSearch)
  }

  predicate MayWrite(user: User, n: Tree, e: Entry) {
    Reaches(user, n, e) && Allowed(user, n(e), ToWrite)
  }

  /** Removing or renaming an entry of the handoff directory: under the sticky bit only its owner
      and the directory's may. */
  predicate MayRemove(user: User, n: Tree, e: Entry) {
    && Reaches(user, n, e) && Allowed(user, n(Handoff), ToWrite)
    && (Sticky(n(Handoff)) ==> user.uid == n(e).uid || user.uid == n(Handoff).uid)
  }

  ghost predicate Provisioned(ids: Identities, n: Tree) {
    forall e: Entry :: AtTarget(ids, e, n(e))
  }

  // ----- What provisioned metadata means.

  /** Others have nothing, the group only what is listed, the owner everything; new files inherit
      the group in the three handoff directories, and one of them protects its names. */
  predicate Guards(ids: Identities, e: Entry, m: Metadata, user: User) {
    && m.gid == ids.handoffGid && !SetUser(m)
    && (SetGroup(m) <==> e == Handoff || e == Challenges || e == Cycles)
    && (Sticky(m) <==> e == Handoff)
    && if user.uid == m.uid then
         && Allowed(user, m, ToRead) && Allowed(user, m, ToWrite)
         && (Allowed(user, m, ToSearch) <==> e != Database)
       else if ids.handoffGid in user.groups then
         && (Allowed(user, m, ToRead) <==> e != Runtime && e != Research)
         && (Allowed(user, m, ToWrite) <==> e == Handoff || e == Database)
         && (Allowed(user, m, ToSearch) <==> e != Database)
       else !Allowed(user, m, ToRead) && !Allowed(user, m, ToWrite) && !Allowed(user, m, ToSearch)
  }

  function Owner(ids: Identities, e: Entry): nat {
    if e == Handoff then ids.rootUid else if e == Cycles then ids.dispatcherUid else ids.supervisorUid
  }

  /** The target metadata is exactly what guards the entry so against every user. */
  lemma ModeMeans(ids: Identities, e: Entry, m: Metadata)
    requires m.mode < MODE_LIMIT
    ensures AtTarget(ids, e, m) <==> m.uid == Owner(ids, e) && forall user :: Guards(ids, e, m, user)
  {
    if AtTarget(ids, e, m) {
      forall user
        ensures Guards(ids, e, m, user)
      {
        TargetGuards(ids, e, m, user);
      }
    }
    if m.uid == Owner(ids, e) && forall user :: Guards(ids, e, m, user) {
      GuardsAreTarget(ids, e, m);
    }
  }

  lemma TargetGuards(ids: Identities, e: Entry, m: Metadata, user: User)
    requires AtTarget(ids, e, m)
    ensures Guards(ids, e, m, user) && m.uid == Owner(ids, e)
  {
    match e
    case Runtime =>
    case Research =>
    case Handoff =>
    case Database =>
    case Challenges =>
    case Cycles =>
  }

  /** Three users tell all the bits: the owner, a member of the group, and another. */
  lemma GuardsAreTarget(ids: Identities, e: Entry, m: Metadata)
    requires m.mode < MODE_LIMIT && m.uid == Owner(ids, e)
    requires forall user :: Guards(ids, e, m, user)
    ensures AtTarget(ids, e, m)
  {
    var owner, member, other := User(m.uid, {}), User(m.uid + 1, {m.gid}), User(m.uid + 1, {});
    assert Guards(ids, e, m, owner) && Guards(ids, e, m, member) && Guards(ids, e, m, other);
    SpecialBits(m.mode);
    assert m.mode / 512 == if e == Handoff then 3 else if e == Challenges || e == Cycles then 2 else 0;
    BitsOf(m.mode / 64 % 8, if e == Database then 6 else 7);
    BitsOf(m.mode / 8 % 8, match e
                           case Handoff => 7
                           case Database => 6
                           case Challenges => 5
                           case Cycles => 5
                           case _ => 1);
    BitsOf(m.mode % 8, 0);
    hide Guards, SetUser, SetGroup, Sticky, Allowed;
    OctalDigits(m.mode);
  }

  lemma SpecialBits(mode: nat)
    requires mode < MODE_LIMIT
    ensures mode / 512 == 4 * (mode / 2048 % 2) + 2 * (mode / 1024 % 2) + mode / 512 % 2
  {
  }

  /** Three bits granted make the digit. */
  lemma BitsOf(digit: nat, other: nat)
    requires digit < 8 && other < 8 && forall right :: Grants(digit, right) <==> Grants(other, right)
    ensures digit == other
  {
    assert Grants(digit, ToRead) <==> Grants(other, ToRead);
    assert Grants(digit, ToWrite) <==> Grants(other, ToWrite);
    assert Grants(digit, ToSearch) <==> Grants(other, ToSearch);
  }

  lemma OwnersAre(ids: Identities, n: Tree)
    requires Provisioned(ids, n)
    ensures n(Handoff).uid == ids.rootUid && n(Cycles).uid == ids.dispatcherUid
    ensures n(Runtime).uid == n(Research).uid == n(Database).uid == n(Challenges).uid == ids.supervisorUid
  {
    assert AtTarget(ids, Runtime, n(Runtime)) && AtTarget(ids, Research, n(Research));
    assert AtTarget(ids, Handoff, n(Handoff)) && AtTarget(ids, Database, n(Database));
    assert AtTarget(ids, Challenges, n(Challenges)) && AtTarget(ids, Cycles, n(Cycles));
  }

  /** A user outside the group who owns nothing has no access to any entry. */
  lemma OutsidersHaveNothing(ids: Identities, n: Tree, user: User, e: Entry, right: Right)
    requires Provisioned(ids, n) && ids.handoffGid !in user.groups && user.uid != n(e).uid
    ensures !Allowed(user, n(e), right)
  {
    hide Allowed, AtTarget;
    assert AtTarget(ids, e, n(e));
    TargetGuards(ids, e, n(e), user);
  }

  /** The user belongs to the shared group, or is both owner of the way and of the handoff root. */
  predicate Inside(ids: Identities, user: User) {
    ids.handoffGid in user.groups || (user.uid == ids.supervisorUid && user.uid == ids.rootUid)
  }

  lemma ReachesHandoff(ids: Identities, n: Tree, user: User)
    requires Provisioned(ids, n)
    ensures Reaches(user, n, Handoff) <==> ids.handoffGid in user.groups || user.uid == ids.supervisorUid
    ensures Reaches(user, n, Handoff) && Allowed(user, n(Handoff), ToSearch) <==> Inside(ids, user)
  {
    hide Allowed, AtTarget;
    OwnersAre(ids, n);
    forall e: Entry
      ensures Allowed(user, n(e), ToSearch) <==>
              e != Database && (user.uid == n(e).uid || ids.handoffGid in user.groups)
    {
      assert AtTarget(ids, e, n(e));
      TargetGuards(ids, e, n(e), user);
    }
  }

  /** Who may write what, over the whole path: the two upper directories only the supervisor, the
      handoff root and the database whoever gets inside, the challenges only the supervisor and the
      cycles only the dispatcher. */
  lemma WritersAre(ids: Identities, n: Tree, user: User)
    requires Provisioned(ids, n)
    ensures MayWrite(user, n, Runtime) <==> user.uid == ids.supervisorUid
    ensures MayWrite(user, n, Research) <==> user.uid == ids.supervisorUid
    ensures MayWrite(user, n, Handoff) <==> Inside(ids, user)
    ensures MayWrite(user, n, Database) <==> Inside(ids, user)
    ensures MayWrite(user, n, Challenges) <==> Inside(ids, user) && user.uid == ids.supervisorUid
    ensures MayWrite(user, n, Cycles) <==> Inside(ids, user) && user.uid == ids.dispatcherUid
  {
    hide Allowed, AtTarget;
    OwnersAre(ids, n);
    ReachesHandoff(ids, n, user);
    forall e: Entry
      ensures Allowed(user, n(e), ToWrite) <==>
              user.uid == n(e).uid || (ids.handoffGid in user.groups && (e == Handoff || e == Database))
    {
      assert AtTarget(ids, e, n(e));
      TargetGuards(ids, e, n(e), user);
    }
    ReachesBelow(user, n);
    assert AtTarget(ids, Runtime, n(Runtime));
    TargetGuards(ids, Runtime, n(Runtime), user);
  }

  lemma ReachesBelow(user: User, n: Tree)
    ensures Reaches(user, n, Runtime)
    ensures Reaches(user, n, Research) <==> Allowed(user, n(Runtime), ToSearch)
    ensures forall e :: e == Database || e == Challenges || e == Cycles ==>
      (Reaches(user, n, e) <==> Reaches(user, n, Handoff) && Allowed(user, n(Handoff), ToSearch))
  {
    hide Allowed;
  }

  /** Nobody but root removes another's entry of the handoff directory: not the dispatcher the
      database or the challenges, nor the supervisor the cycles. */
  lemma RemoversAre(ids: Identities, n: Tree, user: User, e: Entry)
    requires Provisioned(ids, n) && (e == Database || e == Challenges || e == Cycles)
    ensures MayRemove(user, n, e) <==>
      Inside(ids, user) && (user.uid == Owner(ids, e) || user.uid == ids.rootUid)
  {
    hide Allowed, AtTarget;
    OwnersAre(ids, n);
    ReachesHandoff(ids, n, user);
    ReachesBelow(user, n);
    assert AtTarget(ids, Handoff, n(Handoff));
    TargetGuards(ids, Handoff, n(Handoff), user);
  }
}
