/**
  The replay artifact publisher: stage, link, verify, roll back, discard.  Between any two of its
  system calls another process may act, and any call may fail; both are decided by functions the
  publisher does not know, so every contract holds for every interleaving and every failure.
 */
module ArtifactPublisher {
  import opened ArtifactPaths
  import opened PublicationWorld
  import opened PublicationSteps

  const ARTIFACT_MODE: nat := 256 // 0400

  datatype Entry = Entry(relative: string, segments: Path, identity: Inode, size: nat, contentHash: string)

  datatype StageResult = Staged | StageClosed | PathInvalid | AlreadyStaged | OutOfScope
    | DirectoryUnsafe | Occupied | StageFailed

  datatype Outcome =
    | Published
      /** Nothing was linked: closed publisher, wrong set, a taken name or a failed check. */
    | Refused
    | RolledBack
    | RollbackIncomplete(relatives: seq<string>)
      /** The staging directory could not be discarded, after publication or after rollback. */
    | CleanupFailed(published: bool)

  /** The names once the first k entries are linked. */
  function WithFinals(names: Names, entries: seq<Entry>, k: nat): Names
    requires k <= |entries|
  {
    if k == 0 then names else WithFinals(names, entries, k - 1)[entries[k - 1].segments := entries[k - 1].identity]
  }

  predicate Distinct(names: seq<string>) {
    forall i, j :: 0 <= i < j < |names| ==> names[i] != names[j]
  }

  /** The requested paths are those staged, each once. */
  predicate ExactSelection(staged: map<string, Entry>, relatives: seq<string>) {
    && (forall i :: 0 <= i < |relatives| ==> Allowed(relatives[i]) && relatives[i] in staged)
    && Distinct(relatives) && |relatives| == |staged|
  }

  function Picked(staged: map<string, Entry>, relatives: seq<string>): (entries: seq<Entry>)
    requires ExactSelection(staged, relatives)
    ensures |entries| == |relatives| && forall i :: 0 <= i < |entries| ==> entries[i] == staged[relatives[i]]
  {
    seq(|relatives|, i requires 0 <= i < |relatives| => staged[relatives[i]])
  }

  /** An exact selection is a permutation of the staged set. */
  lemma SelectionIsPermutation(staged: map<string, Entry>, relatives: seq<string>)
    requires ExactSelection(staged, relatives)
    ensures forall r :: r in staged <==> r in relatives
  {
    hide Allowed;
    ExactSet(relatives, staged.Keys);
  }

  // ----- What publication and discard leave.

  lemma {:induction false} FinalsBound(names: Names, entries: seq<Entry>, k: nat, p: Path)
    requires k <= |entries| && forall i, j :: 0 <= i < j < |entries| ==> entries[i].segments != entries[j].segments
    ensures forall i :: 0 <= i < k ==> Bound(WithFinals(names, entries, k), entries[i].segments, entries[i].identity)
    ensures (forall i :: 0 <= i < k ==> entries[i].segments != p) ==> SameAt(names, WithFinals(names, entries, k), p)
  {
    if k > 0 {
      FinalsBound(names, entries, k - 1, p);
    }
  }

  /** After publication and discard an artifact is at its final path exactly when that path lies
      outside the staging directory; every other name there is as before. */
  lemma SurvivesDiscardIff(names: Names, entries: seq<Entry>, root: Path, i: nat, p: Path)
    requires i < |entries| && forall a, b :: 0 <= a < b < |entries| ==> entries[a].segments != entries[b].segments
    ensures var after := Outside(WithFinals(names, entries, |entries|), root);
            && (Bound(after, entries[i].segments, entries[i].identity) <==> !(root <= entries[i].segments))
            && (!(root <= p) && (forall j :: 0 <= j < |entries| ==> entries[j].segments != p) ==>
                SameAt(names, after, p))
  {
    FinalsBound(names, entries, |entries|, p);
  }

  /** Such a path can be staged: nothing refuses an artifact placed under the staging directory's
      own name, and discarding deletes what was published there. */
  lemma ArtifactLostToDiscard(id: string)
    requires Proper(id) && '\\' !in id
    ensures var root := [".publication-staging", id];
            var n := [".publication-staging", id, "x"];
            && Accepts(root, Join(n)) && Segments(Join(n)) == n
            && forall names: Names, e: Entry :: e.segments == n ==> n !in Outside(WithFinals(names, [e], 1), root)
  {
    var n := [".publication-staging", id, "x"];
    assert [".publication-staging", id] <= n;
    assert Join(n[2..]) == "x";
    assert n[1..][1..] == n[2..];
    assert Join(n[1..]) == id + "/" + "x";
    assert Join(n) == ".publication-staging" + "/" + (id + "/" + "x");
    assert '\\' !in ".publication-staging" && '\\' !in "/" && '\\' !in "x";
    assert AllProper(n);
    ProperIsAccepted([".publication-staging", id], n);
  }

  /** p is the final path of none of the first k entries. */
  ghost predicate NotAmong(entries: seq<Entry>, k: nat, p: Path)
    requires k <= |entries|
  {
    forall i :: 0 <= i < k ==> entries[i].segments != p
  }

  /** One path is the other or lies below it. */
  predicate Related(p: Path, q: Path) {
    p <= q || q <= p
  }

  function Last(p: Path): string {
    if p == [] then "" else p[|p| - 1]
  }

  class Publisher {
    const id: string
    /** Whether other processes stay away. */
    const quiet: bool
    const others: nat -> Names
    const failures: nat -> bool
    const digest: string -> string
    /** The random file name drawn at some time; it is none of those in use. */
    const nonce: (nat, set<string>) -> string

    var world: World
    var staged: map<string, Entry>
    var closed: bool

    function Root(): Path {
      [".publication-staging", id]
    }

    function StagingPath(e: Entry): Path {
      Root() + e.segments
    }

    predicate IsQuarantine(p: Path) {
      |p| == 4 && Root() <= p && p[2] == ".rollback"
    }

    /** A file of the staging directory stands where the path needs a directory. */
    predicate FileAbove(names: Names, p: Path) {
      exists q :: q in names && Root() <= q && q <= p && q != p
    }

    /** The path is a directory of the staging directory: a file lies below it. */
    predicate FileBelow(names: Names, p: Path) {
      exists q :: q in names && Root() <= q && p <= q && q != p
    }

    /** The path is a directory, of the publisher's or because a file lies below it, or it would need a
        directory where a file stands. */
    predicate Reserved(names: Names, p: Path) {
      p <= Root() + [".rollback"] || exists q :: q in names && q != p && Related(q, p)
    }

    /** File names a draw avoids. */
    function Used(): set<string>
      reads this
    {
      (set p | p in world.names :: Last(p)) + (set r | r in staged :: Last(staged[r].segments))
    }

    predicate IsIntact(w: World, e: Entry) {
      && e.identity in w.files
      && var f := w.files[e.identity];
      && f.mode == ARTIFACT_MODE && |f.content| == e.size && digest(f.content) == e.contentHash
    }

    // ----- What holds between calls.

    ghost predicate Holds(w: World, relative: string, e: Entry) {
      && e.relative == relative && Accepts(Root(), relative) && e.segments == Segments(relative)
      && Bound(w.names, StagingPath(e), e.identity) && IsIntact(w, e)
    }

    ghost predicate AllHeld(w: World, entries: map<string, Entry>) {
      && (forall r :: r in entries ==> Holds(w, r, entries[r]))
      && (forall r, s :: r in entries && s in entries && r != s ==> !(entries[r].segments <= entries[s].segments))
    }

    /** The links that are the publisher's to take back. */
    ghost function Own(): set<Binding>
      reads `staged
    {
      set r | r in staged :: (staged[r].segments, staged[r].identity)
    }

    ghost predicate WaitingBound(w: World) {
      WaitingBelow(Root(), w) && forall q :: q in w.waiting ==> IsQuarantine(q)
    }

    ghost predicate DrawsAreFresh() {
      forall k: nat, used: set<string> :: nonce(k, used) !in used
    }

    ghost predicate Valid()
      reads this
    {
      && Proper(id) && DrawsAreFresh() && Stamped(world)
      && (!closed ==> AllHeld(world, staged) && WaitingBound(world) && Respected(Root(), world, Own()))
    }

    constructor (id: string, quiet: bool, others: nat -> Names, failures: nat -> bool, digest: string -> string,
                 nonce: (nat, set<string>) -> string, names: Names, files: map<Inode, File>)
      requires Proper(id) && forall k: nat, used: set<string> :: nonce(k, used) !in used
      requires forall p :: p in names ==> !([".publication-staging", id] <= p)
      ensures Valid() && !closed && staged == map[] && world.names == names && world.waiting == map[]
      ensures forall p :: p in names ==> (p, names[p]) in world.theirs
      ensures this.id == id && this.quiet == quiet && this.failures == failures && this.digest == digest
    {
      this.id, this.quiet, this.others, this.failures := id, quiet, others, failures;
      this.digest, this.nonce := digest, nonce;
      world := World(names, files, 0, map[], set p | p in names :: (p, names[p]), map[], []);
      staged, closed := map[], false;
    }

    /** No call fails for reasons of its own between two moments. */
    ghost predicate NoFailure(from: nat, to: nat) {
      forall k: nat :: from <= k < to ==> !failures(k)
    }

    ghost predicate TwoFailures(from: nat, to: nat) {
      exists j: nat, k: nat :: from <= j < k < to && failures(j) && failures(k)
    }

    /** The last call failed and no other. */
    ghost predicate LastFailed(from: nat, to: nat) {
      from < to && failures(to - 1) && NoFailure(from, to - 1)
    }

    lemma OneTick(k: nat)
      ensures NoFailure(k, k + 1) <==> !failures(k)
    {
    }

    lemma TwoTicks(k: nat)
      ensures NoFailure(k, k)
      ensures NoFailure(k, k + 2) <==> NoFailure(k, k + 1) && NoFailure(k + 1, k + 2)
      ensures !NoFailure(k, k + 1) ==> LastFailed(k, k + 1)
      ensures NoFailure(k, k + 1) && !NoFailure(k + 1, k + 2) ==> LastFailed(k, k + 2)
    {
      hide NoFailure;
      NoFailureSplits(k, k + 1, k + 2);
      NoFailureSplits(k, k, k);
      OneTick(k);
      OneTick(k + 1);
    }

    lemma NoFailureSplits(from: nat, middle: nat, to: nat)
      requires from <= middle <= to
      ensures NoFailure(from, to) <==> NoFailure(from, middle) && NoFailure(middle, to)
      ensures NoFailure(from, from)
    {
    }

    lemma SomeFailure(from: nat, to: nat) returns (k: nat)
      requires !NoFailure(from, to)
      ensures from <= k < to && failures(k)
    {
      k :| from <= k < to && failures(k);
    }

    /** The name leads to the intact artifact. */
    ghost predicate Leads(w: World, p: Path, e: Entry) {
      Bound(w.names, p, e.identity) && IsIntact(w, e)
    }

    ghost predicate AllLead(w: World, entries: seq<Entry>) {
      forall i :: 0 <= i < |entries| ==> Leads(w, entries[i].segments, entries[i])
    }

    /** The final names neither lead to a file nor are the publisher's directories. */
    ghost predicate Free(names: Names, entries: seq<Entry>) {
      (forall i :: 0 <= i < |entries| ==> entries[i].segments !in names) && Unreserved(names, entries)
    }

    ghost predicate Unreserved(names: Names, entries: seq<Entry>) {
      forall i :: 0 <= i < |entries| ==> !Reserved(names, entries[i].segments)
    }

    /** Other processes have left every name at, above or below the path alone since `at`. */
    ghost predicate SparedAt(at: nat, w: World, p: Path) {
      forall q :: Related(q, p) ==> !ChangedSince(w, q, at)
    }

    ghost predicate Spared(s: World, w: World, entries: seq<Entry>) {
      forall i :: 0 <= i < |entries| ==> SparedAt(s.clock, w, entries[i].segments)
    }

    // ----- Single steps; each keeps Valid.

    /** The other process acts; the next call may fail for reasons of its own. */
    method Pause() returns (failed: bool)
      requires Valid()
      modifies `world
      ensures Valid() && Between(Root(), quiet, old(world), world) && world.calls == old(world.calls)
      ensures world.clock == old(world.clock) + 1 && (NoFailure(old(world.clock), world.clock) <==> !failed)
    {
      hide Accepts, Segments, Between, AllHeld, Respected, WaitingBound, NoFailure, Disturb, Stamped;
      failed := failures(world.clock);
      OneTick(world.clock);
      ghost var before := world;
      if quiet {
        TickIsBetween(Root(), world);
        world := world.(clock := world.clock + 1);
      } else {
        DisturbIsBetween(Root(), world, others(world.clock));
        world := Disturb(Root(), world, others(world.clock));
      }
      BetweenKeepsStamps(Root(), quiet, before, world);
      if !closed {
        BetweenKeepsHeld(before, world);
        BetweenKeepsBound(before, world);
      }
    }

    /** The caller's own code runs between two pauses. */
    method Callback() returns (failed: bool)
      requires Valid()
      modifies `world
      ensures Valid() && Called(Root(), quiet, old(world), world)
      ensures world.calls == old(world.calls) + [Call(world.clock, world.names)]
      ensures world.clock == old(world.clock) + 1 && (NoFailure(old(world.clock), world.clock) <==> !failed)
    {
      failed := Pause();
      ghost var before := world;
      hide Accepts, Segments, AllHeld, Respected, WaitingBound;
      world := world.(calls := world.calls + [Call(world.clock, world.names)]);
      if !closed {
        HeldBySame(before, world);
      }
    }

    lemma HeldBySame(w: World, v: World)
      requires v == w.(calls := v.calls)
      ensures AllHeld(w, staged) ==> AllHeld(v, staged)
      ensures WaitingBound(w) ==> WaitingBound(v)
      ensures Respected(Root(), w, Own()) ==> Respected(Root(), v, Own())
    {
      hide Accepts, Segments;
      if AllHeld(w, staged) {
        forall r | r in staged ensures Holds(v, r, staged[r]) {
          assert Holds(w, r, staged[r]);
        }
      }
      forall x: Binding | WaitsFor(w, x) ensures WaitsFor(v, x) {
        var q :| q in w.waiting && w.waiting[q] == x.0 && Bound(w.names, q, x.1);
        assert Bound(v.names, q, x.1);
      }
    }

    lemma BetweenKeepsHeld(w: World, v: World)
      requires Between(Root(), quiet, w, v) && AllHeld(w, staged)
      ensures AllHeld(v, staged)
    {
      hide Accepts, Segments, Follows;
      forall r | r in staged ensures Holds(v, r, staged[r]) {
        assert Holds(w, r, staged[r]);
        assert Root() <= StagingPath(staged[r]);
        assert LeftAlone(Root(), w, v, StagingPath(staged[r]));
      }
    }

    lemma BetweenKeepsBound(w: World, v: World)
      requires Between(Root(), quiet, w, v) && WaitingBound(w) && Respected(Root(), w, Own())
      ensures WaitingBound(v) && Respected(Root(), v, Own())
    {
      BetweenKeepsRespect(Root(), quiet, w, v, Own());
      BetweenKeepsWaiting(Root(), quiet, w, v);
    }

    /** Binding an absent name keeps what is staged. */
    lemma LinkKeepsHeld(w: World, p: Path, i: Inode)
      requires AllHeld(w, staged) && p !in w.names
      ensures AllHeld(Link(w, p, i), staged)
      ensures forall r :: r in staged ==> StagingPath(staged[r]) != p
    {
      hide Accepts, Segments;
      forall r | r in staged ensures Holds(Link(w, p, i), r, staged[r]) && StagingPath(staged[r]) != p {
        assert Holds(w, r, staged[r]);
      }
    }

    /** The artifact's final name, if nobody has it. */
    method LinkFinal(e: Entry)
      requires Valid() && !closed && e.segments !in world.names && e.relative in staged && staged[e.relative] == e
      modifies `world
      ensures Valid() && world == Link(old(world), e.segments, e.identity) && Movable(world, e)
    {
      hide Accepts, Segments, AllHeld, Respected;
      LinkKeepsHeld(world, e.segments, e.identity);
      LinkKeepsRespect(Root(), world, e.segments, e.identity, Own());
      world := Link(world, e.segments, e.identity);
    }

    /** A final name may be taken back: the artifact's link there is ours, and neither a staged file
        nor a waiting one has that name. */
    ghost predicate Movable(w: World, e: Entry)
      reads `staged
    {
      && (e.segments, e.identity) in Own() && e.segments !in w.waiting
      && forall r :: r in staged ==> StagingPath(staged[r]) != e.segments
    }

    ghost predicate IsFinal(p: Path)
      reads `staged
    {
      exists r :: r in staged && staged[r].segments == p
    }

    /** A quarantine name not used before. */
    ghost predicate IsNew(w: World, p: Path)
      reads `staged
    {
      IsQuarantine(p) && p !in w.names && !IsFinal(p)
    }

    /** Move whatever the final name leads to into the quarantine. */
    method TakeAway(e: Entry) returns (q: Path)
      requires Valid() && !closed && e.segments in world.names && Movable(world, e)
      modifies `world
      ensures Valid() && world == Move(old(world), e.segments, q, e.identity)
      ensures IsNew(old(world), q) && q != e.segments && q !in old(world.waiting)
    {
      hide Accepts, Segments, AllHeld, Respected;
      q := Root() + [".rollback", nonce(world.clock, Used())];
      DrawIsNew(q);
      MoveKeepsHeld(world, e.segments, q, e.identity);
      MoveKeepsRespect(Root(), world, e.segments, q, e.identity, Own());
      world := Move(world, e.segments, q, e.identity);
    }

    lemma DrawIsNew(q: Path)
      requires Valid() && q == Root() + [".rollback", nonce(world.clock, Used())]
      ensures IsNew(world, q)
    {
      hide AllHeld, Respected;
      assert Last(q) !in Used();
    }

    lemma MoveKeepsHeld(w: World, p: Path, q: Path, artifact: Inode)
      requires AllHeld(w, staged) && p in w.names && q !in w.names
      requires forall r :: r in staged ==> StagingPath(staged[r]) != p
      ensures AllHeld(Move(w, p, q, artifact), staged)
    {
      hide Accepts, Segments;
      forall r | r in staged ensures Holds(Move(w, p, q, artifact), r, staged[r]) {
        assert Holds(w, r, staged[r]);
        assert StagingPath(staged[r]) in w.names;
      }
    }

    /** Link a waiting file back at the path it came from, if that is free. */
    method RelinkWaiting(q: Path)
      requires Valid() && !closed && q in world.waiting && world.waiting[q] !in world.names
      modifies `world
      ensures q in old(world.names) && Valid() && world == Relink(old(world), q)
    {
      hide Accepts, Segments, AllHeld, Respected;
      var p := world.waiting[q];
      LinkKeepsHeld(world, p, world.names[q]);
      RelinkKeepsRespect(Root(), world, q, Own());
      ghost var linked := Link(world, p, world.names[q]);
      world := Relink(world, q);
      HeldByNames(linked, world);
    }

    lemma HeldByNames(w: World, v: World)
      requires AllHeld(w, staged) && v.names == w.names && v.files == w.files
      ensures AllHeld(v, staged)
    {
      hide Accepts, Segments;
      forall r | r in staged ensures Holds(v, r, staged[r]) {
        assert Holds(w, r, staged[r]);
      }
    }

    method DropQuarantine(q: Path)
      requires Valid() && !closed && IsQuarantine(q) && q !in world.waiting
      modifies `world
      ensures Valid() && world == Unlink(old(world), q)
    {
      hide Accepts, Segments, AllHeld, Respected;
      UnlinkKeepsHeld(world, q);
      UnlinkKeepsRespect(Root(), world, q, Own());
      world := Unlink(world, q);
    }

    lemma UnlinkKeepsHeld(w: World, q: Path)
      requires AllHeld(w, staged) && IsQuarantine(q) && Proper(id)
      ensures AllHeld(Unlink(w, q), staged)
    {
      hide Accepts, Segments;
      forall r | r in staged ensures Holds(Unlink(w, q), r, staged[r]) {
        assert Holds(w, r, staged[r]);
        StagedNotQuarantined(r, staged[r], q);
      }
    }

    lemma StagedNotQuarantined(relative: string, e: Entry, q: Path)
      requires Proper(id) && Accepts(Root(), relative) && e.segments == Segments(relative) && IsQuarantine(q)
      ensures StagingPath(e) != q
    {
      hide Accepts, Segments, Resolve;
      AcceptedIsBelow(Root(), relative);
      assert StagingPath(e)[2] == e.segments[0];
    }

    // ----- Rolling one artifact back.

    /** What taking one final name back does.  When it is done the name is free, or another process
        changed it after `since`; nothing else changes but, when it is not, a new quarantine name. */
    ghost predicate TakenBack(since: nat, w: World, v: World, e: Entry, done: bool)
      reads `staged
    {
      && Follows(quiet, w, v) && v.files == w.files
      && (forall p :: p != e.segments ==> LeftAlone(Root(), w, v, p) || (!done && IsNew(w, p)))
      && (done ==> v.waiting == w.waiting && Gone(v, e.segments, e.identity, since))
      && (forall q :: q in w.waiting ==> q in v.waiting && v.waiting[q] == w.waiting[q])
      && (forall q :: q in v.waiting ==> q in w.waiting || IsNew(w, q))
    }

    /** Another process may act before; a name it freed needs no rollback. */
    method Rollback(e: Entry, ghost since: nat) returns (done: bool)
      requires Valid() && !closed && Movable(world, e)
      requires since <= world.clock && BoundSince(world, e.segments, e.identity, since)
      modifies `world
      ensures Valid() && TakenBack(since, old(world), world, e, done) && world.calls == old(world.calls)
      ensures NoFailure(old(world.clock), world.clock) && !done ==> ChangedSince(world, e.segments, old(world.clock))
    {
      hide Accepts, Segments, AllHeld, Respected, WaitingBound, TakenBack;
      var failed := Pause();
      ghost var v := world;
      BetweenKeepsBoundSince(old(world), v, e, since);
      if e.segments !in world.names {
        NothingTaken(since, old(world), v, e, true);
        return true;
      }
      if failed {
        NothingTaken(since, old(world), v, e, false);
        return false;
      }
      done := RollbackBound(e, since);
      TakenBackFollows(since, v, world, e, done);
      PauseThenTake(since, old(world), v, world, e, done);
    }

    lemma BetweenKeepsBoundSince(w: World, v: World, e: Entry, since: nat)
      requires Between(Root(), quiet, w, v) && since <= w.clock && BoundSince(w, e.segments, e.identity, since)
      ensures since <= w.clock <= v.clock && BoundSince(v, e.segments, e.identity, since)
      ensures Movable(w, e) ==> Movable(v, e)
    {
      LeftAloneKeeps(Root(), quiet, w, v, e.segments, since);
    }

    lemma NothingTaken(since: nat, w: World, v: World, e: Entry, done: bool)
      requires Between(Root(), quiet, w, v) && (done ==> e.segments !in v.names)
      ensures TakenBack(since, w, v, e, done)
    {
      hide Follows, LeftAlone;
    }

    lemma PauseThenTake(since: nat, u: World, v: World, w: World, e: Entry, done: bool)
      requires Between(Root(), quiet, u, v) && TakenBack(since, v, w, e, done)
      ensures TakenBack(since, u, w, e, done)
    {
      hide Follows;
      FollowsTransitive(quiet, u, v, w);
      forall p | p != e.segments ensures LeftAlone(Root(), u, w, p) || (!done && IsNew(u, p)) {
        assert LeftAlone(Root(), u, v, p);
        if LeftAlone(Root(), v, w, p) {
          LeftAloneTransitive(Root(), quiet, u, v, w, p);
        }
      }
      forall q | IsNew(v, q) ensures IsNew(u, q) {
        assert LeftAlone(Root(), u, v, q);
      }
    }

    method RollbackBound(e: Entry, ghost since: nat) returns (done: bool)
      requires Valid() && !closed && Movable(world, e) && e.segments in world.names
      requires since <= world.clock && BoundSince(world, e.segments, e.identity, since)
      modifies `world
      ensures Valid() && TakenBack(since, old(world), world, e, done) && world.calls == old(world.calls)
      ensures NoFailure(old(world.clock), world.clock) && !done ==> ChangedSince(world, e.segments, old(world.clock))
    {
      hide Accepts, Segments, AllHeld, Respected, TakenBack, LeftAlone;
      var q := TakeAway(e);
      ghost var t := world;
      var own := world.names[q] == e.identity;
      var failed := Pause();
      BetweenTouchesNothing(Root(), quiet, t, world, q);
      MovedTaken(old(world), t, world, e, q);
      ghost var u := world;
      if failed {
        SameTouched(Root(), quiet, u, q, e.segments);
        TakeSteps(since, old(world), t, u, u, e, q, false);
        return false;
      }
      if own {
        done := FinishOwn(q);
        StaysWithdrawn(u, world, e.segments);
      } else {
        done := RestoreForeign(q);
        TouchedKeepsChanged(u, world, q, e.segments, old(world.clock));
      }
      TakeSteps(since, old(world), t, u, world, e, q, done);
    }

    lemma TouchedKeepsChanged(w: World, v: World, q: Path, p: Path, at: nat)
      requires Touched(Root(), quiet, w, v, q, v.waiting, p) && at <= w.clock
      ensures ChangedSince(w, p, at) ==> ChangedSince(v, p, at)
      ensures ChangedSince(v, p, w.clock) ==> ChangedSince(v, p, at)
    {
    }

    lemma MovedTaken(w: World, t: World, u: World, e: Entry, q: Path)
      requires e.segments in w.names && t == Move(w, e.segments, q, e.identity) && Between(Root(), quiet, t, u)
      requires IsQuarantine(q) && q != e.segments
      ensures w.clock == t.clock <= u.clock
      ensures e.segments in u.names ==> ChangedSince(u, e.segments, w.clock)
      ensures w.names[e.segments] != e.identity ==> q in u.waiting && u.waiting[q] == e.segments
      ensures w.names[e.segments] == e.identity ==> u.waiting == w.waiting
    {
      assert LeftAlone(Root(), t, u, e.segments);
    }

    /** From the rename, through the pause after it, to the end. */
    lemma TakeSteps(since: nat, w: World, t: World, u: World, v: World, e: Entry, q: Path, done: bool)
      requires e.segments in w.names && t == Move(w, e.segments, q, e.identity) && IsNew(w, q) && q != e.segments
      requires since <= w.clock && BoundSince(w, e.segments, e.identity, since) && q !in w.waiting
      requires Between(Root(), quiet, t, u) && Touched(Root(), quiet, u, v, q, v.waiting, e.segments)
      requires w.names[e.segments] == e.identity ==>
        LeftAlone(Root(), u, v, e.segments) && v.waiting == u.waiting
      requires Withdrawn(u, e.segments, e.identity) ==> Withdrawn(v, e.segments, e.identity)
      requires v.waiting == u.waiting || (q in u.waiting && v.waiting == u.waiting - {q})
      requires done ==> q !in v.names && q !in v.waiting
      ensures TakenBack(since, w, v, e, done)
    {
      hide Follows;
      FollowsMove(w, t, e, q);
      FollowsTransitive(quiet, w, t, u);
      FollowsTransitive(quiet, w, u, v);
      forall p | p != e.segments && p != q ensures LeftAlone(Root(), w, v, p) {
        assert LeftAlone(Root(), w, t, p);
        assert LeftAlone(Root(), t, u, p);
        LeftAloneTransitive(Root(), quiet, w, t, u, p);
        LeftAloneTransitive(Root(), quiet, w, u, v, p);
      }
      if done {
        NameIsGone(since, w, t, u, v, e);
      }
    }

    lemma FollowsMove(w: World, t: World, e: Entry, q: Path)
      requires e.segments in w.names && t == Move(w, e.segments, q, e.identity)
      ensures Follows(quiet, w, t)
    {
    }

    lemma NameIsGone(since: nat, w: World, t: World, u: World, v: World, e: Entry)
      requires e.segments in w.names && e.segments !in t.names && t.clock == w.clock && t.changedAt == w.changedAt
      requires since <= w.clock && BoundSince(w, e.segments, e.identity, since)
      requires Between(Root(), quiet, t, u) && Follows(quiet, u, v)
      requires w.names[e.segments] == e.identity ==> LeftAlone(Root(), u, v, e.segments)
      requires Withdrawn(u, e.segments, e.identity) ==> Withdrawn(v, e.segments, e.identity)
      ensures Gone(v, e.segments, e.identity, since)
    {
      LeftAloneKeeps(Root(), quiet, t, u, e.segments, since);
      if w.names[e.segments] == e.identity {
        LeftAloneKeeps(Root(), quiet, u, v, e.segments, since);
      }
    }

    lemma StaysWithdrawn(w: World, v: World, p: Path)
      requires LeftAlone(Root(), w, v, p)
      ensures forall i :: Withdrawn(w, p, i) ==> Withdrawn(v, p, i)
    {
    }

    /** Our own link: sync both directories, then drop it. */
    method FinishOwn(q: Path) returns (done: bool)
      requires Valid() && !closed && IsQuarantine(q) && q !in world.waiting
      modifies `world
      ensures Valid() && Touched(Root(), quiet, old(world), world, q, old(world.waiting), q)
      ensures world.calls == old(world.calls)
      ensures done ==> q !in world.names
      ensures NoFailure(old(world.clock), world.clock) <==> done
    {
      hide Accepts, Segments, AllHeld, Respected, WaitingBound, LeftAlone;
      var failed := Pause();
      ghost var u := world;
      BetweenTouchesNothing(Root(), quiet, old(world), u, q);
      if failed {
        return false;
      }
      DropQuarantine(q);
      ghost var v := world;
      failed := Pause();
      done := !failed;
      BetweenTouchesNothing(Root(), quiet, v, world, q);
      DropSteps(Root(), quiet, old(world), u, v, world, q);
    }

    /** A foreign file: link it back unless its name is taken again, then drop the quarantine name. */
    method RestoreForeign(q: Path) returns (done: bool)
      requires Valid() && !closed && q in world.waiting
      modifies `world
      ensures Valid() && Touched(Root(), quiet, old(world), world, q, world.waiting, old(world.waiting[q]))
      ensures world.calls == old(world.calls)
      ensures world.waiting == old(world.waiting) || world.waiting == old(world.waiting) - {q}
      ensures done ==> q !in world.names && q !in world.waiting
      ensures forall i :: i != old(world.names[q]) && Withdrawn(old(world), old(world.waiting[q]), i) ==>
        Withdrawn(world, old(world.waiting[q]), i)
      ensures done ==> NoFailure(old(world.clock), world.clock)
      ensures NoFailure(old(world.clock), world.clock) && !done ==>
        old(world.waiting[q] in world.names) || ChangedSince(world, old(world.waiting[q]), old(world.clock))
    {
      hide Accepts, Segments, AllHeld, Respected, LeftAlone;
      var p := world.waiting[q];
      if p in world.names {
        SameTouched(Root(), quiet, world, q, p);
        return false;
      }
      var moved := world.names[q];
      RelinkWaiting(q);
      ghost var t := world;
      var failed := Pause();
      ghost var u := world;
      StillRelinked(Root(), quiet, t, u, p, moved);
      assert forall i :: i != moved ==> Withdrawn(t, p, i);
      StaysWithdrawn(t, u, p);
      BetweenTouchesNothing(Root(), quiet, t, u, q);
      RelinkSteps(Root(), quiet, old(world), t, u, q);
      if failed || !Bound(world.names, p, moved) {
        return false;
      }
      done := FinishOwn(q);
      StaysWithdrawn(u, world, p);
      TouchedTransitive(Root(), quiet, old(world), u, world, q, p);
    }

    // ----- How far a publication has come.

    /** The entries are staged, under final paths none of which lies below another. */
    ghost predicate Selected(entries: seq<Entry>)
      reads `staged
    {
      && (forall i :: 0 <= i < |entries| ==> entries[i].relative in staged && staged[entries[i].relative] == entries[i])
      && (forall i, j :: 0 <= i < |entries| && 0 <= j < |entries| && i != j ==>
            !(entries[i].segments <= entries[j].segments))
    }

    /** Since the world was `s` the first `count` entries were linked, at names that were free, and
        those from `i` on taken back but for the `incomplete` ones; the publisher left every other
        name alone, except for quarantine names of an incomplete rollback. */
    ghost predicate Progress(s: World, w: World, entries: seq<Entry>, count: nat, i: nat, incomplete: seq<string>)
      requires i <= count <= |entries|
      reads `staged
    {
      && Follows(quiet, s, w) && w.files == s.files
      && (forall p :: NotAmong(entries, count, p) ==>
            LeftAlone(Root(), s, w, p) || (incomplete != [] && IsNew(s, p)))
      && (forall j :: 0 <= j < i ==>
            Movable(w, entries[j]) && BoundSince(w, entries[j].segments, entries[j].identity, s.clock))
      && (forall j :: 0 <= j < |entries| ==> Vacated(s, w, entries[j].segments))
      && (forall j :: 0 <= j < count ==> entries[j].segments !in s.waiting)
      && (forall j :: i <= j < |entries| && entries[j].relative !in incomplete ==>
            Gone(w, entries[j].segments, entries[j].identity, s.clock))
      && (forall q :: q in s.waiting ==> q in w.waiting && w.waiting[q] == s.waiting[q])
      && (incomplete == [] ==> w.waiting == s.waiting)
    }

    lemma ProgressStarts(s: World, w: World, entries: seq<Entry>)
      requires Idle(Root(), quiet, s, w) && forall i :: 0 <= i < |entries| ==>
        Gone(w, entries[i].segments, entries[i].identity, s.clock)
      ensures Progress(s, w, entries, 0, 0, [])
    {
      hide Follows;
      forall j | 0 <= j < |entries| ensures Vacated(s, w, entries[j].segments) {
        assert LeftAlone(Root(), s, w, entries[j].segments);
      }
    }

    lemma IdleKeepsProgress(s: World, w: World, v: World, entries: seq<Entry>, count: nat)
      requires count <= |entries| && Progress(s, w, entries, count, count, []) && Idle(Root(), quiet, w, v)
      ensures Progress(s, v, entries, count, count, [])
    {
      hide Follows, LeftAlone, Gone, BoundSince;
      FollowsTransitive(quiet, s, w, v);
      ClockGrows(quiet, s, w);
      forall p | NotAmong(entries, count, p) ensures LeftAlone(Root(), s, v, p) {
        LeftAloneTransitive(Root(), quiet, s, w, v, p);
      }
      forall j | 0 <= j < |entries|
        ensures j < count ==> Movable(v, entries[j]) && BoundSince(v, entries[j].segments, entries[j].identity, s.clock)
        ensures Vacated(s, v, entries[j].segments)
        ensures j >= count ==> Gone(v, entries[j].segments, entries[j].identity, s.clock)
      {
        LeftAloneKeeps(Root(), quiet, w, v, entries[j].segments, s.clock);
        VacatedStays(quiet, s, w, v, entries[j].segments);
      }
    }

    // ----- Rolling back.

    lemma FinalOf(entries: seq<Entry>, j: nat)
      requires Selected(entries) && j < |entries|
      ensures IsFinal(entries[j].segments)
    {
      assert staged[entries[j].relative].segments == entries[j].segments;
    }

    /** Other final names are not the new quarantine name, so they were left alone. */
    lemma OtherFinals(since: nat, w: World, v: World, entries: seq<Entry>, i: nat, done: bool)
      requires i < |entries| && Selected(entries) && TakenBack(since, w, v, entries[i], done)
      ensures forall j :: 0 <= j < |entries| && j != i ==> LeftAlone(Root(), w, v, entries[j].segments)
      ensures forall j :: 0 <= j < |entries| && j != i && Movable(w, entries[j]) ==> Movable(v, entries[j])
    {
      hide Follows, LeftAlone;
      forall j | 0 <= j < |entries| && j != i
        ensures LeftAlone(Root(), w, v, entries[j].segments) && (Movable(w, entries[j]) ==> Movable(v, entries[j]))
      {
        FinalOf(entries, j);
        assert entries[j].segments != entries[i].segments;
        assert !IsNew(w, entries[j].segments);
      }
    }

    lemma OthersAlone(s: World, w: World, v: World, e: Entry, p: Path, some: bool, done: bool)
      requires Follows(quiet, s, w) && TakenBack(s.clock, w, v, e, done) && p != e.segments
      requires LeftAlone(Root(), s, w, p) || (some && IsNew(s, p))
      ensures LeftAlone(Root(), s, v, p) || ((some || !done) && IsNew(s, p))
    {
      hide Follows;
      if LeftAlone(Root(), s, w, p) && LeftAlone(Root(), w, v, p) {
        LeftAloneTransitive(Root(), quiet, s, w, v, p);
      }
    }

    lemma TakenBackKeepsProgress(s: World, w: World, v: World, entries: seq<Entry>, count: nat, i: nat,
                                 incomplete: seq<string>, done: bool)
      requires i < count <= |entries| && Selected(entries)
      requires Progress(s, w, entries, count, i + 1, incomplete) && TakenBack(s.clock, w, v, entries[i], done)
      ensures Progress(s, v, entries, count, i, if done then incomplete else incomplete + [entries[i].relative])
    {
      hide Follows, Gone, BoundSince, Vacated, LeftAlone, IsNew, Movable, Selected;
      var after := if done then incomplete else incomplete + [entries[i].relative];
      FollowsTransitive(quiet, s, w, v);
      ClockGrows(quiet, s, w);
      OtherFinals(s.clock, w, v, entries, i, done);
      forall p | NotAmong(entries, count, p) ensures LeftAlone(Root(), s, v, p) || (after != [] && IsNew(s, p)) {
        OthersAlone(s, w, v, entries[i], p, incomplete != [], done);
      }
      forall j | 0 <= j < |entries| && j != i
        ensures j < i ==> BoundSince(v, entries[j].segments, entries[j].identity, s.clock)
        ensures j > i && entries[j].relative !in after ==> Gone(v, entries[j].segments, entries[j].identity, s.clock)
      {
        LeftAloneKeeps(Root(), quiet, w, v, entries[j].segments, s.clock);
      }
      forall j | 0 <= j < |entries| ensures Vacated(s, v, entries[j].segments) {
        VacatedStays(quiet, s, w, v, entries[j].segments);
      }
    }

    /** Roll back in reverse order; the relative paths of those that did not succeed. */
    method RollbackAll(entries: seq<Entry>, count: nat, ghost s: World) returns (incomplete: seq<string>)
      requires Valid() && !closed && Selected(entries) && count <= |entries|
      requires Progress(s, world, entries, count, count, [])
      modifies `world
      ensures Valid() && Progress(s, world, entries, count, 0, incomplete)
      ensures Follows(quiet, old(world), world) && world.calls == old(world.calls)
      ensures forall x :: x in incomplete ==> x in staged && exists i :: 0 <= i < |entries| && entries[i].relative == x
      ensures NoFailure(old(world.clock), world.clock) ==> Changed(world, entries, incomplete, old(world.clock))
    {
      hide Valid, Progress, TakenBack, Movable, BoundSince, Follows, Changed;
      StartsIdle(Root(), quiet, world);
      NothingChanged(world, entries, world.clock);
      incomplete := [];
      var i := count;
      while i > 0
        invariant 0 <= i <= count && Valid() && Progress(s, world, entries, count, i, incomplete)
        invariant Follows(quiet, old(world), world) && world.calls == old(world.calls)
        invariant forall x :: x in incomplete ==>
          x in staged && exists i :: 0 <= i < |entries| && entries[i].relative == x
        invariant NoFailure(old(world.clock), world.clock) ==> Changed(world, entries, incomplete, old(world.clock))
      {
        i := i - 1;
        ghost var w := world;
        ProgressMovable(s, w, entries, count, i + 1, incomplete);
        var done := Rollback(entries[i], s.clock);
        TakenBackFollows(s.clock, w, world, entries[i], done);
        FollowsTransitive(quiet, old(world), w, world);
        ClockGrows(quiet, old(world), w);
        ClockGrows(quiet, w, world);
        StillChanged(w, world, entries, i, incomplete, old(world.clock));
        TakenBackKeepsProgress(s, w, world, entries, count, i, incomplete, done);
        if !done {
          incomplete := incomplete + [entries[i].relative];
        }
      }
    }

    lemma ProgressMovable(s: World, w: World, entries: seq<Entry>, count: nat, i: nat, incomplete: seq<string>)
      requires 0 < i <= count <= |entries| && Progress(s, w, entries, count, i, incomplete)
      ensures s.clock <= w.clock && Movable(w, entries[i - 1])
      ensures BoundSince(w, entries[i - 1].segments, entries[i - 1].identity, s.clock)
    {
    }

    lemma TakenBackFollows(since: nat, w: World, v: World, e: Entry, done: bool)
      requires TakenBack(since, w, v, e, done)
      ensures Follows(quiet, w, v) && v.clock >= w.clock
      ensures forall p, at: nat :: at <= w.clock && ChangedSince(v, p, w.clock) ==> ChangedSince(v, p, at)
    {
    }

    /** Others changed the final name of each of these entries after `at`. */
    ghost predicate Changed(w: World, entries: seq<Entry>, relatives: seq<string>, at: nat) {
      forall i :: 0 <= i < |entries| && entries[i].relative in relatives ==> ChangedSince(w, entries[i].segments, at)
    }

    lemma NothingChanged(w: World, entries: seq<Entry>, at: nat)
      ensures Changed(w, entries, [], at)
    {
    }

    lemma StillChanged(w: World, v: World, entries: seq<Entry>, i: nat, relatives: seq<string>, at: nat)
      requires Follows(quiet, w, v) && at <= w.clock && i < |entries| && Selected(entries)
      ensures Changed(w, entries, relatives, at) ==> Changed(v, entries, relatives, at)
      ensures Changed(w, entries, relatives, at) && ChangedSince(v, entries[i].segments, w.clock) ==>
        Changed(v, entries, relatives + [entries[i].relative], at)
    {
      forall j | 0 <= j < |entries| && entries[j].relative == entries[i].relative ensures j == i {
        assert entries[j] == entries[i];
      }
    }

    // ----- Discarding.

    /** What discarding does: the staging directory's names go, if it is moved away, and no others. */
    ghost predicate Discarded(w: World, v: World, shut: bool)
      reads `staged
    {
      && Follows(quiet, w, v) && v.files == w.files && v.waiting == w.waiting && v.calls == w.calls
      && (forall p :: !(shut && Root() <= p) ==> LeftAlone(Root(), w, v, p))
      && (shut ==> forall p :: p in v.names ==> !(Root() <= p))
      && (shut ==> forall x: Binding :: x in v.theirs ==> x in Own() || Bound(v.names, x.0, x.1) || WaitsFor(w, x))
    }

    /** Move the staging directory away and delete it, quarantine included. */
    method Discard() returns (ok: bool)
      requires Valid()
      modifies this
      ensures Valid() && staged == old(staged)
      ensures old(closed) ==> ok && closed && world == old(world)
      ensures !old(closed) ==> Discarded(old(world), world, closed)
      ensures !old(closed) && old(world.waiting) == map[] ==> AllStand(world)
      ensures (ok ==> closed) && (NoFailure(old(world.clock), world.clock) <==> ok)
      ensures !ok ==> LastFailed(old(world.clock), world.clock)
    {
      hide Accepts, Segments, AllHeld, Discarded, NoFailure, LastFailed;
      TwoTicks(world.clock);
      if closed {
        return true;
      }
      var failed := Pause();
      ghost var u := world;
      BetweenIsDiscarded(old(world), u);
      if failed {
        return false;
      }
      DiscardKeepsOthers(Root(), u, Own());
      world := world.(names := Outside(world.names, Root()));
      closed := true;
      ghost var v := world;
      failed := Pause();
      DiscardSteps(old(world), u, v, world);
      ok := !failed;
    }

    /** Exactly when closing the publisher loses a file of another process that leaves its name alone:
        the file was waiting in the quarantine and not bound at its path. */
    lemma LostToDiscardIff(w: World, v: World, x: Binding)
      requires Respected(Root(), w, Own()) && Discarded(w, v, true)
      requires x in v.theirs && x !in Own() && !ChangedSince(v, x.0, w.clock)
      ensures !Bound(v.names, x.0, x.1) && !Quarantined(v.names, x.1) <==> WaitsFor(w, x) && !Bound(w.names, x.0, x.1)
    {
      hide Follows;
      assert (x in w.theirs <==> x in v.theirs) || ChangedSince(v, x.0, w.clock) by { SameHistory(w, v, x); }
      assert LeftAlone(Root(), w, v, x.0);
    }

    lemma SameHistory(w: World, v: World, x: Binding)
      requires Follows(quiet, w, v)
      ensures (x in w.theirs <==> x in v.theirs) || ChangedSince(v, x.0, w.clock)
    {
    }

    lemma BetweenIsDiscarded(w: World, v: World)
      requires Between(Root(), quiet, w, v)
      ensures Discarded(w, v, false)
    {
      hide Follows, LeftAlone;
    }

    lemma DiscardSteps(w: World, u: World, v: World, x: World)
      requires Between(Root(), quiet, w, u) && v == u.(names := Outside(u.names, Root())) &&
               Between(Root(), quiet, v, x)
      requires WaitingBelow(Root(), w)
      requires forall b: Binding :: b in u.theirs ==> b in Own() || Bound(v.names, b.0, b.1) || WaitsFor(u, b)
      ensures Discarded(w, x, true)
    {
      FollowsOutside(Root(), quiet, u, v);
      hide Follows;
      FollowsTransitive(quiet, w, u, v);
      FollowsTransitive(quiet, w, v, x);
      forall p | !(Root() <= p) ensures LeftAlone(Root(), w, x, p) {
        assert LeftAlone(Root(), u, v, p);
        LeftAloneTransitive(Root(), quiet, w, u, v, p);
        LeftAloneTransitive(Root(), quiet, w, v, x, p);
      }
      forall p | p in x.names ensures !(Root() <= p) {
        assert LeftAlone(Root(), v, x, p);
      }
      WaitedBefore(Root(), quiet, w, u);
      forall b: Binding | b in x.theirs && b !in Own() && !Bound(x.names, b.0, b.1) ensures WaitsFor(w, b) {
        assert b in v.theirs && !Bound(v.names, b.0, b.1);
      }
    }

    // ----- Checking and linking.

    lemma QuietIdle(w: World, v: World)
      requires Idle(Root(), quiet, w, v) && Stamped(w)
      ensures quiet ==> v.names == w.names
      ensures quiet ==> forall p, e :: Leads(w, p, e) ==> Leads(v, p, e)
    {
      if quiet {
        forall p ensures SameAt(w.names, v.names, p) {
          QuietIsSame(Root(), w, v, p);
        }
        SameNames(w.names, v.names);
      }
    }

    /** The path is the publisher's, or others left it alone. */
    ghost predicate StillSame(w: World, v: World, p: Path) {
      Root() <= p || !ChangedSince(v, p, w.clock)
    }

    lemma IdleLeads(w: World, v: World, p: Path, e: Entry)
      requires Idle(Root(), quiet, w, v)
      ensures StillSame(w, v, p) ==> SameAt(w.names, v.names, p)
      ensures StillSame(w, v, p) && Leads(w, p, e) ==> Leads(v, p, e)
    {
      hide Follows;
      assert LeftAlone(Root(), w, v, p);
    }

    /** Identity, mode, length and hash of the file a name leads to. */
    method CheckContent(e: Entry, candidate: Path) returns (ok: bool)
      requires Valid()
      modifies `world
      ensures Valid() && Between(Root(), quiet, old(world), world) && Idle(Root(), quiet, old(world), world)
      ensures ok ==> Leads(world, candidate, e) && NoFailure(old(world.clock), world.clock)
      ensures world.calls == old(world.calls)
      ensures NoFailure(old(world.clock), world.clock) && StillSame(old(world), world, candidate) ==>
        (Leads(old(world), candidate, e) ==> ok)
    {
      hide Accepts, Segments, AllHeld, Respected, WaitingBound, Between, Idle, StillSame;
      var failed := Pause();
      BetweenIsIdle(Root(), quiet, old(world), world);
      IdleLeads(old(world), world, candidate, e);
      ok := !failed && Bound(world.names, candidate, e.identity) && IsIntact(world, e);
    }

    lemma SelectedLeads(entries: seq<Entry>, i: nat)
      requires AllHeld(world, staged) && Selected(entries) && i < |entries|
      ensures Leads(world, StagingPath(entries[i]), entries[i])
    {
      assert Holds(world, entries[i].relative, staged[entries[i].relative]);
    }

    /** Before anything is linked: staged content in place and final names free. */
    method Precheck(entries: seq<Entry>) returns (ok: bool)
      requires Valid() && !closed && Selected(entries)
      modifies `world
      ensures Valid() && Idle(Root(), quiet, old(world), world) && world.calls == old(world.calls)
      ensures ok ==> forall i :: 0 <= i < |entries| ==>
        Gone(world, entries[i].segments, entries[i].identity, old(world.clock))
      ensures ok ==> NoFailure(old(world.clock), world.clock)
      ensures ok && Spared(old(world), world, entries) ==>
        Unreserved(old(world.names), entries) && Unreserved(world.names, entries)
      ensures NoFailure(old(world.clock), world.clock) && Spared(old(world), world, entries) ==>
        (Free(old(world.names), entries) ==> ok)
    {
      hide Accepts, Segments, AllHeld, Respected, WaitingBound, Between, Idle, Leads, Gone, Reserved, SparedAt;
      var failed := Pause();
      BetweenIsIdle(Root(), quiet, old(world), world);
      IdleClock(Root(), quiet, old(world), world);
      if failed {
        return false;
      }
      for i := 0 to |entries|
        invariant Valid() && Idle(Root(), quiet, old(world), world) && world.clock >= old(world.clock)
        invariant NoFailure(old(world.clock), world.clock) && world.calls == old(world.calls)
        invariant forall j :: 0 <= j < i ==> Gone(world, entries[j].segments, entries[j].identity, old(world.clock))
        invariant forall j :: 0 <= j < i && SparedAt(old(world.clock), world, entries[j].segments) ==>
          !Reserved(old(world.names), entries[j].segments)
      {
        ghost var w := world;
        SelectedLeads(entries, i);
        ok := CheckContent(entries[i], StagingPath(entries[i]));
        IdleTransitive(Root(), quiet, old(world), w, world);
        IdleClock(Root(), quiet, w, world);
        IdleKeepsGone(w, world, entries, i, old(world.clock));
        forall j | 0 <= j <= i
          ensures SparedAt(old(world.clock), world, entries[j].segments) ==>
            SparedAt(old(world.clock), w, entries[j].segments)
        {
          IdleSpares(w, world, entries[j].segments, old(world.clock));
        }
        IdleReserves(old(world), world, entries[i].segments);
        if !ok || entries[i].segments in world.names || Reserved(world.names, entries[i].segments) {
          return false;
        }
        AbsentIsGone(world, entries[i].segments, entries[i].identity, old(world.clock));
      }
      forall i | 0 <= i < |entries|
        ensures SparedAt(old(world.clock), world, entries[i].segments) ==>
          (Reserved(old(world.names), entries[i].segments) <==> Reserved(world.names, entries[i].segments))
      {
        IdleReserves(old(world), world, entries[i].segments);
      }
      ok := true;
    }

    lemma IdleSpares(w: World, v: World, p: Path, at: nat)
      requires Idle(Root(), quiet, w, v) && at <= w.clock
      ensures SparedAt(at, v, p) ==> SparedAt(at, w, p) && SparedAt(w.clock, v, p)
      ensures SparedAt(at, v, p) ==> SameAt(w.names, v.names, p) && !ChangedSince(v, p, w.clock)
    {
      FollowsSpares(w, v, p, at);
      assert LeftAlone(Root(), w, v, p);
      assert Related(p, p);
    }

    /** Who spares a path to the end has spared it so far. */
    lemma FollowsSpares(w: World, v: World, p: Path, at: nat)
      requires Follows(quiet, w, v) && at <= w.clock
      ensures SparedAt(at, v, p) ==> SparedAt(at, w, p) && SparedAt(w.clock, v, p)
    {
      forall q | Related(q, p) ensures ChangedSince(w, q, at) ==> ChangedSince(v, q, at) {
      }
    }

    lemma FollowsSparesAll(s: World, w: World, v: World, entries: seq<Entry>)
      requires Follows(quiet, w, v) && s.clock <= w.clock
      ensures Spared(s, v, entries) ==> Spared(s, w, entries)
    {
      hide SparedAt, Follows;
      forall i | 0 <= i < |entries|
        ensures SparedAt(s.clock, v, entries[i].segments) ==> SparedAt(s.clock, w, entries[i].segments)
      {
        FollowsSpares(w, v, entries[i].segments, s.clock);
      }
    }

    /** A path that is spared is reserved as it was. */
    lemma IdleReserves(w: World, v: World, p: Path)
      requires Idle(Root(), quiet, w, v)
      ensures SparedAt(w.clock, v, p) ==> (Reserved(w.names, p) <==> Reserved(v.names, p))
      ensures SparedAt(w.clock, v, p) ==> SameAt(w.names, v.names, p)
    {
      hide Follows;
      if SparedAt(w.clock, v, p) {
        forall q | Related(q, p) ensures SameAt(w.names, v.names, q) {
          assert LeftAlone(Root(), w, v, q);
        }
        assert Related(p, p);
        SameReserves(w.names, v.names, p);
      }
    }

    lemma SameReserves(a: Names, b: Names, p: Path)
      requires forall q :: Related(q, p) && q != p ==> SameAt(a, b, q)
      ensures Reserved(a, p) <==> Reserved(b, p)
    {
      hide Related;
      if q :| q in a && q != p && Related(q, p) {
        assert SameAt(a, b, q);
      }
      if q :| q in b && q != p && Related(q, p) {
        assert SameAt(a, b, q);
      }
    }

    lemma SameHolds(a: Names, b: Names, p: Path)
      requires forall q :: Root() <= q ==> SameAt(a, b, q)
      ensures FileAbove(a, p) <==> FileAbove(b, p)
      ensures FileBelow(a, p) <==> FileBelow(b, p)
    {
      if FileAbove(a, p) {
        var q :| q in a && Root() <= q && q <= p && q != p;
        assert SameAt(a, b, q);
      }
      if FileAbove(b, p) {
        var q :| q in b && Root() <= q && q <= p && q != p;
        assert SameAt(a, b, q);
      }
      if FileBelow(a, p) {
        var q :| q in a && Root() <= q && p <= q && q != p;
        assert SameAt(a, b, q);
      }
      if FileBelow(b, p) {
        var q :| q in b && Root() <= q && p <= q && q != p;
        assert SameAt(a, b, q);
      }
    }

    lemma IdleKeepsGone(w: World, v: World, entries: seq<Entry>, k: nat, at: nat)
      requires k <= |entries| && Idle(Root(), quiet, w, v) && at <= w.clock
      requires forall j :: 0 <= j < k ==> Gone(w, entries[j].segments, entries[j].identity, at)
      ensures forall j :: 0 <= j < k ==> Gone(v, entries[j].segments, entries[j].identity, at)
    {
      hide Follows, LeftAlone, Gone;
      forall j | 0 <= j < k ensures Gone(v, entries[j].segments, entries[j].identity, at) {
        LeftAloneKeeps(Root(), quiet, w, v, entries[j].segments, at);
      }
    }

    lemma AbsentIsGone(w: World, p: Path, i: Inode, at: nat)
      requires p !in w.names
      ensures Gone(w, p, i, at)
    {
    }

    /** What linking one artifact does: its final name was free at some moment and has led to it
        since, or the publisher left every name alone. */
    ghost predicate LinkedOne(w: World, v: World, e: Entry, linked: bool)
      reads `staged
    {
      && Follows(quiet, w, v) && v.files == w.files && v.waiting == w.waiting
      && (forall p :: p != e.segments || !linked ==> LeftAlone(Root(), w, v, p))
      && (linked ==> Movable(v, e) && BoundSince(v, e.segments, e.identity, w.clock) && Vacated(w, v, e.segments))
    }

    /** One artifact: check the staged file, link it if the name is free, check the published file. */
    method LinkOne(e: Entry) returns (ok: bool, linked: bool)
      requires Valid() && !closed && e.relative in staged && staged[e.relative] == e
      modifies `world
      ensures Valid() && LinkedOne(old(world), world, e, linked) && world.calls == old(world.calls)
      ensures ok ==> linked && NoFailure(old(world.clock), world.clock)
      ensures NoFailure(old(world.clock), world.clock) && SparedAt(old(world.clock), world, e.segments) ==>
        (Free(old(world.names), [e]) && Leads(old(world), StagingPath(e), e) ==> ok)
    {
      hide Accepts, Segments, AllHeld, Respected, WaitingBound, Between, Idle, Leads, LinkedOne, Reserved, SparedAt;
      linked := false;
      var failed := Pause();
      ghost var u := world;
      BetweenIsIdle(Root(), quiet, old(world), u);
      IdleClock(Root(), quiet, old(world), u);
      IdleLeads(old(world), u, StagingPath(e), e);
      ok := CheckContent(e, StagingPath(e));
      ghost var v := world;
      IdleTransitive(Root(), quiet, old(world), u, v);
      IdleClock(Root(), quiet, u, v);
      IdleLeads(u, v, StagingPath(e), e);
      NotLinked(old(world), v, e);
      if failed || !ok {
        return false, false;
      }
      failed := Pause();
      ghost var w := world;
      BetweenIsIdle(Root(), quiet, v, w);
      IdleTransitive(Root(), quiet, old(world), v, w);
      IdleClock(Root(), quiet, v, w);
      IdleLeads(v, w, StagingPath(e), e);
      NotLinked(old(world), w, e);
      IdleReserves(old(world), w, e.segments);
      assert [e][0] == e;
      if failed || e.segments in world.names || Reserved(world.names, e.segments) {
        return false, false;
      }
      LinkFinal(e);
      linked := true;
      ghost var t := world;
      LinkedLeads(w, t, e);
      ok := CheckContent(e, e.segments);
      ghost var x := world;
      failed := Pause();
      BetweenIsIdle(Root(), quiet, x, world);
      IdleTransitive(Root(), quiet, t, x, world);
      IdleClock(Root(), quiet, t, x);
      IdleClock(Root(), quiet, x, world);
      SparedThrough(old(world), w, t, x, world, e.segments);
      LinkSteps(old(world), w, t, world, e);
      ok := ok && !failed;
    }

    /** A path spared to the end was spared up to its linking, and until it was checked. */
    lemma SparedThrough(s: World, w: World, t: World, x: World, v: World, p: Path)
      requires Idle(Root(), quiet, s, w) && Follows(quiet, w, t) && t.clock == w.clock
      requires Idle(Root(), quiet, t, x) && Idle(Root(), quiet, x, v)
      ensures SparedAt(s.clock, v, p) ==> SparedAt(s.clock, w, p) && StillSame(t, x, p)
    {
      FollowsTransitive(quiet, t, x, v);
      FollowsTransitive(quiet, w, t, v);
      FollowsSpares(w, v, p, s.clock);
      assert Related(p, p);
    }

    lemma NotLinked(w: World, v: World, e: Entry)
      requires Idle(Root(), quiet, w, v)
      ensures LinkedOne(w, v, e, false)
    {
      hide Follows, LeftAlone;
    }

    lemma LinkedLeads(w: World, t: World, e: Entry)
      requires t == Link(w, e.segments, e.identity)
      ensures Leads(w, StagingPath(e), e) ==> Leads(t, e.segments, e)
    {
    }

    lemma LinkSteps(w: World, u: World, t: World, v: World, e: Entry)
      requires Idle(Root(), quiet, w, u) && e.segments !in u.names && t == Link(u, e.segments, e.identity)
      requires Idle(Root(), quiet, t, v) && Movable(t, e)
      ensures LinkedOne(w, v, e, true)
    {
      hide Follows, LeftAlone, BoundSince, Vacated;
      LinkTouches(w, u, t, e);
      FollowsTransitive(quiet, w, t, v);
      ClockGrows(quiet, w, t);
      forall p | p != e.segments ensures LeftAlone(Root(), w, v, p) {
        LeftAloneTransitive(Root(), quiet, w, t, v, p);
      }
      LeftAloneKeeps(Root(), quiet, t, v, e.segments, w.clock);
      VacatedStays(quiet, w, t, v, e.segments);
    }

    lemma LinkTouches(w: World, u: World, t: World, e: Entry)
      requires Idle(Root(), quiet, w, u) && e.segments !in u.names && t == Link(u, e.segments, e.identity)
      ensures Follows(quiet, w, t) && forall p :: p != e.segments ==> LeftAlone(Root(), w, t, p)
      ensures Vacated(w, t, e.segments) && BoundSince(t, e.segments, e.identity, w.clock)
    {
      FollowsLink(u, t, e);
      hide Follows;
      FollowsTransitive(quiet, w, u, t);
      assert LeftAlone(Root(), w, u, e.segments);
      forall p | p != e.segments ensures LeftAlone(Root(), w, t, p) {
        assert LeftAlone(Root(), w, u, p);
      }
    }

    lemma FollowsLink(u: World, t: World, e: Entry)
      requires t == Link(u, e.segments, e.identity)
      ensures Follows(quiet, u, t)
    {
    }

    lemma LinkedKeepsProgress(s: World, w: World, v: World, entries: seq<Entry>, c: nat, linked: bool)
      requires c < |entries| && Selected(entries)
      requires Progress(s, w, entries, c, c, []) && LinkedOne(w, v, entries[c], linked)
      ensures var k := if linked then c + 1 else c; Progress(s, v, entries, k, k, [])
    {
      hide Follows, LeftAlone, Gone, Vacated;
      var k := if linked then c + 1 else c;
      FollowsTransitive(quiet, s, w, v);
      ClockGrows(quiet, s, w);
      forall p | NotAmong(entries, k, p) ensures LeftAlone(Root(), s, v, p) {
        assert linked ==> p != entries[c].segments;
        LeftAloneTransitive(Root(), quiet, s, w, v, p);
      }
      forall j | 0 <= j < |entries|
        ensures j < k ==> Movable(v, entries[j]) && BoundSince(v, entries[j].segments, entries[j].identity, s.clock)
        ensures Vacated(s, v, entries[j].segments)
        ensures j >= k ==> Gone(v, entries[j].segments, entries[j].identity, s.clock)
      {
        VacatedStays(quiet, s, w, v, entries[j].segments);
        if j != c || !linked {
          LeftAloneKeeps(Root(), quiet, w, v, entries[j].segments, s.clock);
        }
      }
    }

    /** Link every artifact to its final name, never over another file, and check what it leads to. */
    method LinkAll(entries: seq<Entry>, ghost s: World) returns (ok: bool, count: nat)
      requires Valid() && !closed && Selected(entries) && Stamped(s) && Progress(s, world, entries, 0, 0, [])
      modifies `world
      ensures Valid() && count <= |entries| && (ok ==> count == |entries|)
      ensures Progress(s, world, entries, count, count, []) && Follows(quiet, old(world), world)
      ensures ok ==> NoFailure(old(world.clock), world.clock)
      ensures world.calls == old(world.calls)
      ensures NoFailure(old(world.clock), world.clock) && Spared(s, world, entries) ==>
        (Unreserved(old(world.names), entries) ==> ok)
    {
      hide Accepts, Segments, AllHeld, Respected, WaitingBound, Leads, LinkedOne, Progress, Reserved, Follows;
      hide SparedAt;
      StartsIdle(Root(), quiet, world);
      count := 0;
      while count < |entries|
        invariant count <= |entries| && Valid() && Selected(entries) && Follows(quiet, old(world), world)
        invariant Progress(s, world, entries, count, count, []) && NoFailure(old(world.clock), world.clock)
        invariant world.calls == old(world.calls)
        invariant Spared(s, world, entries) && Unreserved(old(world.names), entries) ==>
          Unreserved(world.names, entries)
      {
        ghost var w := world;
        SelectedLeads(entries, count);
        SparedProgress(s, world, entries, count);
        var linked;
        ok, linked := LinkOne(entries[count]);
        LinkedKeepsProgress(s, w, world, entries, count, linked);
        LinkedFollows(w, world, entries[count], linked);
        FollowsTransitive(quiet, old(world), w, world);
        ClockGrows(quiet, old(world), w);
        FollowsSparesAll(s, w, world, entries);
        FollowsSpares(w, world, entries[count].segments, s.clock);
        LinkedReserves(s, w, world, entries, count, linked);
        if linked {
          count := count + 1;
        }
        if !ok {
          return;
        }
      }
      ok := true;
    }

    /** A final path below no other reserves none of them. */
    lemma LinkedReserves(s: World, w: World, v: World, entries: seq<Entry>, c: nat, linked: bool)
      requires c < |entries| && Selected(entries) && LinkedOne(w, v, entries[c], linked) && s.clock <= w.clock
      ensures Spared(s, v, entries) && Unreserved(w.names, entries) ==> Unreserved(v.names, entries)
    {
      hide Follows, Reserved;
      if Spared(s, v, entries) {
        forall i | 0 <= i < |entries|
          ensures Reserved(v.names, entries[i].segments) ==> Reserved(w.names, entries[i].segments)
        {
          LinkedSame(s, w, v, entries, c, i, linked);
          SameReserves(w.names, v.names, entries[i].segments);
        }
      }
    }

    lemma LinkedSame(s: World, w: World, v: World, entries: seq<Entry>, c: nat, i: nat, linked: bool)
      requires c < |entries| && Selected(entries) && LinkedOne(w, v, entries[c], linked) && s.clock <= w.clock
      requires i < |entries| && Spared(s, v, entries)
      ensures forall q :: Related(q, entries[i].segments) && q != entries[i].segments ==> SameAt(w.names, v.names, q)
    {
      hide Follows;
      forall q | Related(q, entries[i].segments) && q != entries[i].segments ensures SameAt(w.names, v.names, q) {
        assert SparedAt(s.clock, v, entries[i].segments);
        assert q != entries[c].segments;
        assert LeftAlone(Root(), w, v, q);
      }
    }

    lemma LinkedFollows(w: World, v: World, e: Entry, linked: bool)
      requires LinkedOne(w, v, e, linked)
      ensures Follows(quiet, w, v) && v.clock >= w.clock
    {
    }

    /** Where others spared the final names, what was linked is bound and what was not is free. */
    lemma SparedProgress(s: World, w: World, entries: seq<Entry>, count: nat)
      requires count <= |entries| && Progress(s, w, entries, count, count, [])
      ensures s.clock <= w.clock
      ensures Spared(s, w, entries) ==>
        forall j :: 0 <= j < count ==> Bound(w.names, entries[j].segments, entries[j].identity)
      ensures Spared(s, w, entries) ==> forall j :: count <= j < |entries| ==> entries[j].segments !in w.names
    {
      hide LeftAlone;
      if Spared(s, w, entries) {
        forall j | 0 <= j < |entries| ensures !ChangedSince(w, entries[j].segments, s.clock) {
          assert SparedAt(s.clock, w, entries[j].segments) && Related(entries[j].segments, entries[j].segments);
        }
      }
    }

    ghost predicate AllSame(w: World, v: World, entries: seq<Entry>) {
      forall i :: 0 <= i < |entries| ==> StillSame(w, v, entries[i].segments)
    }

    lemma SameSoFar(u: World, w: World, v: World, p: Path)
      requires Idle(Root(), quiet, u, w) && Idle(Root(), quiet, w, v)
      ensures StillSame(u, v, p) ==> StillSame(u, w, p) && StillSame(w, v, p)
    {
    }

    /** The last look at every final name. */
    method ConfirmAll(entries: seq<Entry>) returns (ok: bool)
      requires Valid()
      modifies `world
      ensures Valid() && Idle(Root(), quiet, old(world), world) && world.calls == old(world.calls)
      ensures ok ==> NoFailure(old(world.clock), world.clock)
      ensures ok ==> forall i :: 0 <= i < |entries| ==>
        BoundSince(world, entries[i].segments, entries[i].identity, old(world.clock))
      ensures NoFailure(old(world.clock), world.clock) && AllSame(old(world), world, entries) ==>
        (AllLead(old(world), entries) ==> ok)
    {
      hide Accepts, Segments, AllHeld, Respected, WaitingBound, Idle, BoundSince, Leads, Follows, LeftAlone;
      hide StillSame;
      var failed := Pause();
      BetweenIsIdle(Root(), quiet, old(world), world);
      IdleClock(Root(), quiet, old(world), world);
      if failed {
        return false;
      }
      for i := 0 to |entries|
        invariant Valid() && Idle(Root(), quiet, old(world), world)
        invariant world.clock >= old(world.clock) && world.calls == old(world.calls)
        invariant NoFailure(old(world.clock), world.clock)
        invariant forall j :: 0 <= j < i ==>
          BoundSince(world, entries[j].segments, entries[j].identity, old(world.clock))
      {
        ghost var w := world;
        IdleLeads(old(world), w, entries[i].segments, entries[i]);
        ok := CheckContent(entries[i], entries[i].segments);
        SameSoFar(old(world), w, world, entries[i].segments);
        IdleTransitive(Root(), quiet, old(world), w, world);
        IdleClock(Root(), quiet, w, world);
        forall j | 0 <= j < i ensures BoundSince(world, entries[j].segments, entries[j].identity, old(world.clock)) {
          IdleKeepsBoundSince(w, world, entries[j], old(world.clock));
        }
        if !ok {
          return false;
        }
        LeadsSince(world, entries[i], old(world.clock));
      }
      ok := true;
    }

    lemma IdleKeepsBoundSince(w: World, v: World, e: Entry, at: nat)
      requires Idle(Root(), quiet, w, v) && at <= w.clock && BoundSince(w, e.segments, e.identity, at)
      ensures BoundSince(v, e.segments, e.identity, at)
    {
      LeftAloneKeeps(Root(), quiet, w, v, e.segments, at);
    }

    lemma LeadsSince(w: World, e: Entry, at: nat)
      requires Leads(w, e.segments, e)
      ensures BoundSince(w, e.segments, e.identity, at)
    {
    }

    /** Callbacks, links and checks; how many artifacts were linked. */
    method TryPublish(entries: seq<Entry>, ghost s: World) returns (ok: bool, count: nat)
      requires Valid() && !closed && Selected(entries) && Stamped(s) && Progress(s, world, entries, 0, 0, [])
      requires world.calls == s.calls
      modifies `world
      ensures Valid() && count <= |entries| && (ok ==> count == |entries|)
      ensures Progress(s, world, entries, count, count, []) && Follows(quiet, old(world), world)
      ensures ok ==> NoFailure(old(world.clock), world.clock)
      ensures old(world.calls) <= world.calls && |world.calls| <= |old(world.calls)| + 2
      ensures ok ==> Witnessed(s, world, entries) && AllInPlace(world, entries)
      ensures NoFailure(old(world.clock), world.clock) && Spared(s, world, entries) ==>
        (Unreserved(old(world.names), entries) ==> ok)
    {
      hide Accepts, Segments, AllHeld, Respected, WaitingBound, Idle, Progress, Called, BoundSince, Reserved, Follows;
      hide Spared, Unreserved, AllSame, AllLead;
      ProgressClock(s, world, entries, 0);
      var failed := Callback();
      ghost var u := world;
      BetweenIsIdle(Root(), quiet, old(world), u);
      IdleClock(Root(), quiet, old(world), u);
      IdleKeepsProgress(s, old(world), u, entries, 0);
      IdleUnreserves(s, old(world), u, entries);
      if failed {
        return false, 0;
      }
      ok, count := LinkAll(entries, s);
      ghost var w := world;
      FollowsTransitive(quiet, old(world), u, w);
      FollowsSparesAll(s, u, w, entries);
      ClockGrows(quiet, u, w);
      if !ok {
        return;
      }
      failed := Callback();
      ghost var v := world;
      BetweenIsIdle(Root(), quiet, w, v);
      IdleClock(Root(), quiet, w, v);
      IdleKeepsProgress(s, w, v, entries, count);
      FollowsTransitive(quiet, old(world), w, v);
      FollowsSparesAll(s, w, v, entries);
      if failed {
        return false, count;
      }
      ProgressClock(s, v, entries, count);
      AllLeadNow(s, entries);
      FollowsTransitive(quiet, u, w, v);
      CallsSee(s, u, v, entries);
      ok := ConfirmAll(entries);
      IdleKeepsProgress(s, v, world, entries, count);
      IdleClock(Root(), quiet, v, world);
      FollowsTransitive(quiet, old(world), v, world);
      FollowsSparesAll(s, v, world, entries);
      SparedIsSame(s, v, world, entries);
      StillWitnessed(s, v, world, entries);
    }

    /** When the caller's code last returned. */
    ghost function LastCall(w: World): nat
    {
      if w.calls == [] then 0 else w.calls[|w.calls| - 1].at
    }

    /** The artifacts are in place since the last callback. */
    ghost predicate AllInPlace(w: World, entries: seq<Entry>) {
      forall i :: 0 <= i < |entries| ==> BoundSince(w, entries[i].segments, entries[i].identity, LastCall(w))
    }

    /** Two callbacks returned since the world was `s`.  The first found no artifact at its final name
        and the second every one, but where another process changed the name. */
    ghost predicate Witnessed(s: World, w: World, entries: seq<Entry>) {
      && s.calls <= w.calls && |w.calls| == |s.calls| + 2
      && var first, second := w.calls[|s.calls|], w.calls[|s.calls| + 1];
      && s.clock <= first.at <= second.at <= w.clock
      && forall i :: 0 <= i < |entries| ==>
           || ChangedSince(w, entries[i].segments, s.clock)
           || (entries[i].segments !in first.names && Bound(second.names, entries[i].segments, entries[i].identity))
    }

    lemma CallsSee(s: World, u: World, v: World, entries: seq<Entry>)
      requires Progress(s, u, entries, 0, 0, []) && Progress(s, v, entries, |entries|, |entries|, [])
      requires Follows(quiet, u, v)
      requires v.calls == s.calls + [Call(u.clock, u.names)] + [Call(v.clock, v.names)]
      ensures Witnessed(s, v, entries)
    {
      hide LeftAlone;
      assert s.calls <= v.calls;
    }

    lemma StillWitnessed(s: World, w: World, v: World, entries: seq<Entry>)
      requires Follows(quiet, w, v) && v.calls == w.calls
      ensures Witnessed(s, w, entries) ==> Witnessed(s, v, entries)
    {
    }

    /** Idle worlds follow each other, and reserve the spared paths alike. */
    lemma IdleUnreserves(s: World, w: World, v: World, entries: seq<Entry>)
      requires Idle(Root(), quiet, w, v) && s.clock <= w.clock
      ensures Spared(s, v, entries) ==> (Unreserved(w.names, entries) <==> Unreserved(v.names, entries))
    {
      hide SparedAt, Reserved, Idle;
      forall i | 0 <= i < |entries|
        ensures SparedAt(s.clock, v, entries[i].segments) ==>
          (Reserved(w.names, entries[i].segments) <==> Reserved(v.names, entries[i].segments))
      {
        IdleSpares(w, v, entries[i].segments, s.clock);
        IdleReserves(w, v, entries[i].segments);
      }
    }

    lemma SparedIsSame(s: World, w: World, v: World, entries: seq<Entry>)
      requires Idle(Root(), quiet, w, v) && s.clock <= w.clock
      ensures Spared(s, v, entries) ==> AllSame(w, v, entries)
    {
      hide SparedAt, Idle;
      forall i | 0 <= i < |entries|
        ensures SparedAt(s.clock, v, entries[i].segments) ==> StillSame(w, v, entries[i].segments)
      {
        IdleSpares(w, v, entries[i].segments, s.clock);
      }
    }

    lemma ProgressClock(s: World, w: World, entries: seq<Entry>, count: nat)
      requires count <= |entries| && Progress(s, w, entries, count, count, [])
      ensures s.clock <= w.clock
    {
    }

    lemma AllLeadNow(s: World, entries: seq<Entry>)
      requires Valid() && !closed && Selected(entries) && Stamped(s)
      requires Progress(s, world, entries, |entries|, |entries|, [])
      ensures Spared(s, world, entries) ==> AllLead(world, entries)
    {
      hide Progress, Spared;
      SparedProgress(s, world, entries, |entries|);
      if Spared(s, world, entries) {
        forall i | 0 <= i < |entries| ensures Leads(world, entries[i].segments, entries[i]) {
          SelectedLeads(entries, i);
        }
      }
    }

    // ----- The interface.

    /** A new file can be created at the path. */
    predicate CanHold(names: Names, p: Path) {
      p !in names && !FileAbove(names, p) && !FileBelow(names, p)
    }

    /** Write one artifact below the staging directory, read-only, under a name of its own. */
    method StageJson(relative: string, content: string, inode: Inode) returns (r: StageResult)
      requires Valid() && inode !in world.files
      modifies this
      ensures Valid() && closed == old(closed) && world.waiting == old(world.waiting)
      ensures r == StageClosed <==> old(closed)
      ensures r == PathInvalid <==> !old(closed) && !Allowed(relative)
      ensures r == AlreadyStaged <==> !old(closed) && Allowed(relative) && relative in old(staged)
      ensures r == OutOfScope ==> !Accepts(Root(), relative)
      ensures r == DirectoryUnsafe ==> FileAbove(old(world.names), Root() + Segments(relative))
      ensures r == Occupied ==>
        Root() + Segments(relative) in old(world.names) || FileBelow(old(world.names), Root() + Segments(relative))
      ensures r == Staged ==> NoFailure(old(world.clock), world.clock)
      ensures NoFailure(old(world.clock), world.clock) ==>
        (r == Staged <==> !old(closed) && Accepts(Root(), relative) && relative !in old(staged)
                          && CanHold(old(world.names), Root() + Segments(relative)))
      ensures Follows(quiet, old(world), world)
      ensures forall p :: p != Root() + Segments(relative) ==> LeftAlone(Root(), old(world), world, p)
      ensures r != Staged ==> staged == old(staged)
      ensures r == Staged ==>
        var e := Entry(relative, Segments(relative), inode, |content|, digest(content));
        && Accepts(Root(), relative) && staged == old(staged)[relative := e]
        && CanHold(old(world.names), StagingPath(e)) && Bound(world.names, StagingPath(e), inode)
        && (forall s :: s in old(staged) ==> !Related(old(staged)[s].segments, e.segments))
        && Bound(world.names, [".publication-staging", id] + Segments(relative), inode)
        && world.files == old(world.files)[inode := File(content, 256)]
    {
      hide AllHeld, Respected, WaitingBound, Allowed, Segments, InScope, Resolve, Follows, LeftAlone;
      hide FileAbove, FileBelow;
      ghost var start := world;
      StartsIdle(Root(), quiet, start);
      if closed {
        return StageClosed;
      }
      if !Allowed(relative) {
        return PathInvalid;
      }
      if relative in staged {
        return AlreadyStaged;
      }
      var failed := Pause();
      ghost var u := world;
      if failed {
        return StageFailed;
      }
      if !InScope(Root(), Resolve(Root(), relative)) {
        return OutOfScope;
      }
      var e := Entry(relative, Segments(relative), inode, |content|, digest(content));
      BelowIsSame(Root(), quiet, start, u, StagingPath(e));
      BelowHolds(start, u, StagingPath(e));
      ClockGrows(quiet, start, u);
      r := PlaceStaged(e, content);
      AloneChain(Root(), quiet, start, u, world, StagingPath(e));
      ClockGrows(quiet, u, world);
    }

    /** The exclusive creation, unless the name is taken, and the entry recorded. */
    method PlaceStaged(e: Entry, content: string) returns (r: StageResult)
      requires Valid() && !closed && e.identity !in world.files && e.relative !in staged
      requires e == Entry(e.relative, Segments(e.relative), e.identity, |content|, digest(content))
      requires Accepts(Root(), e.relative)
      modifies this
      ensures Valid() && closed == old(closed) && world.waiting == old(world.waiting)
      ensures r == Staged || r == DirectoryUnsafe || r == Occupied || r == StageFailed
      ensures r == DirectoryUnsafe <==> FileAbove(old(world.names), StagingPath(e))
      ensures r == Occupied <==>
        !FileAbove(old(world.names), StagingPath(e)) && !CanHold(old(world.names), StagingPath(e))
      ensures r == Staged ==> NoFailure(old(world.clock), world.clock)
      ensures NoFailure(old(world.clock), world.clock) ==> r != StageFailed
      ensures Follows(quiet, old(world), world)
      ensures forall p :: p != StagingPath(e) ==> LeftAlone(Root(), old(world), world, p)
      ensures r != Staged ==> staged == old(staged)
      ensures r == Staged ==>
        && staged == old(staged)[e.relative := e] && Bound(world.names, StagingPath(e), e.identity)
        && (forall s :: s in old(staged) ==> !Related(old(staged)[s].segments, e.segments))
        && world.files == old(world.files)[e.identity := File(content, ARTIFACT_MODE)]
    {
      hide Segments, Accepts, Respected, WaitingBound, AllHeld, Follows, LeftAlone, FileAbove, FileBelow;
      ghost var start := world;
      StartsIdle(Root(), quiet, start);
      if FileAbove(world.names, StagingPath(e)) {
        return DirectoryUnsafe;
      }
      if StagingPath(e) in world.names || FileBelow(world.names, StagingPath(e)) {
        return Occupied;
      }
      CreateStaged(e, content);
      ghost var created := world;
      CreatedAlone(start, created, e);
      var failed := Pause();
      AloneChain(Root(), quiet, start, created, world, StagingPath(e));
      BelowIsSame(Root(), quiet, created, world, StagingPath(e));
      if failed {
        return StageFailed;
      }
      assert Holds(world, e.relative, e);
      AddHeld(start, world, e.relative, e);
      ghost var own, before := Own(), staged;
      staged := staged[e.relative := e];
      OwnGrows(own, before);
      r := Staged;
    }

    lemma CreatedAlone(w: World, v: World, e: Entry)
      requires v.clock == w.clock && v.changedAt == w.changedAt && v.theirs == w.theirs
      requires v.names == w.names[StagingPath(e) := e.identity]
      ensures Follows(quiet, w, v) && forall p :: p != StagingPath(e) ==> LeftAlone(Root(), w, v, p)
    {
    }

    lemma OwnGrows(own: set<Binding>, before: map<string, Entry>)
      requires own == set r | r in before :: (before[r].segments, before[r].identity)
      requires forall r :: r in before ==> r in staged && staged[r] == before[r]
      requires Respected(Root(), world, own)
      ensures Respected(Root(), world, Own())
    {
      forall x | x in own ensures x in Own() {
        var r :| r in before && x == (before[r].segments, before[r].identity);
        assert staged[r] == before[r];
      }
    }

    /** Nobody else changes whether a path of the staging directory can hold a file. */
    lemma BelowHolds(w: World, v: World, p: Path)
      requires Between(Root(), quiet, w, v)
      ensures FileAbove(w.names, p) <==> FileAbove(v.names, p)
      ensures FileBelow(w.names, p) <==> FileBelow(v.names, p)
    {
      hide Follows;
      forall q | Root() <= q ensures SameAt(w.names, v.names, q) {
        assert LeftAlone(Root(), w, v, q);
      }
      SameHolds(w.names, v.names, p);
    }

    /** Create the file exclusively, write it and make it read-only. */
    method CreateStaged(e: Entry, content: string)
      requires Valid() && !closed && e.identity !in world.files && StagingPath(e) !in world.names
      modifies `world
      ensures Valid()
      ensures world == old(world).(names := old(world.names)[StagingPath(e) := e.identity],
                                   files := old(world.files)[e.identity := File(content, ARTIFACT_MODE)])
    {
      hide Accepts, Segments, AllHeld, Respected;
      LinkKeepsHeld(world, StagingPath(e), e.identity);
      LinkKeepsRespect(Root(), world, StagingPath(e), e.identity, Own());
      ghost var linked := Link(world, StagingPath(e), e.identity);
      world := Link(world, StagingPath(e), e.identity);
      world := world.(files := world.files[e.identity := File(content, ARTIFACT_MODE)]);
      FilesGrow(linked, e.identity, File(content, ARTIFACT_MODE));
    }

    lemma FilesGrow(w: World, i: Inode, f: File)
      requires AllHeld(w, staged) && Respected(Root(), w, Own()) && i !in w.files
      ensures var v := w.(files := w.files[i := f]); AllHeld(v, staged) && Respected(Root(), v, Own())
    {
      hide Accepts, Segments;
      var v := w.(files := w.files[i := f]);
      forall r | r in staged ensures Holds(v, r, staged[r]) {
        assert Holds(w, r, staged[r]);
      }
      forall x: Binding | WaitsFor(w, x) ensures WaitsFor(v, x) {
        var q :| q in w.waiting && w.waiting[q] == x.0 && Bound(w.names, q, x.1);
        assert Bound(v.names, q, x.1);
      }
    }

    /** The new entry joins the staged ones: its name was free, so it shares no file with them. */
    lemma AddHeld(before: World, w: World, relative: string, e: Entry)
      requires AllHeld(before, staged) && AllHeld(w, staged) && Holds(w, relative, e)
      requires CanHold(before.names, StagingPath(e)) && relative !in staged
      ensures AllHeld(w, staged[relative := e])
      ensures forall s :: s in staged ==> !Related(staged[s].segments, e.segments)
    {
      hide Accepts, Segments;
      forall s | s in staged ensures !Related(staged[s].segments, e.segments) {
        assert Holds(before, s, staged[s]);
        var q := StagingPath(staged[s]);
        assert q in before.names && Root() <= q;
        assert staged[s].segments <= e.segments ==> q <= StagingPath(e);
        assert e.segments <= staged[s].segments ==> StagingPath(e) <= q;
      }
    }

    lemma PickedIsSelected(relatives: seq<string>)
      requires AllHeld(world, staged) && ExactSelection(staged, relatives)
      ensures Selected(Picked(staged, relatives))
    {
      hide Accepts, Allowed, Segments;
      var entries := Picked(staged, relatives);
      forall i | 0 <= i < |entries| ensures entries[i].relative in staged && staged[entries[i].relative] == entries[i] {
        assert Holds(world, relatives[i], staged[relatives[i]]);
      }
    }

    // ----- What a publication promises.

    ghost predicate Completed(r: Outcome) {
      r == Published || r == CleanupFailed(true)
    }

    ghost predicate Undone(r: Outcome) {
      r == RolledBack || r == CleanupFailed(false)
    }

    /** Every final name was free before, or another process freed it.  All artifacts are at their
        final names after the caller's last callback, or none is; where rollback was incomplete the
        others are gone.  Only another process can have changed a name since. */
    ghost predicate AllOrNone(s: World, w: World, shut: bool, entries: seq<Entry>, r: Outcome) {
      && (forall i :: 0 <= i < |entries| ==> Vacated(s, w, entries[i].segments))
      && (Spared(s, w, entries) ==> Unreserved(s.names, entries))
      && s.calls <= w.calls && |w.calls| <= |s.calls| + 2
      && (Completed(r) ==> Witnessed(s, w, entries) && forall i :: 0 <= i < |entries| ==>
            (shut && Root() <= entries[i].segments)
            || BoundSince(w, entries[i].segments, entries[i].identity, LastCall(w)))
      && (Undone(r) ==> forall i :: 0 <= i < |entries| ==> Gone(w, entries[i].segments, entries[i].identity, s.clock))
      && (r.RollbackIncomplete? ==> forall i :: 0 <= i < |entries| && entries[i].relative !in r.relatives ==>
            Gone(w, entries[i].segments, entries[i].identity, s.clock))
    }

    ghost predicate Quarantined(names: Names, i: Inode) {
      exists q :: IsQuarantine(q) && Bound(names, q, i)
    }

    /** Every binding that other processes made, before or during the call, and have not themselves
        removed still stands, unless it is an artifact's own link at its final path, or its file is in
        the quarantine of a publisher that reports its rollback incomplete.  A file that an earlier
        incomplete rollback left there is lost if this call discards the staging directory; a caller
        that never went on after an incomplete rollback loses nothing. */
    ghost predicate NoneLost(s: World, w: World, shut: bool, r: Outcome)
      reads `staged
    {
      && (forall x: Binding :: x in w.theirs ==>
            || x in Own() || Bound(w.names, x.0, x.1)
            || (Quarantined(w.names, x.1) && (r.RollbackIncomplete? || Quarantined(s.names, x.1)))
            || (shut && Quarantined(s.names, x.1)))
      && (!r.RollbackIncomplete? ==> w.waiting == s.waiting)
      && (!r.RollbackIncomplete? && s.waiting == map[] ==> AllStand(w))
    }

    /** Every binding that others made and did not remove stands; only own links may be missing. */
    ghost predicate AllStand(w: World)
      reads `staged
    {
      forall x: Binding :: x in w.theirs ==> x in Own() || Bound(w.names, x.0, x.1)
    }

    /** A name bound before the call is bound so still, unless another process changed it. */
    ghost predicate NoneClobbered(s: World, w: World) {
      forall p :: p in s.names && !(Root() <= p) ==> BoundSince(w, p, s.names[p], s.clock)
    }

    /** The publisher touched no other name; the staging directory is gone, or as it was but for the
        quarantine of an incomplete rollback. */
    ghost predicate OthersLeft(s: World, w: World, shut: bool, entries: seq<Entry>, r: Outcome) {
      && (forall p :: NotAmong(entries, |entries|, p) && !(Root() <= p) ==> LeftAlone(Root(), s, w, p))
      && (shut ==> forall p :: p in w.names ==> !(Root() <= p))
      && (!shut && !r.RollbackIncomplete? ==>
            forall p :: NotAmong(entries, |entries|, p) ==> LeftAlone(Root(), s, w, p))
      && (r == Published || r == RolledBack ==> shut)
      && (r.RollbackIncomplete? ==> !shut && r.relatives != [])
    }

    ghost predicate Settled(s: World, w: World, shut: bool, entries: seq<Entry>, r: Outcome)
      reads `staged
    {
      && Follows(quiet, s, w) && w.files == s.files
      && AllOrNone(s, w, shut, entries, r) && NoneLost(s, w, shut, r)
      && NoneClobbered(s, w) && OthersLeft(s, w, shut, entries, r)
    }

    // ----- Proving it.

    lemma ProgressClobbersNone(s: World, w: World, entries: seq<Entry>, count: nat, i: nat, incomplete: seq<string>)
      requires i <= count <= |entries| && Progress(s, w, entries, count, i, incomplete)
      ensures NoneClobbered(s, w)
    {
      hide Follows;
      forall p | p in s.names && !(Root() <= p) ensures BoundSince(w, p, s.names[p], s.clock) {
        if NotAmong(entries, count, p) {
          assert LeftAlone(Root(), s, w, p) || IsNew(s, p);
        }
      }
    }

    /** A waiting file is in the quarantine now, and was before if nothing new waits. */
    lemma WaitingIsQuarantined(w: World, x: Binding)
      requires WaitingBound(w) && WaitsFor(w, x)
      ensures Quarantined(w.names, x.1)
    {
      var q :| q in w.waiting && w.waiting[q] == x.0 && Bound(w.names, q, x.1);
      assert IsQuarantine(q);
    }

    lemma WaitedFromStart(s: World, d: World, entries: seq<Entry>, count: nat, i: nat, x: Binding)
      requires i <= count <= |entries| && Progress(s, d, entries, count, i, []) && WaitingBound(s) && WaitsFor(d, x)
      ensures Quarantined(s.names, x.1)
    {
      hide Follows;
      var q :| q in d.waiting && d.waiting[q] == x.0 && Bound(d.names, q, x.1);
      assert q in s.waiting && IsQuarantine(q);
      assert NotAmong(entries, count, q);
      assert LeftAlone(Root(), s, d, q);
      assert Bound(s.names, q, x.1);
    }

    lemma SettledIncomplete(s: World, entries: seq<Entry>, count: nat, incomplete: seq<string>)
      requires Valid() && !closed && count <= |entries| && incomplete != []
      requires Progress(s, world, entries, count, 0, incomplete)
      requires s.calls <= world.calls && |world.calls| <= |s.calls| + 2
      requires Spared(s, world, entries) ==> Unreserved(s.names, entries)
      ensures Settled(s, world, false, entries, RollbackIncomplete(incomplete))
    {
      hide AllHeld, Follows, LeftAlone, Gone, NoneClobbered, WaitingBound, WaitsFor;
      ProgressClobbersNone(s, world, entries, count, 0, incomplete);
      forall x: Binding | x in world.theirs && WaitsFor(world, x) ensures Quarantined(world.names, x.1) {
        WaitingIsQuarantined(world, x);
      }
    }

    /** From the end of linking or of a complete rollback, through the discard. */
    lemma SettledDiscarded(s: World, d: World, entries: seq<Entry>, count: nat, i: nat, r: Outcome)
      requires Valid() && i <= count <= |entries| && Progress(s, d, entries, count, i, []) && WaitingBound(s)
      requires Discarded(d, world, closed) && WaitingBound(d)
      requires Spared(s, world, entries) ==> Unreserved(s.names, entries)
      requires Completed(r) || Undone(r)
      requires s.calls <= d.calls && |d.calls| <= |s.calls| + 2
      requires Completed(r) ==> Witnessed(s, d, entries) && AllInPlace(d, entries)
      requires Undone(r) ==> i == 0
      requires r == Published || r == RolledBack ==> closed
      ensures Settled(s, world, closed, entries, r)
    {
      hide Valid, Progress, Discarded, NoneLost, NoneClobbered, AllOrNone, OthersLeft, Follows, WaitingBound;
      assert Follows(quiet, s, d) && d.files == s.files by { ProgressFollows(s, d, entries, count, i); }
      assert Follows(quiet, d, world) && world.files == d.files by { DiscardedFollows(d, world, closed); }
      FollowsTransitive(quiet, s, d, world);
      DiscardedAllOrNone(s, d, entries, count, i, r);
      DiscardedNoneLost(s, d, entries, count, i, r);
      ProgressClobbersNone(s, d, entries, count, i, []);
      DiscardedClobbersNone(s, d);
      DiscardedOthersLeft(s, d, entries, count, i, r);
    }

    lemma ProgressFollows(s: World, w: World, entries: seq<Entry>, count: nat, i: nat)
      requires i <= count <= |entries| && Progress(s, w, entries, count, i, [])
      ensures Follows(quiet, s, w) && w.files == s.files
    {
    }

    lemma DiscardedFollows(w: World, v: World, shut: bool)
      requires Discarded(w, v, shut)
      ensures Follows(quiet, w, v) && v.files == w.files
    {
    }

    lemma DiscardedAllOrNone(s: World, d: World, entries: seq<Entry>, count: nat, i: nat, r: Outcome)
      requires i <= count <= |entries| && Progress(s, d, entries, count, i, []) && Discarded(d, world, closed)
      requires (Completed(r) || Undone(r)) && (Spared(s, world, entries) ==> Unreserved(s.names, entries))
      requires s.calls <= d.calls && |d.calls| <= |s.calls| + 2
      requires Completed(r) ==> Witnessed(s, d, entries) && AllInPlace(d, entries)
      requires Undone(r) ==> i == 0
      ensures AllOrNone(s, world, closed, entries, r)
    {
      StillWitnessed(s, d, world, entries);
      hide Follows, LeftAlone, BoundSince, Vacated;
      ClockGrows(quiet, s, d);
      forall j | 0 <= j < |entries|
        ensures Vacated(s, world, entries[j].segments)
        ensures Completed(r) ==> (closed && Root() <= entries[j].segments)
                                 || BoundSince(world, entries[j].segments, entries[j].identity, LastCall(world))
        ensures Undone(r) ==> Gone(world, entries[j].segments, entries[j].identity, s.clock)
      {
        VacatedStays(quiet, s, d, world, entries[j].segments);
        if !(closed && Root() <= entries[j].segments) {
          LeftAloneKeeps(Root(), quiet, d, world, entries[j].segments, s.clock);
          if Completed(r) {
            LeftAloneKeeps(Root(), quiet, d, world, entries[j].segments, LastCall(d));
          }
        }
      }
    }

    lemma DiscardedNoneLost(s: World, d: World, entries: seq<Entry>, count: nat, i: nat, r: Outcome)
      requires Valid() && i <= count <= |entries| && Progress(s, d, entries, count, i, [])
      requires WaitingBound(s) && WaitingBound(d) && Discarded(d, world, closed)
      ensures NoneLost(s, world, closed, r)
    {
      ProgressWaiting(s, d, entries, count, i);
      NothingWaits(d);
      hide AllHeld, Follows, Progress, Quarantined, WaitsFor;
      forall x: Binding | x in world.theirs && x !in Own() && !Bound(world.names, x.0, x.1)
        ensures Quarantined(s.names, x.1) && (!closed ==> Quarantined(world.names, x.1))
      {
        if !closed {
          assert WaitsFor(world, x);
          WaitingIsQuarantined(world, x);
          WaitedAtDiscard(d, x);
        }
        WaitedFromStart(s, d, entries, count, i, x);
      }
    }

    lemma ProgressWaiting(s: World, w: World, entries: seq<Entry>, count: nat, i: nat)
      requires i <= count <= |entries| && Progress(s, w, entries, count, i, [])
      ensures w.waiting == s.waiting
    {
    }

    lemma NothingWaits(w: World)
      ensures w.waiting == map[] ==> forall x: Binding :: !WaitsFor(w, x)
    {
    }

    lemma WaitedAtDiscard(d: World, x: Binding)
      requires Discarded(d, world, false) && WaitingBound(d) && WaitsFor(world, x)
      ensures WaitsFor(d, x)
    {
      hide Follows;
      var q :| q in world.waiting && world.waiting[q] == x.0 && Bound(world.names, q, x.1);
      assert LeftAlone(Root(), d, world, q);
      assert q in d.waiting && Bound(d.names, q, x.1);
    }

    lemma DiscardedClobbersNone(s: World, d: World)
      requires NoneClobbered(s, d) && Follows(quiet, s, d) && Discarded(d, world, closed)
      ensures NoneClobbered(s, world)
    {
      hide Follows, LeftAlone, BoundSince;
      ClockGrows(quiet, s, d);
      forall p | p in s.names && !(Root() <= p) ensures BoundSince(world, p, s.names[p], s.clock) {
        LeftAloneKeeps(Root(), quiet, d, world, p, s.clock);
      }
    }

    lemma DiscardedOthersLeft(s: World, d: World, entries: seq<Entry>, count: nat, i: nat, r: Outcome)
      requires i <= count <= |entries| && Progress(s, d, entries, count, i, []) && Discarded(d, world, closed)
      requires (Completed(r) || Undone(r)) && (r == Published || r == RolledBack ==> closed)
      ensures OthersLeft(s, world, closed, entries, r)
    {
      hide Follows, LeftAlone;
      forall p | NotAmong(entries, |entries|, p) && !(closed && Root() <= p) ensures LeftAlone(Root(), s, world, p) {
        assert NotAmong(entries, count, p);
        LeftAloneTransitive(Root(), quiet, s, d, world, p);
      }
    }

    /** What an outcome says when no call failed.  Where others spared the final names, all artifacts
        are published; a final name reported as not rolled back was changed by another process; and
        the staging directory was removed. */
    ghost predicate Excused(s: World, w: World, entries: seq<Entry>, r: Outcome) {
      && (Spared(s, w, entries) ==> r == Published)
      && (r.RollbackIncomplete? ==> Changed(w, entries, r.relatives, s.clock))
      && !r.CleanupFailed?
    }

    /** Rollback reports names that others changed after it began, so after the call began; where
        they were spared it reports none without a failure. */
    lemma ChangedEarlier(s: World, u: World, w: World, entries: seq<Entry>, incomplete: seq<string>)
      requires s.clock <= u.clock <= w.clock && incomplete != []
      requires forall x :: x in incomplete ==> exists i :: 0 <= i < |entries| && entries[i].relative == x
      ensures Changed(w, entries, incomplete, u.clock) ==> Changed(w, entries, incomplete, s.clock)
      ensures Changed(w, entries, incomplete, u.clock) ==> !Spared(s, w, entries)
    {
      if Changed(w, entries, incomplete, u.clock) {
        assert incomplete[0] in incomplete;
        var i :| 0 <= i < |entries| && entries[i].relative == incomplete[0];
        assert ChangedSince(w, entries[i].segments, s.clock) && Related(entries[i].segments, entries[i].segments);
      }
    }

    /** The guarded part of publication. */
    method PublishSelected(entries: seq<Entry>, ghost s: World) returns (r: Outcome)
      requires Valid() && !closed && Selected(entries) && Stamped(s) && WaitingBound(s)
      requires Progress(s, world, entries, 0, 0, []) && s.clock <= world.clock && s.calls == world.calls
      requires Spared(s, world, entries) ==> Unreserved(s.names, entries) && Unreserved(world.names, entries)
      modifies this
      ensures Valid() && staged == old(staged) && Follows(quiet, old(world), world)
      ensures r != Refused && Settled(s, world, closed, entries, r)
      ensures r.RollbackIncomplete? ==> forall x :: x in r.relatives ==> x in staged
      ensures r == Published ==> NoFailure(old(world.clock), world.clock)
      ensures r == CleanupFailed(true) ==> LastFailed(old(world.clock), world.clock)
      ensures NoFailure(old(world.clock), world.clock) ==> Excused(s, world, entries, r)
      ensures Spared(s, world, entries) && r.RollbackIncomplete? ==> TwoFailures(old(world.clock), world.clock)
    {
      hide Progress, Settled, Discarded, AllHeld, Respected, WaitingBound, BoundSince, Selected, Unreserved;
      hide Spared, Follows, Changed, Witnessed, AllInPlace;
      var ok, count := TryPublish(entries, s);
      ghost var u := world;
      ClockGrows(quiet, old(world), u);
      FollowsSparesAll(s, old(world), u, entries);
      ghost var reached := count;
      if !ok {
        var incomplete := RollbackAll(entries, count, s);
        ClockGrows(quiet, u, world);
        FollowsTransitive(quiet, old(world), u, world);
        FollowsSparesAll(s, u, world, entries);
        reached := 0;
        if incomplete != [] {
          SettledIncomplete(s, entries, count, incomplete);
          ChangedEarlier(s, u, world, entries, incomplete);
          if Spared(s, world, entries) {
            var j := SomeFailure(old(world.clock), u.clock);
            var k := SomeFailure(u.clock, world.clock);
            assert j < k;
          }
          return RollbackIncomplete(incomplete);
        }
      } else {
        StartsIdle(Root(), quiet, u);
      }
      ghost var d := world;
      ClockGrows(quiet, u, d);
      FollowsTransitive(quiet, old(world), u, d);
      var discarded := Discard();
      DiscardedFollows(d, world, closed);
      ClockGrows(quiet, d, world);
      FollowsTransitive(quiet, old(world), d, world);
      FollowsSparesAll(s, d, world, entries);
      FollowsSparesAll(s, u, d, entries);
      r := if discarded then (if ok then Published else RolledBack) else CleanupFailed(ok);
      SettledDiscarded(s, d, entries, count, reached, r);
    }

    /** Publish the staged set.  For every interleaving with other processes and every failure, all
        artifacts or none are published, no file of others is overwritten, and none is lost. */
    method Publish(relatives: seq<string>) returns (r: Outcome)
      requires Valid()
      modifies this
      ensures Valid() && staged == old(staged)
      ensures old(closed) ==> r == Refused && world == old(world)
      ensures r != Refused ==>
        !old(closed) && ExactSelection(old(staged), relatives)
        && Settled(old(world), world, closed, Picked(old(staged), relatives), r)
      ensures r == Refused ==>
        closed == old(closed) && Idle(Root(), quiet, old(world), world) && world.calls == old(world.calls)
      ensures r.RollbackIncomplete? ==> forall x :: x in r.relatives ==> x in relatives
      ensures !old(closed) ==> NoneLost(old(world), world, closed, r) && NoneClobbered(old(world), world)
      ensures !old(closed) ==> forall x :: x in staged ==> IsIntact(world, staged[x])
      ensures quiet ==> QuietResult(old(world.names), if r == Refused then [] else Picked(old(staged), relatives), r)
      ensures r == Published ==> !old(closed) && ExactSelection(old(staged), relatives)
      ensures r == Published ==> NoFailure(old(world.clock), world.clock)
      ensures r == CleanupFailed(true) ==> LastFailed(old(world.clock), world.clock)
      ensures !old(closed) && ExactSelection(old(staged), relatives) ==>
        var entries := Picked(old(staged), relatives);
        && (Spared(old(world), world, entries) && r.RollbackIncomplete? ==> TwoFailures(old(world.clock), world.clock))
        && (NoFailure(old(world.clock), world.clock) ==>
              && (r.RollbackIncomplete? ==> Changed(world, entries, r.relatives, old(world.clock)))
              && !r.CleanupFailed?
              && (Spared(old(world), world, entries) ==> (r == Published <==> Free(old(world.names), entries))))
      ensures quiet ==> forall entries :: Spared(old(world), world, entries)
    {
      hide Accepts, Allowed, Segments, AllHeld, Respected, Progress, Settled, Idle;
      hide NoneLost, NoneClobbered, QuietResult, Spared, Unreserved, Follows, Free, Changed;
      ghost var s := world;
      StartsIdle(Root(), quiet, s);
      QuietSpares(s, s);
      SameIsIdle(Root(), quiet, s);
      if !closed {
        RefusedLosesNone(s);
        IntactStays(s);
      }
      QuietRefused(s);
      if closed || !ExactSelection(staged, relatives) {
        return Refused;
      }
      var entries := Picked(staged, relatives);
      PickedIsSelected(relatives);
      var ok := Precheck(entries);
      ghost var u := world;
      IdleClock(Root(), quiet, s, u);
      QuietSpares(s, u);
      if !ok {
        RefusedLosesNone(s);
        QuietRefused(s);
        IdleClock(Root(), quiet, s, world);
        IntactStays(s);
        return Refused;
      }
      IdleClock(Root(), quiet, s, world);
      ProgressStarts(s, world, entries);
      r := PublishSelected(entries, s);
      FollowsTransitive(quiet, s, u, world);
      FollowsSparesAll(s, u, world, entries);
      QuietSpares(s, world);
      ClockGrows(quiet, u, world);
      SelectionIsPermutation(staged, relatives);
      SettledResults(s, entries, r);
      IntactStays(s);
    }

    lemma IntactStays(s: World)
      requires AllHeld(s, staged) && world.files == s.files
      ensures forall x :: x in staged ==> IsIntact(world, staged[x])
    {
      hide Accepts, Segments;
      forall x | x in staged ensures IsIntact(world, staged[x]) {
        assert Holds(s, x, staged[x]);
      }
    }

    /** Undisturbed, every path is spared. */
    lemma QuietSpares(s: World, w: World)
      requires Follows(quiet, s, w) && Stamped(s)
      ensures quiet ==> forall entries :: Spared(s, w, entries)
    {
    }

    /** A refused call left every name alone. */
    lemma RefusedLosesNone(s: World)
      requires Valid() && !closed && Idle(Root(), quiet, s, world) && WaitingBound(s)
      ensures NoneLost(s, world, closed, Refused) && NoneClobbered(s, world)
    {
      NothingWaits(world);
      hide AllHeld, Follows, WaitsFor, Quarantined;
      forall x: Binding | x in world.theirs && WaitsFor(world, x)
        ensures Quarantined(world.names, x.1) && Quarantined(s.names, x.1)
      {
        WaitingIsQuarantined(world, x);
        WaitedWhileIdle(s, x);
        WaitingIsQuarantined(s, x);
      }
      forall p | p in s.names && !(Root() <= p) ensures BoundSince(world, p, s.names[p], s.clock) {
        assert LeftAlone(Root(), s, world, p);
      }
    }

    lemma WaitedWhileIdle(s: World, x: Binding)
      requires Idle(Root(), quiet, s, world) && WaitingBound(s) && WaitsFor(world, x)
      ensures WaitsFor(s, x)
    {
      hide Follows;
      var q :| q in world.waiting && world.waiting[q] == x.0 && Bound(world.names, q, x.1);
      assert LeftAlone(Root(), s, world, q);
      assert q in s.waiting && Bound(s.names, q, x.1);
    }

    // ----- Undisturbed, the names themselves.

    /** What the names are once publication ends and nobody interfered. */
    ghost predicate QuietResult(before: Names, entries: seq<Entry>, r: Outcome)
      reads `world, `closed
    {
      var linked := WithFinals(before, entries, |entries|);
      match r
      case Refused => world.names == before
      case Published => closed && world.names == Outside(linked, Root()) && Free(before, entries)
      case RolledBack => closed && world.names == Outside(before, Root()) && Free(before, entries)
      case CleanupFailed(true) =>
        world.names == (if closed then Outside(linked, Root()) else linked) && Free(before, entries)
      case CleanupFailed(false) =>
        world.names == (if closed then Outside(before, Root()) else before) && Free(before, entries)
      case RollbackIncomplete(_) => Free(before, entries) && forall p ::
        NotAmong(entries, |entries|, p) && !(Root() <= p) ==> SameAt(before, world.names, p)
    }

    lemma QuietRefused(s: World)
      requires Idle(Root(), quiet, s, world) && Stamped(s)
      ensures quiet ==> QuietResult(s.names, [], Refused)
    {
      QuietIdle(s, world);
    }

    lemma SettledResults(s: World, entries: seq<Entry>, r: Outcome)
      requires Selected(entries) && Stamped(s) && r != Refused && Settled(s, world, closed, entries, r)
      ensures NoneLost(s, world, closed, r) && NoneClobbered(s, world) && world.files == s.files
      ensures quiet ==> QuietResult(s.names, entries, r)
      ensures Spared(s, world, entries) ==> Free(s.names, entries)
    {
      QuietSpares(s, world);
      SparedFree(s, world, entries);
      hide NoneLost, NoneClobbered, Follows, LeftAlone, Spared, Free;
      if quiet {
        forall p
          ensures !ChangedSince(world, p, s.clock)
          ensures LeftAlone(Root(), s, world, p) ==> SameAt(s.names, world.names, p)
        {
          QuietIsSame(Root(), s, world, p);
        }
        if Completed(r) {
          QuietCompleted(s, entries, r);
        } else if Undone(r) {
          QuietUndone(s, entries, r);
        }
      }
    }

    lemma SparedFree(s: World, w: World, entries: seq<Entry>)
      requires forall i :: 0 <= i < |entries| ==> Vacated(s, w, entries[i].segments)
      requires Spared(s, w, entries) ==> Unreserved(s.names, entries)
      ensures Spared(s, w, entries) ==> Free(s.names, entries)
    {
      if Spared(s, w, entries) {
        forall i | 0 <= i < |entries| ensures entries[i].segments !in s.names {
          assert SparedAt(s.clock, w, entries[i].segments) && Related(entries[i].segments, entries[i].segments);
        }
      }
    }

    ghost predicate Unchanged(s: World)
      reads `world
    {
      forall p ::
        && !ChangedSince(world, p, s.clock)
        && (LeftAlone(Root(), s, world, p) ==> SameAt(s.names, world.names, p))
    }

    lemma QuietCompleted(s: World, entries: seq<Entry>, r: Outcome)
      requires Selected(entries) && Unchanged(s) && Completed(r)
      requires AllOrNone(s, world, closed, entries, r) && OthersLeft(s, world, closed, entries, r)
      ensures var linked := WithFinals(s.names, entries, |entries|);
              world.names == if closed then Outside(linked, Root()) else linked
    {
      hide LeftAlone, AllOrNone;
      var linked := WithFinals(s.names, entries, |entries|);
      var target := if closed then Outside(linked, Root()) else linked;
      forall p ensures SameAt(world.names, target, p) {
        FinalsBound(s.names, entries, |entries|, p);
        if NotAmong(entries, |entries|, p) {
          assert SameAt(s.names, linked, p);
        } else {
          var i :| 0 <= i < |entries| && entries[i].segments == p;
          QuietPlaced(s, entries, i, r);
        }
      }
      SameNames(world.names, target);
    }

    lemma QuietPlaced(s: World, entries: seq<Entry>, i: nat, r: Outcome)
      requires Unchanged(s) && Completed(r) && i < |entries|
      requires AllOrNone(s, world, closed, entries, r) && OthersLeft(s, world, closed, entries, r)
      ensures if closed && Root() <= entries[i].segments then entries[i].segments !in world.names
              else Bound(world.names, entries[i].segments, entries[i].identity)
    {
      assert !ChangedSince(world, entries[i].segments, s.clock);
    }

    lemma QuietUndone(s: World, entries: seq<Entry>, r: Outcome)
      requires Unchanged(s) && Undone(r)
      requires AllOrNone(s, world, closed, entries, r) && OthersLeft(s, world, closed, entries, r)
      ensures world.names == if closed then Outside(s.names, Root()) else s.names
    {
      hide LeftAlone;
      var target := if closed then Outside(s.names, Root()) else s.names;
      forall p ensures SameAt(world.names, target, p) {
        assert !ChangedSince(world, p, s.clock);
        if !NotAmong(entries, |entries|, p) {
          var i :| 0 <= i < |entries| && entries[i].segments == p;
          assert Gone(world, p, entries[i].identity, s.clock) && Vacated(s, world, p);
        }
      }
      SameNames(world.names, target);
    }
  }
}
