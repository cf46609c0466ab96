/**
  The namespace a publication shares with other processes: file names bound to inodes.  Another
  process may rebind anything outside the publisher's own staging directory at any moment, and the
  world keeps the history of what it did.
 */
module PublicationWorld {
  import opened ArtifactPaths

  type Inode = nat
  type Names = map<Path, Inode>
  type Binding = (Path, Inode)

  datatype File = File(content: string, mode: nat)

  datatype Call = Call(at: nat, names: Names)

  /** `changedAt` and `theirs` are the other processes' history and are written by `Disturb` alone:
      when one of them last changed a name, and the bindings they made and have not themselves
      removed.  `waiting` is the publisher's note of the quarantine names that hold a foreign file
      and of the path each came from; `calls` records each callback into
      its caller, when it returned and the names it found. */
  datatype World = World(
    names: Names, files: map<Inode, File>, clock: nat, changedAt: map<Path, nat>, theirs: set<Binding>,
    waiting: map<Path, Path>, calls: seq<Call>)

  predicate Bound(names: Names, p: Path, i: Inode) {
    p in names && names[p] == i
  }

  predicate SameAt(a: Names, b: Names, p: Path) {
    (p in a <==> p in b) && (p in a ==> a[p] == b[p])
  }

  lemma SameNames(a: Names, b: Names)
    requires forall p :: SameAt(a, b, p)
    ensures a == b
  {
    forall p ensures p in a <==> p in b {
      assert SameAt(a, b, p);
    }
    forall p | p in a ensures a[p] == b[p] {
      assert SameAt(a, b, p);
    }
  }

  /** The names outside a directory. */
  function Outside(names: Names, root: Path): Names {
    map p | p in names && !(root <= p) :: names[p]
  }

  // ----- The other process.

  /** Its bindings everywhere but below the root, which is the publisher's. */
  function Merge(root: Path, own: Names, other: Names): Names {
    (map p | p in other && !(root <= p) :: other[p]) + (map p | p in own && root <= p :: own[p])
  }

  function Removed(before: Names, after: Names): set<Binding> {
    set p | p in before && !Bound(after, p, before[p]) :: (p, before[p])
  }

  /** Another process acts.  What it unbinds is no longer its own; what it binds is. */
  function Disturb(root: Path, w: World, other: Names): World {
    var names := Merge(root, w.names, other);
    var changed := map p | p in w.names.Keys + names.Keys && !SameAt(w.names, names, p) :: w.clock + 1;
    w.(names := names, clock := w.clock + 1, changedAt := w.changedAt + changed,
       theirs := w.theirs - Removed(w.names, names) + Removed(names, w.names))
  }

  ghost predicate Stamped(w: World) {
    forall p :: p in w.changedAt ==> w.changedAt[p] <= w.clock
  }

  ghost predicate ChangedSince(w: World, p: Path, at: nat) {
    p in w.changedAt && w.changedAt[p] > at
  }

  // ----- How a later world relates to an earlier one.

  /** The record only grows, what others have changed with it, and nothing changes while they stay away. */
  ghost predicate Follows(quiet: bool, w: World, v: World) {
    && v.clock >= w.clock && (Stamped(w) ==> Stamped(v))
    && (forall p :: p in w.changedAt ==> p in v.changedAt && v.changedAt[p] >= w.changedAt[p])
    && (forall x: Binding :: (x in w.theirs <==> x in v.theirs) || ChangedSince(v, x.0, w.clock))
    && (quiet ==> v.changedAt == w.changedAt && v.theirs == w.theirs)
  }

  /** The name is bound as it was, unless another process changed it since; a binding there that no
      other process made was there before. */
  ghost predicate LeftAlone(root: Path, w: World, v: World, p: Path) {
    && (SameAt(w.names, v.names, p) || (!(root <= p) && ChangedSince(v, p, w.clock)))
    && (p in v.names && (p, v.names[p]) !in v.theirs ==>
          Bound(w.names, p, v.names[p]) && (p, v.names[p]) !in w.theirs)
  }

  /** If the name leads to the inode, another process bound it so. */
  ghost predicate Withdrawn(w: World, p: Path, i: Inode) {
    Bound(w.names, p, i) ==> (p, i) in w.theirs
  }

  /** The publisher's link of the inode is gone, and the name has been free since `at` unless another
      process changed it afterwards. */
  ghost predicate Gone(w: World, p: Path, i: Inode, at: nat) {
    Withdrawn(w, p, i) && (p !in w.names || ChangedSince(w, p, at))
  }

  /** The name has been bound so since `at`, unless another process changed it afterwards. */
  ghost predicate BoundSince(w: World, p: Path, i: Inode, at: nat) {
    Bound(w.names, p, i) || ChangedSince(w, p, at)
  }

  /** If the name was bound at first, another process has changed it since. */
  ghost predicate Vacated(s: World, w: World, p: Path) {
    p in s.names ==> ChangedSince(w, p, s.clock)
  }

  lemma FollowsTransitive(quiet: bool, u: World, v: World, w: World)
    requires Follows(quiet, u, v) && Follows(quiet, v, w)
    ensures Follows(quiet, u, w)
  {
    forall x: Binding ensures (x in u.theirs <==> x in w.theirs) || ChangedSince(w, x.0, u.clock) {
      assert (x in u.theirs <==> x in v.theirs) || ChangedSince(v, x.0, u.clock);
      assert (x in v.theirs <==> x in w.theirs) || ChangedSince(w, x.0, v.clock);
    }
  }

  lemma LeftAloneTransitive(root: Path, quiet: bool, u: World, v: World, w: World, p: Path)
    requires Follows(quiet, u, v) && Follows(quiet, v, w) && LeftAlone(root, u, v, p) && LeftAlone(root, v, w, p)
    ensures LeftAlone(root, u, w, p)
  {
  }

  /** What was so of a name stays so while the publisher leaves it alone. */
  lemma LeftAloneKeeps(root: Path, quiet: bool, w: World, v: World, p: Path, at: nat)
    requires Follows(quiet, w, v) && LeftAlone(root, w, v, p) && at <= w.clock
    ensures forall i :: Withdrawn(w, p, i) ==> Withdrawn(v, p, i)
    ensures forall i :: Gone(w, p, i, at) ==> Gone(v, p, i, at)
    ensures forall i :: BoundSince(w, p, i, at) ==> BoundSince(v, p, i, at)
  {
  }

  /** Undisturbed, a name left alone is as it was. */
  lemma QuietIsSame(root: Path, w: World, v: World, p: Path)
    requires Follows(true, w, v) && Stamped(w)
    ensures !ChangedSince(v, p, w.clock)
    ensures LeftAlone(root, w, v, p) ==> SameAt(w.names, v.names, p)
  {
  }

  /** What may happen while the publisher is not acting. */
  ghost predicate Between(root: Path, quiet: bool, w: World, v: World) {
    && Follows(quiet, w, v) && v.files == w.files && v.waiting == w.waiting && v.calls == w.calls
    && (forall p :: LeftAlone(root, w, v, p))
    && (forall x: Binding :: x in v.theirs ==>
          (x in w.theirs || !(root <= x.0))
          && (Bound(v.names, x.0, x.1) || (x in w.theirs && !Bound(w.names, x.0, x.1))))
  }

  lemma DisturbIsBetween(root: Path, w: World, other: Names)
    requires Stamped(w)
    ensures Between(root, false, w, Disturb(root, w, other)) && Disturb(root, w, other).clock == w.clock + 1
  {
    var v := Disturb(root, w, other);
    forall p ensures LeftAlone(root, w, v, p) {
      if p in v.names && (p, v.names[p]) !in v.theirs {
        assert (p, v.names[p]) !in Removed(v.names, w.names);
        assert (p, v.names[p]) !in Removed(w.names, v.names);
      }
    }
    forall x: Binding ensures (x in w.theirs <==> x in v.theirs) || ChangedSince(v, x.0, w.clock) {
      if !((x in w.theirs) <==> (x in v.theirs)) {
        assert x in Removed(w.names, v.names) + Removed(v.names, w.names);
        assert !SameAt(w.names, v.names, x.0);
      }
    }
    forall x: Binding | x in v.theirs
      ensures (x in w.theirs || !(root <= x.0))
              && (Bound(v.names, x.0, x.1) || (x in w.theirs && !Bound(w.names, x.0, x.1)))
    {
      if x in Removed(v.names, w.names) {
        assert LeftAlone(root, w, v, x.0);
      } else {
        assert x !in Removed(w.names, v.names);
        assert Bound(w.names, x.0, x.1) && !Bound(v.names, x.0, x.1) ==> x in Removed(w.names, v.names);
      }
    }
  }

  lemma TickIsBetween(root: Path, w: World)
    ensures Between(root, true, w, w.(clock := w.clock + 1))
  {
  }

  // ----- Foreign files.

  /** The foreign file of a binding waits in the quarantine. */
  ghost predicate WaitsFor(w: World, x: Binding) {
    exists q :: q in w.waiting && w.waiting[q] == x.0 && Bound(w.names, q, x.1)
  }

  /** Every binding that others made and did not remove stands, or its file waits in the quarantine;
      only the publisher's own links are its to take back. */
  ghost predicate Respected(root: Path, w: World, own: set<Binding>) {
    forall x: Binding :: x in w.theirs ==>
      !(root <= x.0) && (x in own || Bound(w.names, x.0, x.1) || WaitsFor(w, x))
  }

  ghost predicate WaitingBelow(root: Path, w: World) {
    forall q :: q in w.waiting ==> q in w.names && root <= q
  }

  lemma BetweenKeepsWaiting(root: Path, quiet: bool, w: World, v: World)
    requires Between(root, quiet, w, v) && WaitingBelow(root, w)
    ensures WaitingBelow(root, v)
    ensures forall x: Binding :: WaitsFor(w, x) ==> WaitsFor(v, x)
  {
    hide Follows;
    forall q | q in w.waiting ensures SameAt(w.names, v.names, q) {
      assert LeftAlone(root, w, v, q);
    }
    forall x: Binding | WaitsFor(w, x) ensures WaitsFor(v, x) {
      var q :| q in w.waiting && w.waiting[q] == x.0 && Bound(w.names, q, x.1);
      assert SameAt(w.names, v.names, q);
    }
  }

  lemma BetweenKeepsRespect(root: Path, quiet: bool, w: World, v: World, own: set<Binding>)
    requires Between(root, quiet, w, v) && WaitingBelow(root, w) && Respected(root, w, own)
    ensures Respected(root, v, own)
  {
    hide Follows, LeftAlone, WaitsFor, WaitingBelow;
    BetweenKeepsWaiting(root, quiet, w, v);
  }

  // ----- The publisher's calls.

  function Link(w: World, p: Path, i: Inode): World {
    w.(names := w.names[p := i])
  }

  lemma LinkKeepsRespect(root: Path, w: World, p: Path, i: Inode, own: set<Binding>)
    requires Respected(root, w, own) && p !in w.names
    ensures Respected(root, Link(w, p, i), own)
  {
    forall x: Binding | WaitsFor(w, x) ensures WaitsFor(Link(w, p, i), x) {
      var q :| q in w.waiting && w.waiting[q] == x.0 && Bound(w.names, q, x.1);
      assert Bound(Link(w, p, i).names, q, x.1);
    }
  }

  /** Renaming p to a free q; a file that is not the artifact is noted as waiting there. */
  function Move(w: World, p: Path, q: Path, artifact: Inode): World
    requires p in w.names
  {
    w.(names := (w.names - {p})[q := w.names[p]],
       waiting := if w.names[p] == artifact then w.waiting else w.waiting[q := p])
  }

  lemma MoveKeepsRespect(root: Path, w: World, p: Path, q: Path, artifact: Inode, own: set<Binding>)
    requires Respected(root, w, own) && WaitingBelow(root, w) && p in w.names && q !in w.names
    requires p !in w.waiting && (p, artifact) in own
    ensures Respected(root, Move(w, p, q, artifact), own)
  {
    var v := Move(w, p, q, artifact);
    forall x: Binding | x in v.theirs && x !in own && !Bound(v.names, x.0, x.1) ensures WaitsFor(v, x) {
      if Bound(w.names, x.0, x.1) {
        assert x.0 == p && w.names[p] != artifact;
        assert q in v.waiting && v.waiting[q] == x.0 && Bound(v.names, q, x.1);
      } else {
        var k :| k in w.waiting && w.waiting[k] == x.0 && Bound(w.names, k, x.1);
        assert k in v.waiting && v.waiting[k] == x.0 && Bound(v.names, k, x.1);
      }
    }
  }

  /** Linking the waiting file back at the free path it came from. */
  function Relink(w: World, q: Path): World
    requires q in w.waiting && q in w.names
  {
    w.(names := w.names[w.waiting[q] := w.names[q]], waiting := w.waiting - {q})
  }

  lemma RelinkKeepsRespect(root: Path, w: World, q: Path, own: set<Binding>)
    requires Respected(root, w, own) && q in w.waiting && q in w.names && w.waiting[q] !in w.names
    ensures Respected(root, Relink(w, q), own)
  {
    var v := Relink(w, q);
    forall x: Binding | x in v.theirs && x !in own && !Bound(v.names, x.0, x.1) ensures WaitsFor(v, x) {
      assert !Bound(w.names, x.0, x.1);
      var k :| k in w.waiting && w.waiting[k] == x.0 && Bound(w.names, k, x.1);
      assert k in v.waiting && v.waiting[k] == x.0 && Bound(v.names, k, x.1);
    }
  }

  function Unlink(w: World, q: Path): World {
    w.(names := w.names - {q})
  }

  lemma UnlinkKeepsRespect(root: Path, w: World, q: Path, own: set<Binding>)
    requires Respected(root, w, own) && root <= q && q !in w.waiting
    ensures Respected(root, Unlink(w, q), own)
  {
    var v := Unlink(w, q);
    forall x: Binding | x in v.theirs && WaitsFor(w, x) ensures WaitsFor(v, x) {
      var k :| k in w.waiting && w.waiting[k] == x.0 && Bound(w.names, k, x.1);
      assert k in v.waiting && v.waiting[k] == x.0 && Bound(v.names, k, x.1);
    }
  }

  /** Discarding the staging directory loses a foreign file only if it was waiting there. */
  lemma DiscardKeepsOthers(root: Path, w: World, own: set<Binding>)
    requires Respected(root, w, own)
    ensures forall x: Binding :: x in w.theirs ==>
      x in own || Bound(Outside(w.names, root), x.0, x.1) || WaitsFor(w, x)
  {
  }

  /** Another process binds one name outside the staging directory. */
  lemma Rebinds(root: Path, u: World, p: Path, i: Inode)
    requires !(root <= p) && !Bound(u.names, p, i)
    ensures var v := Disturb(root, u, u.names[p := i]);
            && v.names == u.names[p := i] && v.waiting == u.waiting && (p, i) in v.theirs
            && forall x: Binding :: x in u.theirs && !Bound(u.names, x.0, x.1) ==> x in v.theirs
  {
    var v := Disturb(root, u, u.names[p := i]);
    assert Merge(root, u.names, u.names[p := i]) == u.names[p := i];
    assert v.names[p] == i && !Bound(u.names, p, v.names[p]);
    assert (p, v.names[p]) in Removed(v.names, u.names);
    forall x: Binding | x in u.theirs && !Bound(u.names, x.0, x.1) ensures x in v.theirs {
      assert x !in Removed(u.names, v.names);
    }
  }

  /** Such a file is really lost.  Another process replaces the linked artifact by its file f; rollback
      moves f to the quarantine; the process puts g at the name, so that f cannot be linked back, and
      nobody ever removes f.  After the discard f has no name at all. */
  lemma ForeignFileLostToDiscard(root: Path, w: World, p: Path, q: Path, artifact: Inode, f: Inode, g: Inode)
    requires p !in w.names && !(root <= p) && q !in w.names && root <= q
    requires f != artifact && g != artifact && f != g && forall x :: x in w.names ==> w.names[x] != f
    ensures var linked := Link(w, p, artifact);
            var replaced := Disturb(root, linked, linked.names[p := f]);
            && p in replaced.names
            && var moved := Move(replaced, p, q, artifact);
               var retaken := Disturb(root, moved, moved.names[p := g]);
               && (p, f) in retaken.theirs && WaitsFor(retaken, (p, f)) && Bound(retaken.names, p, g)
               && forall x :: x in Outside(retaken.names, root) ==> retaken.names[x] != f
  {
    hide Disturb;
    var linked := Link(w, p, artifact);
    Rebinds(root, linked, p, f);
    var replaced := Disturb(root, linked, linked.names[p := f]);
    var moved := Move(replaced, p, q, artifact);
    assert Bound(moved.names, q, f) && moved.waiting[q] == p;
    Rebinds(root, moved, p, g);
    var retaken := Disturb(root, moved, moved.names[p := g]);
    assert q in retaken.waiting && retaken.waiting[q] == p && Bound(retaken.names, q, f);
  }
}
