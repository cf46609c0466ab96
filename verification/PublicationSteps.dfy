/**
  How the worlds before and after a few of the publisher's calls relate: which names it touched.
 */
module PublicationSteps {
  import opened ArtifactPaths
  import opened PublicationWorld

  /** The publisher did nothing meanwhile. */
  ghost predicate Idle(root: Path, quiet: bool, w: World, v: World) {
    && Follows(quiet, w, v) && v.files == w.files && v.waiting == w.waiting
    && (forall p :: LeftAlone(root, w, v, p))
  }

  ghost predicate Called(root: Path, quiet: bool, w: World, v: World) {
    Between(root, quiet, w, v.(calls := w.calls))
  }

  lemma SameIsIdle(root: Path, quiet: bool, w: World)
    ensures Idle(root, quiet, w, w)
  {
  }

  lemma BetweenIsIdle(root: Path, quiet: bool, w: World, v: World)
    requires Between(root, quiet, w, v) || Called(root, quiet, w, v)
    ensures Idle(root, quiet, w, v)
  {
    var u := v.(calls := w.calls);
    if Called(root, quiet, w, v) {
      forall p ensures LeftAlone(root, w, v, p) {
        assert LeftAlone(root, w, u, p);
      }
      forall x: Binding ensures (x in w.theirs <==> x in v.theirs) || ChangedSince(v, x.0, w.clock) {
        assert (x in w.theirs <==> x in u.theirs) || ChangedSince(u, x.0, w.clock);
      }
    }
  }

  lemma IdleTransitive(root: Path, quiet: bool, u: World, v: World, w: World)
    requires Idle(root, quiet, u, v) && Idle(root, quiet, v, w)
    ensures Idle(root, quiet, u, w)
  {
    hide Follows, LeftAlone;
    FollowsTransitive(quiet, u, v, w);
    forall p ensures LeftAlone(root, u, w, p) {
      LeftAloneTransitive(root, quiet, u, v, w, p);
    }
  }

  lemma IdleClock(root: Path, quiet: bool, w: World, v: World)
    requires Idle(root, quiet, w, v)
    ensures Follows(quiet, w, v) && v.clock >= w.clock && v.waiting == w.waiting && v.files == w.files
  {
  }

  lemma ClockGrows(quiet: bool, w: World, v: World)
    requires Follows(quiet, w, v)
    ensures w.clock <= v.clock
  {
  }

  lemma VacatedStays(quiet: bool, s: World, w: World, v: World, p: Path)
    requires Follows(quiet, w, v)
    ensures Vacated(s, w, p) ==> Vacated(s, v, p)
  {
  }

  lemma BetweenKeepsStamps(root: Path, quiet: bool, w: World, v: World)
    requires Between(root, quiet, w, v) && Stamped(w)
    ensures Stamped(v)
  {
  }

  lemma StartsIdle(root: Path, quiet: bool, w: World)
    ensures Follows(quiet, w, w) && forall p :: LeftAlone(root, w, w, p)
  {
  }

  lemma BelowIsSame(root: Path, quiet: bool, w: World, v: World, p: Path)
    requires Between(root, quiet, w, v) && root <= p
    ensures SameAt(w.names, v.names, p)
  {
    assert LeftAlone(root, w, v, p);
  }

  lemma AloneChain(root: Path, quiet: bool, u: World, v: World, w: World, q: Path)
    requires Follows(quiet, u, v) && Follows(quiet, v, w)
    requires forall p :: p != q ==> LeftAlone(root, u, v, p) && LeftAlone(root, v, w, p)
    ensures Follows(quiet, u, w) && forall p :: p != q ==> LeftAlone(root, u, w, p)
  {
    hide Follows, LeftAlone;
    FollowsTransitive(quiet, u, v, w);
    forall p | p != q ensures LeftAlone(root, u, w, p) {
      LeftAloneTransitive(root, quiet, u, v, w, p);
    }
  }

  /** Only the two names may have changed by the publisher's hand, and the notes of the first. */
  ghost predicate Touched(root: Path, quiet: bool, w: World, v: World, q: Path, waiting: map<Path, Path>, p: Path) {
    && Follows(quiet, w, v) && v.files == w.files && v.waiting == waiting
    && (forall p' :: p' != q && p' != p ==> LeftAlone(root, w, v, p'))
  }

  lemma SameTouched(root: Path, quiet: bool, w: World, q: Path, p: Path)
    ensures Touched(root, quiet, w, w, q, w.waiting, p) && LeftAlone(root, w, w, p)
  {
  }

  lemma BetweenTouchesNothing(root: Path, quiet: bool, w: World, v: World, q: Path)
    requires Between(root, quiet, w, v)
    ensures Touched(root, quiet, w, v, q, w.waiting, q) && (root <= q ==> SameAt(w.names, v.names, q))
  {
    assert LeftAlone(root, w, v, q);
  }

  lemma TouchedTransitive(root: Path, quiet: bool, u: World, v: World, w: World, q: Path, p: Path)
    requires Touched(root, quiet, u, v, q, v.waiting, p) && Touched(root, quiet, v, w, q, w.waiting, q)
    ensures Touched(root, quiet, u, w, q, w.waiting, p)
  {
    hide Follows;
    FollowsTransitive(quiet, u, v, w);
    forall p' | p' != q && p' != p ensures LeftAlone(root, u, w, p') {
      LeftAloneTransitive(root, quiet, u, v, w, p');
    }
  }

  lemma FollowsUnlink(quiet: bool, w: World, q: Path)
    ensures Follows(quiet, w, Unlink(w, q))
  {
  }

  lemma DropSteps(root: Path, quiet: bool, w: World, u: World, v: World, x: World, q: Path)
    requires Touched(root, quiet, w, u, q, w.waiting, q) && v == Unlink(u, q)
    requires Touched(root, quiet, v, x, q, v.waiting, q)
    ensures Touched(root, quiet, w, x, q, w.waiting, q)
  {
    hide Follows;
    assert Follows(quiet, u, v) by { FollowsUnlink(quiet, u, q); }
    FollowsTransitive(quiet, w, u, v);
    FollowsTransitive(quiet, w, v, x);
    forall p | p != q ensures LeftAlone(root, w, x, p) {
      assert LeftAlone(root, u, v, p);
      LeftAloneTransitive(root, quiet, w, u, v, p);
      LeftAloneTransitive(root, quiet, w, v, x, p);
    }
  }

  lemma FollowsRelink(quiet: bool, w: World, q: Path)
    requires q in w.waiting && q in w.names
    ensures Follows(quiet, w, Relink(w, q))
  {
  }

  lemma StillRelinked(root: Path, quiet: bool, t: World, u: World, p: Path, i: Inode)
    requires Between(root, quiet, t, u) && Bound(t.names, p, i)
    ensures u.clock >= t.clock
    ensures !Bound(u.names, p, i) ==> ChangedSince(u, p, t.clock)
  {
    assert LeftAlone(root, t, u, p);
  }

  lemma RelinkSteps(root: Path, quiet: bool, w: World, t: World, u: World, q: Path)
    requires q in w.waiting && q in w.names && t == Relink(w, q) && Touched(root, quiet, t, u, q, t.waiting, q)
    ensures Touched(root, quiet, w, u, q, t.waiting, w.waiting[q])
  {
    hide Follows;
    assert Follows(quiet, w, t) by { FollowsRelink(quiet, w, q); }
    FollowsTransitive(quiet, w, t, u);
    forall p | p != q && p != w.waiting[q] ensures LeftAlone(root, w, u, p) {
      assert LeftAlone(root, w, t, p);
      LeftAloneTransitive(root, quiet, w, t, u, p);
    }
  }

  lemma FollowsOutside(root: Path, quiet: bool, u: World, v: World)
    requires v == u.(names := Outside(u.names, root))
    ensures Follows(quiet, u, v)
  {
  }

  lemma WaitedBefore(root: Path, quiet: bool, w: World, v: World)
    requires Between(root, quiet, w, v) && WaitingBelow(root, w)
    ensures forall x: Binding :: WaitsFor(v, x) ==> WaitsFor(w, x)
  {
    hide Follows;
    forall x: Binding | WaitsFor(v, x) ensures WaitsFor(w, x) {
      var q :| q in v.waiting && v.waiting[q] == x.0 && Bound(v.names, q, x.1);
      assert LeftAlone(root, w, v, q);
      assert q in w.waiting && Bound(w.names, q, x.1);
    }
  }
}
