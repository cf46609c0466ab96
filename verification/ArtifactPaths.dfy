/**
  The relative paths a replay artifact may have.  Text is split, normalized and joined as the
  platform's path functions do it; the shape of what is accepted follows.
 */
module ArtifactPaths {

  type Path = seq<string>

  predicate SlashFree(segment: string) {
    '/' !in segment
  }

  /** A name a file can have. */
  predicate Proper(segment: string) {
    segment != "" && segment != "." && segment != ".." && SlashFree(segment)
  }

  /** The pieces between slashes; there is always at least one. */
  function Split(text: string): (r: Path)
    ensures r != [] && forall i :: 0 <= i < |r| ==> SlashFree(r[i])
  {
    if text == "" then [""]
    else
      var rest := Split(text[1..]);
      if text[0] == '/' then [""] + rest else [[text[0]] + rest[0]] + rest[1..]
  }

  function Join(segments: Path): string {
    if |segments| == 0 then ""
    else if |segments| == 1 then segments[0]
    else segments[0] + "/" + Join(segments[1..])
  }

  /** Empty and "." pieces vanish, ".." drops the piece before it; at the start it stays. */
  function Collapse(segments: Path, done: Path): Path {
    if |segments| == 0 then done
    else
      var s, rest := segments[0], segments[1..];
      if s == "" || s == "." then Collapse(rest, done)
      else if s != ".." then Collapse(rest, done + [s])
      else if done == [] || done[|done| - 1] == ".." then Collapse(rest, done + [".."])
      else Collapse(rest, done[..|done| - 1])
  }

  predicate EndsWithSlash(text: string) {
    text != "" && text[|text| - 1] == '/'
  }

  /** Normalization of a relative path. */
  function Normalize(text: string): string {
    var segments := Collapse(Split(text), []);
    var slash := EndsWithSlash(text);
    if segments == [] then (if slash then "./" else ".")
    else Join(segments) + (if slash then "/" else "")
  }

  predicate Allowed(text: string) {
    && text != "" && '\\' !in text
    && text[0] != '/'
    && Normalize(text) == text
    && !("../" <= text)
    && text != ".rollback" && !(".rollback/" <= text)
  }

  /** Joining a path to a root: normalization of root and pieces together. */
  function Resolve(root: Path, text: string): Path {
    Collapse(Split(text), root)
  }

  /** The scope check: the directory of the file lies at or below the root. */
  predicate InScope(root: Path, file: Path) {
    |file| > 0 && root <= file[..|file| - 1]
  }

  /** What staging accepts as the place of an artifact. */
  predicate Accepts(root: Path, text: string) {
    Allowed(text) && InScope(root, Resolve(root, text))
  }

  // ----- Splitting undoes joining.

  lemma {:induction false} SplitSegment(segment: string, rest: string)
    requires SlashFree(segment)
    ensures Split(segment + "/" + rest) == [segment] + Split(rest)
    ensures Split(segment) == [segment]
  {
    if segment == "" {
      assert "" + "/" + rest == "/" + rest;
      assert ("/" + rest)[1..] == rest;
    } else {
      var tail := segment[1..];
      SplitSegment(tail, rest);
      assert segment == [segment[0]] + tail;
      assert (segment + "/" + rest)[1..] == tail + "/" + rest;
    }
  }

  lemma {:induction false} SplitJoin(segments: Path)
    requires segments != [] && forall i :: 0 <= i < |segments| ==> SlashFree(segments[i])
    ensures Split(Join(segments)) == segments
    ensures Split(Join(segments) + "/") == segments + [""]
  {
    SplitSegment(segments[0], "");
    assert segments[0] + "/" + "" == segments[0] + "/";
    if |segments| > 1 {
      SplitJoin(segments[1..]);
      SplitSegment(segments[0], Join(segments[1..]));
      SplitSegment(segments[0], Join(segments[1..]) + "/");
      assert Join(segments) + "/" == segments[0] + "/" + (Join(segments[1..]) + "/");
    }
  }

  // ----- The shape of normalized paths.

  /** Some leading ".." and then only proper names. */
  ghost predicate Climbing(segments: Path) {
    forall i :: 0 <= i < |segments| ==>
      Proper(segments[i]) || (segments[i] == ".." && forall j :: 0 <= j < i ==> segments[j] == "..")
  }

  lemma {:induction false} CollapseClimbs(segments: Path, done: Path)
    requires Climbing(done) && forall i :: 0 <= i < |segments| ==> SlashFree(segments[i])
    ensures Climbing(Collapse(segments, done))
    decreases |segments|
  {
    if |segments| > 0 {
      var s, rest := segments[0], segments[1..];
      if s == "" || s == "." {
        CollapseClimbs(rest, done);
      } else if s != ".." {
        CollapseClimbs(rest, done + [s]);
      } else if done == [] || done[|done| - 1] == ".." {
        CollapseClimbs(rest, done + [".."]);
      } else {
        CollapseClimbs(rest, done[..|done| - 1]);
      }
    }
  }

  ghost predicate AllProper(segments: Path) {
    forall i :: 0 <= i < |segments| ==> Proper(segments[i])
  }

  lemma {:induction false} CollapseProper(segments: Path, done: Path)
    requires AllProper(segments)
    ensures Collapse(segments, done) == done + segments
    ensures Collapse(segments + [""], done) == done + segments
    decreases |segments|
  {
    if |segments| == 0 {
      assert segments + [""] == [""];
      assert [""][1..] == [];
    } else {
      CollapseProper(segments[1..], done + [segments[0]]);
      assert (segments + [""])[1..] == segments[1..] + [""];
      assert done + [segments[0]] + segments[1..] == done + segments;
    }
  }

  /** The proper names of a path. */
  function Segments(text: string): Path {
    Collapse(Split(text), [])
  }

  /** An allowed path is one of three that stay put or climb, or a list of proper names with an
      optional final slash, not under ".rollback". */
  lemma AllowedShape(text: string)
    requires Allowed(text)
    ensures text == "." || text == "./" || text == ".." ||
      (var n := Segments(text);
       n != [] && AllProper(n) && n[0] != ".rollback" && (text == Join(n) || text == Join(n) + "/"))
  {
    var n := Segments(text);
    CollapseClimbs(Split(text), []);
    if n == [] {
    } else {
      JoinStarts(n);
      if n[0] == ".." {
        assert |n| > 1 || EndsWithSlash(text) ==> "../" <= text;
        assert text == "..";
      } else {
        var first := n[0];
        forall i | 0 <= i < |n| ensures Proper(n[i]) {
          assert n[i] == ".." && i > 0 ==> first == "..";
        }
        assert n[0] == ".rollback" && (|n| > 1 || EndsWithSlash(text)) ==> ".rollback/" <= text;
      }
    }
  }

  lemma JoinStarts(n: Path)
    requires n != []
    ensures |n| == 1 ==> Join(n) == n[0]
    ensures |n| > 1 ==> n[0] + "/" <= Join(n)
    ensures |n| > 1 || Join(n) + "/" == n[0] + "/"
  {
  }

  /** An accepted path lies strictly below its root, under proper names only. */
  lemma AcceptedIsBelow(root: Path, text: string)
    requires root != [] && AllProper(root) && Accepts(root, text)
    ensures var n := Segments(text);
            n != [] && AllProper(n) && n[0] != ".rollback" && Resolve(root, text) == root + n && Resolve([], text) == n
  {
    hide Join, Normalize;
    AllowedShape(text);
    var n := Segments(text);
    if text == "." || text == "./" || text == ".." {
      NotInScope(root, text);
      assert false;
    } else {
      SplitJoin(n);
      CollapseProper(n, root);
    }
  }

  lemma NotInScope(root: Path, text: string)
    requires root != [] && AllProper(root) && (text == "." || text == "./" || text == "..")
    ensures !InScope(root, Resolve(root, text))
  {
    if text == "." {
      SplitSegment(".", "");
      assert Split(text) == ["."];
      assert ["."][1..] == [];
      assert Collapse(["."], root) == Collapse([], root) == root;
    } else if text == "./" {
      SplitSegment(".", "");
      assert "." + "/" + "" == text;
      assert Split("") == [""];
      assert Split(text) == [".", ""];
      assert [".", ""][1..] == [""] && [""][1..] == [];
      assert Collapse([".", ""], root) == Collapse([""], root) == root;
    } else {
      SplitSegment("..", "");
      assert Split(text) == [".."];
      assert [".."][1..] == [];
      assert Proper(root[|root| - 1]);
      assert Collapse([".."], root) == Collapse([], root[..|root| - 1]) == root[..|root| - 1];
    }
  }

  /** Two accepted paths that name the same file differ by a final slash at most. */
  lemma SameFile(root: Path, a: string, b: string)
    requires root != [] && AllProper(root) && Accepts(root, a) && Accepts(root, b) &&
             Resolve(root, a) == Resolve(root, b)
    ensures a == b || a + "/" == b || b + "/" == a
  {
    hide Join, Normalize, Collapse, Split;
    AcceptedIsBelow(root, a);
    AcceptedIsBelow(root, b);
    assert Segments(a) == Resolve(root, a)[|root|..];
    assert Segments(b) == Resolve(root, b)[|root|..];
    AllowedShape(a);
    AllowedShape(b);
    RootNotEnough(root, a);
    RootNotEnough(root, b);
  }

  lemma RootNotEnough(root: Path, text: string)
    requires root != [] && AllProper(root) && Accepts(root, text)
    ensures text != "." && text != "./" && text != ".."
  {
    if text == "." || text == "./" || text == ".." {
      NotInScope(root, text);
    }
  }

  lemma PrefixIsFirst(segment: string, text: string)
    requires SlashFree(segment) && segment + "/" <= text
    ensures Split(text)[0] == segment
  {
    var rest := text[|segment| + 1..];
    assert text == segment + "/" + rest;
    SplitSegment(segment, rest);
  }

  lemma {:induction false} JoinEnds(n: Path)
    requires n != [] && AllProper(n)
    ensures !EndsWithSlash(Join(n)) && Join(n) != "" && Join(n)[0] != '/'
  {
    assert Proper(n[0]);
    if |n| > 1 {
      JoinEnds(n[1..]);
    }
  }

  /** Conversely every list of proper names, not under ".rollback", is accepted. */
  lemma ProperIsAccepted(root: Path, n: Path)
    requires n != [] && AllProper(n) && n[0] != ".rollback" && '\\' !in Join(n)
    ensures Accepts(root, Join(n)) && Segments(Join(n)) == n
  {
    JoinEnds(n);
    NormalizeProper(n);
    NotPrefixed(n);
    SplitJoin(n);
    CollapseProper(n, root);
    hide Join, Split, Collapse, Normalize;
    assert (root + n)[..|root + n| - 1] == root + n[..|n| - 1];
  }

  lemma NotPrefixed(n: Path)
    requires n != [] && AllProper(n) && n[0] != ".rollback"
    ensures !("../" <= Join(n)) && !(".rollback/" <= Join(n)) && Join(n) != ".rollback"
  {
    hide Join, Split;
    var up, quarantine := "..", ".rollback";
    assert up + "/" == "../" && quarantine + "/" == ".rollback/";
    assert SlashFree(up) && SlashFree(quarantine) && Proper(n[0]);
    SplitJoin(n);
    if up + "/" <= Join(n) {
      PrefixIsFirst(up, Join(n));
    }
    if quarantine + "/" <= Join(n) {
      PrefixIsFirst(quarantine, Join(n));
    }
    SplitSegment(quarantine, "");
  }

  lemma NormalizeProper(n: Path)
    requires n != [] && AllProper(n)
    ensures Normalize(Join(n)) == Join(n) && Segments(Join(n)) == n
  {
    hide Join, Split, Collapse;
    JoinEnds(n);
    SplitJoin(n);
    CollapseProper(n, []);
    assert [] + n == n;
    assert Join(n) + "" == Join(n);
  }

  // ----- Publishing names exactly the staged set.

  /** Distinct names, all staged, and as many as are staged: then every staged name is there. */
  lemma {:induction false} ExactSet(names: seq<string>, staged: set<string>)
    requires forall i :: 0 <= i < |names| ==> names[i] in staged
    requires forall i, j :: 0 <= i < j < |names| ==> names[i] != names[j]
    requires |names| == |staged|
    ensures forall s :: s in staged ==> s in names
  {
    if |names| > 0 {
      var last := names[|names| - 1];
      ExactSet(names[..|names| - 1], staged - {last});
      forall s | s in staged ensures s in names {
        if s != last { assert s in names[..|names| - 1]; }
      }
    }
  }
}
