/**
 The files of a checkout as a map from Git paths to contents, their layout as directory entries, and
 the removal of the untracked ones through the file system operations of module Removal.
*/
module Worktree {
  import opened TaskPolicy
  import Removal
  import opened Text

  datatype Blob = File(data: string) | Link(target: string) | Gitlink(id: string)

  type Tree = map<Path, Blob>

  /** No path is a file and a directory at once. */
  predicate Placeable(t: Tree) {
    forall p, q :: p in t && q in t ==> !(Parts(p) < Parts(q))
  }

  /** A tree that can lie on a disk or in a commit. */
  type Placed = t: Tree | Placeable(t) witness map[]

  lemma {:induction false} JoinedParts(s: string)
    ensures Joined(Parts(s), '/') == s
  {
    if s == "" {
    } else {
      JoinedParts(s[1..]);
      assert s == [s[0]] + s[1..];
      if s[0] == '/' {
        JoinedStarts("", Parts(s[1..]), '/');
      } else {
        JoinedPrepends(s[0], Parts(s[1..]), '/');
      }
    }
  }

  // ----- the layout on disk -----

  function Place(root: Removal.Path, p: Path): Removal.Path {
    root + Parts(p)
  }

  lemma PartsAreUnique(p: Path, q: Path)
    ensures Parts(p) == Parts(q) ==> p == q
  {
    JoinedParts(p);
    JoinedParts(q);
  }

  /** Places compare below the root as the parts of their paths do. */
  lemma PlacesCompare(root: Removal.Path, q: Path, x: Removal.Path)
    ensures Place(root, q) == root + x <==> Parts(q) == x
    ensures Place(root, q) <= root + x <==> Parts(q) <= x
  {
    assert (root + x)[|root|..] == x && Place(root, q)[|root|..] == Parts(q);
    if Place(root, q) <= root + x {
      assert Place(root, q) == (root + x)[..|Place(root, q)|];
      assert x[..|Parts(q)|] == (root + x)[..|Place(root, q)|][|root|..];
    }
  }

  /** A nested repository is a directory with a .git entry. */
  function Marker(root: Removal.Path, p: Path): Removal.Path {
    Place(root, p) + [".git"]
  }

  function Entries(root: Removal.Path, t: Tree): set<Removal.Path> {
    (set k | 0 <= k <= |root| :: root[..k])
    + (set p, k | p in t && 0 < k <= |Parts(p)| :: root + Parts(p)[..k])
    + (set p | p in t && t[p].Gitlink? :: Marker(root, p))
  }

  predicate IsFileAt(root: Removal.Path, t: Tree, e: Removal.Path) {
    exists p :: p in t && ((t[p].File? && Place(root, p) == e) || (t[p].Gitlink? && Marker(root, p) == e))
  }

  predicate IsLinkAt(root: Removal.Path, t: Tree, e: Removal.Path) {
    exists p :: p in t && t[p].Link? && Place(root, p) == e
  }

  function Layout(root: Removal.Path, t: Tree): Removal.Fs {
    map e | e in Entries(root, t) ::
      if IsFileAt(root, t, e) then Removal.File else if IsLinkAt(root, t, e) then Removal.Link else Removal.Dir
  }

  /** At root + x nothing but a directory can be when x leads on to a path of the tree. */
  lemma InnerIsDirectory(root: Removal.Path, t: Placed, p: Path, x: Removal.Path)
    requires p in t && x < Parts(p)
    ensures root + x in Layout(root, t) && Layout(root, t)[root + x].Dir?
  {
    assert x == Parts(p)[..|x|];
    assert if x == [] then root + x == root[..|root|] else root + x == root + Parts(p)[..|x|];
    forall q | q in t ensures Place(root, q) != root + x && Marker(root, q) != root + x {
      PlacesCompare(root, q, x);
      MarkerPlace(root, q, x);
      assert Parts(q) + [".git"] == x ==> Parts(q) < Parts(p);
    }
  }

  lemma MarkerPlace(root: Removal.Path, q: Path, x: Removal.Path)
    ensures Marker(root, q) == root + (Parts(q) + [".git"])
    ensures Marker(root, q) == root + x <==> Parts(q) + [".git"] == x
  {
    assert (root + x)[|root|..] == x && (root + (Parts(q) + [".git"]))[|root|..] == Parts(q) + [".git"];
  }

  lemma RootIsDirectory(root: Removal.Path, t: Tree, k: nat)
    requires k <= |root|
    ensures root[..k] in Layout(root, t) && Layout(root, t)[root[..k]].Dir?
  {
  }

  lemma GitlinkIsDirectory(root: Removal.Path, t: Placed, p: Path)
    requires p in t && t[p].Gitlink?
    ensures Place(root, p) in Layout(root, t) && Layout(root, t)[Place(root, p)].Dir?
  {
    assert Place(root, p) == root + Parts(p)[..|Parts(p)|];
    forall q | q in t ensures (Place(root, q) == Place(root, p) ==> q == p) && Marker(root, q) != Place(root, p) {
      PlacesCompare(root, q, Parts(p));
      PartsAreUnique(q, p);
      MarkerPlace(root, q, Parts(p));
      assert Parts(q) + [".git"] == Parts(p) ==> Parts(q) < Parts(p);
    }
  }

  lemma ParentIsDirectory(root: Removal.Path, t: Placed, e: Removal.Path)
    requires e in Entries(root, t) && |e| > 0
    ensures e[..|e| - 1] in Layout(root, t) && Layout(root, t)[e[..|e| - 1]].Dir?
  {
    var parent := e[..|e| - 1];
    if k :| 0 <= k <= |root| && e == root[..k] {
      assert parent == root[..k - 1];
      RootIsDirectory(root, t, k - 1);
    } else if p, k :| p in t && 0 < k <= |Parts(p)| && e == root + Parts(p)[..k] {
      assert parent == root + Parts(p)[..k - 1];
      InnerIsDirectory(root, t, p, Parts(p)[..k - 1]);
    } else {
      var p :| p in t && t[p].Gitlink? && e == Marker(root, p);
      assert parent == Place(root, p);
      GitlinkIsDirectory(root, t, p);
    }
  }

  lemma LayoutIsWellFormed(root: Removal.Path, t: Placed)
    ensures Removal.WellFormed(Layout(root, t)) && Removal.LinkFree(Layout(root, t), root)
    ensures root in Layout(root, t) && Layout(root, t)[root].Dir?
  {
    var fs := Layout(root, t);
    forall e | e in fs && |e| > 0 ensures e[..|e| - 1] in fs && fs[e[..|e| - 1]].Dir? {
      ParentIsDirectory(root, t, e);
    }
    RootIsDirectory(root, t, |root|);
    assert root == root[..|root|];
    Removal.EntryIsLinkFree(fs, root);
  }

  // ----- removal -----

  /** Nothing is denied at or below an untracked path. */
  predicate RemovalPermitted(root: Removal.Path, work: Tree, index: Tree, denied: set<Removal.Path>) {
    forall p, d :: p in work && p !in index && d in denied ==> !(Place(root, p) <= d)
  }

  lemma PathHasEntry(root: Removal.Path, t: Tree, p: Path)
    requires p in t
    ensures Place(root, p) in Layout(root, t)
  {
    assert Place(root, p) == root + Parts(p)[..|Parts(p)|];
  }

  lemma CandidateIsPermitted(root: Removal.Path, work: Placed, index: Tree, denied: set<Removal.Path>, p: Path,
                             fs: Removal.Fs)
    requires RemovalPermitted(root, work, index, denied) && p in work && p !in index && fs == Layout(root, work)
    ensures Removal.LinkFree(fs, Place(root, p)) && Removal.Permitted(fs, denied, Place(root, p))
  {
    LayoutIsWellFormed(root, work);
    PathHasEntry(root, work, p);
    Removal.EntryIsLinkFree(fs, Place(root, p));
  }

  function Candidates(root: Removal.Path, work: Tree, index: Tree): set<Removal.Path> {
    set p | p in work && p !in index :: Place(root, p)
  }

  lemma CandidatesArePermitted(root: Removal.Path, work: Placed, index: Tree, denied: set<Removal.Path>, fs: Removal.Fs)
    requires RemovalPermitted(root, work, index, denied) && fs == Layout(root, work)
    ensures Removal.AllPermitted(fs, denied, Candidates(root, work, index))
  {
    forall c | c in Candidates(root, work, index)
      ensures Removal.LinkFree(fs, c) && Removal.Permitted(fs, denied, c)
    {
      var p :| p in work && p !in index && c == Place(root, p);
      CandidateIsPermitted(root, work, index, denied, p, fs);
    }
  }

  lemma PrefixOrLonger(a: Removal.Path, b: Removal.Path, last: string)
    ensures a <= b + [last] ==> a <= b || b < a
  {
    var x := b + [last];
    if a <= x {
      assert a == x[..|a|];
      assert |a| <= |b| ==> a == b[..|a|];
      assert |a| > |b| ==> a == x;
    }
  }

  /** A tracked path does not lie at or below an untracked one, nor does its marker. */
  lemma TrackedIsNoCandidate(root: Removal.Path, work: Placed, index: Tree, p: Path, q: Path)
    requires p in work && p in index && q in work && q !in index
    ensures !(Place(root, q) <= Place(root, p)) && !(Place(root, q) <= Marker(root, p))
  {
    var x := Parts(p) + [".git"];
    PlacesCompare(root, q, Parts(p));
    PlacesCompare(root, q, x);
    PartsAreUnique(q, p);
    MarkerPlace(root, p, x);
    assert Parts(q) <= Parts(p) ==> Parts(q) == Parts(p) || Parts(q) < Parts(p);
    PrefixOrLonger(Parts(q), Parts(p), ".git");
  }

  /** fs has lost nothing but directories that may be swept and entries at or below a candidate. */
  ghost predicate LostOnly(root: Removal.Path, before: Removal.Fs, fs: Removal.Fs, candidates: set<Removal.Path>) {
    && Removal.WellFormed(fs)
    && (forall e :: e in fs ==> e in before && fs[e] == before[e])
    && (forall e :: e in before && e !in fs ==>
          Removal.Sweepable(before, root, e) || exists c :: c in candidates && Removal.Within(e, c))
  }

  /** An entry that is no directory outlives the removal unless it lies at or below a candidate. */
  lemma LeafStays(root: Removal.Path, work: Placed, index: Tree, after: Removal.Fs, p: Path, e: Removal.Path)
    requires p in work && p in index && LostOnly(root, Layout(root, work), after, Candidates(root, work, index))
    requires e == Place(root, p) || e == Marker(root, p)
    requires e in Layout(root, work) && !Layout(root, work)[e].Dir?
    ensures e in after
  {
    forall c | c in Candidates(root, work, index) ensures !Removal.Within(e, c) {
      var q :| q in work && q !in index && c == Place(root, q);
      TrackedIsNoCandidate(root, work, index, p, q);
    }
  }

  /** What is tracked outlives the removal, whatever else has gone. */
  lemma TrackedStays(root: Removal.Path, work: Placed, index: Tree, after: Removal.Fs, p: Path)
    requires p in work && p in index && LostOnly(root, Layout(root, work), after, Candidates(root, work, index))
    ensures Place(root, p) in after
  {
    var e := Place(root, p);
    PathHasEntry(root, work, p);
    if work[p].Gitlink? {
      var m := Marker(root, p);
      assert m in Entries(root, work) && IsFileAt(root, work, m);
      LeafStays(root, work, index, after, p, m);
      assert m[..|m| - 1] == e;
    } else {
      assert IsFileAt(root, work, e) || IsLinkAt(root, work, e);
      LeafStays(root, work, index, after, p, e);
    }
  }

  /** What is left of the files. */
  function Remaining(root: Removal.Path, work: Placed, fs: Removal.Fs): Placed {
    map p | p in work && Place(root, p) in fs :: work[p]
  }

  lemma RemainingIsTracked(root: Removal.Path, work: Placed, index: Tree, fs: Removal.Fs)
    requires LostOnly(root, Layout(root, work), fs, Candidates(root, work, index))
    ensures forall p :: p in work && p in index ==> p in Remaining(root, work, fs)
    ensures (forall c :: c in Candidates(root, work, index) ==> c !in fs) ==>
              Remaining(root, work, fs) == map p | p in work && p in index :: work[p]
  {
    forall p | p in work && p in index ensures Place(root, p) in fs {
      TrackedStays(root, work, index, fs, p);
    }
    if forall c :: c in Candidates(root, work, index) ==> c !in fs {
      forall p | p in Remaining(root, work, fs) ensures p in index {
        assert p !in index ==> Place(root, p) in Candidates(root, work, index);
      }
    }
  }

  /**
   Remove the untracked files, ignored ones included, and the directories that this leaves empty.
   Tracked files stay in any case; what the operating system denies makes the removal stop part way.
  */
  method RemoveUntrackedFiles(root: Removal.Path, work: Placed, index: Tree, follow: Removal.Path -> Removal.Path,
                              denied: set<Removal.Path>)
    returns (ok: bool, left: Placed)
    ensures forall p :: p in left ==> p in work && left[p] == work[p]
    ensures forall p :: p in work && p in index ==> p in left
    ensures ok ==> left == map p | p in work && p in index :: work[p]
    ensures RemovalPermitted(root, work, index, denied) ==> ok
  {
    ghost var layout := Layout(root, work);
    LayoutIsWellFormed(root, work);
    if RemovalPermitted(root, work, index, denied) {
      CandidatesArePermitted(root, work, index, denied, layout);
    }
    var files := new Removal.FileSystem(Layout(root, work), follow, denied);
    ok := files.RemoveUntracked(root, Candidates(root, work, index));
    RemainingIsTracked(root, work, index, files.fs);
    left := Remaining(root, work, files.fs);
  }
}
