/**
 The reviewable export of a checkout: the tracked diff against the baseline followed by one
 creation patch per untracked file, and what applying that patch to the baseline yields.
*/
module Export {
  import opened Wrappers
  import opened TaskPolicy
  import opened Git
  import opened Worktree

  /** One file diff. A rename pairs a deleted path with an added one. */
  datatype Hunk =
    | Change(path: Path, before: Option<Blob>, after: Option<Blob>)
    | Rename(src: Path, dst: Path, original: Blob, renamed: Blob)

  type Patch = seq<Hunk>

  function At(t: Tree, p: Path): Option<Blob> {
    if p in t then Some(t[p]) else None
  }

  function Put(t: Tree, p: Path, b: Option<Blob>): Tree {
    if b.Some? then t[p := b.value] else t - {p}
  }

  function Touches(h: Hunk): set<Path> {
    match h
    case Change(p, _, _) => {p}
    case Rename(src, dst, _, _) => {src, dst}
  }

  function AllTouched(d: Patch): (r: set<Path>)
    ensures forall h :: h in d ==> Touches(h) <= r
  {
    if d == [] then {} else Touches(d[0]) + AllTouched(d[1..])
  }

  /** A hunk applies only to exactly the content that it was made from. */
  function ApplyHunk(t: Tree, h: Hunk): Option<Tree> {
    match h
    case Change(p, before, after) => if At(t, p) == before then Some(Put(t, p, after)) else None
    case Rename(src, dst, before, after) =>
      if At(t, src) == Some(before) && dst !in t then Some((t - {src})[dst := after]) else None
  }

  /** `git apply`: all hunks in order, or nothing. */
  function Apply(t: Tree, d: Patch): Option<Tree>
    decreases |d|
  {
    if d == [] then Some(t)
    else if ApplyHunk(t, d[0]).None? then None
    else Apply(ApplyHunk(t, d[0]).value, d[1..])
  }

  /** The hunk says truly how its paths differ between a and b. */
  predicate TrueOf(h: Hunk, a: Tree, b: Tree) {
    match h
    case Change(p, before, after) => At(a, p) == before && At(b, p) == after && before != after
    case Rename(src, dst, before, after) =>
      At(a, src) == Some(before) && dst !in a && src !in b && At(b, dst) == Some(after)
  }

  /** What `git diff` promises: true hunks on disjoint paths that cover every difference. */
  ghost predicate IsDiff(d: Patch, a: Tree, b: Tree) {
    && (forall h :: h in d ==> TrueOf(h, a, b))
    && (forall i, j :: 0 <= i < j < |d| ==> Touches(d[i]) !! Touches(d[j]))
    && Changed(a, b) <= AllTouched(d)
  }

  lemma {:induction false} DisjointTail(d: Patch)
    requires |d| > 0 && forall i, j :: 0 <= i < j < |d| ==> Touches(d[i]) !! Touches(d[j])
    ensures Touches(d[0]) !! AllTouched(d[1..])
    decreases |d|
  {
    if |d| == 1 {
    } else {
      var e := [d[0]] + d[2..];
      assert forall i, j :: 0 <= i < j < |e| ==> Touches(e[i]) !! Touches(e[j]) by {
        forall i, j | 0 <= i < j < |e| ensures Touches(e[i]) !! Touches(e[j]) {
          assert e[j] == d[j + 1] && (i == 0 ==> e[i] == d[0]) && (i > 0 ==> e[i] == d[i + 1]);
        }
      }
      DisjointTail(e);
      assert e[1..] == d[2..] && d[1..][1..] == d[2..] && d[1..][0] == d[1];
    }
  }

  /** A true diff applies to the tree it starts from and produces the tree it leads to. */
  lemma {:induction false} DiffApplies(d: Patch, a: Tree, b: Tree)
    requires IsDiff(d, a, b)
    ensures Apply(a, d) == Some(b)
    decreases |d|
  {
    if d == [] {
      assert Changed(a, b) == {};
      assert a == b by {
        forall p | p in a.Keys + b.Keys ensures p in a && p in b && a[p] == b[p] {
          assert p !in Changed(a, b);
        }
      }
    } else {
      DisjointTail(d);
      assert d[0] in d && TrueOf(d[0], a, b);
      var c := ApplyHunk(a, d[0]).value;
      assert forall p :: p !in Touches(d[0]) ==> At(c, p) == At(a, p);
      assert forall p :: p in Touches(d[0]) ==> At(c, p) == At(b, p);
      forall p | p in Changed(c, b) ensures p in AllTouched(d[1..]) {
        assert p !in Touches(d[0]) && p in Changed(a, b);
      }
      forall h | h in d[1..] ensures TrueOf(h, c, b) {
        assert h in d && Touches(h) <= AllTouched(d[1..]);
      }
      DiffApplies(d[1..], c, b);
    }
  }

  /** One hunk applies exactly where its paths are as they were, and leaves them as they became. */
  lemma HunkAppliesIff(h: Hunk, a: Tree, b: Tree, t: Tree)
    requires TrueOf(h, a, b)
    ensures ApplyHunk(t, h).Some? <==> forall p :: p in Touches(h) ==> At(t, p) == At(a, p)
    ensures ApplyHunk(t, h).Some? ==>
              forall p :: At(ApplyHunk(t, h).value, p) == if p in Touches(h) then At(b, p) else At(t, p)
  {
    if h.Change? {
      assert h.path in Touches(h);
    } else {
      assert h.src in Touches(h) && h.dst in Touches(h);
    }
  }

  /**
   A diff applies to exactly those trees that agree with its source on every path that it touches; there it
   produces its target, and it leaves all other paths alone.
  */
  lemma {:induction false} DiffAppliesIff(d: Patch, a: Tree, b: Tree, t: Tree)
    requires IsDiff(d, a, b)
    ensures Apply(t, d).Some? <==> forall p :: p in AllTouched(d) ==> At(t, p) == At(a, p)
    ensures Apply(t, d).Some? ==>
              forall p :: At(Apply(t, d).value, p) == if p in AllTouched(d) then At(b, p) else At(t, p)
    decreases |d|
  {
    if d == [] {
    } else {
      DisjointTail(d);
      assert d[0] in d && TrueOf(d[0], a, b);
      HunkAppliesIff(d[0], a, b, t);
      HunkAppliesIff(d[0], a, b, a);
      if ApplyHunk(t, d[0]).Some? {
        var rest, next := ApplyHunk(a, d[0]).value, ApplyHunk(t, d[0]).value;
        forall p | p in Changed(rest, b) ensures p in AllTouched(d[1..]) {
          assert At(rest, p) != At(b, p);
          assert p in Changed(a, b);
        }
        forall h | h in d[1..] ensures TrueOf(h, rest, b) {
          assert h in d && Touches(h) <= AllTouched(d[1..]) && TrueOf(h, a, b);
          assert forall p :: p in Touches(h) ==> At(rest, p) == At(a, p);
        }
        DiffAppliesIff(d[1..], rest, b, next);
        assert forall p :: p in AllTouched(d) <==> p in Touches(d[0]) || p in AllTouched(d[1..]);
      }
    }
  }

  lemma {:induction false} ApplyInTurn(t: Tree, d: Patch, e: Patch)
    requires Apply(t, d).Some?
    ensures Apply(t, d + e) == Apply(Apply(t, d).value, e)
    decreases |d|
  {
    if d == [] {
      assert d + e == e;
    } else {
      assert (d + e)[1..] == d[1..] + e;
      ApplyInTurn(ApplyHunk(t, d[0]).value, d[1..], e);
    }
  }

  /** What `git diff <baseline>` compares the baseline with: the tracked files as they are. */
  function TrackedFiles(s: State): Tree {
    map p | p in s.work && p in s.index :: s.work[p]
  }

  /** `ls-files --others --exclude-standard`. */
  function UntrackedPaths(s: State, ignored: set<Path>): set<Path> {
    set p | p in s.work && p !in s.index && p !in ignored
  }

  function Creations(paths: seq<Path>, work: Tree): Patch
    requires forall p :: p in paths ==> p in work
  {
    if paths == [] then [] else [Change(paths[0], None, Some(work[paths[0]]))] + Creations(paths[1..], work)
  }

  datatype ExportError = NotDetached | HasSubmodules | NotTheScopedCommit | NotARegularFile

  datatype Exported = Exported(patch: Patch, changed: set<Path>, commit: Option<Commit>)

  ghost predicate Ordered(paths: seq<Path>, all: set<Path>) {
    && (forall p :: p in paths <==> p in all)
    && NoDuplicates(paths)
  }

  /**
   The export loop. tracked is what git printed for the tracked diff, renames paired or not; listing
   is its list of untracked paths. The checkout itself is only read.
  */
  method ExportResult(checkout: Checkout, baseline: Commit, scopedCommit: Option<Commit>, tracked: Patch,
                      listing: seq<Path>)
    returns (r: Result<Exported, ExportError>)
    requires IsDiff(tracked, baseline.tree, TrackedFiles(checkout.Now()))
    requires Ordered(listing, UntrackedPaths(checkout.Now(), checkout.ignored))
    ensures r.Ok? ==>
      && r.value.patch == tracked + Creations(listing, checkout.work)
      && r.value.changed ==
            Changed(baseline.tree, TrackedFiles(checkout.Now())) + UntrackedPaths(checkout.Now(), checkout.ignored)
      && r.value.commit == scopedCommit
      && (scopedCommit.Some? ==>
            checkout.head == scopedCommit.value && checkout.head.Child? && checkout.head.parent == baseline)
      && forall p :: p in UntrackedPaths(checkout.Now(), checkout.ignored) ==> checkout.work[p].File?
    ensures r.Ok? <==>
      && checkout.detached
      && !HasGitlinks(baseline.tree) && !HasGitlinks(checkout.index) && !HasGitlinks(checkout.head.tree)
      && (scopedCommit.Some? ==>
            && checkout.head == scopedCommit.value && checkout.head.Child? && checkout.head.parent == baseline
            && TaskIdOk(checkout.head.taskId))
      && forall p :: p in listing ==> checkout.work[p].File?
  {
    if HasGitlinks(baseline.tree) || HasGitlinks(checkout.index) {
      return Err(HasSubmodules);
    }
    if !checkout.detached {
      return Err(NotDetached);
    }
    if HasGitlinks(checkout.head.tree) {
      return Err(HasSubmodules);
    }
    if scopedCommit.Some? {
      if checkout.head != scopedCommit.value || !checkout.head.Child? || checkout.head.parent != baseline
         || !TaskIdOk(checkout.head.taskId) {
        return Err(NotTheScopedCommit);
      }
    }
    assert forall p :: p in listing ==> p in UntrackedPaths(checkout.Now(), checkout.ignored);
    var creations := CollectCreations(checkout.work, listing);
    if creations.None? {
      return Err(NotARegularFile);
    }
    var changed := Changed(baseline.tree, TrackedFiles(checkout.Now())) + (set p | p in listing);
    return Ok(Exported(tracked + creations.value, changed, scopedCommit));
  }

  /** The loop over the untracked files; the first one that is not regular ends it. */
  method CollectCreations(work: Tree, listing: seq<Path>) returns (r: Option<Patch>)
    requires forall p :: p in listing ==> p in work
    ensures r.Some? <==> forall p :: p in listing ==> work[p].File?
    ensures r.Some? ==> r.value == Creations(listing, work)
  {
    var creations: Patch := [];
    for i := 0 to |listing|
      invariant forall j :: 0 <= j < i ==> work[listing[j]].File?
      invariant creations + Creations(listing[i..], work) == Creations(listing, work)
    {
      var content := work[listing[i]];
      if !content.File? {
        return None;
      }
      creations := creations + [Change(listing[i], None, Some(content))];
      assert listing[i..][1..] == listing[i + 1..];
    }
    assert creations == Creations(listing, work);
    return Some(creations);
  }

  lemma {:induction false} CreationsTouch(paths: seq<Path>, work: Tree)
    requires forall p :: p in paths ==> p in work
    ensures |Creations(paths, work)| == |paths|
    ensures forall i :: 0 <= i < |paths| ==> Creations(paths, work)[i] == Change(paths[i], None, Some(work[paths[i]]))
    ensures AllTouched(Creations(paths, work)) == set p | p in paths
  {
    if paths == [] {
    } else {
      CreationsTouch(paths[1..], work);
      var rest := Creations(paths[1..], work);
      var all := Creations(paths, work);
      assert all[1..] == rest;
      assert forall i :: 0 < i < |paths| ==> all[i] == rest[i - 1] && paths[i] == paths[1..][i - 1];
      assert forall p :: p in paths <==> p == paths[0] || p in paths[1..];
    }
  }

  /** The creation patches are the difference between the tracked files and the candidate. */
  lemma CreationsAreDiff(s: State, ignored: set<Path>, listing: seq<Path>)
    requires Ordered(listing, UntrackedPaths(s, ignored))
    ensures IsDiff(Creations(listing, s.work), TrackedFiles(s), Candidate(s.index, s.work, ignored))
  {
    var creations := Creations(listing, s.work);
    CreationsTouch(listing, s.work);
    assert Changed(TrackedFiles(s), Candidate(s.index, s.work, ignored)) <= UntrackedPaths(s, ignored);
    forall i, j | 0 <= i < j < |creations| ensures Touches(creations[i]) !! Touches(creations[j]) {
      assert listing[i] != listing[j];
    }
    forall h | h in creations ensures TrueOf(h, TrackedFiles(s), Candidate(s.index, s.work, ignored)) {
      var i :| 0 <= i < |creations| && creations[i] == h;
      assert listing[i] in UntrackedPaths(s, ignored);
    }
  }

  /**
   Round trip: the exported patch applies to the baseline and reproduces exactly the candidate,
   that is the tracked files and the untracked ones that are not ignored.
  */
  lemma ExportReproducesCandidate(s: State, baseline: Tree, ignored: set<Path>, tracked: Patch, listing: seq<Path>)
    requires IsDiff(tracked, baseline, TrackedFiles(s)) && Ordered(listing, UntrackedPaths(s, ignored))
    ensures Apply(baseline, tracked + Creations(listing, s.work)) == Some(Candidate(s.index, s.work, ignored))
  {
    CreationsAreDiff(s, ignored, listing);
    DiffApplies(tracked, baseline, TrackedFiles(s));
    DiffApplies(Creations(listing, s.work), TrackedFiles(s), Candidate(s.index, s.work, ignored));
    ApplyInTurn(baseline, tracked, Creations(listing, s.work));
  }

  /** The paths that the export reports. */
  function ReportedPaths(s: State, baseline: Tree, ignored: set<Path>): set<Path> {
    Changed(baseline, TrackedFiles(s)) + UntrackedPaths(s, ignored)
  }

  /** A baseline file that was dropped from the index but still lies there, unchanged and not ignored. */
  predicate DroppedInPlace(s: State, baseline: Tree, ignored: set<Path>, p: Path) {
    p in baseline && p in s.work && p !in s.index && p !in ignored && s.work[p] == baseline[p]
  }

  /**
   The report names every differing path, both sides of each rename included; the only paths
   beyond that are files dropped from the index in place.
  */
  lemma ReportIsComplete(s: State, baseline: Tree, ignored: set<Path>, tracked: Patch)
    requires IsDiff(tracked, baseline, TrackedFiles(s))
    ensures Changed(baseline, Candidate(s.index, s.work, ignored)) <= ReportedPaths(s, baseline, ignored)
    ensures forall h :: h in tracked ==> Touches(h) <= ReportedPaths(s, baseline, ignored)
    ensures forall p :: p in ReportedPaths(s, baseline, ignored) <==>
                        || p in Changed(baseline, Candidate(s.index, s.work, ignored))
                        || DroppedInPlace(s, baseline, ignored, p)
  {
    forall h | h in tracked ensures Touches(h) <= Changed(baseline, TrackedFiles(s)) {
      assert TrueOf(h, baseline, TrackedFiles(s));
    }
  }

  /**
   Applying the exported patch, index included, in another checkout and exporting from there gives
   the same content change and reports exactly the paths that differ.
  */
  lemma FreshCheckoutAgrees(s: State, baseline: Commit, ignored: set<Path>, ignored': set<Path>,
                            tracked: Patch, listing: seq<Path>, tracked': Patch, applied: State)
    requires IsDiff(tracked, baseline.tree, TrackedFiles(s)) && Ordered(listing, UntrackedPaths(s, ignored))
    requires Apply(baseline.tree, tracked + Creations(listing, s.work)) == Some(applied.work)
    requires applied.index == applied.work && applied.head == baseline
    requires IsDiff(tracked', baseline.tree, TrackedFiles(applied))
    ensures UntrackedPaths(applied, ignored') == {}
    ensures Apply(baseline.tree, tracked') == Some(Candidate(s.index, s.work, ignored))
    ensures ReportedPaths(applied, baseline.tree, ignored') ==
              Changed(baseline.tree, Candidate(s.index, s.work, ignored))
  {
    ExportReproducesCandidate(s, baseline.tree, ignored, tracked, listing);
    assert TrackedFiles(applied) == applied.work;
    DiffApplies(tracked', baseline.tree, applied.work);
  }

  /** What a scoped commit stores is exactly what an export of the same checkout would reproduce. */
  lemma CommitMatchesExport(s: State, q: CommitRequest, ignored: set<Path>, tracked: Patch, listing: seq<Path>)
    requires CommitQuietly(s, q, ignored).0.Ok?
    requires IsDiff(tracked, q.baseline.tree, TrackedFiles(s)) && Ordered(listing, UntrackedPaths(s, ignored))
    ensures Apply(q.baseline.tree, tracked + Creations(listing, s.work)) ==
              Some(CommitQuietly(s, q, ignored).0.value.tree)
    ensures ReportedPaths(CommitQuietly(s, q, ignored).1, q.baseline.tree, ignored)
         == Changed(q.baseline.tree, CommitQuietly(s, q, ignored).0.value.tree)
  {
    ExportReproducesCandidate(s, q.baseline.tree, ignored, tracked, listing);
    var t := CommitQuietly(s, q, ignored).1;
    assert TrackedFiles(t) == t.index;
  }
}
