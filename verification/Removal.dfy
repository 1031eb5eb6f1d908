/**
 The recursive removal of untracked entries from a checkout. The operating system follows
 symbolic links in all but the last component of a path, so a removal below a link hits
 something else, perhaps outside the checkout; follow says where such a removal ends up.
*/
module Removal {
  type Path = seq<string>

  datatype Node = Dir | File | Link

  type Fs = map<Path, Node>

  /** No proper ancestor of p is a symbolic link: removing p then removes the entry p itself. */
  predicate LinkFree(fs: Fs, p: Path) {
    forall k :: 0 <= k < |p| && p[..k] in fs ==> !fs[p[..k]].Link?
  }

  /** Every entry but the root lies in a directory. */
  predicate WellFormed(fs: Fs) {
    forall p :: p in fs && |p| > 0 ==> p[..|p| - 1] in fs && fs[p[..|p| - 1]].Dir?
  }

  predicate Within(p: Path, top: Path) {
    top <= p
  }

  function Below(fs: Fs, top: Path): set<Path> {
    set p | p in fs && top < p
  }

  function Children(fs: Fs, top: Path): set<Path> {
    set p | p in fs && |p| == |top| + 1 && top < p
  }

  function Minus(fs: Fs, top: Path): Fs {
    map p | p in fs && !Within(p, top) :: fs[p]
  }

  /** In a well-formed tree nothing lies below a link or a file, so every entry is link-free. */
  lemma {:induction false} EntriesAreLinkFree(fs: Fs, p: Path, k: nat)
    requires WellFormed(fs) && p in fs && k < |p|
    ensures p[..k] in fs && fs[p[..k]].Dir?
    decreases |p| - k
  {
    if k == |p| - 1 {
    } else {
      EntriesAreLinkFree(fs, p, k + 1);
      assert p[..k + 1][..k] == p[..k];
    }
  }

  lemma EntryIsLinkFree(fs: Fs, p: Path)
    requires WellFormed(fs) && p in fs
    ensures LinkFree(fs, p)
  {
    forall k | 0 <= k < |p| ensures p[..k] in fs && !fs[p[..k]].Link? {
      EntriesAreLinkFree(fs, p, k);
    }
  }

  /** The way down to an entry starts with a child. */
  lemma WayDown(fs: Fs, top: Path, q: Path)
    requires WellFormed(fs) && q in Below(fs, top)
    ensures q[..|top| + 1] in Children(fs, top)
  {
    var c := q[..|top| + 1];
    if c == q {
    } else {
      EntriesAreLinkFree(fs, q, |top| + 1);
    }
  }

  lemma EmptyBelow(fs: Fs, top: Path)
    requires WellFormed(fs) && Children(fs, top) == {}
    ensures Below(fs, top) == {}
  {
    if q :| q in Below(fs, top) {
      WayDown(fs, top, q);
    }
  }

  class FileSystem {
    var fs: Fs
    const follow: Path -> Path
    const denied: set<Path>

    constructor (fs: Fs, follow: Path -> Path, denied: set<Path>)
      ensures this.fs == fs && this.follow == follow && this.denied == denied
    {
      this.fs, this.follow, this.denied := fs, follow, denied;
    }

    /** The entry that a removal of p really removes. */
    function Target(p: Path): (target: Path)
      reads this
      ensures target != p ==> !LinkFree(fs, p)
      ensures !LinkFree(fs, p) ==> target == follow(p)
    {
      if LinkFree(fs, p) then p else follow(p)
    }

    /** unlink or rmdir: removes one entry, and only if nothing lies below it. */
    method RemoveEntry(p: Path) returns (ok: bool)
      modifies this
      ensures fs == if ok then old(fs) - {old(Target(p))} else old(fs)
      ensures ok <==> old(Target(p)) !in denied && Below(old(fs), old(Target(p))) == {}
    {
      var target := Target(p);
      if target in denied || Below(fs, target) != {} {
        return false;
      }
      fs := fs - {target};
      return true;
    }

    /** Component by component below the checkout: no link, except perhaps the leaf. */
    method IsSafe(checkout: Path, p: Path, leafMayBeLink: bool) returns (ok: bool)
      requires LinkFree(fs, checkout) && (checkout in fs ==> !fs[checkout].Link?)
      ensures ok <==> Within(p, checkout) && LinkFree(fs, p) && (leafMayBeLink || (p in fs && !fs[p].Link?))
    {
      if !(checkout <= p) {
        return false;
      }
      assert p[..|checkout|] == checkout;
      for k := |checkout| to |p|
        invariant LinkFree(fs, p[..k]) && (p[..k] in fs ==> !fs[p[..k]].Link?)
      {
        LinkFreeStep(fs, p, k);
        var current := p[..k + 1];
        if current in fs && fs[current].Link? {
          assert k + 1 == |p| ==> current == p;
          return k + 1 == |p| && leafMayBeLink;
        }
      }
      assert p[..|p|] == p;
      return leafMayBeLink || p in fs;
    }

    method UnlinkLeaf(checkout: Path, p: Path) returns (ok: bool)
      requires WellFormed(fs) && LinkFree(fs, checkout) && (checkout in fs ==> !fs[checkout].Link?)
      requires checkout < p && Below(fs, p) == {}
      modifies this
      ensures fs == if ok then old(fs) - {p} else old(fs)
      ensures p in old(fs) && p !in denied ==> ok
      ensures ok <==> LinkFree(old(fs), p) && p !in denied
      ensures WellFormed(fs)
    {
      if p in fs {
        EntryIsLinkFree(fs, p);
      }
      var safe := IsSafe(checkout, p, true);
      if !safe {
        return false;
      }
      ok := RemoveEntry(p);
      LeafGone(old(fs), p);
    }

    method RemoveChild(checkout: Path, top: Path, child: Path) returns (ok: bool)
      requires WellFormed(fs) && checkout < top && top in fs && child in Children(fs, top)
      modifies this
      ensures Pruned(old(fs), fs, child)
      ensures ok ==> child !in fs
      ensures Permitted(old(fs), denied, child) ==> ok
      decreases |Below(fs, top)|, 0
    {
      CheckoutStays(fs, checkout, top);
      if fs[child].Dir? {
        BelowShrinks(fs, top, child);
        ok := RemoveTree(checkout, child);
      } else {
        NothingBelowLeaf(fs, child);
        ok := UnlinkLeaf(checkout, child);
      }
    }

    method RemoveChildren(checkout: Path, top: Path) returns (ok: bool)
      requires WellFormed(fs) && checkout < top && top in fs && fs[top].Dir?
      modifies this
      ensures Pruned(old(fs), fs, top) && top in fs && fs[top].Dir?
      ensures ok ==> Children(fs, top) == {}
      ensures Permitted(old(fs), denied, top) ==> ok
      decreases |Below(fs, top)|, 1
    {
      var entries := Children(fs, top);
      while entries != {}
        invariant entries == Children(fs, top)
        invariant Pruned(old(fs), fs, top) && top in fs && fs[top].Dir?
        invariant |Below(fs, top)| <= |Below(old(fs), top)|
        decreases entries
      {
        var child :| child in entries;
        ghost var before := fs;
        if Permitted(old(fs), denied, top) {
          PermittedChild(old(fs), fs, denied, top, child);
        }
        var removed := RemoveChild(checkout, top, child);
        PrunedOnce(old(fs), before, fs, top, child);
        if !removed {
          return false;
        }
        ChildGone(before, fs, top, child);
        entries := entries - {child};
      }
      return true;
    }

    /**
     Remove a directory and all below it with leaf operations only. Nothing outside the directory
     changes, whatever the links in it point to, and on success nothing of it is left.
    */
    method RemoveTree(checkout: Path, top: Path) returns (ok: bool)
      requires WellFormed(fs) && checkout < top && top in fs && fs[top].Dir?
      modifies this
      ensures Pruned(old(fs), fs, top)
      ensures ok <==> fs == Minus(old(fs), top)
      ensures Permitted(old(fs), denied, top) ==> ok
      decreases |Below(fs, top)|, 2
    {
      CheckoutStays(fs, checkout, top);
      EntryIsLinkFree(fs, top);
      var safe := IsSafe(checkout, top, false);
      if !safe {
        return false;
      }
      var emptied := RemoveChildren(checkout, top);
      if !emptied {
        return false;
      }
      CheckoutStays(fs, checkout, top);
      EntryIsLinkFree(fs, top);
      safe := IsSafe(checkout, top, false);
      if !safe {
        return false;
      }
      ghost var bare := fs;
      EmptyBelow(bare, top);
      LeafGone(bare, top);
      ok := RemoveEntry(top);
      if ok {
        TreeGone(old(fs), bare, top);
      }
    }

    /**
     Remove the untracked candidates one by one. Whatever happens, only entries at or below a
     candidate disappear. On success no candidate is left, and link-free candidates at or below which
     nothing is denied do give success.
    */
    method RemoveCandidates(checkout: Path, candidates: set<Path>) returns (ok: bool)
      requires WellFormed(fs) && LinkFree(fs, checkout) && checkout in fs && fs[checkout].Dir?
      requires forall c :: c in candidates ==> checkout < c
      modifies this
      ensures WellFormed(fs)
      ensures forall p :: p in fs ==> p in old(fs) && fs[p] == old(fs)[p]
      ensures forall p :: p in old(fs) && p !in fs ==> exists c :: c in candidates && Within(p, c)
      ensures ok ==> forall c :: c in candidates ==> c !in fs
      // A candidate that a link leads through is an error, even if nothing is there.
      ensures ok ==> forall c :: c in candidates ==> LinkFree(fs, c)
      ensures AllPermitted(old(fs), denied, candidates) ==> ok
    {
      var pending := candidates;
      while pending != {}
        invariant pending <= candidates && WellFormed(fs)
        invariant forall p :: p in fs ==> p in old(fs) && fs[p] == old(fs)[p]
        invariant forall p :: p in old(fs) && p !in fs ==> exists c :: c in candidates && Within(p, c)
        invariant forall c :: c in candidates - pending ==> c !in fs && LinkFree(fs, c)
        invariant checkout in fs && fs[checkout].Dir? && LinkFree(fs, checkout)
        decreases pending
      {
        var c :| c in pending;
        if AllPermitted(old(fs), denied, candidates) {
          PermittedLater(old(fs), fs, denied, candidates, c);
        }
        if !LinkFree(fs, c) {
          return false;
        }
        var removed := true;
        if c in fs {
          if fs[c].Dir? {
            removed := RemoveTree(checkout, c);
          } else {
            NothingBelowLeaf(fs, c);
            removed := UnlinkLeaf(checkout, c);
          }
        }
        if !removed {
          return false;
        }
        assert !Within(checkout, c);
        pending := pending - {c};
      }
      return true;
    }

    /** Remove one directory if it is empty; a removal that fails is passed over. */
    method SweepOne(checkout: Path, d: Path)
      requires WellFormed(fs) && Sweepable(fs, checkout, d)
      modifies this
      ensures WellFormed(fs) && (fs == old(fs) || fs == old(fs) - {d})
      ensures d in fs && d !in denied ==> Children(fs, d) != {}
    {
      CheckoutStays(fs, checkout, d);
      EntryIsLinkFree(fs, d);
      var safe := IsSafe(checkout, d, false);
      if safe {
        ghost var before := fs;
        if Children(fs, d) == {} {
          EmptyBelow(fs, d);
          LeafGone(fs, d);
        }
        var removed := RemoveEntry(d);
        if removed {
          assert Children(before, d) <= Below(before, d);
          LeafGone(before, d);
        }
      }
    }

    /**
     Walk the directories below the checkout from the deepest up and remove those that are empty by
     then. Afterwards no empty directory is left but those whose removal is denied.
    */
    method SweepEmpty(checkout: Path)
      requires WellFormed(fs) && LinkFree(fs, checkout) && checkout in fs && fs[checkout].Dir?
      modifies this
      ensures Thinned(old(fs), fs, checkout) && Swept(fs, checkout, denied, {})
      // Exactly directories go, no repository's own among them, and no other empty one stays unless it is denied.
      ensures forall p :: p in old(fs) && p !in fs ==>
                old(fs)[p].Dir? && checkout < p && p[|p| - 1] != ".git"
      ensures forall p :: p in fs && fs[p].Dir? && checkout < p && p[|p| - 1] != ".git" && p !in denied ==>
                Children(fs, p) != {}
    {
      var pending := set p | p in fs && Sweepable(fs, checkout, p);
      while pending != {}
        invariant Thinned(old(fs), fs, checkout)
        invariant forall p :: p in pending ==> Sweepable(fs, checkout, p)
        invariant Swept(fs, checkout, denied, pending)
        decreases pending
      {
        DeepestExists(pending);
        var d :| d in pending && forall e :: e in pending ==> |e| <= |d|;
        ghost var before := fs;
        SweepOne(checkout, d);
        SweptNext(before, fs, checkout, denied, pending, d);
        ThinnedNext(old(fs), before, fs, checkout, pending, d);
        pending := pending - {d};
      }
    }

    /** Candidates first, then the directories that this leaves empty. */
    method RemoveUntracked(checkout: Path, candidates: set<Path>) returns (ok: bool)
      requires WellFormed(fs) && LinkFree(fs, checkout) && checkout in fs && fs[checkout].Dir?
      requires forall c :: c in candidates ==> checkout < c
      modifies this
      ensures WellFormed(fs)
      ensures forall p :: p in fs ==> p in old(fs) && fs[p] == old(fs)[p]
      ensures forall p :: p in old(fs) && p !in fs ==>
                Sweepable(old(fs), checkout, p) || exists c :: c in candidates && Within(p, c)
      ensures ok ==> forall c :: c in candidates ==> c !in fs
      ensures ok ==> Swept(fs, checkout, denied, {})
      ensures AllPermitted(old(fs), denied, candidates) ==> ok
    {
      ok := RemoveCandidates(checkout, candidates);
      if ok {
        assert checkout in fs by {
          assert forall c :: c in candidates ==> !Within(checkout, c);
        }
        SweepEmpty(checkout);
      }
    }
  }

  /** A directory below the checkout that the sweep may remove. */
  predicate Sweepable(fs: Fs, checkout: Path, p: Path) {
    p in fs && fs[p].Dir? && checkout < p && p[|p| - 1] != ".git"
  }

  /** No candidate lies behind a link, and nothing at or below one is denied. */
  predicate AllPermitted(fs: Fs, denied: set<Path>, candidates: set<Path>) {
    forall c :: c in candidates ==> LinkFree(fs, c) && Permitted(fs, denied, c)
  }

  lemma PermittedLater(before: Fs, after: Fs, denied: set<Path>, candidates: set<Path>, c: Path)
    requires AllPermitted(before, denied, candidates) && c in candidates
    requires forall p :: p in after ==> p in before && after[p] == before[p]
    ensures LinkFree(after, c) && Permitted(after, denied, c)
  {
  }

  lemma {:induction false} DeepestExists(paths: set<Path>)
    requires paths != {}
    ensures exists d :: d in paths && forall e :: e in paths ==> |e| <= |d|
    decreases paths
  {
    var x :| x in paths;
    if paths == {x} {
    } else {
      DeepestExists(paths - {x});
      var d :| d in paths - {x} && forall e :: e in paths - {x} ==> |e| <= |d|;
      var deepest := if |x| <= |d| then d else x;
      assert deepest in paths && forall e :: e in paths ==> |e| <= |deepest|;
    }
  }

  /** All directories are dealt with but the pending ones, none of which is deeper than any of the others. */
  predicate Swept(fs: Fs, checkout: Path, denied: set<Path>, pending: set<Path>) {
    && (forall p :: p in fs && Sweepable(fs, checkout, p) && p !in pending && p !in denied ==> Children(fs, p) != {})
    && (forall p, q :: p in fs && Sweepable(fs, checkout, p) && p !in pending && q in pending ==> |q| <= |p|)
  }

  /** after lacks at most some directories of before that may be swept. */
  predicate Thinned(before: Fs, after: Fs, checkout: Path) {
    && WellFormed(after)
    && (forall p :: p in after ==> p in before && after[p] == before[p])
    && (forall p :: p in before && p !in after ==> Sweepable(before, checkout, p))
  }

  lemma ThinnedNext(original: Fs, before: Fs, after: Fs, checkout: Path, pending: set<Path>, d: Path)
    requires Thinned(original, before, checkout) && WellFormed(after) && (after == before || after == before - {d})
    requires d in pending && forall p :: p in pending ==> Sweepable(before, checkout, p)
    ensures Thinned(original, after, checkout)
    ensures forall p :: p in pending - {d} ==> Sweepable(after, checkout, p)
  {
  }

  lemma SweptNext(before: Fs, after: Fs, checkout: Path, denied: set<Path>, pending: set<Path>, d: Path)
    requires Swept(before, checkout, denied, pending) && d in pending && forall e :: e in pending ==> |e| <= |d|
    requires after == before || after == before - {d}
    requires d in after && d !in denied ==> Children(after, d) != {}
    ensures Swept(after, checkout, denied, pending - {d})
  {
    forall p | p in after && Sweepable(after, checkout, p) && p !in pending && p !in denied
      ensures Children(after, p) != {}
    {
      assert Sweepable(before, checkout, p);
      ChildrenStay(before, d, p);
      assert Children(before - {d}, p) <= Children(before, p);
    }
  }

  /** Removing an entry that is no deeper than p takes no child from p. */
  lemma ChildrenStay(fs: Fs, d: Path, p: Path)
    requires |d| <= |p| && Children(fs, p) != {}
    ensures Children(fs - {d}, p) != {}
  {
    var c :| c in Children(fs, p);
    assert c in Children(fs - {d}, p);
  }

  /** The operating system denies no removal at or below top. */
  predicate Permitted(fs: Fs, denied: set<Path>, top: Path) {
    forall p :: p in fs && Within(p, top) ==> p !in denied
  }

  /** after lacks some entries of before, all of them at or below top, and is otherwise the same. */
  predicate Pruned(before: Fs, after: Fs, top: Path) {
    && WellFormed(after)
    && (forall p :: p in after ==> p in before && after[p] == before[p])
    && (forall p :: p in before && !Within(p, top) ==> p in after)
  }

  lemma SameLengthPrefix(a: Path, b: Path)
    ensures a <= b <==> a == b || a < b
  {
    assert a <= b && |a| == |b| ==> a == b;
  }

  lemma TreeGone(before: Fs, bare: Fs, top: Path)
    requires Pruned(before, bare, top) && Below(bare, top) == {}
    ensures bare - {top} == Minus(before, top)
  {
    var after := bare - {top};
    forall p | p in bare ensures Within(p, top) <==> p == top {
      SameLengthPrefix(top, p);
      assert p !in Below(bare, top);
    }
    assert after.Keys == Minus(before, top).Keys;
  }

  lemma PermittedChild(before: Fs, after: Fs, denied: set<Path>, top: Path, child: Path)
    requires Pruned(before, after, top) && Permitted(before, denied, top) && top < child
    ensures Permitted(after, denied, child)
  {
  }

  lemma PrunedOnce(original: Fs, before: Fs, after: Fs, top: Path, child: Path)
    requires Pruned(original, before, top) && Pruned(before, after, child)
    requires top < child && top in before && before[top].Dir?
    ensures Pruned(original, after, top) && top in after && after[top].Dir?
    ensures |Below(after, top)| <= |Below(before, top)|
  {
    assert !Within(top, child);
    SubsetIsSmaller(Below(after, top), Below(before, top));
  }

  lemma ChildGone(before: Fs, after: Fs, top: Path, child: Path)
    requires Pruned(before, after, child) && child in Children(before, top) && child !in after
    ensures Children(after, top) == Children(before, top) - {child}
  {
    forall c | c in Children(before, top) && c != child ensures c in after {
      assert c == c[..|child|];
    }
  }

  lemma LinkFreeStep(fs: Fs, p: Path, k: nat)
    requires k < |p| && LinkFree(fs, p[..k]) && (p[..k] in fs ==> !fs[p[..k]].Link?)
    ensures LinkFree(fs, p[..k + 1])
  {
    var q := p[..k + 1];
    forall i | 0 <= i < |q| && q[..i] in fs ensures !fs[q[..i]].Link? {
      assert q[..i] == p[..i];
      assert i < k ==> p[..k][..i] == p[..i];
    }
  }

  lemma LeafGone(fs: Fs, p: Path)
    requires WellFormed(fs) && Below(fs, p) == {}
    ensures WellFormed(fs - {p})
  {
    var rest := fs - {p};
    forall q | q in rest && |q| > 0 ensures q[..|q| - 1] in rest && rest[q[..|q| - 1]].Dir? {
      if q[..|q| - 1] == p {
        assert false;
      }
    }
  }

  lemma NothingBelowLeaf(fs: Fs, p: Path)
    requires WellFormed(fs) && p in fs && !fs[p].Dir?
    ensures Below(fs, p) == {}
  {
    if q :| q in Below(fs, p) {
      assert p == q[..|p|];
      EntriesAreLinkFree(fs, q, |p|);
    }
  }

  lemma CheckoutStays(fs: Fs, checkout: Path, top: Path)
    requires WellFormed(fs) && top in fs && checkout < top
    ensures checkout in fs && fs[checkout].Dir? && LinkFree(fs, checkout)
  {
    EntriesAreLinkFree(fs, top, |checkout|);
    assert top[..|checkout|] == checkout;
    forall k | 0 <= k < |checkout| ensures checkout[..k] in fs && !fs[checkout[..k]].Link? {
      EntriesAreLinkFree(fs, checkout, k);
    }
  }

  lemma BelowShrinks(fs: Fs, top: Path, child: Path)
    requires top < child && child in fs
    ensures |Below(fs, child)| < |Below(fs, top)|
  {
    assert Below(fs, child) <= Below(fs, top) - {child};
    assert child in Below(fs, top);
    SubsetIsSmaller(Below(fs, child), Below(fs, top) - {child});
  }

  lemma {:induction false} SubsetIsSmaller(a: set<Path>, b: set<Path>)
    requires a <= b
    ensures |a| <= |b|
    decreases b
  {
    if a == {} {
    } else {
      var x :| x in a;
      SubsetIsSmaller(a - {x}, b - {x});
    }
  }
}
