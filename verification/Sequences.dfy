/**
 Any sequence of edits, scoped commits, exports and rollbacks of one checkout under its operation
 lock. Git commands and removals may fail at any point, and the process may die at any point, upon which
 another one goes on. A failed commit may leave the index staged, and a failed rollback may have moved
 HEAD and removed part of the untracked files; a death may leave anything up to the whole effect.
*/
module Sequences {
  import opened Wrappers
  import opened TaskPolicy
  import opened Worktree
  import opened Git
  import opened Export
  import opened ScopedRun

  /** Between two operations the edited files change at will; HEAD and the index do not. */
  datatype Action = EditFiles(work: Placed) | CommitAll(q: CommitRequest) | ExportAll(commit: Option<Commit>) | RollBack

  datatype Reply = Edited | CommitReply(r: Outcome) | ExportReply(paths: Option<set<Path>>) | RollbackReply(e: Ending)

  /** One action, with the state before and after it and what its caller was told. */
  datatype Entry = Entry(before: State, action: Action, reply: Reply, after: State)

  /** A commit that came about, whether or not its caller lived to hear of it. */
  predicate MadeCommit(e: Entry) {
    && e.action.CommitAll? && e.reply.CommitReply?
    && (e.reply.r.Ok? || (e.reply.r.error.Died? && e.after.head != e.before.head))
  }

  /** A rollback that got through, whether or not its caller lived to hear of it. */
  predicate RolledBack(e: Entry, baseline: Commit) {
    && e.action.RollBack? && e.reply.RollbackReply?
    && (e.reply.e.Completed? || (e.reply.e.Lost? && e.after == State(baseline, true, baseline.tree, baseline.tree)))
  }

  ghost predicate Possible(e: Entry, baseline: Commit, ignored: set<Path>) {
    match e.action
    case EditFiles(work) => e.reply.Edited? && e.after == e.before.(work := work)
    case CommitAll(q) => e.reply.CommitReply? && CommitMayEnd(e.before, q, ignored, e.reply.r, e.after)
    case ExportAll(commit) =>
      && e.reply.ExportReply? && e.after == e.before
      && (e.reply.paths.Some? ==>
            && Exportable(e.before, baseline, ignored, commit)
            && e.reply.paths.value == ReportedPaths(e.before, baseline.tree, ignored))
    case RollBack => e.reply.RollbackReply? && RollbackMayEnd(e.before, baseline, e.reply.e, e.after)
  }

  predicate Concerns(a: Action, baseline: Commit) {
    a.CommitAll? ==> a.q.baseline == baseline
  }

  /** Entry i starts where the one before it ended, and is possible there. */
  ghost predicate EntryAt(h: seq<Entry>, s: State, baseline: Commit, ignored: set<Path>, i: nat)
    requires i < |h|
  {
    && h[i].before == (if i == 0 then s else h[i - 1].after)
    && Concerns(h[i].action, baseline) && Possible(h[i], baseline, ignored)
  }

  /** A history from state s, all of it about one baseline. */
  ghost predicate History(h: seq<Entry>, s: State, baseline: Commit, ignored: set<Path>) {
    forall i :: 0 <= i < |h| ==> EntryAt(h, s, baseline, ignored, i)
  }

  function End(h: seq<Entry>, s: State): State {
    if h == [] then s else h[|h| - 1].after
  }

  // ----- the checkout goes through such histories -----

  method PerformOne(c: Checkout, baseline: Commit, a: Action) returns (reply: Reply)
    requires c.Alone() && Concerns(a, baseline)
    modifies c
    ensures Possible(Entry(old(c.Now()), a, reply, c.Now()), baseline, c.ignored)
  {
    match a {
      case EditFiles(work) =>
        c.work := work;
        reply := Edited;
      case CommitAll(q) =>
        var r, _ := c.CreateScopedCommit(q);
        reply := CommitReply(r);
      case ExportAll(commit) =>
        var paths := ExportPaths(c, baseline, commit);
        reply := ExportReply(paths);
      case RollBack =>
        var e := c.Rollback(baseline);
        reply := RollbackReply(e);
    }
  }

  /** Whatever actions are performed on a checkout, with whatever failures, the record of them is a history. */
  method PerformAll(c: Checkout, baseline: Commit, actions: seq<Action>) returns (h: seq<Entry>)
    requires c.Alone() && forall a :: a in actions ==> Concerns(a, baseline)
    modifies c
    ensures History(h, old(c.Now()), baseline, c.ignored) && End(h, old(c.Now())) == c.Now()
    ensures |h| == |actions| && forall i :: 0 <= i < |h| ==> h[i].action == actions[i]
  {
    h := [];
    for i := 0 to |actions|
      invariant History(h, old(c.Now()), baseline, c.ignored) && End(h, old(c.Now())) == c.Now()
      invariant |h| == i && forall k :: 0 <= k < i ==> h[k].action == actions[k]
    {
      var before := c.Now();
      var reply := PerformOne(c, baseline, actions[i]);
      HistoryGrows(h, old(c.Now()), baseline, c.ignored, Entry(before, actions[i], reply, c.Now()));
      h := h + [Entry(before, actions[i], reply, c.Now())];
    }
  }

  lemma HistoryGrows(h: seq<Entry>, s: State, baseline: Commit, ignored: set<Path>, e: Entry)
    requires History(h, s, baseline, ignored) && e.before == End(h, s)
    requires Concerns(e.action, baseline) && Possible(e, baseline, ignored)
    ensures History(h + [e], s, baseline, ignored)
  {
    var longer := h + [e];
    forall i | 0 <= i < |longer|
      ensures EntryAt(longer, s, baseline, ignored, i)
    {
      if i < |h| {
        assert EntryAt(h, s, baseline, ignored, i) && longer[i] == h[i];
      }
    }
  }

  // ----- what every history keeps -----

  /** HEAD is the baseline or a direct child of it; off the baseline, the index is what HEAD says. */
  predicate Settled(s: State, baseline: Commit) {
    && s.detached
    && (|| s.head == baseline
        || (s.head.Child? && s.head.parent == baseline && s.index == s.head.tree && s.head.tree != baseline.tree))
  }

  /** The index holds something that HEAD does not. */
  predicate Staged(s: State) {
    s.index != s.head.tree
  }

  lemma EntrySettles(e: Entry, baseline: Commit, ignored: set<Path>)
    requires Settled(e.before, baseline) && Concerns(e.action, baseline) && Possible(e, baseline, ignored)
    ensures Settled(e.after, baseline)
    ensures MadeCommit(e) ==>
              && e.before.head == baseline && !Staged(e.before) && e.after.head != baseline
              && (e.reply.r.Ok? ==> e.reply.r.value == e.after.head)
    ensures e.after.head != e.before.head ==> MadeCommit(e) || (e.action.RollBack? && e.after.head == baseline)
  {
  }

  /** In every history HEAD stays at the baseline or at a direct child of it, whatever fails. */
  lemma {:induction false} HistorySettles(h: seq<Entry>, s: State, baseline: Commit, ignored: set<Path>, i: nat)
    requires History(h, s, baseline, ignored) && Settled(s, baseline) && i < |h|
    ensures Settled(h[i].before, baseline) && Settled(h[i].after, baseline)
    decreases i
  {
    if i == 0 {
      assert EntryAt(h, s, baseline, ignored, 0);
    } else {
      HistorySettles(h, s, baseline, ignored, i - 1);
      assert EntryAt(h, s, baseline, ignored, i);
    }
    EntrySettles(h[i], baseline, ignored);
  }

  /** Blocked: no commit can succeed before a rollback does. */
  predicate Blocked(s: State, baseline: Commit) {
    s.head != baseline || Staged(s)
  }

  lemma EntryStaysBlocked(e: Entry, baseline: Commit, ignored: set<Path>)
    requires Settled(e.before, baseline) && Blocked(e.before, baseline)
    requires Concerns(e.action, baseline) && Possible(e, baseline, ignored) && !RolledBack(e, baseline)
    ensures Blocked(e.after, baseline) && !MadeCommit(e)
  {
  }

  lemma BlockedNext(h: seq<Entry>, s: State, baseline: Commit, ignored: set<Path>, i: nat)
    requires History(h, s, baseline, ignored) && i + 1 < |h| && Blocked(h[i].after, baseline)
    ensures Blocked(h[i + 1].before, baseline)
  {
    assert EntryAt(h, s, baseline, ignored, i + 1);
  }

  lemma BlockedThrough(h: seq<Entry>, s: State, baseline: Commit, ignored: set<Path>, i: nat)
    requires History(h, s, baseline, ignored) && Settled(s, baseline) && i < |h|
    requires Blocked(h[i].before, baseline) && !RolledBack(h[i], baseline)
    ensures Blocked(h[i].after, baseline) && !MadeCommit(h[i])
  {
    HistorySettles(h, s, baseline, ignored, i);
    assert EntryAt(h, s, baseline, ignored, i);
    EntryStaysBlocked(h[i], baseline, ignored);
  }

  /**
   Once HEAD is off the baseline, or a failed commit or rollback has left the index staged, no commit
   comes about until a rollback gets through; failed rollbacks, edits and exports do not help.
  */
  lemma {:induction false} OnlyRollbackUnblocks(h: seq<Entry>, s: State, baseline: Commit, ignored: set<Path>,
                                                i: nat, j: nat)
    requires History(h, s, baseline, ignored) && Settled(s, baseline) && i < j < |h|
    requires Blocked(h[i].after, baseline) && forall k :: i < k < j ==> !RolledBack(h[k], baseline)
    ensures Blocked(h[j].before, baseline) && !MadeCommit(h[j])
    decreases j
  {
    if j == i + 1 {
      BlockedNext(h, s, baseline, ignored, i);
    } else {
      OnlyRollbackUnblocks(h, s, baseline, ignored, i, j - 1);
      BlockedThrough(h, s, baseline, ignored, j - 1);
      BlockedNext(h, s, baseline, ignored, j - 1);
    }
    if !RolledBack(h[j], baseline) {
      BlockedThrough(h, s, baseline, ignored, j);
    }
  }

  /** Between any two commits of a history lies a rollback that got through, however many did not. */
  lemma RollbackBetweenCommits(h: seq<Entry>, s: State, baseline: Commit, ignored: set<Path>, i: nat, j: nat)
    requires History(h, s, baseline, ignored) && Settled(s, baseline) && i < j < |h|
    requires MadeCommit(h[i]) && MadeCommit(h[j])
    ensures exists k :: i < k < j && RolledBack(h[k], baseline)
  {
    HistorySettles(h, s, baseline, ignored, i);
    assert EntryAt(h, s, baseline, ignored, i);
    EntrySettles(h[i], baseline, ignored);
    if forall k :: i < k < j ==> !RolledBack(h[k], baseline) {
      OnlyRollbackUnblocks(h, s, baseline, ignored, i, j);
    }
  }

  /**
   A rollback that gets through leaves HEAD, index and files at the baseline, no matter what failed before
   it; and from then until the next entry changes it, every later entry finds exactly that state.
  */
  lemma RollbackRecovers(h: seq<Entry>, s: State, baseline: Commit, ignored: set<Path>, i: nat)
    requires History(h, s, baseline, ignored) && i < |h| && RolledBack(h[i], baseline)
    ensures h[i].after == State(baseline, true, baseline.tree, baseline.tree) && !Blocked(h[i].after, baseline)
    ensures i + 1 < |h| ==> h[i + 1].before == h[i].after
  {
    assert EntryAt(h, s, baseline, ignored, i);
    if i + 1 < |h| {
      assert EntryAt(h, s, baseline, ignored, i + 1);
    }
  }

  /** A commit off the baseline was made by an entry of this history, in scope for its request. */
  lemma {:induction false} HeadHasAuthor(h: seq<Entry>, s: State, baseline: Commit, ignored: set<Path>, i: nat)
    returns (k: nat)
    requires History(h, s, baseline, ignored) && Settled(s, baseline) && s.head == baseline && i < |h|
    requires h[i].after.head != baseline
    ensures k <= i && MadeCommit(h[k]) && h[k].after.head == h[i].after.head
    ensures WithinScope(h[k].action.q.scope, Changed(baseline.tree, h[i].after.head.tree))
    decreases i
  {
    HistorySettles(h, s, baseline, ignored, i);
    assert EntryAt(h, s, baseline, ignored, i);
    EntrySettles(h[i], baseline, ignored);
    if MadeCommit(h[i]) {
      k := i;
      CommitIsInScope(h[i], baseline, ignored);
    } else {
      assert i > 0 && h[i].before.head == h[i].after.head;
      k := HeadHasAuthor(h, s, baseline, ignored, i - 1);
    }
  }

  lemma CommitIsInScope(e: Entry, baseline: Commit, ignored: set<Path>)
    requires Possible(e, baseline, ignored) && MadeCommit(e) && Concerns(e.action, baseline)
    ensures && WithinScope(e.action.q.scope, Changed(baseline.tree, e.after.head.tree))
            && (e.reply.r.Ok? ==> e.reply.r.value == e.after.head)
  {
  }
}
