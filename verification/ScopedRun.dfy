/**
 The tail of an isolated run: export, scope checks, the optional scoped commit, the second
 export and the optional rollback, with outside edits and command failures anywhere.
*/
module ScopedRun {
  import opened Wrappers
  import Jobs
  import opened TaskPolicy
  import opened Git
  import opened Worktree
  import opened Export
  import opened BoundedLoop
  import Removal

  datatype Final = Final(
    status: Jobs.RunStatus,
    scopeFailed: bool,
    commit: Option<Commit>,
    exported: set<Path>,
    rolledBack: bool)

  /** The checkout can be exported: detached, without submodules, untracked entries all regular, HEAD as expected. */
  predicate Exportable(s: State, baseline: Commit, ignored: set<Path>, commit: Option<Commit>) {
    && s.detached && !HasGitlinks(baseline.tree) && !HasGitlinks(s.index) && !HasGitlinks(s.head.tree)
    && (commit.Some? ==>
          s.head == commit.value && s.head.Child? && s.head.parent == baseline && TaskIdOk(s.head.taskId))
    && forall p :: p in UntrackedPaths(s, ignored) ==> s.work[p].File?
  }

  /** The paths that an export reports; a checkout that does not qualify or a failing command gives none. */
  method ExportPaths(c: Checkout, baseline: Commit, commit: Option<Commit>) returns (paths: Option<set<Path>>)
    modifies c`head, c`detached, c`index, c`work, c`commands, c`luck
    ensures c.Alone() ==>
      && c.Now() == old(c.Now())
      && (paths.Some? ==>
            && Exportable(c.Now(), baseline, c.ignored, commit)
            && paths.value == ReportedPaths(c.Now(), baseline.tree, c.ignored))
    ensures c.Undisturbed() ==> (paths.Some? <==> Exportable(c.Now(), baseline, c.ignored, commit))
    ensures c.Alone() ==>
      (paths.Some? <==>
        && Exportable(c.Now(), baseline, c.ignored, commit)
        && c.faults(old(c.commands)).Fine? && c.faults(old(c.commands) + 1).Fine?
        && c.faults(old(c.commands) + 2).Fine?)
    ensures c.QuietFrom(old(c.commands)) ==>
      && c.Now() == old(c.Now())
      && (paths.Some? <==> Exportable(c.Now(), baseline, c.ignored, commit))
      && (paths.Some? ==> paths.value == ReportedPaths(c.Now(), baseline.tree, c.ignored))
    ensures paths.Some? ==> c.commands == old(c.commands) + 3 && c.luck == old(c.luck)
  {
    if HasGitlinks(baseline.tree) || HasGitlinks(c.index) {
      return None;
    }
    var f := c.Command();
    if !f.Fine? || !c.detached || HasGitlinks(c.head.tree) {
      return None;
    }
    if commit.Some? {
      if c.head != commit.value || !c.head.Child? || c.head.parent != baseline || !TaskIdOk(c.head.taskId) {
        return None;
      }
    }
    f := c.Command();
    if !f.Fine? {
      return None;
    }
    var untracked := UntrackedPaths(c.Now(), c.ignored);
    if exists p :: p in untracked && !c.work[p].File? {
      return None;
    }
    f := c.Command();
    if !f.Fine? {
      return None;
    }
    return Some(Changed(baseline.tree, TrackedFiles(c.Now())) + untracked);
  }

  /** Where a run stands after the optional commit and before the last export. */
  datatype Draft = Draft(status: Jobs.RunStatus, scopeFailed: bool, commit: Option<Commit>, exported: Option<set<Path>>)

  function Request(baseline: Commit, result: RunResult, scope: Option<Scope>, taskId: string): CommitRequest {
    var passed := |result.attempts| > 0 && result.attempts[|result.attempts| - 1].passed;
    CommitRequest(baseline, taskId, "Implement " + taskId, true, passed, true, scope)
  }

  /** Undisturbed, a run goes on to a commit if one is requested, the result is good and the files are in scope. */
  ghost predicate CommitDue(s: State, ignored: set<Path>, baseline: Commit, result: RunResult, scope: Option<Scope>,
                            commitRequested: bool)
  {
    && commitRequested && result.status.RunSuccess?
    && (scope.Some? ==> InScope(scope.value, ReportedPaths(s, baseline.tree, ignored)))
  }

  /** What holds of a draft however it came about. */
  ghost predicate DraftOk(d: Draft, baseline: Commit, result: RunResult, scope: Option<Scope>, taskId: string,
                          commitRequested: bool)
  {
    && d.status == (if d.scopeFailed then Jobs.RunFailure else result.status)
    && (d.scopeFailed ==> scope.Some? && d.commit.None?)
    && (scope.Some? ==> d.exported.Some?)
    && (scope.Some? && !d.scopeFailed ==> InScope(scope.value, d.exported.value))
    && (d.commit.Some? ==>
          && commitRequested && result.status.RunSuccess?
          && |result.attempts| > 0 && result.attempts[|result.attempts| - 1].passed
          && d.commit.value == Child(baseline, d.commit.value.tree, taskId, "Implement " + taskId)
          && (scope.Some? ==> InScope(scope.value, Changed(baseline.tree, d.commit.value.tree))))
    && (commitRequested && d.status.RunSuccess? ==> d.commit.Some?)
  }

  /** Undisturbed, how a draft comes out, or that there is none. */
  ghost predicate DraftsAs(s: State, ignored: set<Path>, baseline: Commit, result: RunResult, scope: Option<Scope>,
                           taskId: string, commitRequested: bool, r: Option<Draft>, t: State)
  {
    var reported := ReportedPaths(s, baseline.tree, ignored);
    var due := CommitDue(s, ignored, baseline, result, scope, commitRequested);
    && (r.Some? <==>
          && (scope.Some? ==> Exportable(s, baseline, ignored, None))
          && (due ==> Committable(s, Request(baseline, result, scope, taskId), ignored)))
    && (r.Some? ==>
          && (r.value.commit.Some? <==> due)
          && (r.value.scopeFailed <==> scope.Some? && !InScope(scope.value, reported))
          && r.value.exported == (if scope.Some? then Some(reported) else None)
          && t == (if due then CommitQuietly(s, Request(baseline, result, scope, taskId), ignored).1 else s)
          && (due ==> Some(t.head) == r.value.commit))
  }

  /** The first export, if there is a scope, and its check. */
  method FirstCheck(c: Checkout, baseline: Commit, result: RunResult, scope: Option<Scope>)
    returns (d: Option<Draft>)
    modifies c`head, c`detached, c`index, c`work, c`commands, c`luck
    ensures c.Alone() ==> c.Now() == old(c.Now())
    ensures d.Some? ==>
      && d.value.commit.None? && (d.value.exported.Some? <==> scope.Some?)
      && (d.value.scopeFailed <==> scope.Some? && !InScope(scope.value, d.value.exported.value))
      && d.value.status == if d.value.scopeFailed then Jobs.RunFailure else result.status
    ensures c.Alone() && d.Some? && scope.Some? ==>
              d.value.exported == Some(ReportedPaths(c.Now(), baseline.tree, c.ignored))
    ensures c.Undisturbed() ==> (d.Some? <==> (scope.Some? ==> Exportable(c.Now(), baseline, c.ignored, None)))
    ensures d.Some? ==> c.commands == old(c.commands) + (if scope.Some? then 3 else 0) && c.luck == old(c.luck)
  {
    if scope.None? {
      return Some(Draft(result.status, false, None, None));
    }
    var exported := ExportPaths(c, baseline, None);
    if exported.None? {
      return None;
    }
    var violations := ScopeViolations(scope.value, exported.value);
    var failed := violations != map[];
    return Some(Draft(if failed then Jobs.RunFailure else result.status, failed, None, exported));
  }

  /**
   The commit of a draft whose export was in scope. The locked check in it is authoritative: a late scope violation
   becomes a failure whose candidate is exported again for review, and any other error loses the result.
  */
  method CommitDraft(c: Checkout, baseline: Commit, result: RunResult, scope: Option<Scope>, taskId: string, d: Draft)
    returns (r: Option<Draft>, answer: Outcome)
    modifies c`head, c`detached, c`index, c`work, c`commands, c`luck, c`moves
    ensures answer.Ok? ==>
      && r == Some(d.(commit := Some(answer.value))) && (baseline, answer.value) in c.moves
      && answer.value == Child(baseline, answer.value.tree, taskId, "Implement " + taskId)
      && |result.attempts| > 0 && result.attempts[|result.attempts| - 1].passed
      && WithinScope(scope, Changed(baseline.tree, answer.value.tree))
    ensures answer == Err(OutOfScope) ==> scope.Some?
    ensures answer == Err(OutOfScope) && r.Some? ==>
      && r.value.exported.Some?
      && r.value == d.(status := Jobs.RunFailure, scopeFailed := true, exported := r.value.exported)
    ensures answer.Err? && !answer.error.OutOfScope? ==> r.None?
    ensures c.Alone() && answer.Ok? ==>
      && CommitMade(old(c.Now()), Request(baseline, result, scope, taskId), c.ignored, c.Now())
      && answer.value == c.head
    ensures c.Alone() && answer == Err(OutOfScope) && r.Some? ==>
      r.value.exported == Some(ReportedPaths(c.Now(), baseline.tree, c.ignored))
    ensures c.Undisturbed() ==>
      && (answer.Ok? <==> Committable(old(c.Now()), Request(baseline, result, scope, taskId), c.ignored))
      && (answer.Ok? ==>
            (answer, c.Now()) == CommitQuietly(old(c.Now()), Request(baseline, result, scope, taskId), c.ignored))
      && (answer == Err(OutOfScope) ==>
            scope.Some? && !InScope(scope.value, ReportedPaths(old(c.Now()), baseline.tree, c.ignored)))
    ensures answer == Err(OutOfScope) && c.QuietFrom(old(c.commands) + 6) ==>
      && (r.Some? <==> Exportable(c.Now(), baseline, c.ignored, None))
      && (r.Some? ==> r.value.exported == Some(ReportedPaths(c.Now(), baseline.tree, c.ignored)))
    ensures answer.Ok? ==> c.luck == old(c.luck)
  {
    var q := Request(baseline, result, scope, taskId);
    ghost var before := c.Now();
    var made, _ := c.CreateScopedCommit(q);
    answer := made;
    CommitHappensIff(before, q, c.ignored);
    CandidateIsReported(before, baseline, c.ignored);
    if answer.Ok? {
      return Some(d.(commit := Some(answer.value))), answer;
    }
    if !answer.error.OutOfScope? {
      return None, answer;
    }
    var exported := ExportPaths(c, baseline, None);
    if exported.None? {
      return None, answer;
    }
    return Some(d.(status := Jobs.RunFailure, scopeFailed := true, exported := exported)), answer;
  }

  /** The first export with its scope check, and the optional commit. */
  method DraftRun(c: Checkout, baseline: Commit, result: RunResult, scope: Option<Scope>, taskId: string,
                  commitRequested: bool)
    returns (r: Option<Draft>, made: Option<Outcome>)
    modifies c`head, c`detached, c`index, c`work, c`commands, c`luck, c`moves
    ensures r.Some? ==> DraftOk(r.value, baseline, result, scope, taskId, commitRequested)
    ensures r.Some? && r.value.commit.Some? ==> (baseline, r.value.commit.value) in c.moves
    // Without interference a commit holds all that an export of the checkout would report.
    ensures r.Some? && c.Alone() && r.value.commit.Some? ==>
              ReportedPaths(c.Now(), baseline.tree, c.ignored) == Changed(baseline.tree, r.value.commit.value.tree)
    ensures r.Some? && c.Alone() && r.value.commit.None? && r.value.exported.Some? ==>
              r.value.exported.value == ReportedPaths(c.Now(), baseline.tree, c.ignored)
    ensures c.Undisturbed() && CommitsCleanly(old(c.Now()), c.ignored, Request(baseline, result, scope, taskId), result)
            && commitRequested ==>
      && r.Some? && r.value.commit.Some?
      && c.Now() == CommitQuietly(old(c.Now()), Request(baseline, result, scope, taskId), c.ignored).1
      && c.head == r.value.commit.value
    ensures c.Undisturbed() ==>
      DraftsAs(old(c.Now()), c.ignored, baseline, result, scope, taskId, commitRequested, r, c.Now())
    // made is what an attempt to commit answered: a commit is kept, a late scope violation becomes a failure whose
    // candidate is exported for review, and any other error loses the result.
    ensures made.Some? ==> commitRequested && result.status.RunSuccess?
    ensures r.Some? ==> (made.Some? <==> r.value.commit.Some? || (made.Some? && made.value == Err(OutOfScope)))
    ensures made.Some? && made.value.Ok? ==> r.Some? && r.value.commit == Some(made.value.value)
    ensures made.Some? && made.value.Err? && r.Some? ==> made.value.error.OutOfScope? && r.value.scopeFailed
    ensures made.Some? && made.value == Err(OutOfScope) && c.QuietFrom(old(c.commands) + 9) ==>
      && (r.Some? <==> Exportable(c.Now(), baseline, c.ignored, None))
      && (r.Some? ==> r.value.exported == Some(ReportedPaths(c.Now(), baseline.tree, c.ignored)))
    ensures r.Some? ==> c.luck == old(c.luck) || (made.Some? && made.value == Err(OutOfScope))
  {
    var first := FirstCheck(c, baseline, result, scope);
    if first.None? {
      return None, None;
    }
    var d := first.value;
    if commitRequested && d.status.RunSuccess? {
      ghost var before := c.Now();
      var settled, answer := CommitDraft(c, baseline, result, scope, taskId, d);
      if c.Alone() && answer.Ok? {
        CommitReportsItself(before, Request(baseline, result, scope, taskId), c.ignored, c.Now());
      }
      return settled, Some(answer);
    }
    return Some(d), None;
  }

  /** Gates open, scope kept, and nothing in the way of a commit. */
  ghost predicate CommitsCleanly(s: State, ignored: set<Path>, q: CommitRequest, result: RunResult) {
    && result.status.RunSuccess? && Exportable(s, q.baseline, ignored, None)
    && WithinScope(q.scope, ReportedPaths(s, q.baseline.tree, ignored))
    && CommitQuietly(s, q, ignored).0.Ok?
  }

  /** Whatever the candidate changes is reported. */
  lemma CandidateIsReported(s: State, baseline: Commit, ignored: set<Path>)
    ensures Changed(baseline.tree, Candidate(s.index, s.work, ignored)) <= ReportedPaths(s, baseline.tree, ignored)
  {
  }

  lemma CommitReportsItself(s: State, q: CommitRequest, ignored: set<Path>, t: State)
    requires CommitMade(s, q, ignored, t)
    ensures ReportedPaths(t, q.baseline.tree, ignored) == Changed(q.baseline.tree, t.head.tree)
  {
    assert TrackedFiles(t) == t.index;
    assert UntrackedPaths(t, ignored) == {};
  }

  /** Right after a clean commit the checkout qualifies for the export of that commit. */
  lemma CommitExports(s: State, q: CommitRequest, ignored: set<Path>, t: State)
    requires CommitMade(s, q, ignored, t)
    ensures Exportable(t, q.baseline, ignored, Some(t.head))
    ensures ReportedPaths(t, q.baseline.tree, ignored) == Changed(q.baseline.tree, t.index)
    ensures q.scope.Some? ==> InScope(q.scope.value, ReportedPaths(t, q.baseline.tree, ignored))
  {
    CommitReportsItself(s, q, ignored, t);
    assert UntrackedPaths(t, ignored) == {};
  }

  /**
   Undisturbed, when a run has a result at all: if a commit is due, exactly if it is possible, and otherwise exactly
   if the checkout can be exported. With a scope the checkout is exported before anything else.
  */
  ghost predicate HasResult(s: State, ignored: set<Path>, baseline: Commit, result: RunResult, scope: Option<Scope>,
                            taskId: string, commitRequested: bool)
  {
    var due := CommitDue(s, ignored, baseline, result, scope, commitRequested);
    var passed := |result.attempts| > 0 && result.attempts[|result.attempts| - 1].passed;
    var q := CommitRequest(baseline, taskId, "Implement " + taskId, true, passed, true, scope);
    && (scope.Some? || !due ==> Exportable(s, baseline, ignored, None))
    && (due ==> Committable(s, q, ignored))
  }

  /** Undisturbed, how a run with a result ends: which commit it names, what it reports and what the checkout is. */
  ghost predicate EndsAs(s: State, ignored: set<Path>, baseline: Commit, result: RunResult, scope: Option<Scope>,
                         taskId: string, commitRequested: bool, rollbackOnFailure: bool, r: Final, t: State)
  {
    var reported := ReportedPaths(s, baseline.tree, ignored);
    var candidate := Candidate(s.index, s.work, ignored);
    var commit := Child(baseline, candidate, taskId, "Implement " + taskId);
    var violated := scope.Some? && !(reported <= scope.value.intended && reported !! scope.value.excluded);
    && r.scopeFailed == violated
    && r.status == (if violated then Jobs.RunFailure else result.status)
    && r.rolledBack == (rollbackOnFailure && !r.status.RunSuccess?)
    && (if commitRequested && result.status.RunSuccess? && !violated then
          r.commit == Some(commit) && r.exported == Changed(baseline.tree, candidate)
          && t == s.(head := commit, index := candidate)
        else
          r.commit.None? && r.exported == reported
          && t == if r.rolledBack then State(baseline, true, baseline.tree, baseline.tree) else s)
  }

  /** The last export, the scope check after a commit, and the optional rollback. */
  method ConcludeRun(c: Checkout, baseline: Commit, scope: Option<Scope>, d: Draft, rollbackOnFailure: bool)
    returns (r: Option<Final>)
    requires (scope.Some? ==> d.exported.Some?) && (d.scopeFailed ==> d.commit.None? && d.status.RunFailure?)
    modifies c`head, c`detached, c`index, c`work, c`commands, c`luck, c`moves
    ensures r.Some? ==>
      && r.value.commit == d.commit && (d.scopeFailed ==> r.value.scopeFailed)
      && (r.value.status == if r.value.scopeFailed && !d.scopeFailed then Jobs.RunFailure else d.status)
      && (r.value.scopeFailed && !d.scopeFailed ==>
            d.commit.Some? && scope.Some? && !InScope(scope.value, r.value.exported))
      && (scope.Some? && d.commit.Some? && !r.value.scopeFailed ==> InScope(scope.value, r.value.exported))
      && (d.commit.None? && d.exported.Some? ==> r.value.exported == d.exported.value)
      && (r.value.rolledBack <==> rollbackOnFailure && !r.value.status.RunSuccess?)
    ensures forall move :: move in old(c.moves) ==> move in c.moves
    // Without interference: what was exported last is what the checkout held, so the late check fails exactly on that.
    ensures r.Some? && c.Alone() ==>
      && (d.commit.Some? || d.exported.None? ==>
            r.value.exported == ReportedPaths(old(c.Now()), baseline.tree, c.ignored))
      && c.Now() == (if r.value.rolledBack then State(baseline, true, baseline.tree, baseline.tree) else old(c.Now()))
      && (d.commit.Some? && scope.Some? && !d.scopeFailed ==>
            (r.value.scopeFailed <==> !InScope(scope.value, ReportedPaths(old(c.Now()), baseline.tree, c.ignored))))
    ensures c.Undisturbed() && !rollbackOnFailure && Exportable(old(c.Now()), baseline, c.ignored, d.commit) ==> r.Some?
    // Undisturbed, nothing but a last export that does not qualify or a checkout that cannot be reset loses the result.
    ensures c.Undisturbed() ==>
      var s := old(c.Now());
      var late := d.commit.Some? && scope.Some? && !InScope(scope.value, ReportedPaths(s, baseline.tree, c.ignored));
      (r.Some? <==>
        && (d.commit.Some? || d.exported.None? ==> Exportable(s, baseline, c.ignored, d.commit))
        && (rollbackOnFailure && (late || !d.status.RunSuccess?) ==>
              s.detached && !HasGitlinks(baseline.tree) && !HasGitlinks(s.index)))
    ensures r.Some? ==> c.luck == old(c.luck)
  {
    var status, scopeFailed, exported := d.status, d.scopeFailed, d.exported;
    if d.commit.Some? || exported.None? {
      exported := ExportPaths(c, baseline, d.commit);
      if exported.None? {
        return None;
      }
    }
    if d.commit.Some? && scope.Some? {
      var violations := ScopeViolations(scope.value, exported.value);
      if violations != map[] {
        status, scopeFailed := Jobs.RunFailure, true;
      }
    }
    if rollbackOnFailure && !status.RunSuccess? {
      var e := c.Rollback(baseline);
      if !e.Completed? {
        return None;
      }
    }
    return Some(Final(status, scopeFailed, d.commit, exported.value, rollbackOnFailure && !status.RunSuccess?));
  }

  /** No result means that a repository error was raised and the worktree retained, or that the process died. */
  method FinishRun(c: Checkout, baseline: Commit, result: RunResult, scope: Option<Scope>, taskId: string,
                   commitRequested: bool, rollbackOnFailure: bool)
    returns (r: Option<Final>)
    modifies c`head, c`detached, c`index, c`work, c`commands, c`luck, c`moves
    // Success means that everything that was finally exported is in scope.
    ensures r.Some? && scope.Some? && r.value.status.RunSuccess? ==> InScope(scope.value, r.value.exported)
    // A reported commit names an in-scope tree on the baseline, even on a run that failed afterwards.
    ensures r.Some? && r.value.commit.Some? ==>
      && commitRequested && result.status.RunSuccess?
      && |result.attempts| > 0 && result.attempts[|result.attempts| - 1].passed
      && r.value.commit.value == Child(baseline, r.value.commit.value.tree, taskId, "Implement " + taskId)
      && (scope.Some? ==> InScope(scope.value, Changed(baseline.tree, r.value.commit.value.tree)))
      && (baseline, r.value.commit.value) in c.moves
    ensures r.Some? ==> (r.value.status == if r.value.scopeFailed then Jobs.RunFailure else result.status)
    ensures r.Some? && r.value.scopeFailed ==> scope.Some?
    // Only a scope violation that showed after the commit leaves a commit on a failed run, and it takes interference.
    ensures r.Some? && r.value.commit.Some? && !r.value.status.RunSuccess? ==>
      scope.Some? && !InScope(scope.value, r.value.exported)
    ensures r.Some? && c.Alone() && r.value.commit.Some? ==> r.value.status.RunSuccess?
    ensures r.Some? ==> (r.value.rolledBack <==> rollbackOnFailure && !r.value.status.RunSuccess?)
    ensures r.Some? && c.Alone() && r.value.rolledBack ==>
      c.Now() == State(baseline, true, baseline.tree, baseline.tree)
    ensures r.Some? && commitRequested && r.value.status.RunSuccess? ==> r.value.commit.Some?
    // If nobody interferes, what was exported is what the checkout still holds, unless it was rolled back.
    ensures r.Some? && c.Alone() && !r.value.rolledBack ==>
              r.value.exported == ReportedPaths(c.Now(), baseline.tree, c.ignored)
    ensures c.Undisturbed() ==>
      (r.Some? <==> HasResult(old(c.Now()), c.ignored, baseline, result, scope, taskId, commitRequested))
    ensures c.Undisturbed() && r.Some? ==> EndsAs(old(c.Now()), c.ignored, baseline, result, scope, taskId,
                                                  commitRequested, rollbackOnFailure, r.value, c.Now())
    // In particular a clean commit is made and reported, and a first scope violation is a reported failure.
    ensures c.Undisturbed() && commitRequested
            && CommitsCleanly(old(c.Now()), c.ignored, Request(baseline, result, scope, taskId), result) ==>
      && r.Some? && r.value.status.RunSuccess? && r.value.commit.Some? && c.head == r.value.commit.value
      && r.value.commit.value.tree == Candidate(old(c.index), old(c.work), c.ignored)
    ensures c.Undisturbed() && !commitRequested && Exportable(old(c.Now()), baseline, c.ignored, None) ==> r.Some?
    ensures c.Undisturbed() && scope.Some? && Exportable(old(c.Now()), baseline, c.ignored, None)
            && !InScope(scope.value, ReportedPaths(old(c.Now()), baseline.tree, c.ignored)) ==>
      r.Some? && r.value.scopeFailed && r.value.status.RunFailure? && r.value.commit.None?
    // A commit is never reported after a command that went wrong.
    ensures r.Some? && r.value.commit.Some? ==> c.luck == old(c.luck)
  {
    ghost var s := c.Now();
    var d, _ := DraftRun(c, baseline, result, scope, taskId, commitRequested);
    if d.None? {
      return None;
    }
    if c.Undisturbed() {
      CommitHappensIff(s, Request(baseline, result, scope, taskId), c.ignored);
      CandidateIsReported(s, baseline, c.ignored);
      if d.value.commit.Some? {
        CommitExports(s, Request(baseline, result, scope, taskId), c.ignored, c.Now());
      }
    }
    r := ConcludeRun(c, baseline, scope, d.value, rollbackOnFailure);
  }

  /** The scope that the pinned policy declares. */
  function Pinned(prov: Provenance): Scope {
    Scope(Elements(prov.policyDigest.intended), Elements(prov.policyDigest.excluded))
  }

  /** The source is at the pinned commit, and the policy committed there is the digested one and valid. */
  predicate PolicyLoads(sourceHead: string, committed: map<(string, Path), Policy>, prov: Provenance) {
    && sourceHead == prov.baseline && (prov.baseline, prov.policyPath) in committed
    && committed[(prov.baseline, prov.policyPath)] == prov.policyDigest
    && prov.policyDigest.version == VERSION && |prov.policyDigest.intended| > 0 && PathListsOk(prov.policyDigest)
  }

  /**
   A policy-aware run from its pinned policy to its end. What it finally exports lies within the intended
   list of the policy that was pinned, wherever the files of the checkout, the policy file among them,
   may have been edited to; and so does the tree of any commit that it names.
  */
  method PolicyRun(c: Checkout, sourceHead: string, committed: map<(string, Path), Policy>, prov: Provenance,
                   baseline: Commit, result: RunResult, taskId: string, commitRequested: bool, rollbackOnFailure: bool)
    returns (r: Option<Final>)
    modifies c`head, c`detached, c`index, c`work, c`commands, c`luck, c`moves
    ensures r.Some? && r.value.status.RunSuccess? ==>
      && r.value.exported <= Elements(prov.policyDigest.intended)
      && r.value.exported !! Elements(prov.policyDigest.excluded)
    ensures r.Some? && r.value.commit.Some? ==>
      Changed(baseline.tree, r.value.commit.value.tree) <= Elements(prov.policyDigest.intended)
    ensures r.Some? ==> sourceHead == prov.baseline && PathListsOk(prov.policyDigest)
    ensures c.Undisturbed() ==>
      (r.Some? <==>
        && PolicyLoads(sourceHead, committed, prov)
        && HasResult(old(c.Now()), c.ignored, baseline, result, Some(Pinned(prov)), taskId, commitRequested))
    ensures c.Undisturbed() && r.Some? ==>
      EndsAs(old(c.Now()), c.ignored, baseline, result, Some(Pinned(prov)), taskId, commitRequested,
             rollbackOnFailure, r.value, c.Now())
    ensures !PolicyLoads(sourceHead, committed, prov) ==> c.Now() == old(c.Now()) && c.moves == old(c.moves)
  {
    var scope := LoadTaskScope(sourceHead, committed, prov);
    if scope.None? {
      return None;
    }
    r := FinishRun(c, baseline, result, scope, taskId, commitRequested, rollbackOnFailure);
  }

  /**
   The late failure: one edit from outside, between the commit and the last export, adds a file out of
   scope. The two halves of FinishRun then end in a failed run that names its commit.
  */
  method LateEditFailsTheRun() returns (r: Final)
    ensures r.commit.Some? && r.scopeFailed && r.status.RunFailure? && !r.rolledBack
    ensures "b" in r.exported && r.commit.value.tree == map["a" := File("new")]
  {
    var baseline := Root(map[]);
    var quiet: nat -> Interference := _ => Quiet;
    var fine: nat -> Fault := _ => Fine;
    var nothing: nat -> set<Removal.Path> := _ => {};
    var c := new Checkout(baseline, quiet, fine, {}, ["checkout"], p => p, nothing);
    var edited: Placed, late: Placed := OneFile(), TwoFiles();
    c.work := edited;
    var scope := Some(Scope({"a"}, {}));
    var result := RunResult(Jobs.RunSuccess, [Attempt(1, 0, true, None, "d")], None);
    CleanCommit(c.Now(), scope, result);
    var d, _ := DraftRun(c, baseline, result, scope, "t", true);
    c.work := late;
    LateReport(c.Now(), c.head);
    var end := ConcludeRun(c, baseline, scope, d.value, false);
    r := end.value;
  }

  function OneFile(): (t: Placed)
    ensures t == map["a" := File("new")]
  {
    var t: Tree := map["a" := File("new")];
    assert Placeable(t);
    t
  }

  lemma OnePart(c: char)
    requires c != '/'
    ensures Parts([c]) == [[c]]
  {
    assert [c][1..] == "" && [c] + "" == [c];
  }

  function TwoFiles(): (t: Placed)
    ensures t == map["a" := File("new"), "b" := File("late")]
  {
    var t: Tree := map["a" := File("new"), "b" := File("late")];
    assert Placeable(t) by {
      OnePart('a');
      OnePart('b');
    }
    t
  }

  lemma CleanCommit(s: State, scope: Option<Scope>, result: RunResult)
    requires s == State(Root(map[]), true, map[], OneFile()) && scope == Some(Scope({"a"}, {}))
    requires result == RunResult(Jobs.RunSuccess, [Attempt(1, 0, true, None, "d")], None)
    ensures CommitsCleanly(s, {}, Request(s.head, result, scope, "t"), result)
    ensures CommitQuietly(s, Request(s.head, result, scope, "t"), {}).1
         == State(Child(s.head, OneFile(), "t", "Implement t"), true, OneFile(), OneFile())
  {
    var q := Request(s.head, result, scope, "t");
    assert "Implement " + "t" == "Implement t";
    assert Candidate(s.index, s.work, {}) == OneFile();
    assert Changed(map[], OneFile()) == {"a"};
    assert UntrackedPaths(s, {}) == {"a"} && TrackedFiles(s) == map[];
    assert ReportedPaths(s, map[], {}) == {"a"};
    assert TaskIdOk("t") && SubjectOk("Implement t");
    assert EarlyProblem(s, q).None?;
    assert StagedProblem(q, OneFile(), s.work).None?;
  }

  lemma LateReport(s: State, commit: Commit)
    requires s == State(commit, true, OneFile(), TwoFiles())
              && commit == Child(Root(map[]), OneFile(), "t", "Implement t")
    ensures Exportable(s, Root(map[]), {}, Some(commit)) && "b" in ReportedPaths(s, map[], {})
    ensures !InScope(Scope({"a"}, {}), ReportedPaths(s, map[], {}))
  {
    assert "b" in UntrackedPaths(s, {});
    assert TaskIdOk("t");
  }
}
