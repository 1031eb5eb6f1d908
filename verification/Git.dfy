/**
 One isolated detached checkout, reduced to HEAD, the index and the files, and the locked
 operations on it: scoped commit and rollback. Between any two Git commands somebody outside
 the lock may rewrite all three, and any command may fail.
*/
module Git {
  import opened Wrappers
  import opened TaskPolicy
  import opened Worktree
  import Removal

  /** A commit is its own hash, so hashes do not collide. */
  datatype Commit = Root(tree: Placed) | Child(parent: Commit, tree: Placed, taskId: string, subject: string)

  function Changed(a: Tree, b: Tree): set<Path> {
    set p | p in a.Keys + b.Keys && !(p in a && p in b && a[p] == b[p])
  }

  predicate HasGitlinks(t: Tree) {
    exists p :: p in t && t[p].Gitlink?
  }

  /** What `add --all` stages: all files but the ignored ones that are not yet tracked. */
  function Candidate(index: Tree, work: Placed, ignored: set<Path>): Placed {
    map p | p in work && (p in index || p !in ignored) :: work[p]
  }

  /** The files agree with the index on every tracked path. */
  predicate WorkMatchesIndex(index: Tree, work: Tree) {
    forall p :: p in index ==> p in work && work[p] == index[p]
  }

  /** Some ancestor of p is a symbolic link. */
  predicate BehindLink(work: Tree, p: Path) {
    exists q :: q in work && work[q].Link? && Parts(q) < Parts(p)
  }

  /** A path that a commit must not touch: a link, or something behind one. */
  predicate Linked(work: Tree, p: Path) {
    (p in work && work[p].Link?) || BehindLink(work, p)
  }

  predicate TaskIdOk(id: string) {
    && 0 < |id| <= 128
    && (forall i :: 0 <= i < |id| ==> IsAlnum(id[i]) || (i > 0 && id[i] in "._:-"))
  }

  predicate IsAlnum(c: char) {
    'A' <= c <= 'Z' || 'a' <= c <= 'z' || '0' <= c <= '9'
  }

  /** A stripped, non-empty, single-line subject. */
  predicate SubjectOk(s: string) {
    |s| > 0 && s[0] > ' ' && s[|s| - 1] > ' ' && '\n' !in s && '\r' !in s
  }

  /** The characters that task identifiers and subjects may have, and where. */
  lemma TextChecksMean(s: string)
    ensures TaskIdOk(s) <==>
      && 1 <= |s| <= 128 && s[0] !in "._:-"
      && forall c :: c in s ==> c in "._:-" || '0' <= c <= '9' || 'A' <= c <= 'Z' || 'a' <= c <= 'z'
    ensures SubjectOk(s) <==> s != "" && s[0] > ' ' && s[|s| - 1] > ' ' && forall c :: c in s ==> c !in "\r\n"
  {
    assert forall i :: 0 <= i < |s| ==> s[i] in s;
  }

  datatype State = State(head: Commit, detached: bool, index: Placed, work: Placed)

  datatype Interference = Quiet | Edit(state: State)

  /**
   How a command may go wrong: it fails without effect; or the process dies there, or an exception that no
   handler catches leaves the operation, and afterwards tells whether the command has taken effect by then.
  */
  datatype Fault = Fine | Fails | Dies(afterwards: bool)

  datatype Luck = Good | Bad | Deadly {
    function After(f: Fault): Luck {
      if f.Dies? || Deadly? then Deadly else if f.Fails? then Bad else this
    }
  }

  datatype GitError =
    | NotRequested
    | GateClosed
    | Unsafe
    | AlreadyStaged
    | OutOfScope
    | NothingToCommit
    | CommandFailed
    | NotRestored
    | Died

  /** How a rollback ends. */
  datatype Ending = Completed | Failed | Lost

  function Problem(f: Fault, error: GitError): Option<GitError> {
    match f
    case Fine => None
    case Fails => Some(error)
    case Dies(_) => Some(Died)
  }

  type Outcome = Result<Commit, GitError>

  datatype CommitRequest = CommitRequest(
    baseline: Commit,
    taskId: string,
    subject: string,
    requested: bool,
    testsPassed: bool,
    policyPassed: bool,
    scope: Option<Scope>)

  ghost predicate WithinScope(scope: Option<Scope>, paths: set<Path>) {
    scope.Some? ==> InScope(scope.value, paths)
  }

  class Checkout {
    var head: Commit
    var detached: bool
    var index: Placed
    var work: Placed
    /** Commands run so far; command number n is preceded by env(n) and goes wrong as faults(n) says. */
    var commands: nat
    /** The worst that has happened to a command so far. */
    var luck: Luck
    /** Every update of HEAD that went through here: the old and the new commit. */
    var moves: seq<(Commit, Commit)>
    const env: nat -> Interference
    const faults: nat -> Fault
    const ignored: set<Path>
    /** Where the checkout lies, where links lead, and which removals are denied after n commands. */
    const root: Removal.Path
    const follow: Removal.Path -> Removal.Path
    const denied: nat -> set<Removal.Path>

    constructor (baseline: Commit, env: nat -> Interference, faults: nat -> Fault, ignored: set<Path>,
                 root: Removal.Path, follow: Removal.Path -> Removal.Path, denied: nat -> set<Removal.Path>)
      ensures Now() == State(baseline, true, baseline.tree, baseline.tree) && moves == []
      ensures this.env == env && this.faults == faults && this.ignored == ignored
      ensures this.root == root && this.follow == follow && this.denied == denied
    {
      head, detached, index, work := baseline, true, baseline.tree, baseline.tree;
      commands, luck, moves := 0, Good, [];
      this.env, this.faults, this.ignored := env, faults, ignored;
      this.root, this.follow, this.denied := root, follow, denied;
    }

    function Now(): State
      reads this
    {
      State(head, detached, index, work)
    }

    /** Nobody interferes; commands and removals may fail, and the process may die, at will. */
    ghost predicate Alone() {
      forall n: nat :: env(n).Quiet?
    }

    /** Nobody interferes and nothing fails. */
    ghost predicate Undisturbed() {
      Alone() && forall n: nat :: faults(n).Fine? && denied(n) == {}
    }

    /** The checkout as command number n finds it, if it was s before. */
    function Seen(s: State, n: nat): State {
      match env(n)
      case Quiet => s
      case Edit(t) => t
    }

    /** From command number n on nobody interferes and nothing fails. */
    ghost predicate QuietFrom(n: nat) {
      forall m: nat :: m >= n ==> env(m).Quiet? && faults(m).Fine? && denied(m) == {}
    }

    /** Success means that no command went wrong, and a death is reported as what it is. */
    ghost predicate Tells(before: Luck, success: bool, death: bool)
      reads this
    {
      && (success ==> luck == before)
      && (luck.Deadly? <==> before.Deadly? || death)
    }

    /** Run up to a command: outside edits happen first, then the command may turn out to go wrong. */
    method Command() returns (f: Fault)
      modifies this`head, this`detached, this`index, this`work, this`commands, this`luck
      ensures Now() == Seen(old(Now()), old(commands))
      ensures f == faults(old(commands)) && commands == old(commands) + 1 && luck == old(luck).After(f)
    {
      match env(commands) {
        case Quiet =>
        case Edit(s) =>
          head, detached, index, work := s.head, s.detached, s.index, s.work;
      }
      f := faults(commands);
      commands, luck := commands + 1, luck.After(f);
    }

    /** `update-ref HEAD new old`: moves HEAD only if it still is the old commit. */
    method UpdateRef(next: Commit, expected: Commit) returns (f: Fault)
      modifies this`head, this`detached, this`index, this`work, this`commands, this`luck, this`moves
      ensures f.Fine? || f == Dies(true) ==> head == next && moves == old(moves) + [(expected, next)]
      ensures f.Fails? || f == Dies(false) ==> moves == old(moves)
      ensures Alone() ==>
        && Now() == old(Now()).(head := head)
        && (if f.Fine? || f == Dies(true) then old(head) == expected else head == old(head))
      ensures Undisturbed() ==> f == if old(head) == expected then Fine else Fails
      ensures commands == old(commands) + 1 && (f.Dies? <==> faults(old(commands)).Dies?)
      ensures luck == old(luck).After(faults(old(commands)))
      ensures var s := Seen(old(Now()), old(commands));
              && Now() == s.(head := head)
              && (f.Fine? <==> faults(old(commands)).Fine? && s.head == expected)
    {
      f := Command();
      if f.Fails? || f == Dies(false) {
        return;
      }
      if head != expected {
        return if f.Fine? then Fails else Dies(false);
      }
      head := next;
      moves := moves + [(expected, next)];
    }

    method RestoreIndex(baseline: Commit) returns (f: Fault)
      modifies this`head, this`detached, this`index, this`work, this`commands, this`luck
      ensures f.Fine? ==> index == baseline.tree
      ensures Alone() ==>
        Now() == old(Now()).(index := if f.Fine? || f == Dies(true) then baseline.tree else old(index))
      ensures Undisturbed() ==> f.Fine?
      ensures f == faults(old(commands)) && commands == old(commands) + 1 && luck == old(luck).After(f)
    {
      f := Command();
      if f.Fine? || f == Dies(true) {
        index := baseline.tree;
      }
    }

    /** The gates and the checks that come before the index is touched. */
    method Preflight(q: CommitRequest) returns (problem: Option<GitError>)
      modifies this`head, this`detached, this`index, this`work, this`commands, this`luck
      ensures problem.None? ==>
        q.requested && q.testsPassed && q.policyPassed && TaskIdOk(q.taskId) && SubjectOk(q.subject)
      ensures problem != Some(NotRestored) && problem != Some(OutOfScope)
      ensures Alone() ==> Now() == old(Now()) && (problem.None? ==> EarlyProblem(old(Now()), q).None?)
      ensures Undisturbed() ==> problem == EarlyProblem(old(Now()), q)
      // Whoever interferes, each check passes on the checkout as its command finds it, and no failure is passed over.
      ensures var n := old(commands);
        var a := Seen(old(Now()), n);
        var b := Seen(a, n + 1);
        var c := Seen(b, n + 2);
        && (problem.None? <==>
              && q.requested && q.testsPassed && q.policyPassed && TaskIdOk(q.taskId) && SubjectOk(q.subject)
              && faults(n).Fine? && faults(n + 1).Fine? && faults(n + 2).Fine? && a.detached && b.head == q.baseline
              && !HasGitlinks(q.baseline.tree) && !HasGitlinks(b.index) && c.index == c.head.tree)
        && (problem.None? ==> Now() == c && commands == n + 3)
      ensures old(commands) <= commands <= old(commands) + 3
      ensures Tells(old(luck), problem.None?, problem == Some(Died))
    {
      if !q.requested {
        return Some(NotRequested);
      }
      if !q.testsPassed || !q.policyPassed || !TaskIdOk(q.taskId) || !SubjectOk(q.subject) {
        return Some(GateClosed);
      }
      var f := Command();
      if !f.Fine? || !detached {
        return if f.Dies? then Some(Died) else Some(Unsafe);
      }
      f := Command();
      if !f.Fine? || head != q.baseline || HasGitlinks(q.baseline.tree) || HasGitlinks(index) {
        return if f.Dies? then Some(Died) else Some(Unsafe);
      }
      f := Command();
      if !f.Fine? || index != head.tree {
        return if f.Dies? then Some(Died) else Some(AlreadyStaged);
      }
      return None;
    }

    /** `add --all`, then the checks of what it staged. */
    method StageAll(q: CommitRequest) returns (problem: Option<GitError>)
      modifies this`head, this`detached, this`index, this`work, this`commands, this`luck
      ensures problem != Some(NotRestored)
      ensures problem == Some(OutOfScope) ==> q.scope.Some?
      ensures Alone() ==>
        && Now() == old(Now()).(index := index) && index in {old(index), Candidate(old(index), old(work), ignored)}
        && (problem.None? ==>
              && index == Candidate(old(index), old(work), ignored)
              && StagedProblem(q, index, old(work)).None?)
      ensures Undisturbed() ==>
        && Now() == old(Now()).(index := Candidate(old(index), old(work), ignored))
        && problem == StagedProblem(q, Candidate(old(index), old(work), ignored), old(work))
      ensures var n := old(commands);
        var a := Seen(old(Now()), n);
        var b := Seen(a.(index := Candidate(a.index, a.work, ignored)), n + 1);
        && (faults(n).Fine? && faults(n + 1).Fine? ==>
              problem == StagedProblem(q, b.index, b.work) && Now() == b && commands == n + 2)
        && (problem.None? || problem == Some(OutOfScope) ==> faults(n).Fine? && faults(n + 1).Fine?)
        && (faults(n).Fails? || faults(n) == Dies(false) ==> Now() == a)
      ensures old(commands) < commands <= old(commands) + 2
      ensures Tells(old(luck), problem.None?, problem == Some(Died))
    {
      var f := Command();
      if f.Fails? || f == Dies(false) {
        return Problem(f, CommandFailed);
      }
      index := Candidate(index, work, ignored);
      if f.Dies? {
        return Some(Died);
      }
      f := Command();
      if !f.Fine? || HasGitlinks(index) {
        return if f.Dies? then Some(Died) else Some(Unsafe);
      }
      var changed := Changed(q.baseline.tree, index);
      if q.scope.Some? {
        var violations := ScopeViolations(q.scope.value, changed);
        if violations != map[] {
          return Some(OutOfScope);
        }
      }
      if exists p :: p in changed && Linked(work, p) {
        return Some(Unsafe);
      }
      if changed == {} {
        return Some(NothingToCommit);
      }
      return None;
    }

    /** `diff --quiet` and `write-tree`: the index as a tree, if the files agree with it. */
    method WriteTree() returns (tree: Placed, f: Fault)
      modifies this`head, this`detached, this`index, this`work, this`commands, this`luck
      ensures var n := old(commands);
        var a := Seen(old(Now()), n);
        && (f.Fine? <==> faults(n).Fine? && faults(n + 1).Fine? && WorkMatchesIndex(a.index, a.work))
        && (f.Fine? ==> commands == n + 2 && Now() == Seen(a, n + 1) && tree == index)
      ensures commands >= old(commands) && Tells(old(luck), f.Fine?, f.Dies?)
      ensures Alone() ==> Now() == old(Now())
    {
      f := Command();
      if !f.Fine? || !WorkMatchesIndex(index, work) {
        return index, if f.Dies? then f else Fails;
      }
      f := Command();
      return index, f;
    }

    /** `diff-tree`, when there is a scope: the tree may no longer be the one that was checked after staging. */
    method CheckTree(q: CommitRequest, tree: Placed) returns (problem: Option<GitError>)
      modifies this`head, this`detached, this`index, this`work, this`commands, this`luck
      ensures commands == old(commands) + if q.scope.Some? then 1 else 0
      ensures q.scope.None? ==> problem.None? && Now() == old(Now())
      ensures q.scope.Some? ==>
        && (problem.None? <==> faults(old(commands)).Fine? && InScope(q.scope.value, Changed(q.baseline.tree, tree)))
        && (problem == Some(OutOfScope) <==>
              faults(old(commands)).Fine? && !InScope(q.scope.value, Changed(q.baseline.tree, tree)))
      ensures problem.None? || problem.value in {Died, CommandFailed, OutOfScope}
      ensures Tells(old(luck), problem.None?, problem == Some(Died))
      ensures Alone() ==> Now() == old(Now())
    {
      if q.scope.None? {
        return None;
      }
      var f := Command();
      if !f.Fine? {
        return Problem(f, CommandFailed);
      }
      var violations := ScopeViolations(q.scope.value, Changed(q.baseline.tree, tree));
      return if violations != map[] then Some(OutOfScope) else None;
    }

    /** `commit-tree`, and the swing of HEAD from the baseline to the new commit. */
    method CommitTree(q: CommitRequest, tree: Placed) returns (r: Outcome)
      modifies this`head, this`detached, this`index, this`work, this`commands, this`luck, this`moves
      ensures r.Ok? || moves != old(moves) ==>
        head == Child(q.baseline, tree, q.taskId, q.subject) && moves == old(moves) + [(q.baseline, head)]
      ensures r.Ok? ==> r.value == head && commands == old(commands) + 2
      ensures r.Err? ==> r.error in {Died, CommandFailed} && (moves == old(moves) || r.error.Died?)
      ensures commands >= old(commands) && Tells(old(luck), r.Ok?, r == Err(Died))
      ensures Alone() ==>
        && Now() == old(Now()).(head := head)
        && (head != old(head) ==> r.Ok? || r.error.Died?)
        && (r.Ok? || head != old(head) ==>
              old(head) == q.baseline && head == Child(q.baseline, tree, q.taskId, q.subject))
      ensures Undisturbed() && old(head) == q.baseline ==> r.Ok?
    {
      var f := Command();
      if !f.Fine? {
        return if f.Dies? then Err(Died) else Err(CommandFailed);
      }
      var commit := Child(q.baseline, tree, q.taskId, q.subject);
      f := UpdateRef(commit, q.baseline);
      return if f.Fine? then Ok(commit) else if f.Dies? then Err(Died) else Err(CommandFailed);
    }

    /** Write the tree, check it once more, and swing HEAD from the baseline to the new commit. */
    method WriteCommit(q: CommitRequest) returns (r: Outcome)
      modifies this`head, this`detached, this`index, this`work, this`commands, this`luck, this`moves
      ensures r.Ok? ==> moves == old(moves) + [(q.baseline, r.value)] && head == r.value
      ensures r.Ok? || moves != old(moves) ==>
        && moves == old(moves) + [(q.baseline, head)]
        && head == Child(q.baseline, head.tree, q.taskId, q.subject)
        && WithinScope(q.scope, Changed(q.baseline.tree, head.tree))
      ensures r.Err? ==> (moves == old(moves) || r.error.Died?) && r.error != NotRestored
      ensures r == Err(OutOfScope) ==> q.scope.Some?
      ensures Alone() ==>
        && Now() == old(Now()).(head := head)
        && (head != old(head) ==> r.Ok? || r.error.Died?)
        && (r.Ok? || head != old(head) ==>
              old(head) == q.baseline && head == Child(q.baseline, old(index), q.taskId, q.subject))
      ensures Undisturbed() && old(head) == q.baseline && WorkMatchesIndex(old(index), old(work))
              && WithinScope(q.scope, Changed(q.baseline.tree, old(index))) ==>
        && r == Ok(Child(q.baseline, old(index), q.taskId, q.subject))
        && Now() == old(Now()).(head := r.value)
      // Whoever interferes, the files matched the index when they were compared, the committed tree is the index
      // right after, and every command was fine.
      ensures r.Ok? ==>
        var n := old(commands);
        var a := Seen(old(Now()), n);
        && commands == n + (if q.scope.Some? then 5 else 4)
        && WorkMatchesIndex(a.index, a.work) && r.value.tree == Seen(a, n + 1).index
      ensures commands >= old(commands) && Tells(old(luck), r.Ok?, r == Err(Died))
    {
      var tree, f := WriteTree();
      if !f.Fine? {
        return if f.Dies? then Err(Died) else Err(CommandFailed);
      }
      var problem := CheckTree(q, tree);
      if problem.Some? {
        return Err(problem.value);
      }
      r := CommitTree(q, tree);
    }

    /** What may have to be undone: stage everything, check it, and move HEAD to a commit of it. */
    method AttemptCommit(q: CommitRequest) returns (r: Outcome)
      modifies this`head, this`detached, this`index, this`work, this`commands, this`luck, this`moves
      ensures r.Ok? ==> moves == old(moves) + [(q.baseline, r.value)] && head == r.value
      ensures r.Ok? || moves != old(moves) ==>
        && moves == old(moves) + [(q.baseline, head)]
        && head == Child(q.baseline, head.tree, q.taskId, q.subject)
        && WithinScope(q.scope, Changed(q.baseline.tree, head.tree))
      ensures r.Err? ==> (moves == old(moves) || r.error.Died?) && r.error != NotRestored
      ensures r == Err(OutOfScope) ==> q.scope.Some?
      ensures Alone() && EarlyProblem(old(Now()), q).None? ==>
        || CommitMade(old(Now()), q, ignored, Now())
        || (Now() == old(Now()).(index := index) && index in {old(index), Candidate(old(index), old(work), ignored)})
      ensures Alone() && EarlyProblem(old(Now()), q).None? && (r.Ok? || head != old(head)) ==>
        CommitMade(old(Now()), q, ignored, Now()) && (r.Ok? || r.error.Died?)
      ensures Undisturbed() && EarlyProblem(old(Now()), q).None? ==>
        var tree := Candidate(old(index), old(work), ignored);
        match StagedProblem(q, tree, old(work))
        case Some(problem) => r == Err(problem) && Now() == old(Now()).(index := tree)
        case None =>
          && r == Ok(Child(q.baseline, tree, q.taskId, q.subject))
          && Now() == old(Now()).(head := r.value, index := tree)
      ensures r.Ok? ==> commands == old(commands) + (if q.scope.Some? then 7 else 6)
      ensures commands > old(commands) && (r == Err(OutOfScope) ==> commands >= old(commands) + 2)
      ensures Tells(old(luck), r.Ok?, r == Err(Died))
    {
      var problem := StageAll(q);
      if problem.Some? {
        return Err(problem.value);
      }
      r := WriteCommit(q);
    }

    /**
     Stage everything, check the staged tree, and move HEAD from the baseline to a child of it.
     staged tells whether the index may have been touched. Nothing is restored after a death.
    */
    method CreateScopedCommit(q: CommitRequest) returns (r: Outcome, staged: bool)
      modifies this`head, this`detached, this`index, this`work, this`commands, this`luck, this`moves
      // HEAD is written at most once, and only from the baseline to an in-scope child of it.
      ensures r.Ok? ==> moves == old(moves) + [(q.baseline, r.value)] && head == r.value
      ensures r.Err? ==> moves == old(moves) || r.error.Died?
      ensures moves != old(moves) ==>
        && moves == old(moves) + [(q.baseline, head)]
        && head == Child(q.baseline, head.tree, q.taskId, q.subject)
        && q.requested && q.testsPassed && q.policyPassed && TaskIdOk(q.taskId) && SubjectOk(q.subject)
        && WithinScope(q.scope, Changed(q.baseline.tree, head.tree))
      // A failure after staging leaves the baseline index behind, or says that it could not; a death says nothing.
      ensures r.Err? && staged ==> r.error.NotRestored? || r.error.Died? || index == q.baseline.tree
      ensures r == Err(NotRestored) ==> staged
      ensures r == Err(OutOfScope) ==> q.scope.Some?
      ensures Alone() ==> CommitMayEnd(old(Now()), q, ignored, r, Now())
      ensures Undisturbed() ==> (r, Now()) == CommitQuietly(old(Now()), q, ignored)
      // No failing command is passed over, a death is told apart, and staging begins after three commands.
      ensures r.Ok? ==> commands == old(commands) + (if q.scope.Some? then 10 else 9)
      ensures Tells(old(luck), r.Ok?, r == Err(Died))
      ensures staged <==> commands > old(commands) + 3
      ensures commands >= old(commands) && (r == Err(OutOfScope) ==> commands >= old(commands) + 6)
    {
      var problem := Preflight(q);
      if problem.Some? {
        return Err(problem.value), false;
      }
      r := AttemptCommit(q);
      if r.Ok? || r.error.Died? {
        return r, true;
      }
      var f := RestoreIndex(q.baseline);
      match f {
        case Fine => return r, true;
        case Fails => return Err(NotRestored), true;
        case Dies(_) => return Err(Died), true;
      }
    }

    /** Remove whatever is not tracked. */
    method Clean() returns (e: Ending)
      modifies this`head, this`detached, this`index, this`work, this`commands, this`luck
      ensures Alone() ==>
        && Now() == old(Now()).(work := work) && OnlyUntrackedGone(old(Now()), work)
        && (e.Completed? ==> forall p :: p in work ==> p in index)
      ensures Undisturbed() ==> e.Completed?
      ensures commands == old(commands) + 1 && Tells(old(luck), e.Completed?, e.Lost?)
      ensures faults(old(commands)).Fails? || faults(old(commands)) == Dies(false) ==>
        Now() == Seen(old(Now()), old(commands))
    {
      var f := Command();
      if f.Fails? || f == Dies(false) {
        return if f.Fails? then Failed else Lost;
      }
      var removed, left := RemoveUntrackedFiles(root, work, index, follow, denied(commands));
      work := left;
      return if f.Dies? then Lost else if removed then Completed else Failed;
    }

    /** `restore --staged --worktree`: tracked files that the baseline lacks disappear. */
    method RestoreFiles(baseline: Commit) returns (e: Ending)
      modifies this`head, this`detached, this`index, this`work, this`commands, this`luck
      ensures Alone() && (forall p :: p in old(work) ==> p in old(index)) ==>
        var restored := old(Now()).(index := baseline.tree, work := baseline.tree);
        match e
        case Completed => Now() == restored
        case Failed => Now() == old(Now())
        case Lost => Now() == restored || Now() == old(Now())
      ensures Undisturbed() && (forall p :: p in old(work) ==> p in old(index)) ==> e.Completed?
      ensures commands == old(commands) + 1 && Tells(old(luck), e.Completed?, e.Lost?)
      ensures e.Completed? ==> index == baseline.tree && WorkMatchesIndex(baseline.tree, work)
      ensures faults(old(commands)).Fails? || faults(old(commands)) == Dies(false) ==>
        Now() == Seen(old(Now()), old(commands))
    {
      var f := Command();
      if f.Fails? || f == Dies(false) {
        return if f.Fails? then Failed else Lost;
      }
      var untouched := map p | p in work && p !in index && p !in baseline.tree :: work[p];
      var restored: Tree := untouched + baseline.tree;
      assert untouched == map[] ==> restored == baseline.tree;
      if !Placeable(restored) {
        return if f.Dies? then Lost else Failed;
      }
      work := restored;
      index := baseline.tree;
      return if f.Dies? then Lost else Completed;
    }

    /**
     Remove whatever is not tracked, ignored files included, and restore the tracked files. A removal
     that is denied leaves the rest of the untracked files behind; tracked ones are never removed. A
     process that dies during the removal is one that is denied the rest and dies afterwards.
    */
    method CleanAndRestore(baseline: Commit) returns (e: Ending)
      modifies this`head, this`detached, this`index, this`work, this`commands, this`luck
      ensures Alone() ==>
        var restored := old(Now()).(index := baseline.tree, work := baseline.tree);
        match e
        case Completed => Now() == restored
        case Failed => Now() == old(Now()).(work := work) && OnlyUntrackedGone(old(Now()), work)
        case Lost => Now() == restored || (Now() == old(Now()).(work := work) && OnlyUntrackedGone(old(Now()), work))
      ensures Undisturbed() ==> e.Completed?
      ensures e.Completed? ==> commands == old(commands) + 2
      ensures commands >= old(commands) && Tells(old(luck), e.Completed?, e.Lost?)
      ensures e.Completed? ==> index == baseline.tree && WorkMatchesIndex(baseline.tree, work)
    {
      e := Clean();
      if e.Completed? {
        e := RestoreFiles(baseline);
      }
    }

    /** Move HEAD back to the baseline, then clean and restore the files and the index. */
    method Rollback(baseline: Commit) returns (e: Ending)
      modifies this`head, this`detached, this`index, this`work, this`commands, this`luck, this`moves
      ensures moves == old(moves)
           || exists from: Commit :: from != baseline && moves == old(moves) + [(from, baseline)]
      ensures Alone() ==> RollbackMayEnd(old(Now()), baseline, e, Now())
      ensures Undisturbed() ==> (e.Completed?, Now()) == RollbackQuietly(old(Now()), baseline) && !e.Lost?
      ensures Undisturbed() ==>
        && (e.Completed? <==> old(detached) && !HasGitlinks(baseline.tree) && !HasGitlinks(old(index)))
        && Now() == if e.Completed? then State(baseline, true, baseline.tree, baseline.tree) else old(Now())
      ensures e.Completed? ==> commands == old(commands) + (if moves == old(moves) then 4 else 5)
      ensures Tells(old(luck), e.Completed?, e.Lost?)
      // Whoever interferes before, success leaves the tracked files and the index as the baseline has them.
      ensures e.Completed? ==> index == baseline.tree && WorkMatchesIndex(baseline.tree, work)
    {
      var f := Command();
      if !f.Fine? || HasGitlinks(baseline.tree) || HasGitlinks(index) || !detached {
        return if f.Dies? then Lost else Failed;
      }
      f := Command();
      if !f.Fine? {
        return if f.Dies? then Lost else Failed;
      }
      var current := head;
      if current != baseline {
        f := UpdateRef(baseline, current);
        if !f.Fine? {
          return if f.Dies? then Lost else Failed;
        }
      }
      e := CleanAndRestore(baseline);
    }
  }

  // ----- the undisturbed operations as functions -----

  function EarlyProblem(s: State, q: CommitRequest): Option<GitError> {
    if !q.requested then Some(NotRequested)
    else if !q.testsPassed || !q.policyPassed || !TaskIdOk(q.taskId) || !SubjectOk(q.subject) then Some(GateClosed)
    else if !s.detached || s.head != q.baseline then Some(Unsafe)
    else if HasGitlinks(q.baseline.tree) || HasGitlinks(s.index) then Some(Unsafe)
    else if s.index != s.head.tree then Some(AlreadyStaged)
    else None
  }

  ghost function StagedProblem(q: CommitRequest, tree: Tree, work: Tree): Option<GitError> {
    var changed := Changed(q.baseline.tree, tree);
    if HasGitlinks(tree) then Some(Unsafe)
    else if !WithinScope(q.scope, changed) then Some(OutOfScope)
    else if exists p :: p in changed && Linked(work, p) then Some(Unsafe)
    else if changed == {} then Some(NothingToCommit)
    else None
  }

  ghost function CommitQuietly(s: State, q: CommitRequest, ignored: set<Path>): (Outcome, State) {
    var tree := Candidate(s.index, s.work, ignored);
    var early, late := EarlyProblem(s, q), StagedProblem(q, tree, s.work);
    if early.Some? then (Err(early.value), s)
    else if late.Some? then (Err(late.value), s.(index := q.baseline.tree))
    else
      var commit := Child(q.baseline, tree, q.taskId, q.subject);
      (Ok(commit), s.(head := commit, index := tree))
  }

  /** All gates are open, the checkout is as it was created but for its files, and these make a change in scope. */
  ghost predicate Committable(s: State, q: CommitRequest, ignored: set<Path>) {
    var tree := Candidate(s.index, s.work, ignored);
    var changed := Changed(q.baseline.tree, tree);
    && q.requested && q.testsPassed && q.policyPassed && TaskIdOk(q.taskId) && SubjectOk(q.subject)
    && s.detached && s.head == q.baseline && s.index == q.baseline.tree
    && (forall p :: p in q.baseline.tree ==> !q.baseline.tree[p].Gitlink?)
    && (forall p :: p in tree ==> !tree[p].Gitlink?)
    && (forall p :: p in changed ==> !Linked(s.work, p))
    && (q.scope.Some? ==> changed <= q.scope.value.intended && changed !! q.scope.value.excluded)
    && tree != q.baseline.tree
  }

  /** Undisturbed, a commit is made exactly then; it stores the candidate, and a refusal changes nothing. */
  lemma CommitHappensIff(s: State, q: CommitRequest, ignored: set<Path>)
    ensures
      var (r, t) := CommitQuietly(s, q, ignored);
      var tree := Candidate(s.index, s.work, ignored);
      && (r.Ok? <==> Committable(s, q, ignored))
      && (r.Ok? ==>
            && r.value == Child(q.baseline, tree, q.taskId, q.subject)
            && t == s.(head := r.value, index := tree))
      && (r.Err? ==> t == s)
      && (r == Err(OutOfScope) <==>
            && q.scope.Some? && !InScope(q.scope.value, Changed(q.baseline.tree, tree))
            && EarlyProblem(s, q).None? && forall p :: p in tree ==> !tree[p].Gitlink?)
  {
    var tree := Candidate(s.index, s.work, ignored);
    assert Changed(q.baseline.tree, tree) == {} <==> tree == q.baseline.tree by {
      if Changed(q.baseline.tree, tree) == {} {
        forall p | p in tree.Keys + q.baseline.tree.Keys
          ensures p in tree && p in q.baseline.tree && tree[p] == q.baseline.tree[p]
        {
          assert p !in Changed(q.baseline.tree, tree);
        }
      }
    }
  }

  function RollbackQuietly(s: State, baseline: Commit): (bool, State) {
    if HasGitlinks(baseline.tree) || HasGitlinks(s.index) || !s.detached then (false, s)
    else (true, State(baseline, true, baseline.tree, baseline.tree))
  }

  // ----- how the operations may end when commands fail but nobody interferes -----

  /**
   A failure leaves everything as it was, unless it says that the index may still be staged. A death may
   leave the index staged or the commit made, and nobody is told.
  */
  ghost predicate CommitMayEnd(s: State, q: CommitRequest, ignored: set<Path>, r: Outcome, t: State) {
    match r
    case Ok(commit) => CommitMade(s, q, ignored, t) && commit == t.head
    case Err(error) =>
      || t == s
      || (error in {NotRestored, Died} && EarlyProblem(s, q).None?
            && t == s.(index := Candidate(s.index, s.work, ignored)))
      || (error.Died? && CommitMade(s, q, ignored, t))
  }

  /** The commit that passes all checks, with the index staged for it. */
  ghost predicate CommitMade(s: State, q: CommitRequest, ignored: set<Path>, t: State) {
    var tree := Candidate(s.index, s.work, ignored);
    && EarlyProblem(s, q).None? && StagedProblem(q, tree, s.work).None?
    && t == s.(head := Child(q.baseline, tree, q.taskId, q.subject), index := tree)
  }

  /** work lacks at most some of the files of s that are not tracked. */
  predicate OnlyUntrackedGone(s: State, work: Tree) {
    && (forall p :: p in work ==> p in s.work && work[p] == s.work[p])
    && (forall p :: p in s.work && p in s.index ==> p in work)
  }

  ghost predicate AtBaseline(s: State, baseline: Commit, t: State) {
    && s.detached && !HasGitlinks(baseline.tree) && !HasGitlinks(s.index)
    && t == State(baseline, true, baseline.tree, baseline.tree)
  }

  /** HEAD may have moved to the baseline and untracked files may have gone, but nothing tracked. */
  ghost predicate PartlyRolledBack(s: State, baseline: Commit, t: State) {
    t == s.(head := t.head, work := t.work) && t.head in {s.head, baseline} && OnlyUntrackedGone(s, t.work)
  }

  /** Success is the baseline in full; a failure is part of the way; a death may be either. */
  ghost predicate RollbackMayEnd(s: State, baseline: Commit, e: Ending, t: State) {
    match e
    case Completed => AtBaseline(s, baseline, t)
    case Failed => PartlyRolledBack(s, baseline, t)
    case Lost => AtBaseline(s, baseline, t) || PartlyRolledBack(s, baseline, t)
  }
}
