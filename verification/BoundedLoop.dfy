/**
 The bounded edit and test loop of one run, as the loop that updates its local variables and
 as a fold over what the editor, the diff and the tests answer, attempt by attempt.
*/
module BoundedLoop {
  import opened Wrappers
  import opened Jobs

  datatype TestResult = TestResult(exitCode: int, timedOut: bool, cancelled: bool, signature: string)

  /** What happens in one attempt, as far as the loop gets to see it. */
  datatype Event = Event(
    overdue: bool,
    editCancelled: bool,
    editTimedOut: bool,
    adapterError: bool,
    emptyDiff: bool,
    diffHash: string,
    test: TestResult)

  type Oracle = nat -> Event

  datatype Attempt = Attempt(index: nat, exitCode: int, passed: bool, signature: Option<string>, diffHash: string)

  datatype Failure =
    | TaskTimeout
    | Cancellation
    | AdapterFailure
    | ZeroDiff
    | StuckDiff
    | StuckSignature
    | RetryExhausted
    | BaselineFailed

  datatype RunResult = RunResult(status: RunStatus, attempts: seq<Attempt>, failure: Option<Failure>)

  function RecordOf(i: nat, e: Event): Attempt {
    var passed := e.test.exitCode == 0;
    Attempt(i + 1, e.test.exitCode, passed, if passed then None else Some(e.test.signature), e.diffHash)
  }

  function Ends(status: RunStatus, failure: Failure): RunResult {
    RunResult(status, [], Some(failure))
  }

  /** The outcome from attempt i on, given the last diff hash and the last failure signature. */
  function Fold(oracle: Oracle, i: nat, limit: nat, lastHash: Option<string>, lastSig: Option<string>): RunResult
    decreases limit - i
  {
    if i >= limit then Ends(RunFailure, RetryExhausted)
    else
      var e := oracle(i);
      if e.overdue then Ends(RunFailure, TaskTimeout)
      else if e.editCancelled then Ends(RunCancelled, Cancellation)
      else if e.editTimedOut then Ends(RunFailure, TaskTimeout)
      else if e.adapterError then Ends(RunFailure, AdapterFailure)
      else if e.emptyDiff then Ends(RunFailure, ZeroDiff)
      else if lastHash == Some(e.diffHash) then Ends(RunFailure, StuckDiff)
      else if e.test.cancelled then Ends(RunCancelled, Cancellation)
      else
        var a := RecordOf(i, e);
        if a.passed then RunResult(RunSuccess, [a], None)
        else if a.signature == lastSig then RunResult(RunFailure, [a], Some(StuckSignature))
        else
          var rest := Fold(oracle, i + 1, limit, Some(e.diffHash), a.signature);
          rest.(attempts := [a] + rest.attempts)
  }

  /** The loop, with the variables that the source updates, after a baseline test run. */
  method RunAttempts(baseline: TestResult, oracle: Oracle, limit: nat) returns (r: RunResult)
    ensures baseline.cancelled ==> r == RunResult(RunCancelled, [], Some(Cancellation))
    ensures !baseline.cancelled && baseline.timedOut ==> r == RunResult(RunFailure, [], Some(TaskTimeout))
    ensures !baseline.cancelled && !baseline.timedOut && baseline.exitCode != 0 ==>
              r == RunResult(RunFailure, [], Some(BaselineFailed))
    ensures !baseline.cancelled && !baseline.timedOut && baseline.exitCode == 0 ==>
              r == Fold(oracle, 0, limit, None, None)
  {
    var status, attempts: seq<Attempt>, failure: Option<Failure> := RunFailure, [], None;
    if baseline.cancelled || baseline.timedOut || baseline.exitCode != 0 {
      failure := Some(BaselineFailed);
      if baseline.cancelled {
        status, failure := RunCancelled, Some(Cancellation);
      } else if baseline.timedOut {
        failure := Some(TaskTimeout);
      }
      return RunResult(status, attempts, failure);
    }
    var lastHash: Option<string>, lastSig: Option<string> := None, None;
    var i := 0;
    ghost var goal := Fold(oracle, 0, limit, None, None);
    while i < limit
      invariant 0 <= i <= limit
      invariant status == RunFailure && failure == None
      invariant goal ==
                var rest := Fold(oracle, i, limit, lastHash, lastSig); rest.(attempts := attempts + rest.attempts)
      decreases limit - i
    {
      var e := oracle(i);
      if e.overdue {
        failure := Some(TaskTimeout);
        break;
      }
      if e.editCancelled {
        failure, status := Some(Cancellation), RunCancelled;
        break;
      }
      if e.editTimedOut {
        failure := Some(TaskTimeout);
        break;
      }
      if e.adapterError {
        failure := Some(AdapterFailure);
        break;
      }
      if e.emptyDiff {
        failure := Some(ZeroDiff);
        break;
      }
      if lastHash == Some(e.diffHash) {
        failure := Some(StuckDiff);
        break;
      }
      ghost var hashBefore := lastHash;
      lastHash := Some(e.diffHash);
      var passed := e.test.exitCode == 0;
      if e.test.cancelled {
        failure, status := Some(Cancellation), RunCancelled;
        break;
      }
      var signature := if passed then None else Some(e.test.signature);
      ghost var attemptsBefore := attempts;
      attempts := attempts + [Attempt(i + 1, e.test.exitCode, passed, signature, e.diffHash)];
      if passed {
        status := RunSuccess;
        break;
      }
      if signature == lastSig {
        failure := Some(StuckSignature);
        break;
      }
      ghost var rest := Fold(oracle, i + 1, limit, lastHash, signature);
      assert attemptsBefore + ([RecordOf(i, e)] + rest.attempts) == attempts + rest.attempts;
      lastSig := signature;
      i := i + 1;
    }
    if status != RunSuccess && failure.None? {
      failure := Some(RetryExhausted);
    }
    return RunResult(status, attempts, failure);
  }

  // ----- what every outcome is like -----

  ghost predicate WellBehaved(r: RunResult, limit: nat, first: nat) {
    && |r.attempts| <= limit
    && (forall k :: 0 <= k < |r.attempts| ==> r.attempts[k].index == first + k + 1)
    && (r.status.RunSuccess? <==> r.failure.None?)
    && (r.status.RunSuccess? <==> |r.attempts| > 0 && r.attempts[|r.attempts| - 1].passed)
    && (r.status.RunCancelled? <==> r.failure == Some(Cancellation))
    && !r.status.RunAborted?
    && (forall k :: 0 <= k < |r.attempts| - 1 ==> !r.attempts[k].passed)
    && (forall k :: 0 <= k < |r.attempts| ==>
          && (r.attempts[k].passed <==> r.attempts[k].exitCode == 0)
          && (r.attempts[k].passed <==> r.attempts[k].signature.None?))
    && (r.failure == Some(RetryExhausted) <==>
          |r.attempts| == limit && !r.status.RunSuccess? && r.failure != Some(StuckSignature))
  }

  /** Two attempts next to each other: another diff, and another signature unless the run ends as stuck there. */
  ghost predicate Progresses(r: RunResult) {
    && (forall k :: 0 <= k < |r.attempts| - 1 ==> r.attempts[k].diffHash != r.attempts[k + 1].diffHash)
    && (forall k :: 0 <= k < |r.attempts| - 1 ==>
          (r.attempts[k].signature == r.attempts[k + 1].signature <==>
             k == |r.attempts| - 2 && r.failure == Some(StuckSignature)))
  }

  /** Another failed attempt in front. */
  lemma FailedFirst(a: Attempt, rest: RunResult, limit: nat, first: nat)
    requires limit > 0 && WellBehaved(rest, limit - 1, first + 1)
    requires a.index == first + 1 && !a.passed && a.exitCode != 0 && a.signature.Some?
    requires rest.failure == Some(StuckSignature) ==> |rest.attempts| > 0
    ensures WellBehaved(rest.(attempts := [a] + rest.attempts), limit, first)
  {
    var r := rest.(attempts := [a] + rest.attempts);
    assert forall k :: 0 < k < |r.attempts| ==> r.attempts[k] == rest.attempts[k - 1];
    assert |rest.attempts| > 0 ==> r.attempts[|r.attempts| - 1] == rest.attempts[|rest.attempts| - 1];
  }

  lemma EndsWell(status: RunStatus, failure: Failure, limit: nat, first: nat)
    requires status.RunFailure? || status.RunCancelled?
    requires failure != StuckSignature && (failure.RetryExhausted? <==> limit == 0)
    requires status.RunCancelled? <==> failure.Cancellation?
    ensures WellBehaved(Ends(status, failure), limit, first)
  {
  }

  lemma LastAttempt(a: Attempt, failure: Option<Failure>, limit: nat, first: nat)
    requires limit > 0 && a.index == first + 1 && (a.passed <==> a.exitCode == 0) && (a.passed <==> a.signature.None?)
    requires failure == if a.passed then None else Some(StuckSignature)
    ensures WellBehaved(RunResult(if a.passed then RunSuccess else RunFailure, [a], failure), limit, first)
  {
  }

  lemma {:induction false} FoldIsWellBehaved(oracle: Oracle, i: nat, limit: nat,
                                             lastHash: Option<string>, lastSig: Option<string>)
    requires i <= limit
    ensures var r := Fold(oracle, i, limit, lastHash, lastSig);
            WellBehaved(r, limit - i, i) && (r.failure == Some(StuckSignature) ==> |r.attempts| > 0)
    decreases limit - i
  {
    var r := Fold(oracle, i, limit, lastHash, lastSig);
    if i == limit {
      EndsWell(RunFailure, RetryExhausted, 0, i);
    } else {
      var e := oracle(i);
      var a := RecordOf(i, e);
      if e.overdue || e.editCancelled || e.editTimedOut || e.adapterError || e.emptyDiff
         || lastHash == Some(e.diffHash) || e.test.cancelled {
        EndsWell(r.status, r.failure.value, limit - i, i);
      } else if a.passed || a.signature == lastSig {
        LastAttempt(a, r.failure, limit - i, i);
      } else {
        FoldIsWellBehaved(oracle, i + 1, limit, Some(e.diffHash), a.signature);
        FailedFirst(a, Fold(oracle, i + 1, limit, Some(e.diffHash), a.signature), limit - i, i);
      }
    }
  }

  lemma {:induction false} FoldProgresses(oracle: Oracle, i: nat, limit: nat,
                                          lastHash: Option<string>, lastSig: Option<string>)
    requires i <= limit
    ensures var r := Fold(oracle, i, limit, lastHash, lastSig);
            && Progresses(r)
            && (|r.attempts| > 0 ==> lastHash != Some(r.attempts[0].diffHash))
            && (|r.attempts| > 0 && lastSig.Some? ==>
                  (r.attempts[0].signature == lastSig <==> |r.attempts| == 1 && r.failure == Some(StuckSignature)))
    decreases limit - i
  {
    if i == limit {
    } else {
      var e := oracle(i);
      var a := RecordOf(i, e);
      FoldProgresses(oracle, i + 1, limit, Some(e.diffHash), a.signature);
      var r := Fold(oracle, i, limit, lastHash, lastSig);
      var rest := Fold(oracle, i + 1, limit, Some(e.diffHash), a.signature);
      if |r.attempts| > 1 {
        assert forall k :: 0 < k < |r.attempts| ==> r.attempts[k] == rest.attempts[k - 1];
      }
    }
  }

  // ----- which attempt decides, and how -----

  /** The editor came back in time with a changed and non-empty diff, and the tests ran to their end. */
  predicate Tested(e: Event, lastHash: Option<string>) {
    && Edited(e) && !e.emptyDiff && lastHash != Some(e.diffHash) && !e.test.cancelled
  }

  predicate Edited(e: Event) {
    !e.overdue && !e.editCancelled && !e.editTimedOut && !e.adapterError
  }

  /** The attempt fails and tells something new, so there is another one. */
  predicate GoesOn(e: Event, lastHash: Option<string>, lastSig: Option<string>) {
    Tested(e, lastHash) && e.test.exitCode != 0 && lastSig != Some(e.test.signature)
  }

  function HashBefore(oracle: Oracle, first: nat, k: nat, lastHash: Option<string>): Option<string> {
    if k <= first then lastHash else Some(oracle(k - 1).diffHash)
  }

  function SignatureBefore(oracle: Oracle, first: nat, k: nat, lastSig: Option<string>): Option<string> {
    if k <= first then lastSig else Some(oracle(k - 1).test.signature)
  }

  /** What the deciding event makes of the run: each way to end exactly for its own reason. */
  predicate DecidesAs(e: Event, index: nat, lastHash: Option<string>, lastSig: Option<string>,
                      failure: Option<Failure>, last: seq<Attempt>)
  {
    && (failure == Some(TaskTimeout) <==> e.overdue || (!e.editCancelled && e.editTimedOut))
    && (failure == Some(Cancellation) <==>
          || (!e.overdue && e.editCancelled)
          || (Edited(e) && !e.emptyDiff && lastHash != Some(e.diffHash) && e.test.cancelled))
    && (failure == Some(AdapterFailure) <==> !e.overdue && !e.editCancelled && !e.editTimedOut && e.adapterError)
    && (failure == Some(ZeroDiff) <==> Edited(e) && e.emptyDiff)
    && (failure == Some(StuckDiff) <==> Edited(e) && !e.emptyDiff && lastHash == Some(e.diffHash))
    && (failure == Some(StuckSignature) <==>
          Tested(e, lastHash) && e.test.exitCode != 0 && lastSig == Some(e.test.signature))
    && (failure.None? <==> Tested(e, lastHash) && e.test.exitCode == 0)
    && failure != Some(RetryExhausted) && failure != Some(BaselineFailed)
    && |last| == (if Tested(e, lastHash) then 1 else 0)
    && (forall a :: a in last ==>
          && a.index == index + 1 && a.exitCode == e.test.exitCode && a.diffHash == e.diffHash
          && (a.signature.Some? ==> a.signature.value == e.test.signature))
  }

  /** Attempt j of a loop that starts at attempt i goes on. */
  predicate GoesOnAt(oracle: Oracle, i: nat, j: nat, lastHash: Option<string>, lastSig: Option<string>) {
    GoesOn(oracle(j), HashBefore(oracle, i, j, lastHash), SignatureBefore(oracle, i, j, lastSig))
  }

  predicate OnRecord(r: RunResult, oracle: Oracle, i: nat, j: nat)
    requires i <= j
  {
    && j - i < |r.attempts|
    && r.attempts[j - i] ==
       Attempt(j + 1, oracle(j).test.exitCode, false, Some(oracle(j).test.signature), oracle(j).diffHash)
  }

  /** How the result comes about if attempt k decides. */
  predicate DecidedAt(r: RunResult, oracle: Oracle, i: nat, k: nat, limit: nat,
                      lastHash: Option<string>, lastSig: Option<string>)
    requires i <= k
  {
    && k - i <= |r.attempts|
    && if k == limit then r.failure == Some(RetryExhausted) && |r.attempts| == limit - i
       else
         DecidesAs(oracle(k), k, HashBefore(oracle, i, k, lastHash), SignatureBefore(oracle, i, k, lastSig),
                   r.failure, r.attempts[k - i..])
  }

  lemma DecidesAtOnce(oracle: Oracle, i: nat, limit: nat, lastHash: Option<string>, lastSig: Option<string>)
    requires i < limit && !GoesOn(oracle(i), lastHash, lastSig)
    ensures DecidedAt(Fold(oracle, i, limit, lastHash, lastSig), oracle, i, i, limit, lastHash, lastSig)
  {
    var r := Fold(oracle, i, limit, lastHash, lastSig);
    assert r.attempts[0..] == r.attempts;
  }

  lemma DecidesLater(oracle: Oracle, i: nat, k: nat, limit: nat, lastHash: Option<string>, lastSig: Option<string>)
    requires i < k <= limit && GoesOn(oracle(i), lastHash, lastSig)
    requires var (hash, sig) := (Some(oracle(i).diffHash), Some(oracle(i).test.signature));
             DecidedAt(Fold(oracle, i + 1, limit, hash, sig), oracle, i + 1, k, limit, hash, sig)
    ensures DecidedAt(Fold(oracle, i, limit, lastHash, lastSig), oracle, i, k, limit, lastHash, lastSig)
  {
    var r := Fold(oracle, i, limit, lastHash, lastSig);
    var rest := Fold(oracle, i + 1, limit, Some(oracle(i).diffHash), Some(oracle(i).test.signature));
    assert r.attempts == [RecordOf(i, oracle(i))] + rest.attempts;
    assert r.attempts[k - i..] == rest.attempts[k - (i + 1)..];
  }

  /**
   The first attempt that does not go on decides the run; the ones before it are all on record as failed. If
   all go on, the retries are exhausted.
  */
  lemma {:induction false} FirstStopDecides(oracle: Oracle, i: nat, limit: nat,
                                            lastHash: Option<string>, lastSig: Option<string>)
    returns (k: nat)
    requires i <= limit
    ensures i <= k <= limit
    ensures forall j :: i <= j < k ==> GoesOnAt(oracle, i, j, lastHash, lastSig)
    ensures forall j :: i <= j < k ==> OnRecord(Fold(oracle, i, limit, lastHash, lastSig), oracle, i, j)
    ensures DecidedAt(Fold(oracle, i, limit, lastHash, lastSig), oracle, i, k, limit, lastHash, lastSig)
    decreases limit - i
  {
    if i == limit {
      k := i;
    } else if !GoesOn(oracle(i), lastHash, lastSig) {
      k := i;
      DecidesAtOnce(oracle, i, limit, lastHash, lastSig);
    } else {
      var hash, sig := Some(oracle(i).diffHash), Some(oracle(i).test.signature);
      k := FirstStopDecides(oracle, i + 1, limit, hash, sig);
      DecidesLater(oracle, i, k, limit, lastHash, lastSig);
      var r, rest := Fold(oracle, i, limit, lastHash, lastSig), Fold(oracle, i + 1, limit, hash, sig);
      assert r.attempts == [RecordOf(i, oracle(i))] + rest.attempts;
      forall j | i <= j < k ensures GoesOnAt(oracle, i, j, lastHash, lastSig) && OnRecord(r, oracle, i, j) {
        if j > i {
          assert GoesOnAt(oracle, i + 1, j, hash, sig) && OnRecord(rest, oracle, i + 1, j);
          assert r.attempts[j - i] == rest.attempts[j - (i + 1)];
        }
      }
    }
  }
}
