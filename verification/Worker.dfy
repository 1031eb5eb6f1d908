/**
 The worker process of one job: claim, execute, settle the record and only then give the
 endpoint lease back; and the failure reason that it derives from an error code.
*/
module Worker {
  import opened Text
  import opened Wrappers
  import opened Jobs
  import opened JobManagement
  import Leases

  // ----- failure reasons -----

  predicate IsWord(c: char) {
    'a' <= c <= 'z' || '0' <= c <= '9'
  }

  /** Every maximal run of other characters becomes one underscore; gap says that one has been written. */
  function Collapsed(s: string, gap: bool): string {
    if s == "" then ""
    else if IsWord(s[0]) then [s[0]] + Collapsed(s[1..], false)
    else (if gap then "" else "_") + Collapsed(s[1..], true)
  }

  function Stripped(s: string): string {
    if s != "" && s[0] == '_' then Stripped(s[1..])
    else if s != "" && s[|s| - 1] == '_' then Stripped(s[..|s| - 1])
    else s
  }

  function Normalized(code: string): string {
    Stripped(Collapsed(Lower(code), false))
  }

  predicate Mentions(s: string, word: string) {
    word <= s || (s != "" && Mentions(s[1..], word))
  }

  function FailureReason(code: string): string {
    var n := Normalized(code);
    if Mentions(n, "timeout") then "timeout"
    else if Mentions(n, "test") || Mentions(n, "baseline") then "test_failure"
    else if n == "" then "internal_error"
    else n
  }

  /** The first letter or digit. */
  function FirstWord(s: string): Option<char> {
    if s == "" then None else if IsWord(s[0]) then Some(s[0]) else FirstWord(s[1..])
  }

  predicate Plain(s: string) {
    forall i :: 0 <= i < |s| ==> IsWord(s[i]) || s[i] == '_'
  }

  lemma {:induction false} CollapsedShape(s: string, gap: bool)
    ensures Plain(Collapsed(s, gap)) && FirstWord(Collapsed(s, gap)) == FirstWord(s)
  {
    if s == "" {
    } else {
      var rest := Collapsed(s[1..], !IsWord(s[0]));
      CollapsedShape(s[1..], !IsWord(s[0]));
      if IsWord(s[0]) {
        assert Collapsed(s, gap)[0] == s[0];
      } else {
        assert Collapsed(s, gap) == (if gap then "" else "_") + rest;
        assert ("_" + rest)[1..] == rest && ("" + rest) == rest;
      }
    }
  }

  lemma {:induction false} FirstWordOfFront(s: string)
    requires |s| > 0 && !IsWord(s[|s| - 1])
    ensures FirstWord(s[..|s| - 1]) == FirstWord(s)
  {
    if |s| == 1 || IsWord(s[0]) {
    } else {
      FirstWordOfFront(s[1..]);
      assert s[1..][..|s| - 2] == s[..|s| - 1][1..];
    }
  }

  lemma {:induction false} StrippedShape(s: string)
    requires Plain(s)
    ensures Plain(Stripped(s)) && FirstWord(Stripped(s)) == FirstWord(s)
    ensures FirstWord(s) == if Stripped(s) == "" then None else Some(Stripped(s)[0])
    decreases |s|
  {
    if s != "" && s[0] == '_' {
      StrippedShape(s[1..]);
    } else if s != "" && s[|s| - 1] == '_' {
      FirstWordOfFront(s);
      StrippedShape(s[..|s| - 1]);
    }
  }

  lemma NormalizedShape(code: string)
    ensures Plain(Normalized(code))
    ensures FirstWord(Lower(code)) == if Normalized(code) == "" then None else Some(Normalized(code)[0])
  {
    CollapsedShape(Lower(code), false);
    StrippedShape(Collapsed(Lower(code), false));
  }

  // The same, from the words of the code: what it is made of, apart from how it is computed.

  /** The maximal runs of letters and digits, in order. */
  function Words(s: string): seq<string> {
    if s == "" then []
    else if !IsWord(s[0]) then Words(s[1..])
    else
      var rest := Words(s[1..]);
      if |s| > 1 && IsWord(s[1]) && rest != [] then [[s[0]] + rest[0]] + rest[1..] else [[s[0]]] + rest
  }

  /** A trailing gap after the last word. */
  function Trailing(s: string): string {
    if Words(s) != [] && !IsWord(s[|s| - 1]) then "_" else ""
  }

  lemma GapFirst(s: string)
    ensures Collapsed(s, false) == (if s != "" && !IsWord(s[0]) then "_" else "") + Collapsed(s, true)
  {
    if s != "" && IsWord(s[0]) {
      assert Collapsed(s, false) == Collapsed(s, true);
    }
  }

  lemma {:induction false} CollapsedIsJoined(s: string)
    ensures Collapsed(s, true) == Joined(Words(s), '_') + Trailing(s)
  {
    if s == "" {
    } else {
      var c, t := s[0], s[1..];
      CollapsedIsJoined(t);
      if !IsWord(c) {
        assert Trailing(s) == Trailing(t);
      } else if t == "" {
        assert Words(s) == [[c]];
      } else if IsWord(t[0]) {
        GapFirst(t);
        assert Words(t) != [];
        JoinedPrepends(c, Words(t), '_');
        assert Trailing(s) == Trailing(t);
        assert [c] + (Joined(Words(t), '_') + Trailing(t)) == ([c] + Joined(Words(t), '_')) + Trailing(t);
      } else {
        GapFirst(t);
        JoinedStarts([c], Words(t), '_');
        if Words(t) == [] {
          NoWords(t);
          assert Trailing(s) == "_" && Collapsed(t, true) == "";
        } else {
          assert Trailing(s) == Trailing(t);
          var j := Joined(Words(t), '_');
          assert [c] + ("_" + (j + Trailing(t))) == ([c] + ("_" + j)) + Trailing(t);
        }
      }
    }
  }

  lemma {:induction false} NoWords(s: string)
    requires Words(s) == []
    ensures forall i :: 0 <= i < |s| ==> !IsWord(s[i])
  {
    if s == "" {
    } else {
      NoWords(s[1..]);
    }
  }

  /** Words are not empty, and a line of them begins and ends with a letter or digit. */
  lemma {:induction false} WordsBound(s: string)
    ensures forall word :: word in Words(s) ==> word != "" && IsWord(word[0]) && IsWord(word[|word| - 1])
  {
    if s == "" {
    } else {
      WordsBound(s[1..]);
    }
  }

  lemma {:induction false} JoinedBound(words: seq<string>)
    requires words != []
    requires forall word :: word in words ==> word != "" && IsWord(word[0]) && IsWord(word[|word| - 1])
    ensures var j := Joined(words, '_'); j != "" && IsWord(j[0]) && IsWord(j[|j| - 1])
  {
    assert words[0] in words;
    if |words| == 1 {
    } else {
      JoinedBound(words[1..]);
    }
  }

  /** Normalisation is the words of the lower-cased code, joined by underscores. */
  lemma NormalizedIsJoined(code: string)
    ensures Normalized(code) == Joined(Words(Lower(code)), '_')
  {
    var s := Lower(code);
    GapFirst(s);
    CollapsedIsJoined(s);
    var j := Joined(Words(s), '_');
    assert "" + (j + Trailing(s)) == j + Trailing(s) && j + "" == j && "" + j == j;
    if Words(s) == [] {
      assert "" + "" == "" && "_" + "" == "_";
      assert Stripped("_") == "" && Stripped("") == "" by {
        assert "_"[1..] == "";
      }
    } else {
      WordsBound(s);
      JoinedBound(Words(s));
      StrippedAround(j);
    }
  }

  lemma StrippedAround(j: string)
    requires j != "" && IsWord(j[0]) && IsWord(j[|j| - 1])
    ensures Stripped(j) == Stripped(j + "_") == Stripped("_" + j) == Stripped("_" + (j + "_")) == j
  {
    assert (j + "_")[..|j + "_"| - 1] == j;
    assert ("_" + j)[1..] == j && ("_" + (j + "_"))[1..] == j + "_";
  }

  /** Which reason a code gives: the recognised words come first, then the words of the code itself. */
  lemma FailureReasonMeans(code: string)
    ensures var line := Joined(Words(Lower(code)), '_');
            FailureReason(code) ==
              if Occurs("timeout", line) then "timeout"
              else if Occurs("test", line) || Occurs("baseline", line) then "test_failure"
              else if line == "" then "internal_error"
              else line
  {
    NormalizedIsJoined(code);
    MentionsMeans(Normalized(code), "timeout");
    MentionsMeans(Normalized(code), "test");
    MentionsMeans(Normalized(code), "baseline");
  }

  /** The word stands somewhere in s. */
  predicate Occurs(word: string, s: string) {
    exists i :: 0 <= i <= |s| && word <= s[i..]
  }

  lemma {:induction false} OccurringIsMentioned(s: string, word: string, i: nat)
    requires i <= |s| && word <= s[i..]
    ensures Mentions(s, word)
    decreases i
  {
    if i == 0 {
      assert s[0..] == s;
    } else {
      assert s[1..][i - 1..] == s[i..];
      OccurringIsMentioned(s[1..], word, i - 1);
    }
  }

  lemma {:induction false} MentionedOccurs(s: string, word: string) returns (i: nat)
    requires Mentions(s, word)
    ensures i <= |s| && word <= s[i..]
  {
    if word <= s {
      assert s[0..] == s;
      i := 0;
    } else {
      var k := MentionedOccurs(s[1..], word);
      assert s[1..][k..] == s[k + 1..];
      i := k + 1;
    }
  }

  lemma MentionsMeans(s: string, word: string)
    ensures Mentions(s, word) <==> Occurs(word, s)
  {
    if Mentions(s, word) {
      var i := MentionedOccurs(s, word);
    }
    if Occurs(word, s) {
      var i :| 0 <= i <= |s| && word <= s[i..];
      OccurringIsMentioned(s, word, i);
    }
  }

  /**
   A derived reason is one that a failed record accepts, unless the code's first letter or digit
   is a digit and none of the recognised words occurs in it.
  */
  lemma FailureReasonIsValidIff(code: string)
    ensures IsReason(FailureReason(code)) <==>
              || Mentions(Normalized(code), "timeout") || Mentions(Normalized(code), "test")
              || Mentions(Normalized(code), "baseline")
              || FirstWord(Lower(code)).None? || FirstWord(Lower(code)).value >= 'a'
  {
    NormalizedShape(code);
  }

  /** A code that begins with a digit and mentions nothing known: its reason is refused. */
  lemma DigitCodeIsRefused()
    ensures FailureReason("3d") == "3d" && !IsReason(FailureReason("3d"))
  {
    assert Lower("3d") == "3d";
    assert Collapsed("3d", false) == "3d" by {
      assert "3d"[1..] == "d" && "d"[1..] == "";
    }
    assert Normalized("3d") == "3d";
    assert !Mentions("3d", "timeout") && !Mentions("3d", "test") && !Mentions("3d", "baseline") by {
      assert "3d"[1..] == "d" && "d"[1..] == "";
    }
  }

  // ----- one worker, from claim to release -----

  /** How the execution ended: with a result, or with one of the exceptions that are told apart. */
  datatype Ending =
    | Finished(status: RunStatus, code: Option<string>, summary: RunSummary)
    | DomainError(errorCode: string)
    | BadValue
    | OtherError

  /** The transition that the worker asks for. */
  function Settlement(e: Ending): Mutation {
    match e
    case Finished(RunSuccess, _, summary) => MoveTo(Completed, None, None, Some(summary))
    case Finished(RunCancelled, _, summary) => MoveTo(Cancelled, None, None, Some(summary))
    case Finished(_, code, summary) =>
      MoveTo(Failed, Some(FailureReason(if code.Some? then code.value else "task_failure")), None, Some(summary))
    case DomainError(code) => MoveTo(Failed, Some(FailureReason(code)), None, None)
    case BadValue => MoveTo(Failed, Some(LAUNCH_FAILURE), None, None)
    case OtherError => MoveTo(Failed, Some("internal_error"), None, None)
  }

  /** How run_worker ends; only Done returns, all others raise. */
  datatype WorkerEnd = NotClaimed | NotSettled | NotReleased(record: JobRecord) | Done(record: JobRecord)

  /** What the release meets: whether it gets the activity lock, and whether it can read the settled record. */
  datatype Release = Release(lockFree: bool, readable: bool)

  /**
   during lists what the heartbeat thread and all other processes do to the store while the worker
   executes, and others is the lease list that they have left by the time of the release. A heartbeat
   that fails turns a result into an error, before the record is settled.
  */
  method RunWorker(manager: JobManager, registry: Leases.ActivityRegistry, job: Leases.JobKey, w: Worker,
                   claimedAt: int, during: seq<Call>, ending: Ending, heartbeatFailed: bool, settledAt: int,
                   others: seq<Leases.Entry>, release: Release)
    returns (r: WorkerEnd)
    modifies manager, registry
    ensures Reply(old(manager.records), job.id, ClaimBy(w), claimedAt).Err? <==> r.NotClaimed?
    ensures r.NotClaimed? ==> manager.records == old(manager.records) && registry.leases == old(registry.leases)
    ensures !r.NotClaimed? ==>
      var executed := Replay(After(old(manager.records), job.id, ClaimBy(w), claimedAt), during);
      var m := Settlement(if heartbeatFailed && ending.Finished? then OtherError else ending);
      && manager.records == After(executed, job.id, m, settledAt)
      && (r.NotSettled? <==> Reply(executed, job.id, m, settledAt).Err?)
    ensures r.Done? || r.NotReleased? ==>
              Terminal(r.record.status) && job.id in manager.records && manager.records[job.id] == r.record
    // What the record then says, in terms of how the execution ended.
    ensures r.Done? || r.NotReleased? ==>
      var failed := heartbeatFailed && ending.Finished?;
      var before := Replay(After(old(manager.records), job.id, ClaimBy(w), claimedAt), during);
      && job.id in before
      && (before[job.id].cancellationRequested && (failed || !ending.Finished? || ending.status != RunCancelled) ==>
            r.record.status == Cancelled && r.record.runResult.None? && r.record.failureReason.None?)
      && (ending.Finished? && ending.status == RunCancelled && !failed ==>
            r.record.status == Cancelled && r.record.runResult == Some(ending.summary) && r.record.failureReason.None?)
      && (!before[job.id].cancellationRequested ==>
            && (ending.Finished? && ending.status == RunSuccess && !failed ==>
                  && r.record.status == Completed && r.record.runResult == Some(ending.summary)
                  && r.record.failureReason.None?)
            && (ending.Finished? && ending.status in {RunFailure, RunAborted} && !failed ==>
                  && r.record.status == Failed && r.record.runResult == Some(ending.summary)
                  && r.record.failureReason ==
                     Some(FailureReason(if ending.code.Some? then ending.code.value else "task_failure")))
            && (ending.DomainError? ==>
                  && r.record.status == Failed && r.record.runResult.None?
                  && r.record.failureReason == Some(FailureReason(ending.errorCode)))
            && (ending.BadValue? ==>
                  && r.record.status == Failed && r.record.runResult.None?
                  && r.record.failureReason == Some("launch_failure"))
            && (failed || ending.OtherError? ==>
                  && r.record.status == Failed && r.record.runResult.None?
                  && r.record.failureReason == Some("internal_error")))
    // The lease goes exactly when the record on disk is terminal by this worker's own hand and the release gets
    // through.
    ensures r.Done? || r.NotReleased? ==>
              (r.Done? <==> release.lockFree && (release.readable || Leases.Job(job) !in others))
    ensures !r.NotClaimed? ==> registry.leases == if r.Done? then Leases.WithoutJob(others, job) else others
  {
    var claimed := manager.Claim(job.id, w, claimedAt);
    if claimed.Err? {
      return NotClaimed;
    }
    manager.records := Replay(manager.records, during);
    registry.leases := others;
    var m := Settlement(if heartbeatFailed && ending.Finished? then OtherError else ending);
    ghost var executed := manager.records;
    var settled := manager.Transition(job.id, m.status, m.reason, m.metadata, m.result, settledAt);
    if settled.Err? {
      return NotSettled;
    }
    SettledIsSaved(executed, job.id, m, settledAt);
    ApplyWrites(m, executed[job.id], settledAt);
    if !release.lockFree {
      return NotReleased(settled.value);
    }
    var reading := if release.readable then Leases.Read(settled.value.status) else Leases.Unreadable;
    var released := registry.ReleaseAsync(job, reading);
    return if released then Done(settled.value) else NotReleased(settled.value);
  }

  lemma SettledIsSaved(records: Store, id: string, m: Mutation, now: int)
    requires m.MoveTo? && Terminal(m.status) && Reply(records, id, m, now).Ok?
    ensures id in After(records, id, m, now) && After(records, id, m, now)[id] == Reply(records, id, m, now).value
    ensures Terminal(Reply(records, id, m, now).value.status)
  {
  }

  /**
   A job that is still running when its worker ends is settled, as cancelled if cancellation was
   requested, unless the reason derived from the error code is not acceptable: then the write is
   refused, the record stays running and the lease stays taken.
  */
  lemma RunningJobIsSettledIff(records: Store, id: string, ending: Ending, now: int)
    requires Lookup(records, id).Ok? && records[id].status.Running?
    ensures var m := Settlement(ending);
            var reply := Reply(records, id, m, now);
            && (reply.Ok? <==> records[id].cancellationRequested || m.reason.None? || IsReason(m.reason.value))
            && (reply.Ok? ==> reply.value.status == if records[id].cancellationRequested then Cancelled else m.status)
            && (reply.Err? ==> reply.error.InvalidRecord? && After(records, id, m, now) == records)
  {
  }
}
