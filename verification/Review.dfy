/**
 Review records bound to exact artifacts. A recording compares the revision, lets independent
 evidence be produced, writes the evidence file, checks all inputs again and replaces the
 record; it may crash between any two of these steps, and the inputs may change meanwhile.
*/
module Review {
  import opened Wrappers

  datatype RunFile = RunFile(
    runId: string, baseline: string, succeeded: bool, hasPolicy: bool, workerModel: Option<string>, rest: string)

  /** SHA-256 taken to be collision-free: a digest is what was digested. */
  datatype Digest =
    | Zero
    | OfRun(run: RunFile)
    | OfPatch(patch: string)
    | OfProfile(profile: string)
    | OfEvidence(evidence: Evidence)

  datatype EvidencePath = EvidencePath(runId: string, revision: nat)

  datatype Evidence = Evidence(
    path: EvidencePath,
    sha256: Digest,
    runId: string,
    baseline: string,
    patchSha: Digest,
    profile: string,
    profileSha: Digest,
    exitCode: Option<int>,
    timedOut: bool,
    cancelled: bool,
    truncated: bool,
    before: Digest,
    after: Digest,
    sameTree: bool,
    scopeChecked: bool,
    completed: bool)

  datatype Judgment = Accepted | Rejected | Blocked

  datatype Reviewer = Human | Model(id: string)

  datatype Relation = SameModel | DifferentModelUnverified | UnknownRelation | NotApplicable

  datatype ReviewRecord = ReviewRecord(
    runId: string,
    runSha: Digest,
    baseline: string,
    patchSha: Digest,
    revision: nat,
    reviewer: Reviewer,
    workerModel: Option<string>,
    relation: Relation,
    judgment: Judgment,
    evidence: Option<Evidence>)

  /** Everything that a review is bound to. */
  datatype Inputs = Inputs(run: RunFile, patch: string, head: string, profiles: map<string, string>)

  predicate Passed(e: Evidence) {
    && e.exitCode == Some(0) && e.sameTree && e.before == e.after && e.completed
    && !e.timedOut && !e.cancelled && !e.truncated
  }

  /** fold stands for case folding of model names. */
  function RelationOf(reviewer: Reviewer, workerModel: Option<string>, fold: string -> string): Relation {
    if reviewer.Human? then NotApplicable
    else if workerModel.None? then UnknownRelation
    else if fold(reviewer.id) == fold(workerModel.value) then SameModel
    else DifferentModelUnverified
  }

  /** The record's own validator. */
  predicate RecordValid(r: ReviewRecord, fold: string -> string) {
    && r.revision >= 1
    && r.relation == RelationOf(r.reviewer, r.workerModel, fold)
    && (r.judgment.Accepted? ==> r.evidence.Some? && Passed(r.evidence.value))
    && (r.evidence.Some? ==>
          r.evidence.value.runId == r.runId && r.evidence.value.baseline == r.baseline
          && r.evidence.value.patchSha == r.patchSha)
  }

  function Revision(review: Option<ReviewRecord>): nat {
    if review.Some? then review.value.revision else 0
  }

  // ----- reading the status -----

  datatype Status = Status(current: bool, judgment: Option<Judgment>, revision: nat)

  predicate InputsMatch(i: Inputs, r: ReviewRecord) {
    && r.runId == i.run.runId && r.runSha == OfRun(i.run)
    && r.baseline == i.run.baseline && r.patchSha == OfPatch(i.patch) && i.head == r.baseline
  }

  predicate EvidenceMatches(i: Inputs, r: ReviewRecord, files: map<EvidencePath, Evidence>)
    requires r.evidence.Some?
  {
    var path := EvidencePath(i.run.runId, r.revision);
    && r.evidence.value.path == path
    && path in files
    && OfEvidence(files[path].(sha256 := Zero)) == r.evidence.value.sha256
    && files[path] == r.evidence.value
    && files[path].runId == i.run.runId && files[path].baseline == r.baseline && files[path].patchSha == r.patchSha
    && (r.judgment.Accepted? ==>
          && Passed(files[path])
          && files[path].scopeChecked == i.run.hasPolicy
          && files[path].profile in i.profiles
          && files[path].profileSha == OfProfile(i.profiles[files[path].profile]))
  }

  function ReadStatus(i: Inputs, review: Option<ReviewRecord>, files: map<EvidencePath, Evidence>): Status {
    if review.None? then Status(false, None, 0)
    else
      var r := review.value;
      var current := InputsMatch(i, r)
                     && (if r.evidence.Some? then EvidenceMatches(i, r, files) else !r.judgment.Accepted?);
      Status(current, if current then Some(r.judgment) else None, r.revision)
  }

  /** Exactly when a stored review counts for the inputs as they are, and what is read then. */
  lemma CurrentIff(i: Inputs, r: ReviewRecord, files: map<EvidencePath, Evidence>)
    ensures var status := ReadStatus(i, Some(r), files);
            status.revision == r.revision && status.judgment == if status.current then Some(r.judgment) else None
    ensures ReadStatus(i, Some(r), files).current <==>
      // the run record, the patch and the head are the reviewed ones,
      && r.runId == i.run.runId && r.runSha == OfRun(i.run) && r.patchSha == OfPatch(i.patch)
      && r.baseline == i.run.baseline && r.baseline == i.head
      // evidence lies unchanged where it was put, and an acceptance has some,
      && (r.evidence.Some? ==>
            var path := EvidencePath(i.run.runId, r.revision);
            && path in files && files[path] == r.evidence.value && r.evidence.value.path == path
            && r.evidence.value.sha256 == OfEvidence(r.evidence.value.(sha256 := Zero))
            && r.evidence.value.runId == i.run.runId && r.evidence.value.baseline == r.baseline
            && r.evidence.value.patchSha == r.patchSha)
      // which passed in full under the profile as it still is.
      && (r.judgment.Accepted? ==>
            && r.evidence.Some?
            && var e := r.evidence.value;
               && e.exitCode == Some(0) && !e.timedOut && !e.cancelled && !e.truncated
               && e.completed && e.sameTree && e.before == e.after
               && (e.scopeChecked <==> i.run.hasPolicy)
               && e.profile in i.profiles && e.profileSha == OfProfile(i.profiles[e.profile]))
  {
  }

  /** A current acceptance rests on passing evidence for exactly this run, patch, baseline and profile. */
  lemma CurrentAcceptanceMeans(i: Inputs, review: Option<ReviewRecord>, files: map<EvidencePath, Evidence>)
    requires ReadStatus(i, review, files).judgment == Some(Accepted)
    ensures review.Some? && review.value.evidence.Some?
    ensures var e := review.value.evidence.value;
            && Passed(e) && e.path in files && files[e.path] == e
            && e.runId == i.run.runId && review.value.runSha.run == i.run
            && e.patchSha == OfPatch(i.patch)
            && e.baseline == i.run.baseline && i.head == e.baseline
            && e.profile in i.profiles && e.profileSha == OfProfile(i.profiles[e.profile])
            && (e.scopeChecked <==> i.run.hasPolicy)
  {
  }

  /** No two different input sets, apart from profiles that the evidence does not name, share an acceptance. */
  lemma AcceptanceBindsInputs(i: Inputs, j: Inputs, review: Option<ReviewRecord>, files: map<EvidencePath, Evidence>)
    requires ReadStatus(i, review, files).judgment == Some(Accepted)
    ensures ReadStatus(j, review, files).judgment == Some(Accepted) <==>
              && j.run == i.run && j.patch == i.patch && j.head == i.head
              && review.value.evidence.value.profile in j.profiles
              && j.profiles[review.value.evidence.value.profile] == i.profiles[review.value.evidence.value.profile]
  {
  }

  // ----- producing the evidence -----

  datatype TestRun = TestRun(exitCode: int, timedOut: bool, cancelled: bool, truncated: bool)

  /** How each stage of the independent verification turns out; None is an exception there. */
  datatype Attempt = Attempt(
    checkoutBaseline: Option<string>,
    applies: bool,
    before: Option<Digest>,
    scopeHolds: bool,
    executableFound: bool,
    test: Option<TestRun>,
    after: Option<Digest>,
    rolledBack: bool,
    lateAfter: Option<Digest>,
    lateRolledBack: bool)

  predicate EveryStagePassed(i: Inputs, profile: string, a: Attempt) {
    && profile in i.profiles
    && a.checkoutBaseline == Some(i.run.baseline) && a.applies && a.before.Some?
    && (i.run.hasPolicy ==> a.scopeHolds)
    && a.executableFound && a.test == Some(TestRun(0, false, false, false))
    && a.after == a.before && a.rolledBack
  }

  /** The handler exports once more and rolls back; it never turns the verification complete. */
  method LookAgain(before: Digest, after: Digest, a: Attempt) returns (late: Digest, sameTree: bool)
    ensures late == if a.lateAfter.Some? then a.lateAfter.value else after
    ensures sameTree <==> a.lateAfter.Some? && a.lateRolledBack && before == late
  {
    if a.lateAfter.None? {
      return after, false;
    }
    late := a.lateAfter.value;
    sameTree := before == late && a.lateRolledBack;
  }

  /** The independent verification; an exception in any stage goes to the handler. */
  method VerifyCandidate(i: Inputs, profile: string, a: Attempt, path: EvidencePath)
    returns (e: Evidence, fingerprint: Option<Digest>)
    ensures fingerprint == if profile in i.profiles then Some(OfProfile(i.profiles[profile])) else None
    ensures Passed(e) <==> EveryStagePassed(i, profile, a)
    // A stage that was not reached, or failed, shows in the evidence; no other evidence is complete and unchanged.
    ensures e.exitCode.Some? ==>
      && a.test.Some? && e.exitCode.value == a.test.value.exitCode
      && e.timedOut == a.test.value.timedOut && e.cancelled == a.test.value.cancelled
      && e.truncated == a.test.value.truncated
    ensures e.exitCode.None? ==> !e.timedOut && !e.cancelled && !e.truncated && !e.completed
    ensures e.completed ==> a.rolledBack && a.before == Some(e.before) && a.after == Some(e.after)
    ensures e.sameTree ==> e.before == e.after
    ensures e.completed ==> (e.sameTree <==> a.before == a.after)
    // Short of completion the handler looks once more at whatever was checked out.
    ensures !e.completed && profile in i.profiles && a.checkoutBaseline.Some? ==>
      && (a.lateAfter.Some? ==> e.after == a.lateAfter.value)
      && (e.sameTree <==> a.lateAfter.Some? && a.lateRolledBack && e.before == e.after)
    ensures !(profile in i.profiles && a.checkoutBaseline.Some?) ==> !e.sameTree && e.before.Zero? && e.after.Zero?
    ensures e.scopeChecked ==> i.run.hasPolicy && a.scopeHolds
    ensures EveryStagePassed(i, profile, a) <==>
      && e.exitCode == Some(0) && !e.timedOut && !e.cancelled && !e.truncated
      && e.completed && e.sameTree && e.before == e.after
    ensures Passed(e) ==> fingerprint == Some(e.profileSha) && (e.scopeChecked <==> i.run.hasPolicy)
    ensures fingerprint.Some? ==> e.profileSha == fingerprint.value
    ensures e.path == path && e.sha256 == Zero && e.profile == profile
    ensures e.runId == i.run.runId && e.baseline == i.run.baseline && e.patchSha == OfPatch(i.patch)
  {
    fingerprint := None;
    var exitCode: Option<int>, timedOut, cancelled, truncated := None, false, false, false;
    var scopeChecked, sameTree, completed, hasCheckout := false, false, false, false;
    var before, after := Zero, Zero;
    label verification: {
      if profile !in i.profiles {
        break verification;
      }
      fingerprint := Some(OfProfile(i.profiles[profile]));
      if a.checkoutBaseline.None? {
        break verification;
      }
      hasCheckout := true;
      if a.checkoutBaseline.value != i.run.baseline || !a.applies || a.before.None? {
        break verification;
      }
      before := a.before.value;
      if i.run.hasPolicy {
        if !a.scopeHolds {
          break verification;
        }
        scopeChecked := true;
      }
      if !a.executableFound || a.test.None? {
        break verification;
      }
      exitCode := Some(a.test.value.exitCode);
      timedOut, cancelled, truncated := a.test.value.timedOut, a.test.value.cancelled, a.test.value.truncated;
      if a.after.None? {
        break verification;
      }
      after := a.after.value;
      sameTree := before == after;
      completed := a.rolledBack;
    }
    if !completed && hasCheckout {
      after, sameTree := LookAgain(before, after, a);
    }
    e := Evidence(path, Zero, i.run.runId, i.run.baseline, OfPatch(i.patch), profile,
                  if fingerprint.Some? then fingerprint.value else Zero,
                  exitCode, timedOut, cancelled, truncated, before, after, sameTree, scopeChecked, completed);
  }

  // ----- recording -----

  datatype CrashPoint = NoCrash | BeforeEvidence | AfterEvidence | BeforeRecord | AfterRecord

  /**
   What goes on around one recording: how verification turns out, what the inputs have become at the
   final check and when the record is written, whether the evidence file is intact at that check, and
   where the process crashes.
  */
  datatype Happening = Happening(attempt: Attempt, drift: Inputs, evidenceKept: bool, late: Inputs, crash: CrashPoint)

  datatype ReviewError = BadRequest | InputsDiffer | RevisionChanged | ChangedDuringReview | Crashed

  datatype ReviewRequest = ReviewRequest(
    expectedBaseline: string,
    expectedPatch: Digest,
    expectedRevision: nat,
    reviewer: Reviewer,
    judgment: Judgment,
    profile: Option<string>)

  // ----- what one recording may do -----

  /** All that is stored for one run, and the inputs that its review is bound to. */
  datatype Store = Store(inputs: Inputs, review: Option<ReviewRecord>, files: map<EvidencePath, Evidence>) {
    function Status(): Status {
      ReadStatus(inputs, review, files)
    }
  }

  predicate RequestFits(s: Store, q: ReviewRequest) {
    && (q.judgment.Accepted? ==> q.profile.Some? && s.inputs.run.succeeded)
    && s.inputs.run.baseline == q.expectedBaseline && OfPatch(s.inputs.patch) == q.expectedPatch
    && s.inputs.head == q.expectedBaseline
    && Revision(s.review) == q.expectedRevision
  }

  /** At the final check everything is as it was when the recording began. */
  predicate StillBound(s: Store, q: ReviewRequest, h: Happening) {
    && h.drift.run == s.inputs.run && h.drift.patch == s.inputs.patch && h.drift.head == q.expectedBaseline
    && (q.judgment.Accepted? ==>
          && h.evidenceKept
          && (q.profile.Some? && q.profile.value in s.inputs.profiles ==>
                q.profile.value in h.drift.profiles
                && h.drift.profiles[q.profile.value] == s.inputs.profiles[q.profile.value]))
  }

  /** A process that crashes before it writes the record. */
  predicate CrashesEarly(h: Happening) {
    h.crash.BeforeEvidence? || h.crash.AfterEvidence? || h.crash.BeforeRecord?
  }

  predicate WritesRecord(s: Store, q: ReviewRequest, h: Happening) {
    RequestFits(s, q) && StillBound(s, q, h) && !CrashesEarly(h)
  }

  /** The record that a recording leaves: for exactly the inputs it saw, with the judgment it earned. */
  predicate Earned(s: Store, q: ReviewRequest, h: Happening, r: ReviewRecord, files: map<EvidencePath, Evidence>) {
    && InputsMatch(s.inputs, r)
    && r.revision == Revision(s.review) + 1
    && r.reviewer == q.reviewer && r.workerModel == s.inputs.run.workerModel
    && (!q.judgment.Accepted? ==> r.judgment == q.judgment && r.evidence.None?)
    && (q.judgment.Accepted? ==>
          && q.profile.Some? && r.evidence.Some? && r.evidence.value.profile == q.profile.value
          && (r.judgment == if EveryStagePassed(s.inputs, q.profile.value, h.attempt) then Accepted else Blocked)
          && (q.profile.value in s.inputs.profiles ==>
                r.evidence.value.profileSha == OfProfile(s.inputs.profiles[q.profile.value])))
    && ReadStatus(h.drift, Some(r), files) == Status(true, Some(r.judgment), r.revision)
  }

  /** The evidence of an accepting recording lies at its path and says what the verification found. */
  predicate Evidenced(s: Store, q: ReviewRequest, h: Happening, e: Evidence)
    requires q.judgment.Accepted? && q.profile.Some?
  {
    var profile := q.profile.value;
    && e.path == EvidencePath(s.inputs.run.runId, Revision(s.review) + 1) && e.path in s.files && s.files[e.path] == e
    && e.sha256 == OfEvidence(e.(sha256 := Zero))
    && e.runId == s.inputs.run.runId && e.baseline == s.inputs.run.baseline && e.patchSha == OfPatch(s.inputs.patch)
    && e.profile == profile
    && (profile in s.inputs.profiles ==> e.profileSha == OfProfile(s.inputs.profiles[profile]))
    && (Passed(e) <==> EveryStagePassed(s.inputs, profile, h.attempt))
    && (Passed(e) ==> e.scopeChecked == s.inputs.run.hasPolicy)
  }

  predicate SameFile(a: map<EvidencePath, Evidence>, b: map<EvidencePath, Evidence>, path: EvidencePath) {
    (path in a <==> path in b) && (path in a ==> a[path] == b[path])
  }

  /** What a recording may leave behind, whatever happens around it. */
  ghost predicate MayLeave(s: Store, q: ReviewRequest, h: Happening, r: Result<ReviewRecord, ReviewError>, t: Store) {
    && (forall path :: path != EvidencePath(s.inputs.run.runId, Revision(s.review) + 1) ==>
          SameFile(s.files, t.files, path))
    && (r.Ok? <==> WritesRecord(s, q, h) && h.crash.NoCrash?)
    && (r.Ok? ==> t.review == Some(r.value))
    && (if WritesRecord(s, q, h) then t.review.Some? && Earned(s, q, h, t.review.value, t.files) && t.inputs == h.late
        else t.review == s.review && t.inputs in {s.inputs, h.drift})
  }

  /** A record written next to its evidence, with the inputs as they were bound, is read as current. */
  lemma WrittenIsCurrent(i: Inputs, r: ReviewRecord, files: map<EvidencePath, Evidence>)
    requires InputsMatch(i, r)
    requires r.evidence.None? ==> !r.judgment.Accepted?
    requires r.evidence.Some? ==>
      var e := r.evidence.value;
      && e.path == EvidencePath(i.run.runId, r.revision) && e.path in files && files[e.path] == e
      && e.sha256 == OfEvidence(e.(sha256 := Zero))
      && e.runId == i.run.runId && e.baseline == r.baseline && e.patchSha == r.patchSha
      && (r.judgment.Accepted? ==>
            && Passed(e) && e.scopeChecked == i.run.hasPolicy
            && e.profile in i.profiles && e.profileSha == OfProfile(i.profiles[e.profile]))
    ensures ReadStatus(i, Some(r), files) == Status(true, Some(r.judgment), r.revision)
  {
  }

  class ReviewStore {
    var inputs: Inputs
    var review: Option<ReviewRecord>
    var files: map<EvidencePath, Evidence>
    const fold: string -> string

    constructor (inputs: Inputs, fold: string -> string)
      ensures Now() == Store(inputs, None, map[]) && this.fold == fold
    {
      this.inputs, review, files, this.fold := inputs, None, map[], fold;
    }

    function Now(): Store
      reads this
    {
      Store(inputs, review, files)
    }

    /** What is checked of a request before anything else happens. */
    method CheckRequest(q: ReviewRequest) returns (problem: Option<ReviewError>)
      ensures problem.None? <==> RequestFits(Now(), q)
      ensures
        var bad := q.judgment.Accepted? && (q.profile.None? || !inputs.run.succeeded);
        var differ := inputs.run.baseline != q.expectedBaseline || OfPatch(inputs.patch) != q.expectedPatch
                      || inputs.head != q.expectedBaseline;
        && (problem == Some(BadRequest) <==> bad)
        && (problem == Some(InputsDiffer) <==> !bad && differ)
        && (problem == Some(RevisionChanged) <==> !bad && !differ && Revision(review) != q.expectedRevision)
        && problem != Some(ChangedDuringReview) && problem != Some(Crashed)
    {
      if q.judgment.Accepted? && (q.profile.None? || !inputs.run.succeeded) {
        return Some(BadRequest);
      }
      if inputs.run.baseline != q.expectedBaseline || OfPatch(inputs.patch) != q.expectedPatch
         || inputs.head != q.expectedBaseline {
        return Some(InputsDiffer);
      }
      if Revision(review) != q.expectedRevision {
        return Some(RevisionChanged);
      }
      return None;
    }

    method RecordReview(q: ReviewRequest, h: Happening) returns (r: Result<ReviewRecord, ReviewError>)
      modifies this
      ensures MayLeave(old(Now()), q, h, r, Now())
      ensures WritesRecord(old(Now()), q, h) ==> RecordValid(review.value, fold)
      // The record names its reviewer and the model that did the work, and how the two are related.
      ensures WritesRecord(old(Now()), q, h) ==>
        && review.value.reviewer == q.reviewer && review.value.workerModel == old(inputs).run.workerModel
        && (review.value.relation.NotApplicable? <==> q.reviewer.Human?)
        && (review.value.relation.UnknownRelation? <==> q.reviewer.Model? && old(inputs).run.workerModel.None?)
        && (review.value.relation.SameModel? <==>
              && q.reviewer.Model? && old(inputs).run.workerModel.Some?
              && fold(q.reviewer.id) == fold(old(inputs).run.workerModel.value))
      // Which refusal is given.
      ensures var s := old(Now());
        var bad := q.judgment.Accepted? && (q.profile.None? || !s.inputs.run.succeeded);
        var differ := s.inputs.run.baseline != q.expectedBaseline || OfPatch(s.inputs.patch) != q.expectedPatch
                      || s.inputs.head != q.expectedBaseline;
        && (r == Err(BadRequest) <==> bad)
        && (r == Err(InputsDiffer) <==> !bad && differ)
        && (r == Err(RevisionChanged) <==> !bad && !differ && Revision(s.review) != q.expectedRevision)
        && (r == Err(ChangedDuringReview) <==>
              RequestFits(s, q) && !StillBound(s, q, h) && !h.crash.BeforeEvidence? && !h.crash.AfterEvidence?)
    {
      var problem := CheckRequest(q);
      if problem.Some? {
        return Err(problem.value);
      }
      var path := EvidencePath(inputs.run.runId, Revision(review) + 1);
      var evidence: Option<Evidence>, fingerprint: Option<Digest> := None, None;
      if q.judgment.Accepted? {
        var e;
        e, fingerprint := VerifyCandidate(inputs, q.profile.value, h.attempt, path);
        evidence := Some(e.(sha256 := OfEvidence(e.(sha256 := Zero))));
      }
      if h.crash.BeforeEvidence? {
        return Err(Crashed);
      }
      if evidence.Some? {
        files := files[path := evidence.value];
      }
      ghost var placed := files;
      assert forall p :: p != path ==> SameFile(old(files), placed, p);
      if h.crash.AfterEvidence? {
        return Err(Crashed);
      }
      r := CheckAndWrite(q, h, evidence, fingerprint);
      forall p | p != path ensures SameFile(old(files), files, p) {
        assert SameFile(old(files), placed, p) && SameFile(placed, files, p);
      }
    }

    /** The last check, with the evidence in place, and the replacement of the record. */
    method CheckAndWrite(q: ReviewRequest, h: Happening, evidence: Option<Evidence>, fingerprint: Option<Digest>)
      returns (r: Result<ReviewRecord, ReviewError>)
      requires RequestFits(Now(), q) && !h.crash.BeforeEvidence? && !h.crash.AfterEvidence?
      requires evidence.Some? <==> q.judgment.Accepted?
      requires q.judgment.Accepted? ==> Evidenced(Now(), q, h, evidence.value)
      requires fingerprint == if q.judgment.Accepted? && q.profile.value in inputs.profiles
                              then Some(OfProfile(inputs.profiles[q.profile.value])) else None
      modifies this
      ensures MayLeave(old(Now()), q, h, r, Now())
      ensures WritesRecord(old(Now()), q, h) ==> RecordValid(review.value, fold)
      ensures r.Ok? || r.error in {ChangedDuringReview, Crashed}
      ensures r == Err(ChangedDuringReview) <==> !StillBound(old(Now()), q, h)
    {
      var seen, revision := inputs, Revision(review);
      inputs := h.drift;
      if OfRun(inputs.run) != OfRun(seen.run) || OfPatch(inputs.patch) != OfPatch(seen.patch)
         || inputs.head != q.expectedBaseline {
        return Err(ChangedDuringReview);
      }
      if fingerprint.Some? {
        if q.profile.value !in inputs.profiles || OfProfile(inputs.profiles[q.profile.value]) != fingerprint.value {
          return Err(ChangedDuringReview);
        }
      }
      if evidence.Some? && !h.evidenceKept {
        files := files - {evidence.value.path};
        return Err(ChangedDuringReview);
      }
      var judgment := if q.judgment.Accepted? && !Passed(evidence.value) then Blocked else q.judgment;
      var record := ReviewRecord(seen.run.runId, OfRun(seen.run), q.expectedBaseline, OfPatch(seen.patch), revision + 1,
                                 q.reviewer, seen.run.workerModel, RelationOf(q.reviewer, seen.run.workerModel, fold),
                                 judgment, evidence);
      if h.crash.BeforeRecord? {
        return Err(Crashed);
      }
      WrittenIsCurrent(inputs, record, files);
      inputs := h.late;
      review := Some(record);
      if h.crash.AfterRecord? {
        return Err(Crashed);
      }
      return Ok(record);
    }
  }

  /** Evidence for the next revision cannot influence what is read about the present one. */
  lemma NextEvidenceIsInvisible(review: Option<ReviewRecord>, before: map<EvidencePath, Evidence>,
                                after: map<EvidencePath, Evidence>, revision: nat)
    requires revision == Revision(review)
    requires forall path: EvidencePath :: path.revision != revision + 1 ==> SameFile(before, after, path)
    ensures forall i :: ReadStatus(i, review, after) == ReadStatus(i, review, before)
  {
  }

  /** The inputs agree on everything that record r is bound to. */
  predicate BoundAlike(i: Inputs, j: Inputs, r: ReviewRecord) {
    && j.run == i.run && j.patch == i.patch && j.head == i.head
    && (r.judgment.Accepted? && r.evidence.Some? ==>
          var p := r.evidence.value.profile;
          (p in i.profiles <==> p in j.profiles) && (p in i.profiles ==> i.profiles[p] == j.profiles[p]))
  }

  /** The status depends on nothing but the bound inputs. */
  lemma StatusOutlivesOtherProfiles(i: Inputs, j: Inputs, review: Option<ReviewRecord>,
                                    files: map<EvidencePath, Evidence>)
    requires ReadStatus(i, review, files).current && BoundAlike(i, j, review.value)
    ensures ReadStatus(j, review, files) == ReadStatus(i, review, files)
  {
  }

  /** A failure, or a crash before the record is written, leaves the review in force for whatever inputs. */
  lemma FailureKeepsStatus(s: Store, q: ReviewRequest, h: Happening, r: Result<ReviewRecord, ReviewError>, t: Store)
    requires MayLeave(s, q, h, r, t) && !WritesRecord(s, q, h)
    ensures forall i :: ReadStatus(i, t.review, t.files) == ReadStatus(i, s.review, s.files)
  {
    forall path: EvidencePath | path.revision != Revision(s.review) + 1
      ensures SameFile(s.files, t.files, path)
    {
    }
    NextEvidenceIsInvisible(s.review, s.files, t.files, Revision(s.review));
  }

  // ----- any history of one run's reviews -----

  /** Recordings, changes of the inputs, and loss or replacement of evidence files, in any order. */
  datatype Event =
    | Recording(q: ReviewRequest, h: Happening, r: Result<ReviewRecord, ReviewError>)
    | NewInputs(inputs: Inputs)
    | EvidenceTouched(path: EvidencePath)

  ghost predicate Moves(s: Store, e: Event, t: Store) {
    match e
    case Recording(q, h, r) => MayLeave(s, q, h, r, t)
    case NewInputs(i) => t == s.(inputs := i)
    case EvidenceTouched(path) =>
      t.inputs == s.inputs && t.review == s.review && forall p :: p != path ==> SameFile(s.files, t.files, p)
  }

  ghost predicate MovesAt(run: seq<Store>, events: seq<Event>, i: nat)
    requires |run| == |events| + 1 && i < |events|
  {
    Moves(run[i], events[i], run[i + 1])
  }

  ghost predicate History(run: seq<Store>, events: seq<Event>) {
    && |run| == |events| + 1 && run[0].review.None?
    && forall i :: 0 <= i < |events| ==> MovesAt(run, events, i)
  }

  predicate Writes(s: Store, e: Event) {
    e.Recording? && WritesRecord(s, e.q, e.h)
  }

  /** A recording that verified these inputs, in full and with every stage passed. */
  predicate Verified(s: Store, e: Event, inputs: Inputs) {
    && Writes(s, e) && e.q.judgment.Accepted? && e.q.profile.Some?
    && EveryStagePassed(s.inputs, e.q.profile.value, e.h.attempt)
    && inputs.run == s.inputs.run && inputs.patch == s.inputs.patch && inputs.head == s.inputs.head
    && e.q.profile.value in inputs.profiles
    && inputs.profiles[e.q.profile.value] == s.inputs.profiles[e.q.profile.value]
  }

  /** The recording that wrote record r. */
  predicate Wrote(s: Store, e: Event, r: ReviewRecord, files: map<EvidencePath, Evidence>) {
    Writes(s, e) && Earned(s, e.q, e.h, r, files)
  }

  ghost predicate WroteAt(run: seq<Store>, events: seq<Event>, i: nat, r: ReviewRecord)
    requires |run| == |events| + 1 && i < |events|
  {
    Wrote(run[i], events[i], r, run[i + 1].files)
  }

  /** Whatever record is on file was written by a recording of this history. */
  lemma {:induction false} RecordHasAuthor(run: seq<Store>, events: seq<Event>, k: nat) returns (i: nat)
    requires History(run, events) && k < |run| && run[k].review.Some?
    ensures i < k && WroteAt(run, events, i, run[k].review.value)
    decreases k
  {
    if k == 0 {
      assert false;
    } else {
      assert MovesAt(run, events, k - 1);
      if Writes(run[k - 1], events[k - 1]) {
        i := k - 1;
      } else {
        i := RecordHasAuthor(run, events, k - 1);
      }
    }
  }

  /**
   Soundness of acceptance, after any history: what reads as accepted now was verified by one of the
   recordings, with every stage passed, on exactly this run record, patch, head and named profile.
  */
  lemma AcceptedWasVerified(run: seq<Store>, events: seq<Event>, k: nat) returns (i: nat)
    requires History(run, events) && k < |run| && run[k].Status().judgment == Some(Accepted)
    ensures i < k && Verified(run[i], events[i], run[k].inputs)
  {
    CurrentAcceptanceMeans(run[k].inputs, run[k].review, run[k].files);
    i := RecordHasAuthor(run, events, k);
    assert Wrote(run[i], events[i], run[k].review.value, run[i + 1].files);
  }

  ghost function WritesBefore(run: seq<Store>, events: seq<Event>, k: nat): nat
    requires |run| == |events| + 1 && k < |run|
  {
    if k == 0 then 0
    else WritesBefore(run, events, k - 1) + if Writes(run[k - 1], events[k - 1]) then 1 else 0
  }

  /** The revision counts the record writes, crashed recordings included; nothing else moves it. */
  lemma {:induction false} RevisionCountsWrites(run: seq<Store>, events: seq<Event>, k: nat)
    requires History(run, events) && k < |run|
    ensures Revision(run[k].review) == WritesBefore(run, events, k)
    decreases k
  {
    if k == 0 {
    } else {
      RevisionCountsWrites(run, events, k - 1);
      assert MovesAt(run, events, k - 1);
    }
  }

  /** No record is written, and neither the bound inputs nor the record's evidence file change. */
  predicate LeavesAlone(s: Store, e: Event, t: Store)
    requires s.review.Some?
  {
    && !Writes(s, e)
    && BoundAlike(s.inputs, t.inputs, s.review.value)
    && !(e.EvidenceTouched? && e.path == EvidencePath(s.inputs.run.runId, Revision(s.review)))
  }

  lemma StatusSurvives(s: Store, e: Event, t: Store)
    requires s.Status().current && Moves(s, e, t) && LeavesAlone(s, e, t)
    ensures t.Status() == s.Status() && t.review == s.review
  {
    assert SameFile(s.files, t.files, EvidencePath(s.inputs.run.runId, Revision(s.review)));
    StatusOutlivesOtherProfiles(s.inputs, t.inputs, s.review, s.files);
  }

  /**
   A status that is current stays exactly as it is through failed and crashed recordings, changes of
   unbound inputs and losses of other evidence.
  */
  lemma {:induction false} CurrentStays(run: seq<Store>, events: seq<Event>, i: nat, j: nat)
    requires History(run, events) && i <= j < |run| && run[i].Status().current
    requires forall k :: i <= k < j && run[k].review.Some? ==> LeavesAlone(run[k], events[k], run[k + 1])
    ensures run[j].Status() == run[i].Status() && run[j].review == run[i].review
    decreases j
  {
    if i == j {
    } else {
      CurrentStays(run, events, i, j - 1);
      assert MovesAt(run, events, j - 1);
      StatusSurvives(run[j - 1], events[j - 1], run[j - 1 + 1]);
    }
  }

  /** A recording that writes is read back at once, with its judgment, by whoever still sees the inputs it checked. */
  lemma WrittenIsVisible(run: seq<Store>, events: seq<Event>, i: nat)
    requires History(run, events) && i < |events| && Writes(run[i], events[i])
    ensures run[i + 1].review.Some?
    ensures BoundAlike(run[i].inputs, run[i + 1].inputs, run[i + 1].review.value) ==>
              run[i + 1].Status() == Status(true, Some(run[i + 1].review.value.judgment), Revision(run[i].review) + 1)
  {
    assert MovesAt(run, events, i);
    var r, h := run[i + 1].review.value, events[i].h;
    if BoundAlike(run[i].inputs, run[i + 1].inputs, r) {
      assert BoundAlike(h.drift, run[i + 1].inputs, r);
      StatusOutlivesOtherProfiles(h.drift, run[i + 1].inputs, Some(r), run[i + 1].files);
    }
  }

  /** Acceptance is reachable: one recording whose verification passes every stage. */
  lemma AcceptanceHappens() returns (run: seq<Store>, events: seq<Event>)
    ensures History(run, events) && run[|run| - 1].Status() == Status(true, Some(Accepted), 1)
  {
    var i := Inputs(RunFile("r", "b", true, false, None, ""), "d", "b", map["p" := "t"]);
    var passing := Attempt(Some("b"), true, Some(OfPatch("d")), true, true, Some(TestRun(0, false, false, false)),
                           Some(OfPatch("d")), true, None, true);
    var q := ReviewRequest("b", OfPatch("d"), 0, Human, Accepted, Some("p"));
    var h := Happening(passing, i, true, i, NoCrash);
    var path := EvidencePath("r", 1);
    var bare := Evidence(path, Zero, "r", "b", OfPatch("d"), "p", OfProfile("t"), Some(0), false, false, false,
                         OfPatch("d"), OfPatch("d"), true, false, true);
    var e := bare.(sha256 := OfEvidence(bare));
    assert e.(sha256 := Zero) == bare;
    var record := ReviewRecord("r", OfRun(i.run), "b", OfPatch("d"), 1, Human, None, NotApplicable, Accepted, Some(e));
    var s, t := Store(i, None, map[]), Store(i, Some(record), map[path := e]);
    WrittenIsCurrent(i, record, t.files);
    run, events := [s, t], [Recording(q, h, Ok(record))];
    assert Moves(s, events[0], t);
    assert MovesAt(run, events, 0);
  }
}
