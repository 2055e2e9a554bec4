/**
 * The review orchestrator: one job moves one Review record from `processing`
 * to `completed` or `failed`. It validates the repository's full name, fetches
 * the pull request and its diff, short-cuts an empty diff, asks the analyzer
 * for a verdict, stores the verdict and then one comment per finding. Any
 * error on the way is written to the review as `failed` and rethrown.
 *
 * The pure function `Planned` says which review updates are written, which
 * comments are stored and how the job ends; `ProcessReview` performs the
 * writes on a store and is proved to follow the plan.
 */
module CodeAnalysisService {
  import opened Wrappers
  import opened Text
  import opened Js
  import opened ReviewTypes
  import opened GitHubService
  import opened Database

  /** What a job names: the review to update (carried in `pullRequestId`), the repository, the pull number. */
  datatype AnalysisJob = AnalysisJob(
    pullRequestId: Id,
    repositoryFullName: string,
    pullRequestNumber: int,
    userId: Id)

  /** The analyzer, applied to (diff text, pull-request title): a verdict or a thrown error. */
  type Analyzer = (string, string) -> Result<AnalysisResult, Exception>

  /**
   * The collaborators of a job. The details and the file listing are fetched
   * together; when both fail, `detailsRejectsFirst` says whose error wins.
   */
  datatype Services = Services(
    fetchPullRequest: PullRequestFetcher,
    listFiles: FileLister,
    detailsRejectsFirst: bool,
    analyze: Analyzer)

  /** A failure of the store while creating the comment at position `index`. */
  datatype CommentFault = CommentFault(index: nat, error: Exception)

  const InvalidFormatPrefix := "Invalid repository format: "
  const NoChangesSummary := "No code changes detected in this pull request."
  const NoChangesScore := 100
  const FailurePrefix := "Analysis failed: "

  const ProcessingUpdate := ReviewUpdate(Some(Processing), None, None)

  function CompletedUpdate(summary: string, score: int): ReviewUpdate {
    ReviewUpdate(Some(Completed), Some(summary), Some(score))
  }

  /** The `failed` write carries the error's message and leaves the score alone. */
  function FailedUpdate(e: Exception): ReviewUpdate {
    ReviewUpdate(Some(Failed), Some(FailurePrefix + MessageOf(e)), None)
  }

  // ------------------------------------------------------- repository name

  /**
   * `owner/repo` split on `/`: the first two parts, both non-empty, or an
   * error naming the full name. Parts after the second are ignored.
   */
  function ParseFullName(fullName: string): (r: Result<(string, string), Exception>)
    ensures var parts := Split(fullName, '/');
            && (r.Ok? <==> |parts| >= 2 && parts[0] != "" && parts[1] != "")
            && (r.Ok? ==> r.value == (parts[0], parts[1]))
            && (r.Err? ==> r.error == Error(InvalidFormatPrefix + fullName))
  {
    var parts := Split(fullName, '/');
    var owner := parts[0];
    var repo := if |parts| >= 2 then parts[1] else "";
    if owner == "" || repo == "" then Err(Error(InvalidFormatPrefix + fullName)) else Ok((owner, repo))
  }

  /** `owner/repo` names the repository `repo` of `owner`. */
  lemma FullNameParts(owner: string, repo: string)
    requires owner != "" && repo != "" && '/' !in owner && '/' !in repo
    ensures ParseFullName(owner + "/" + repo) == Ok((owner, repo))
  {
    var name := owner + "/" + repo;
    assert name == owner + ['/'] + repo;
    SplitAtSeparator(owner, '/', repo);
    SplitWithoutSeparator(repo, '/');
    assert Split(name, '/') == [owner, repo];
  }

  /** `owner/repo/extra...` also names the repository `repo` of `owner`: what follows is ignored. */
  lemma FullNameExtraParts(owner: string, repo: string, rest: string)
    requires owner != "" && repo != "" && '/' !in owner && '/' !in repo
    ensures ParseFullName(owner + "/" + repo + "/" + rest) == Ok((owner, repo))
  {
    assert owner + "/" + repo + "/" + rest == owner + ['/'] + (repo + ['/'] + rest);
    LeadingParts(owner, repo, rest);
  }

  lemma LeadingParts(owner: string, repo: string, rest: string)
    requires '/' !in owner && '/' !in repo
    ensures var parts := Split(owner + ['/'] + (repo + ['/'] + rest), '/');
            |parts| >= 2 && parts[0] == owner && parts[1] == repo
  {
    SplitAtSeparator(owner, '/', repo + ['/'] + rest);
    SplitAtSeparator(repo, '/', rest);
  }

  /** A name without a `/`, or with nothing before the first `/`, is rejected. */
  lemma MalformedFullName(fullName: string)
    requires '/' !in fullName || fullName[0] == '/'
    ensures ParseFullName(fullName) == Err(Error(InvalidFormatPrefix + fullName))
  {
    if '/' !in fullName {
      SplitWithoutSeparator(fullName, '/');
    } else {
      assert fullName == [] + ['/'] + fullName[1..];
      SplitAtSeparator([], '/', fullName[1..]);
    }
  }

  // ------------------------------------------------------------- the plan

  /**
   * Both fetches are issued together: the job goes on only when both
   * succeed, and otherwise fails with the error of the one rejected first.
   */
  function Fetch(svc: Services, owner: string, repo: string, number: int)
    : (r: Result<(PullRequestDetails, PullRequestDiff), Exception>)
    ensures var details := PullRequestDetailsOf(svc.fetchPullRequest(owner, repo, number));
            var diff := DiffResult(svc.listFiles(owner, repo, number));
            && (r.Ok? <==> details.Ok? && diff.Ok?)
            && (r.Ok? ==> r.value == (details.value, diff.value))
            && (r.Err? ==> (details.Err? && r.error == details.error) || (diff.Err? && r.error == diff.error))
  {
    var details := PullRequestDetailsOf(svc.fetchPullRequest(owner, repo, number));
    var diff := DiffResult(svc.listFiles(owner, repo, number));
    if details.Ok? && diff.Ok? then Ok((details.value, diff.value))
    else if details.Err? && (diff.Ok? || svc.detailsRejectsFirst) then Err(details.error)
    else Err(diff.error)
  }

  /** How the work after the `processing` write ends, before anything is stored. */
  datatype Verdict = Rejected(error: Exception) | NoChanges | Analysed(analysis: AnalysisResult)

  /**
   * The verdict of a job. The source asks whether the diff text trims to
   * the empty string; `TrimIsEmptyIffBlank` shows that this is `IsBlank`,
   * which is how the test is written here.
   */
  function Pipeline(job: AnalysisJob, svc: Services): (v: Verdict)
    ensures var names := ParseFullName(job.repositoryFullName);
            names.Err? ==> v == Rejected(names.error)
    ensures var names := ParseFullName(job.repositoryFullName);
            names.Ok? ==>
              var fetched := Fetch(svc, names.value.0, names.value.1, job.pullRequestNumber);
              && (fetched.Err? ==> v == Rejected(fetched.error))
              && (fetched.Ok? ==>
                    var (details, diff) := fetched.value;
                    var analysis := svc.analyze(diff.content, details.title);
                    && (v.NoChanges? <==> IsBlank(diff.content))
                    && (v.Analysed? <==> !IsBlank(diff.content) && analysis.Ok?)
                    && (v.Analysed? ==> analysis == Ok(v.analysis))
                    && (v.Rejected? ==> analysis == Err(v.error)))
  {
    match ParseFullName(job.repositoryFullName)
    case Err(e) => Rejected(e)
    case Ok((owner, repo)) =>
      match Fetch(svc, owner, repo, job.pullRequestNumber)
      case Err(e) => Rejected(e)
      case Ok((details, diff)) =>
        if IsBlank(diff.content) then NoChanges
        else
          match svc.analyze(diff.content, details.title)
          case Err(e) => Rejected(e)
          case Ok(a) => Analysed(a)
  }

  /** The review updates written, in order; the findings stored as comments, in order; and the outcome. */
  datatype Run = Run(writes: seq<ReviewUpdate>, stored: seq<AnalysisComment>, result: Result<(), Exception>)

  /** What a job with this verdict does to a review that exists. */
  function PlannedFor(v: Verdict, fault: Option<CommentFault>): (r: Run)
    ensures 2 <= |r.writes| <= 3 && r.writes[0] == ProcessingUpdate
    ensures r.result.Ok? <==> r.writes[|r.writes| - 1].status == Some(Completed)
    ensures r.result.Err? ==> r.writes[|r.writes| - 1] == FailedUpdate(r.result.error)
    ensures v.Rejected? ==> r.result == Err(v.error) && |r.writes| == 2
    ensures v.NoChanges? ==> r.result.Ok? && r.writes[1] == CompletedUpdate(NoChangesSummary, NoChangesScore)
    ensures !v.Analysed? ==> r.stored == []
    ensures v.Analysed? ==>
              && r.writes[1] == CompletedUpdate(v.analysis.summary, v.analysis.score)
              && r.stored <= v.analysis.comments
              && (r.result.Ok? <==> r.stored == v.analysis.comments)
  {
    match v
    case Rejected(e) => Run([ProcessingUpdate, FailedUpdate(e)], [], Err(e))
    case NoChanges => Run([ProcessingUpdate, CompletedUpdate(NoChangesSummary, NoChangesScore)], [], Ok(()))
    case Analysed(a) =>
      var done := [ProcessingUpdate, CompletedUpdate(a.summary, a.score)];
      if fault.Some? && fault.value.index < |a.comments| then
        Run(done + [FailedUpdate(fault.value.error)], a.comments[..fault.value.index], Err(fault.value.error))
      else
        Run(done, a.comments, Ok(()))
  }

  /** What a job does to a review that exists. */
  function Planned(job: AnalysisJob, svc: Services, fault: Option<CommentFault>): Run {
    PlannedFor(Pipeline(job, svc), fault)
  }

  /** The comments stored for the findings `cs` of review `reviewId`, numbered from `firstId`. */
  function StoredComments(reviewId: Id, cs: seq<AnalysisComment>, firstId: Id): (r: seq<Comment>)
    ensures |r| == |cs|
  {
    if cs == [] then []
    else
      var c := cs[|cs| - 1];
      StoredComments(reviewId, cs[..|cs| - 1], firstId)
        + [Comment(firstId + |cs| - 1, c.content, reviewId, c.filePath, c.lineNumber, c.category, c.severity)]
  }

  /** The `i`-th stored comment carries the `i`-th finding under id `firstId + i`. */
  lemma {:induction false} StoredCommentAt(reviewId: Id, cs: seq<AnalysisComment>, firstId: Id, i: nat)
    requires i < |cs|
    ensures StoredComments(reviewId, cs, firstId)[i]
         == Comment(firstId + i, cs[i].content, reviewId, cs[i].filePath, cs[i].lineNumber, cs[i].category, cs[i].severity)
    decreases |cs|
  {
    if i < |cs| - 1 {
      StoredCommentAt(reviewId, cs[..|cs| - 1], firstId, i);
    }
  }

  lemma StoredCommentsAppend(reviewId: Id, cs: seq<AnalysisComment>, c: AnalysisComment, firstId: Id)
    ensures StoredComments(reviewId, cs + [c], firstId)
         == StoredComments(reviewId, cs, firstId) + StoredComments(reviewId, [c], firstId + |cs|)
  {
    assert (cs + [c])[..|cs|] == cs;
    assert [c][..0] == [];
  }

  /** Applying a non-empty sequence of updates is applying its first one, then the rest. */
  lemma {:induction false} UpdatedByFirst(r: Review, us: seq<ReviewUpdate>)
    requires us != []
    ensures UpdatedBy(r, us) == UpdatedBy(Updated(r, us[0]), us[1..])
    decreases |us|
  {
    if |us| > 1 {
      UpdatedByFirst(r, us[..|us| - 1]);
      assert us[..|us| - 1][1..] == us[1..][..|us| - 2];
    }
  }

  /** Updates that do not set the score leave it as it was. */
  lemma {:induction false} UpdatedByKeepsScore(r: Review, us: seq<ReviewUpdate>)
    requires forall k :: 0 <= k < |us| ==> us[k].score.None?
    ensures UpdatedBy(r, us).score == r.score
    decreases |us|
  {
    if us != [] {
      UpdatedByKeepsScore(r, us[..|us| - 1]);
    }
  }

  function Statuses(writes: seq<ReviewUpdate>): seq<Option<ReviewStatus>> {
    seq(|writes|, i requires 0 <= i < |writes| => writes[i].status)
  }

  // ------------------------------------------------------ what a plan says

  /**
   * The status moves through `processing` and then either `completed`, or
   * `failed`, or `completed` followed by `failed`; the job succeeds exactly
   * when the last status written is `completed`.
   */
  lemma StatusPath(v: Verdict, fault: Option<CommentFault>)
    ensures var run := PlannedFor(v, fault);
            var path := Statuses(run.writes);
            && (|| path == [Some(Processing), Some(Completed)]
                || path == [Some(Processing), Some(Failed)]
                || path == [Some(Processing), Some(Completed), Some(Failed)])
            && (run.result.Ok? <==> path[|path| - 1] == Some(Completed))
  {
    var run := PlannedFor(v, fault);
    match v
    case Rejected(e) =>
      assert Statuses(run.writes) == [Some(Processing), Some(Failed)];
    case NoChanges =>
      assert Statuses(run.writes) == [Some(Processing), Some(Completed)];
    case Analysed(a) =>
      if fault.Some? && fault.value.index < |a.comments| {
        assert Statuses(run.writes) == [Some(Processing), Some(Completed), Some(Failed)];
      } else {
        assert Statuses(run.writes) == [Some(Processing), Some(Completed)];
      }
  }

  /**
   * A failed job ends with a `failed` write whose summary carries the
   * error's message and whose score is absent, and rethrows that error.
   */
  lemma FailureIsRecordedAndRethrown(v: Verdict, fault: Option<CommentFault>)
    requires PlannedFor(v, fault).result.Err?
    ensures var run := PlannedFor(v, fault);
            && |run.writes| >= 2
            && run.writes[|run.writes| - 1]
               == ReviewUpdate(Some(Failed), Some(FailurePrefix + MessageOf(run.result.error)), None)
  {
  }

  /**
   * A store failure at the k-th finding leaves the first k findings stored
   * and turns the already completed review into a failed one, keeping the
   * analyzer's score.
   */
  lemma CommentFaultFailsCompletedReview(a: AnalysisResult, fault: CommentFault, review: Review)
    requires fault.index < |a.comments|
    ensures var run := PlannedFor(Analysed(a), Some(fault));
            var final := UpdatedBy(review, run.writes);
            && run.stored == a.comments[..fault.index]
            && Statuses(run.writes) == [Some(Processing), Some(Completed), Some(Failed)]
            && final.status == Failed
            && final.score == Some(a.score)
            && final.summary == Some(FailurePrefix + MessageOf(fault.error))
            && run.result == Err(fault.error)
  {
    var w := [ProcessingUpdate, CompletedUpdate(a.summary, a.score), FailedUpdate(fault.error)];
    assert PlannedFor(Analysed(a), Some(fault)).writes == w;
    assert Statuses(w) == [Some(Processing), Some(Completed), Some(Failed)];
    assert w[..2][..1] == [ProcessingUpdate] && w[..2] == [ProcessingUpdate, CompletedUpdate(a.summary, a.score)];
    assert UpdatedBy(review, w[..2]).score == Some(a.score);
  }

  /** A job rejected before any verdict leaves the review's score as it was. */
  lemma RejectedJobKeepsScore(e: Exception, fault: Option<CommentFault>, review: Review)
    ensures var final := UpdatedBy(review, PlannedFor(Rejected(e), fault).writes);
            && final.status == Failed
            && final.score == review.score
  {
    var run := PlannedFor(Rejected(e), fault);
    UpdatedByKeepsScore(review, run.writes);
  }

  /** A job that succeeds leaves its review completed, with the analyzer's score or 100 for no changes. */
  lemma CompletedScore(v: Verdict, fault: Option<CommentFault>, review: Review)
    requires PlannedFor(v, fault).result.Ok?
    ensures var final := UpdatedBy(review, PlannedFor(v, fault).writes);
            && final.status == Completed
            && final.score == Some(if v.Analysed? then v.analysis.score else NoChangesScore)
  {
    var w := PlannedFor(v, fault).writes;
    assert w[..1] == [ProcessingUpdate];
  }

  /** A malformed repository name fails the job before anything is fetched or analysed. */
  lemma InvalidNameFailsEarly(job: AnalysisJob, svc: Services, other: Services)
    requires ParseFullName(job.repositoryFullName).Err?
    ensures Pipeline(job, svc) == Rejected(Error(InvalidFormatPrefix + job.repositoryFullName))
    ensures Pipeline(job, other) == Pipeline(job, svc)
  {
  }

  /**
   * A diff that is blank after trimming completes the review with the fixed
   * summary and score 100 and no comments, whatever the analyzer would say.
   */
  lemma BlankDiffSkipsAnalyzer(job: AnalysisJob, svc: Services, analyzer: Analyzer)
    requires ParseFullName(job.repositoryFullName).Ok?
    requires var (owner, repo) := ParseFullName(job.repositoryFullName).value;
             var fetched := Fetch(svc, owner, repo, job.pullRequestNumber);
             fetched.Ok? && Trim(fetched.value.1.content) == ""
    ensures Pipeline(job, svc) == NoChanges
    ensures Pipeline(job, svc.(analyze := analyzer)) == NoChanges
  {
    var (owner, repo) := ParseFullName(job.repositoryFullName).value;
    TrimIsEmptyIffBlank(Fetch(svc, owner, repo, job.pullRequestNumber).value.1.content);
  }

  /**
   * With a non-blank diff the analyzer is asked about the diff text and the
   * title of the details, and its verdict is the job's.
   */
  lemma AnalyzerSeesDiffAndTitle(job: AnalysisJob, svc: Services)
    requires ParseFullName(job.repositoryFullName).Ok?
    requires var (owner, repo) := ParseFullName(job.repositoryFullName).value;
             var fetched := Fetch(svc, owner, repo, job.pullRequestNumber);
             && fetched.Ok? && Trim(fetched.value.1.content) != ""
             && svc.analyze(fetched.value.1.content, fetched.value.0.title).Ok?
    ensures var (owner, repo) := ParseFullName(job.repositoryFullName).value;
            var (details, diff) := Fetch(svc, owner, repo, job.pullRequestNumber).value;
            var a := svc.analyze(diff.content, details.title).value;
            Pipeline(job, svc) == Analysed(a)
  {
    var (owner, repo) := ParseFullName(job.repositoryFullName).value;
    TrimIsEmptyIffBlank(Fetch(svc, owner, repo, job.pullRequestNumber).value.1.content);
  }

  /**
   * A pull request none of whose reviewable files carries a patch is
   * completed as having no changes: the combined diff is empty, so the
   * analyzer is never asked.
   */
  lemma {:induction false} UnpatchedPullRequestHasNoChanges(
    job: AnalysisJob, svc: Services, fault: Option<CommentFault>, files: seq<ChangedFile>)
    requires ParseFullName(job.repositoryFullName).Ok?
    requires var (owner, repo) := ParseFullName(job.repositoryFullName).value;
             && svc.fetchPullRequest(owner, repo, job.pullRequestNumber).Ok?
             && svc.listFiles(owner, repo, job.pullRequestNumber) == Ok(files)
    requires forall f :: f in ReviewableFiles(files) ==> !HasPatch(f)
    ensures Planned(job, svc, fault) == Run([ProcessingUpdate, CompletedUpdate(NoChangesSummary, NoChangesScore)], [], Ok(()))
  {
    TruncatedDiffBlankIffNoPatch(ReviewableFiles(files));
    BlankDiffSkipsAnalyzer(job, svc, svc.analyze);
  }

  // ------------------------------------------------------- the state change

  /** Every plan starts with the `processing` write. */
  lemma ProcessingFirst(r: Review, v: Verdict, fault: Option<CommentFault>)
    ensures var writes := PlannedFor(v, fault).writes;
            writes != [] && UpdatedBy(Updated(r, ProcessingUpdate), writes[1..]) == UpdatedBy(r, writes)
  {
    UpdatedByFirst(r, PlannedFor(v, fault).writes);
  }

  /**
   * The catch block: writes `failed` with the error's message and rethrows
   * it; when that write itself fails, its error is the one thrown.
   */
  method Fail(db: Store, id: Id, e: Exception) returns (result: Result<(), Exception>)
    requires db.Valid()
    modifies db`reviews
    ensures db.Valid()
    ensures id in old(db.reviews) ==>
              result == Err(e) && db.reviews == old(db.reviews)[id := Updated(old(db.reviews)[id], FailedUpdate(e))]
    ensures id !in old(db.reviews) ==> result == Err(RecordNotFound) && db.reviews == old(db.reviews)
  {
    var written := db.UpdateReview(id, FailedUpdate(e));
    result := if written.Err? then Err(written.error) else Err(e);
  }

  /** The work after the `processing` write that touches no record: validate, fetch, analyse. */
  method Decide(job: AnalysisJob, svc: Services) returns (v: Verdict)
    ensures v == Pipeline(job, svc)
  {
    var names := ParseFullName(job.repositoryFullName);
    if names.Err? {
      return Rejected(names.error);
    }
    var (owner, repo) := names.value;
    var details := PullRequestDetailsOf(svc.fetchPullRequest(owner, repo, job.pullRequestNumber));
    var diff := GetPullRequestDiff(svc.listFiles, owner, repo, job.pullRequestNumber);
    if details.Err? || diff.Err? {
      var e := if details.Err? && (diff.Ok? || svc.detailsRejectsFirst) then details.error else diff.error;
      return Rejected(e);
    }
    var content := diff.value.content;
    TrimIsEmptyIffBlank(content);
    if Trim(content) == "" {
      return NoChanges;
    }
    var analysis := svc.analyze(content, details.value.title);
    if analysis.Err? {
      return Rejected(analysis.error);
    }
    v := Analysed(analysis.value);
  }

  /**
   * The comment loop: one comment per finding, in order, linked to review
   * `id`; a store failure at position `fault.index` stops the loop and goes
   * to the catch block.
   */
  method StoreFindings(db: Store, id: Id, findings: seq<AnalysisComment>, fault: Option<CommentFault>)
    returns (result: Result<(), Exception>)
    requires db.Valid() && id in db.reviews
    modifies db`reviews, db`comments, db`nextId
    ensures db.Valid()
    ensures var failing := fault.Some? && fault.value.index < |findings|;
            var n := if failing then fault.value.index else |findings|;
            && db.comments == old(db.comments) + StoredComments(id, findings[..n], old(db.nextId))
            && db.nextId == old(db.nextId) + n
            && (failing ==> result == Err(fault.value.error)
                            && db.reviews == old(db.reviews)[id := Updated(old(db.reviews)[id], FailedUpdate(fault.value.error))])
            && (!failing ==> result == Ok(()) && db.reviews == old(db.reviews))
  {
    ghost var firstId := db.nextId;
    ghost var stored := db.comments;
    for i := 0 to |findings|
      invariant db.Valid() && db.reviews == old(db.reviews)
      invariant fault.Some? ==> i <= fault.value.index
      invariant db.comments == stored + StoredComments(id, findings[..i], firstId)
      invariant db.nextId == firstId + i
    {
      if fault.Some? && fault.value.index == i {
        result := Fail(db, id, fault.value.error);
        return;
      }
      var c := findings[i];
      var created := db.CreateComment(c.content, id, c.filePath, c.lineNumber, c.category, c.severity);
      assert created.Ok? && StoredComments(id, [c], firstId + i) == [created.value];
      ghost var done := StoredComments(id, findings[..i], firstId);
      assert db.comments == stored + done + [created.value];
      assert findings[..i + 1] == findings[..i] + [c];
      StoredCommentsAppend(id, findings[..i], c, firstId);
      assert StoredComments(id, findings[..i + 1], firstId) == done + [created.value];
    }
    assert findings[..|findings|] == findings;
    result := Ok(());
  }

  /**
   * The writes after `processing` for a verdict: `failed` for a rejection,
   * `completed` with the fixed summary for no changes, or `completed` with
   * the verdict followed by the comment loop.
   */
  method Record(db: Store, id: Id, verdict: Verdict, fault: Option<CommentFault>) returns (result: Result<(), Exception>)
    requires db.Valid() && id in db.reviews
    modifies db`reviews, db`comments, db`nextId
    ensures db.Valid()
    ensures var run := PlannedFor(verdict, fault);
            var tail := run.writes[1..];
            && result == run.result
            && db.reviews == old(db.reviews)[id := UpdatedBy(old(db.reviews)[id], tail)]
            && db.comments == old(db.comments) + StoredComments(id, run.stored, old(db.nextId))
            && db.nextId == old(db.nextId) + |run.stored|
  {
    ghost var before := db.reviews[id];
    match verdict {
      case Rejected(e) =>
        result := Fail(db, id, e);
        assert [FailedUpdate(e)][..0] == [];
      case NoChanges =>
        var _ := db.UpdateReview(id, CompletedUpdate(NoChangesSummary, NoChangesScore));
        assert [CompletedUpdate(NoChangesSummary, NoChangesScore)][..0] == [];
        result := Ok(());
      case Analysed(a) =>
        result := RecordAnalysis(db, id, a, fault);
    }
  }

  /** The writes after `processing` for an analysis: `completed` with its verdict, then the comment loop. */
  method RecordAnalysis(db: Store, id: Id, a: AnalysisResult, fault: Option<CommentFault>)
    returns (result: Result<(), Exception>)
    requires db.Valid() && id in db.reviews
    modifies db`reviews, db`comments, db`nextId
    ensures db.Valid()
    ensures var run := PlannedFor(Analysed(a), fault);
            var tail := run.writes[1..];
            && result == run.result
            && db.reviews == old(db.reviews)[id := UpdatedBy(old(db.reviews)[id], tail)]
            && db.comments == old(db.comments) + StoredComments(id, run.stored, old(db.nextId))
            && db.nextId == old(db.nextId) + |run.stored|
  {
    ghost var before := db.reviews[id];
    var _ := db.UpdateReview(id, CompletedUpdate(a.summary, a.score));
    ghost var completed := [CompletedUpdate(a.summary, a.score)];
    assert completed[..0] == [];
    assert db.reviews == old(db.reviews)[id := UpdatedBy(before, completed)];
    result := StoreFindings(db, id, a.comments, fault);
    if fault.Some? && fault.value.index < |a.comments| {
      assert (completed + [FailedUpdate(fault.value.error)])[..1] == completed;
    } else {
      assert a.comments[..|a.comments|] == a.comments;
    }
  }

  /**
   * `processReview`: follows `Planned` on an existing review. A review that
   * does not exist makes the first write fail, and the failure write in the
   * catch block fails the same way, so nothing changes and the store's
   * not-found error is thrown. The job's verdict is returned alongside, so
   * that callers can name the plan without recomputing it.
   */
  method ProcessReview(db: Store, job: AnalysisJob, svc: Services, fault: Option<CommentFault>)
    returns (result: Result<(), Exception>, ghost verdict: Verdict)
    requires db.Valid()
    modifies db`reviews, db`comments, db`nextId
    ensures db.Valid()
    ensures verdict == Pipeline(job, svc)
    ensures job.pullRequestId !in old(db.reviews) ==>
              && result == Err(RecordNotFound)
              && db.reviews == old(db.reviews) && db.comments == old(db.comments) && db.nextId == old(db.nextId)
    ensures job.pullRequestId in old(db.reviews) ==>
              var run := PlannedFor(verdict, fault);
              && result == run.result
              && db.reviews == old(db.reviews)[job.pullRequestId := UpdatedBy(old(db.reviews)[job.pullRequestId], run.writes)]
              && db.comments == old(db.comments) + StoredComments(job.pullRequestId, run.stored, old(db.nextId))
              && db.nextId == old(db.nextId) + |run.stored|
  {
    verdict := Pipeline(job, svc);
    var id := job.pullRequestId;
    var started := db.UpdateReview(id, ProcessingUpdate);
    if started.Err? {
      result := Fail(db, id, started.error);
      return;
    }
    var decided := Decide(job, svc);
    result := Record(db, id, decided, fault);
    ProcessingFirst(old(db.reviews)[id], decided, fault);
  }
}
