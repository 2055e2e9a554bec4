/**
 * Webhook intake: the `sha256=` signature check over a payload, and the
 * handling of a `pull_request` event, which resolves (or creates) the sender,
 * the repository and the pull request, opens a `pending` review and runs the
 * review orchestrator on it.
 *
 * HMAC-SHA256 (RFC 2104 with SHA-256) is a function parameter; its hex
 * encoding is concrete.
 */
module WebhookService {
  import opened Wrappers
  import opened Text
  import opened Js
  import opened GitHubTypes
  import opened ReviewTypes
  import opened Database
  import opened CodeAnalysisService

  // ------------------------------------------------------------- the secret

  const DefaultSecret := "dev-secret-key"

  /** The configured secret, or the development default when it is unset or empty. */
  function WebhookSecret(configured: Option<string>): (secret: string)
    ensures secret != ""
    ensures configured.Some? && configured.value != "" ==> secret == configured.value
    ensures configured.None? || configured.value == "" ==> secret == DefaultSecret
  {
    if configured.Some? && configured.value != "" then configured.value else DefaultSecret
  }

  // ------------------------------------------------------------- hex digest

  type Byte = b: int | 0 <= b < 256

  /** The keyed digest of a message: HMAC-SHA256 over (secret, payload). */
  type Hmac = (string, string) -> seq<Byte>

  predicate IsLowerHexDigit(c: char) {
    '0' <= c <= '9' || 'a' <= c <= 'f'
  }

  function HexDigit(n: int): (c: char)
    requires 0 <= n < 16
    ensures IsLowerHexDigit(c)
  {
    if n < 10 then ('0' as int + n) as char else ('a' as int + n - 10) as char
  }

  function HexValue(c: char): (n: int)
    requires IsLowerHexDigit(c)
    ensures 0 <= n < 16
  {
    if c <= '9' then c as int - '0' as int else c as int - 'a' as int + 10
  }

  lemma HexValueOfDigit(n: int)
    requires 0 <= n < 16
    ensures HexValue(HexDigit(n)) == n
  {
  }

  /** `digest('hex')`: two lower-case hex digits per byte, high nibble first. */
  function Hex(bytes: seq<Byte>): (h: string)
    ensures |h| == 2 * |bytes|
    ensures forall i :: 0 <= i < |h| ==> IsLowerHexDigit(h[i])
  {
    if bytes == [] then ""
    else [HexDigit(bytes[0] / 16), HexDigit(bytes[0] % 16)] + Hex(bytes[1..])
  }

  /** Reading hex digits back into bytes; the inverse of `Hex`. */
  function Unhex(h: string): (bytes: seq<Byte>)
    requires |h| % 2 == 0
    requires forall i :: 0 <= i < |h| ==> IsLowerHexDigit(h[i])
    ensures |bytes| * 2 == |h|
  {
    if h == [] then []
    else [HexValue(h[0]) * 16 + HexValue(h[1])] + Unhex(h[2..])
  }

  lemma {:induction false} UnhexHex(bytes: seq<Byte>)
    ensures Unhex(Hex(bytes)) == bytes
  {
    if bytes != [] {
      var b := bytes[0];
      HexValueOfDigit(b / 16);
      HexValueOfDigit(b % 16);
      var h := Hex(bytes);
      assert h[2..] == Hex(bytes[1..]);
      UnhexHex(bytes[1..]);
    }
  }

  /** Different digests have different hex encodings. */
  lemma HexInjective(a: seq<Byte>, b: seq<Byte>)
    requires Hex(a) == Hex(b)
    ensures a == b
  {
    UnhexHex(a);
    UnhexHex(b);
  }

  // -------------------------------------------------------------- signature

  const SignaturePrefix := "sha256="

  /** The header GitHub would send for this payload under this secret. */
  function ExpectedHeader(secret: string, hmac: Hmac, payload: string): (header: string)
    ensures StartsWith(header, SignaturePrefix)
    ensures header[|SignaturePrefix|..] == Hex(hmac(secret, payload))
    ensures |header| == |SignaturePrefix| + 2 * |hmac(secret, payload)|
    ensures forall i :: 0 <= i < |header| ==> header[i] as int < 0x80
  {
    SignaturePrefix + Hex(hmac(secret, payload))
  }

  /** Number of bytes of the UTF-8 encoding of a character. */
  function Utf8Width(c: char): (n: int)
    ensures 1 <= n <= 4
    ensures n == 1 <==> c as int < 0x80
  {
    if c as int < 0x80 then 1 else if c as int < 0x800 then 2 else if c as int < 0x10000 then 3 else 4
  }

  /** Byte length of `Buffer.from(s)`, the UTF-8 encoding of `s`. */
  function Utf8Length(s: string): (n: nat)
    ensures n >= |s|
  {
    if s == [] then 0 else Utf8Width(s[0]) + Utf8Length(s[1..])
  }

  lemma {:induction false} AsciiUtf8Length(s: string)
    requires forall i :: 0 <= i < |s| ==> s[i] as int < 0x80
    ensures Utf8Length(s) == |s|
  {
    if s != [] {
      AsciiUtf8Length(s[1..]);
    }
  }

  /** What `crypto.timingSafeEqual` throws for buffers of different lengths. */
  const LengthMismatch := Error("Input buffers must have the same byte length")

  /**
   * `verifySignature`: an empty signature is rejected; a signature whose
   * UTF-8 byte length differs from the expected header's makes the
   * constant-time comparison throw; otherwise the signature is accepted
   * exactly when it is the expected header.
   */
  function VerifySignature(secret: string, hmac: Hmac, payload: string, signature: string)
    : (r: Result<bool, Exception>)
    ensures var expected := ExpectedHeader(secret, hmac, payload);
            && (signature == "" ==> r == Ok(false))
            && (r.Err? <==> signature != "" && Utf8Length(signature) != Utf8Length(expected))
            && (r.Err? ==> r.error == LengthMismatch)
            && (r == Ok(true) <==> signature == expected)
  {
    if signature == "" then Ok(false)
    else
      var expected := ExpectedHeader(secret, hmac, payload);
      if Utf8Length(signature) != Utf8Length(expected) then Err(LengthMismatch)
      else Ok(signature == expected)
  }

  /**
   * `extractPayload`: the text that is verified and parsed is the body
   * serialized again, and a missing signature header reads as empty.
   */
  function ExtractPayload(body: Json, signatureHeader: Option<string>, stringify: JsonSerializer): (p: (string, string))
    ensures p.0 == stringify(body)
    ensures p.1 == "" <==> signatureHeader.None? || signatureHeader.value == ""
    ensures signatureHeader.Some? ==> p.1 == signatureHeader.value
  {
    (stringify(body), signatureHeader.GetOr(""))
  }

  /**
   * An ASCII signature of the wrong length (a truncated header, say) does not
   * make the check answer `false`: the comparison throws.
   */
  lemma WrongLengthSignatureThrows(secret: string, hmac: Hmac, payload: string, signature: string)
    requires signature != ""
    requires forall i :: 0 <= i < |signature| ==> signature[i] as int < 0x80
    requires |signature| != |SignaturePrefix| + 2 * |hmac(secret, payload)|
    ensures VerifySignature(secret, hmac, payload, signature) == Err(LengthMismatch)
  {
    AsciiUtf8Length(signature);
    AsciiUtf8Length(ExpectedHeader(secret, hmac, payload));
  }

  /** A signature is accepted only for the digest of this very payload under this secret. */
  lemma AcceptedSignatureNamesDigest(secret: string, hmac: Hmac, payload: string, digest: seq<Byte>)
    requires VerifySignature(secret, hmac, payload, SignaturePrefix + Hex(digest)) == Ok(true)
    ensures digest == hmac(secret, payload)
  {
    var header := SignaturePrefix + Hex(digest);
    assert header[|SignaturePrefix|..] == Hex(digest);
    assert ExpectedHeader(secret, hmac, payload)[|SignaturePrefix|..] == Hex(hmac(secret, payload));
    HexInjective(digest, hmac(secret, payload));
  }

  // ------------------------------------------------------------ the records

  const AnalysedActions := ["opened", "synchronize"]

  /** Only newly opened pull requests and pushes to them are analysed. */
  function IsAnalysedAction(action: string): (b: bool)
    ensures b <==> action in AnalysedActions
  {
    action == "opened" || action == "synchronize"
  }

  const EmailDomain := "@github.local"

  /**
   * `ensureUserExists`: the user with this GitHub id, or a new one named
   * after the login with a placeholder email; creating it fails when that
   * email is already taken.
   */
  method EnsureUserExists(db: Store, githubId: string, login: string, avatarUrl: string)
    returns (r: Result<User, Exception>)
    requires db.Valid()
    modifies db`users, db`nextId
    ensures db.Valid()
    ensures forall g :: g in old(db.users) ==> g in db.users && db.users[g] == old(db.users)[g]
    ensures r.Ok? ==> db.UserByGithubId(githubId) == Some(r.value)
    ensures githubId in old(db.users) ==>
              r == Ok(old(db.users)[githubId]) && db.users == old(db.users) && db.nextId == old(db.nextId)
    ensures githubId !in old(db.users) && old(db.EmailTaken(login + EmailDomain)) ==>
              r == Err(UniqueConstraintError("email")) && db.users == old(db.users) && db.nextId == old(db.nextId)
    ensures githubId !in old(db.users) && !old(db.EmailTaken(login + EmailDomain)) ==>
              && r == Ok(User(old(db.nextId), githubId, login, login + EmailDomain, avatarUrl))
              && db.users == old(db.users)[githubId := r.value]
              && db.nextId == old(db.nextId) + 1
  {
    var found := db.UserByGithubId(githubId);
    if found.Some? {
      return Ok(found.value);
    }
    var created := db.CreateUser(githubId, login, login + EmailDomain, avatarUrl);
    if created.Err? {
      return Err(created.error);
    }
    var reread := db.UserByGithubId(githubId);
    r := Ok(reread.value);
  }

  /** `ensureRepositoryExists`: the repository with this GitHub id as first stored, or a new one. */
  method EnsureRepositoryExists(db: Store, githubId: int, name: string, fullName: string, owner: string,
                                isPrivate: bool, userId: Id)
    returns (r: Result<Repository, Exception>)
    requires db.Valid()
    modifies db`repositories, db`nextId
    ensures db.Valid()
    ensures forall g :: g in old(db.repositories) ==> g in db.repositories && db.repositories[g] == old(db.repositories)[g]
    ensures r.Ok? ==> db.RepositoryByGithubId(githubId) == Some(r.value)
    ensures githubId in old(db.repositories) ==>
              r == Ok(old(db.repositories)[githubId]) && db.repositories == old(db.repositories)
              && db.nextId == old(db.nextId)
    ensures githubId !in old(db.repositories) && !db.HasUser(userId) ==>
              r == Err(ForeignKeyError("userId")) && db.repositories == old(db.repositories)
              && db.nextId == old(db.nextId)
    ensures githubId !in old(db.repositories) && db.HasUser(userId) ==>
              && r == Ok(Repository(old(db.nextId), githubId, name, fullName, owner, isPrivate, userId))
              && db.repositories == old(db.repositories)[githubId := r.value]
              && db.nextId == old(db.nextId) + 1
  {
    var found := db.RepositoryByGithubId(githubId);
    if found.Some? {
      return Ok(found.value);
    }
    var created := db.CreateRepository(githubId, name, fullName, owner, isPrivate, userId);
    if created.Err? {
      return Err(created.error);
    }
    var reread := db.RepositoryByGithubId(githubId);
    r := Ok(reread.value);
  }

  /**
   * `ensurePullRequestExists`: the pull request with this GitHub id as first
   * stored (its title and state are not refreshed), or a new one.
   */
  method EnsurePullRequestExists(db: Store, githubId: int, number: int, title: string, state: string, repositoryId: Id)
    returns (r: Result<PullRequest, Exception>)
    requires db.Valid()
    modifies db`pullRequests, db`nextId
    ensures db.Valid()
    ensures forall g :: g in old(db.pullRequests) ==> g in db.pullRequests && db.pullRequests[g] == old(db.pullRequests)[g]
    ensures r.Ok? ==> db.PullRequestByGithubId(githubId) == Some(r.value)
    ensures githubId in old(db.pullRequests) ==>
              r == Ok(old(db.pullRequests)[githubId]) && db.pullRequests == old(db.pullRequests)
              && db.nextId == old(db.nextId)
    ensures githubId !in old(db.pullRequests) && !db.HasRepository(repositoryId) ==>
              r == Err(ForeignKeyError("repositoryId")) && db.pullRequests == old(db.pullRequests)
              && db.nextId == old(db.nextId)
    ensures githubId !in old(db.pullRequests) && db.HasRepository(repositoryId) ==>
              && r == Ok(PullRequest(old(db.nextId), githubId, number, title, state, repositoryId))
              && db.pullRequests == old(db.pullRequests)[githubId := r.value]
              && db.nextId == old(db.nextId) + 1
  {
    var found := db.PullRequestByGithubId(githubId);
    if found.Some? {
      return Ok(found.value);
    }
    var created := db.CreatePullRequest(githubId, number, title, state, repositoryId);
    if created.Err? {
      return Err(created.error);
    }
    var reread := db.PullRequestByGithubId(githubId);
    r := Ok(reread.value);
  }

  // -------------------------------------------------------------- the event

  /** The sender's GitHub id as the user key: `sender.id.toString()`. */
  function SenderKey(payload: PullRequestWebhookPayload): string {
    NumberToString(payload.sender.id)
  }

  /** The user an event creates for its sender: named after the login, with a placeholder email. */
  function SenderUser(payload: PullRequestWebhookPayload, id: Id): User {
    User(id, SenderKey(payload), payload.sender.login, payload.sender.login + EmailDomain, payload.sender.avatarUrl)
  }

  /** The repository an event creates, owned by the sender's user. */
  function PayloadRepository(payload: PullRequestWebhookPayload, id: Id, userId: Id): Repository {
    var rp := payload.repository;
    Repository(id, rp.id, rp.name, rp.fullName, rp.owner.login, rp.isPrivate, userId)
  }

  /** The pull request an event creates, in the given repository. */
  function PayloadPullRequest(payload: PullRequestWebhookPayload, id: Id, repositoryId: Id): PullRequest {
    var p := payload.pullRequest;
    PullRequest(id, p.id, p.number, p.title, p.state, repositoryId)
  }

  /**
   * The user, repository and pull-request tables after an event's records
   * are resolved: each of the event's three keys holds the record stored
   * before or, where there was none, a new one built from the event and
   * linked to the sender's user and the repository; no other key is added
   * or changed.
   */
  predicate RecordsResolved(payload: PullRequestWebhookPayload,
                            users0: map<string, User>, repos0: map<int, Repository>, prs0: map<int, PullRequest>,
                            users: map<string, User>, repos: map<int, Repository>, prs: map<int, PullRequest>)
  {
    var uk, rk, pk := SenderKey(payload), payload.repository.id, payload.pullRequest.id;
    && uk in users && rk in repos && pk in prs
    && users == users0[uk := users[uk]]
    && repos == repos0[rk := repos[rk]]
    && prs == prs0[pk := prs[pk]]
    && (if uk in users0 then users[uk] == users0[uk] else users[uk] == SenderUser(payload, users[uk].id))
    && (if rk in repos0 then repos[rk] == repos0[rk]
        else repos[rk] == PayloadRepository(payload, repos[rk].id, users[uk].id))
    && (if pk in prs0 then prs[pk] == prs0[pk]
        else prs[pk] == PayloadPullRequest(payload, prs[pk].id, repos[rk].id))
  }

  /**
   * The user, repository and pull request an event is about, found or
   * created in that order; the repository is linked to the sender's user
   * and the pull request to the repository. Only the user's creation can
   * fail, on a taken email.
   */
  method ResolveRecords(db: Store, payload: PullRequestWebhookPayload)
    returns (r: Result<(User, Repository, PullRequest), Exception>)
    requires db.Valid()
    modifies db`users, db`repositories, db`pullRequests, db`nextId
    ensures db.Valid()
    ensures r.Err? <==> SenderKey(payload) !in old(db.users) && old(db.EmailTaken(payload.sender.login + EmailDomain))
    ensures r.Err? ==>
              && r.error == UniqueConstraintError("email")
              && db.users == old(db.users) && db.repositories == old(db.repositories)
              && db.pullRequests == old(db.pullRequests) && db.nextId == old(db.nextId)
    ensures r.Ok? ==>
              && RecordsResolved(payload, old(db.users), old(db.repositories), old(db.pullRequests),
                                 db.users, db.repositories, db.pullRequests)
              && r.value == (db.users[SenderKey(payload)], db.repositories[payload.repository.id],
                             db.pullRequests[payload.pullRequest.id])
  {
    var user := EnsureUserExists(db, SenderKey(payload), payload.sender.login, payload.sender.avatarUrl);
    if user.Err? {
      return Err(user.error);
    }
    var u := user.value;
    assert db.users[SenderKey(payload)].id == u.id;
    var rp, pr := EnsureRepositoryAndPullRequest(db, payload, u);
    r := Ok((u, rp, pr));
  }

  /** The repository and pull-request steps, for a sender whose record exists: neither can fail. */
  method EnsureRepositoryAndPullRequest(db: Store, payload: PullRequestWebhookPayload, user: User)
    returns (repo: Repository, pr: PullRequest)
    requires db.Valid() && db.HasUser(user.id)
    modifies db`repositories, db`pullRequests, db`nextId
    ensures db.Valid()
    ensures db.repositories == old(db.repositories)[payload.repository.id := repo]
    ensures db.pullRequests == old(db.pullRequests)[payload.pullRequest.id := pr]
    ensures if payload.repository.id in old(db.repositories) then repo == old(db.repositories)[payload.repository.id]
            else repo == PayloadRepository(payload, old(db.nextId), user.id)
    ensures if payload.pullRequest.id in old(db.pullRequests) then pr == old(db.pullRequests)[payload.pullRequest.id]
            else pr == PayloadPullRequest(payload, pr.id, repo.id)
  {
    var repoFound := EnsureRepositoryExists(db, payload.repository.id, payload.repository.name, payload.repository.fullName,
                                            payload.repository.owner.login, payload.repository.isPrivate, user.id);
    repo := repoFound.value;
    assert db.repositories[payload.repository.id].id == repo.id;
    var prFound := EnsurePullRequestExists(db, payload.pullRequest.id, payload.pullRequest.number, payload.pullRequest.title,
                                           payload.pullRequest.state, repo.id);
    pr := prFound.value;
  }

  /**
   * The tail of `handlePullRequestEvent`: one new `pending` review of the
   * pull request by the user, handed to the orchestrator under its id.
   */
  method OpenReview(db: Store, userId: Id, pullRequestId: Id, fullName: string, number: int,
                    svc: Services, fault: Option<CommentFault>)
    returns (r: Result<(), Exception>, ghost job: AnalysisJob, ghost verdict: Verdict, ghost firstCommentId: Id)
    requires db.Valid() && db.HasUser(userId) && db.HasPullRequest(pullRequestId)
    modifies db`reviews, db`comments, db`nextId
    ensures db.Valid()
    ensures var reviewId := job.pullRequestId;
            reviewId == old(db.nextId) && reviewId !in old(db.reviews) && firstCommentId == reviewId + 1
    ensures job == AnalysisJob(job.pullRequestId, fullName, number, userId)
    ensures verdict == Pipeline(job, svc)
    ensures var run := PlannedFor(verdict, fault);
            var reviewId := job.pullRequestId;
            var created := Review(reviewId, Pending, None, None, pullRequestId, userId);
            && r == run.result
            && db.reviews == old(db.reviews)[reviewId := created][reviewId := UpdatedBy(created, run.writes)]
            && db.comments == old(db.comments) + StoredComments(reviewId, run.stored, firstCommentId)
  {
    var review := db.CreateReview(Pending, pullRequestId, userId);
    var id := review.value.id;
    firstCommentId := db.nextId;
    var analysis := AnalysisJob(id, fullName, number, userId);
    job := analysis;
    r, verdict := ProcessReview(db, analysis, svc, fault);
  }

  /**
   * The analysed actions of `handlePullRequestEvent`: resolve the records,
   * open one new `pending` review of the pull request by the sender (even
   * when the pull request already has reviews) and hand its id to the
   * orchestrator, whose outcome is the event's.
   */
  method HandleAnalysedEvent(db: Store, payload: PullRequestWebhookPayload, svc: Services, fault: Option<CommentFault>)
    returns (r: Result<(), Exception>, ghost job: AnalysisJob, ghost verdict: Verdict, ghost firstCommentId: Id)
    requires db.Valid()
    modifies db`users, db`repositories, db`pullRequests, db`reviews, db`comments, db`nextId
    ensures db.Valid()
    ensures SenderKey(payload) !in old(db.users) && old(db.EmailTaken(payload.sender.login + EmailDomain)) ==>
              && r == Err(UniqueConstraintError("email"))
              && db.users == old(db.users) && db.repositories == old(db.repositories)
              && db.pullRequests == old(db.pullRequests)
              && db.reviews == old(db.reviews) && db.comments == old(db.comments)
    ensures (SenderKey(payload) in old(db.users) || !old(db.EmailTaken(payload.sender.login + EmailDomain))) ==>
              var reviewId := job.pullRequestId;
              && reviewId !in old(db.reviews) && firstCommentId == reviewId + 1
              && (forall id :: id in db.reviews <==> id in old(db.reviews) || id == reviewId)
              && (forall id :: id in old(db.reviews) ==> db.reviews[id] == old(db.reviews)[id])
              && RecordsResolved(payload, old(db.users), old(db.repositories), old(db.pullRequests),
                                 db.users, db.repositories, db.pullRequests)
              && var user := db.users[SenderKey(payload)];
                 var pr := db.pullRequests[payload.pullRequest.id];
                 var run := PlannedFor(verdict, fault);
                 && job == AnalysisJob(reviewId, payload.repository.fullName, payload.pullRequest.number, user.id)
                 && verdict == Pipeline(job, svc)
                 && db.reviews[reviewId] == UpdatedBy(Review(reviewId, Pending, None, None, pr.id, user.id), run.writes)
                 && db.comments == old(db.comments) + StoredComments(reviewId, run.stored, firstCommentId)
                 && r == run.result
  {
    job, verdict, firstCommentId := AnalysisJob(0, "", 0, 0), NoChanges, 0;
    var records := ResolveRecords(db, payload);
    if records.Err? {
      return Err(records.error), job, verdict, firstCommentId;
    }
    var (user, _, pr) := records.value;
    assert db.users[SenderKey(payload)].id == user.id;
    assert db.pullRequests[payload.pullRequest.id].id == pr.id;
    r, job, verdict, firstCommentId := OpenReview(db, user.id, pr.id, payload.repository.fullName, payload.pullRequest.number, svc, fault);
  }

  /**
   * `handlePullRequestEvent`: actions other than opening and pushing change
   * nothing; the others are `HandleAnalysedEvent`. The job handed to the
   * orchestrator names the new review.
   */
  method HandlePullRequestEvent(db: Store, payload: PullRequestWebhookPayload, svc: Services, fault: Option<CommentFault>)
    returns (r: Result<(), Exception>, ghost job: AnalysisJob, ghost verdict: Verdict, ghost firstCommentId: Id)
    requires db.Valid()
    modifies db`users, db`repositories, db`pullRequests, db`reviews, db`comments, db`nextId
    ensures !IsAnalysedAction(payload.action) ==> r == Ok(()) && unchanged(db)
    ensures db.Valid()
    ensures IsAnalysedAction(payload.action) && SenderKey(payload) !in old(db.users) && old(db.EmailTaken(payload.sender.login + EmailDomain)) ==>
              && r == Err(UniqueConstraintError("email"))
              && db.users == old(db.users) && db.repositories == old(db.repositories)
              && db.pullRequests == old(db.pullRequests)
              && db.reviews == old(db.reviews) && db.comments == old(db.comments)
    ensures IsAnalysedAction(payload.action) && (SenderKey(payload) in old(db.users) || !old(db.EmailTaken(payload.sender.login + EmailDomain))) ==>
              var reviewId := job.pullRequestId;
              && reviewId !in old(db.reviews) && firstCommentId == reviewId + 1
              && (forall id :: id in db.reviews <==> id in old(db.reviews) || id == reviewId)
              && (forall id :: id in old(db.reviews) ==> db.reviews[id] == old(db.reviews)[id])
              && RecordsResolved(payload, old(db.users), old(db.repositories), old(db.pullRequests),
                                 db.users, db.repositories, db.pullRequests)
              && var user := db.users[SenderKey(payload)];
                 var pr := db.pullRequests[payload.pullRequest.id];
                 var run := PlannedFor(verdict, fault);
                 && job == AnalysisJob(reviewId, payload.repository.fullName, payload.pullRequest.number, user.id)
                 && verdict == Pipeline(job, svc)
                 && db.reviews[reviewId] == UpdatedBy(Review(reviewId, Pending, None, None, pr.id, user.id), run.writes)
                 && db.comments == old(db.comments) + StoredComments(reviewId, run.stored, firstCommentId)
                 && r == run.result
  {
    if !IsAnalysedAction(payload.action) {
      return Ok(()), AnalysisJob(0, "", 0, 0), NoChanges, 0;
    }
    r, job, verdict, firstCommentId := HandleAnalysedEvent(db, payload, svc, fault);
  }
}
