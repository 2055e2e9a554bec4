/**
 * The persistent store behind the pipeline: users, repositories, pull
 * requests, reviews and review comments. Every record gets a fresh id. The
 * GitHub id of a user, a repository or a pull request is a unique key, and
 * those tables are kept as maps from that key, the one they are looked up
 * by; the user's email is a unique key too, and the links between records
 * are foreign keys. A violated key is an error of the create call, and
 * updating a review that does not exist is an error of the update call.
 */
module Database {
  import opened Wrappers
  import opened Js
  import opened ReviewTypes

  type Id = nat

  datatype User = User(id: Id, githubId: string, name: string, email: string, avatarUrl: string)

  datatype Repository = Repository(
    id: Id,
    githubId: int,
    name: string,
    fullName: string,
    owner: string,
    isPrivate: bool,
    userId: Id)

  datatype PullRequest = PullRequest(
    id: Id,
    githubId: int,
    number: int,
    title: string,
    state: string,
    repositoryId: Id)

  datatype Review = Review(
    id: Id,
    status: ReviewStatus,
    summary: Option<string>,
    score: Option<int>,
    pullRequestId: Id,
    userId: Id)

  datatype Comment = Comment(
    id: Id,
    content: string,
    reviewId: Id,
    filePath: Option<string>,
    lineNumber: Option<int>,
    category: CommentType,
    severity: Severity)

  /** The fields an update of a review may set; an absent field is left as it is. */
  datatype ReviewUpdate = ReviewUpdate(status: Option<ReviewStatus>, summary: Option<string>, score: Option<int>)

  /** A review after an update. */
  function Updated(r: Review, u: ReviewUpdate): Review {
    Review(r.id, u.status.GetOr(r.status),
           if u.summary.Some? then u.summary else r.summary,
           if u.score.Some? then u.score else r.score,
           r.pullRequestId, r.userId)
  }

  /** A review after a sequence of updates, applied in order. */
  function UpdatedBy(r: Review, us: seq<ReviewUpdate>): (r': Review)
    ensures r'.id == r.id && r'.pullRequestId == r.pullRequestId && r'.userId == r.userId
  {
    if us == [] then r else Updated(UpdatedBy(r, us[..|us| - 1]), us[|us| - 1])
  }

  function UniqueConstraintError(field: string): Exception {
    Error("Unique constraint failed on the fields: (`" + field + "`)")
  }

  function ForeignKeyError(field: string): Exception {
    Error("Foreign key constraint failed on the field: `" + field + "`")
  }

  const RecordNotFound := Error("Record to update not found.")

  class Store {
    /** Users by GitHub id. */
    var users: map<string, User>
    /** Repositories by GitHub id. */
    var repositories: map<int, Repository>
    /** Pull requests by GitHub id. */
    var pullRequests: map<int, PullRequest>
    /** Reviews by id. */
    var reviews: map<Id, Review>
    var comments: seq<Comment>
    var nextId: Id

    /** Each record sits under its own key, and every id was handed out before `nextId`. */
    ghost predicate Valid()
      reads this
    {
      && (forall g :: g in users ==> users[g].githubId == g && users[g].id < nextId)
      && (forall g :: g in repositories ==> repositories[g].githubId == g && repositories[g].id < nextId)
      && (forall g :: g in pullRequests ==> pullRequests[g].githubId == g && pullRequests[g].id < nextId)
      && (forall id :: id in reviews ==> reviews[id].id == id < nextId)
      && (forall i :: 0 <= i < |comments| ==> comments[i].id < nextId)
    }

    constructor ()
      ensures Valid()
      ensures users == map[] && repositories == map[] && pullRequests == map[]
      ensures reviews == map[] && comments == []
    {
      users, repositories, pullRequests := map[], map[], map[];
      reviews, comments := map[], [];
      nextId := 0;
    }

    // ------------------------------------------------------------------ users

    /** The user with this GitHub id, if there is one. */
    function UserByGithubId(githubId: string): (u: Option<User>)
      reads this`users
      ensures u.Some? <==> githubId in users
      ensures u.Some? ==> u.value == users[githubId]
    {
      if githubId in users then Some(users[githubId]) else None
    }

    predicate EmailTaken(email: string)
      reads this`users
    {
      exists g :: g in users && users[g].email == email
    }

    predicate HasUser(id: Id)
      reads this`users
    {
      exists g :: g in users && users[g].id == id
    }

    /** Inserts a user, unless its GitHub id or its email is already taken. */
    method CreateUser(githubId: string, name: string, email: string, avatarUrl: string)
      returns (r: Result<User, Exception>)
      requires Valid()
      modifies this`users, this`nextId
      ensures Valid()
      ensures r.Ok? <==> githubId !in old(users) && !old(EmailTaken(email))
      ensures githubId in old(users) ==> r == Err(UniqueConstraintError("githubId"))
      ensures githubId !in old(users) && old(EmailTaken(email)) ==> r == Err(UniqueConstraintError("email"))
      ensures r.Ok? ==>
                && r.value == User(old(nextId), githubId, name, email, avatarUrl)
                && users == old(users)[githubId := r.value]
                && nextId == old(nextId) + 1
      ensures r.Err? ==> users == old(users) && nextId == old(nextId)
    {
      if githubId in users {
        return Err(UniqueConstraintError("githubId"));
      }
      if EmailTaken(email) {
        return Err(UniqueConstraintError("email"));
      }
      var user := User(nextId, githubId, name, email, avatarUrl);
      users := users[githubId := user];
      nextId := nextId + 1;
      r := Ok(user);
    }

    // ----------------------------------------------------------- repositories

    /** The repository with this GitHub id, if there is one. */
    function RepositoryByGithubId(githubId: int): (repo: Option<Repository>)
      reads this`repositories
      ensures repo.Some? <==> githubId in repositories
      ensures repo.Some? ==> repo.value == repositories[githubId]
    {
      if githubId in repositories then Some(repositories[githubId]) else None
    }

    predicate HasRepository(id: Id)
      reads this`repositories
    {
      exists g :: g in repositories && repositories[g].id == id
    }

    /** Inserts a repository owned by an existing user, unless its GitHub id is taken. */
    method CreateRepository(githubId: int, name: string, fullName: string, owner: string, isPrivate: bool, userId: Id)
      returns (r: Result<Repository, Exception>)
      requires Valid()
      modifies this`repositories, this`nextId
      ensures Valid()
      ensures r.Ok? <==> githubId !in old(repositories) && HasUser(userId)
      ensures githubId in old(repositories) ==> r == Err(UniqueConstraintError("githubId"))
      ensures githubId !in old(repositories) && !HasUser(userId) ==> r == Err(ForeignKeyError("userId"))
      ensures r.Ok? ==>
                && r.value == Repository(old(nextId), githubId, name, fullName, owner, isPrivate, userId)
                && repositories == old(repositories)[githubId := r.value]
                && nextId == old(nextId) + 1
      ensures r.Err? ==> repositories == old(repositories) && nextId == old(nextId)
    {
      if githubId in repositories {
        return Err(UniqueConstraintError("githubId"));
      }
      if !HasUser(userId) {
        return Err(ForeignKeyError("userId"));
      }
      var repo := Repository(nextId, githubId, name, fullName, owner, isPrivate, userId);
      repositories := repositories[githubId := repo];
      nextId := nextId + 1;
      r := Ok(repo);
    }

    // ---------------------------------------------------------- pull requests

    /** The pull request with this GitHub id, if there is one. */
    function PullRequestByGithubId(githubId: int): (pr: Option<PullRequest>)
      reads this`pullRequests
      ensures pr.Some? <==> githubId in pullRequests
      ensures pr.Some? ==> pr.value == pullRequests[githubId]
    {
      if githubId in pullRequests then Some(pullRequests[githubId]) else None
    }

    predicate HasPullRequest(id: Id)
      reads this`pullRequests
    {
      exists g :: g in pullRequests && pullRequests[g].id == id
    }

    /** Inserts a pull request of an existing repository, unless its GitHub id is taken. */
    method CreatePullRequest(githubId: int, number: int, title: string, state: string, repositoryId: Id)
      returns (r: Result<PullRequest, Exception>)
      requires Valid()
      modifies this`pullRequests, this`nextId
      ensures Valid()
      ensures r.Ok? <==> githubId !in old(pullRequests) && HasRepository(repositoryId)
      ensures githubId in old(pullRequests) ==> r == Err(UniqueConstraintError("githubId"))
      ensures githubId !in old(pullRequests) && !HasRepository(repositoryId) ==> r == Err(ForeignKeyError("repositoryId"))
      ensures r.Ok? ==>
                && r.value == PullRequest(old(nextId), githubId, number, title, state, repositoryId)
                && pullRequests == old(pullRequests)[githubId := r.value]
                && nextId == old(nextId) + 1
      ensures r.Err? ==> pullRequests == old(pullRequests) && nextId == old(nextId)
    {
      if githubId in pullRequests {
        return Err(UniqueConstraintError("githubId"));
      }
      if !HasRepository(repositoryId) {
        return Err(ForeignKeyError("repositoryId"));
      }
      var pr := PullRequest(nextId, githubId, number, title, state, repositoryId);
      pullRequests := pullRequests[githubId := pr];
      nextId := nextId + 1;
      r := Ok(pr);
    }

    // ---------------------------------------------------------------- reviews

    /** Inserts a review of an existing pull request by an existing user, with no summary and no score. */
    method CreateReview(status: ReviewStatus, pullRequestId: Id, userId: Id) returns (r: Result<Review, Exception>)
      requires Valid()
      modifies this`reviews, this`nextId
      ensures Valid()
      ensures r.Ok? <==> HasPullRequest(pullRequestId) && HasUser(userId)
      ensures !HasPullRequest(pullRequestId) ==> r == Err(ForeignKeyError("pullRequestId"))
      ensures HasPullRequest(pullRequestId) && !HasUser(userId) ==> r == Err(ForeignKeyError("userId"))
      ensures r.Ok? ==>
                && r.value == Review(old(nextId), status, None, None, pullRequestId, userId)
                && old(nextId) !in old(reviews)
                && reviews == old(reviews)[r.value.id := r.value]
                && nextId == old(nextId) + 1
      ensures r.Err? ==> reviews == old(reviews) && nextId == old(nextId)
    {
      if !HasPullRequest(pullRequestId) {
        return Err(ForeignKeyError("pullRequestId"));
      }
      if !HasUser(userId) {
        return Err(ForeignKeyError("userId"));
      }
      var review := Review(nextId, status, None, None, pullRequestId, userId);
      reviews := reviews[review.id := review];
      nextId := nextId + 1;
      r := Ok(review);
    }

    /** Sets the given fields of an existing review; a missing review is an error. */
    method UpdateReview(id: Id, update: ReviewUpdate) returns (r: Result<Review, Exception>)
      requires Valid()
      modifies this`reviews
      ensures Valid()
      ensures r.Ok? <==> id in old(reviews)
      ensures r.Err? ==> r.error == RecordNotFound && reviews == old(reviews)
      ensures r.Ok? ==> r.value == Updated(old(reviews)[id], update) && reviews == old(reviews)[id := r.value]
    {
      if id !in reviews {
        return Err(RecordNotFound);
      }
      var review := Updated(reviews[id], update);
      reviews := reviews[id := review];
      r := Ok(review);
    }

    // --------------------------------------------------------------- comments

    /** Appends a comment of an existing review. */
    method CreateComment(content: string, reviewId: Id, filePath: Option<string>, lineNumber: Option<int>,
                         category: CommentType, severity: Severity)
      returns (r: Result<Comment, Exception>)
      requires Valid()
      modifies this`comments, this`nextId
      ensures Valid()
      ensures r.Ok? <==> reviewId in reviews
      ensures r.Err? ==> r.error == ForeignKeyError("reviewId") && comments == old(comments) && nextId == old(nextId)
      ensures r.Ok? ==>
                && r.value == Comment(old(nextId), content, reviewId, filePath, lineNumber, category, severity)
                && comments == old(comments) + [r.value]
                && nextId == old(nextId) + 1
    {
      if reviewId !in reviews {
        return Err(ForeignKeyError("reviewId"));
      }
      var comment := Comment(nextId, content, reviewId, filePath, lineNumber, category, severity);
      comments := comments + [comment];
      nextId := nextId + 1;
      r := Ok(comment);
    }
  }
}
