/** The parts of a GitHub `pull_request` webhook payload that the pipeline reads. */
module GitHubTypes {

  datatype GitHubUser = GitHubUser(id: int, login: string, avatarUrl: string)

  datatype GitHubRepository = GitHubRepository(
    id: int,
    name: string,
    fullName: string,
    owner: GitHubUser,
    isPrivate: bool)

  /** A branch tip: commit id and branch name. */
  datatype GitRef = GitRef(sha: string, ref: string)

  datatype GitHubPullRequest = GitHubPullRequest(
    id: int,
    number: int,
    title: string,
    state: string,
    user: GitHubUser,
    head: GitRef,
    base: GitRef)

  datatype PullRequestWebhookPayload = PullRequestWebhookPayload(
    action: string,
    number: int,
    pullRequest: GitHubPullRequest,
    repository: GitHubRepository,
    sender: GitHubUser)
}
