/**
 * The records the relay receives from the repository-hosting API and the
 * reshaped records it sends on (backend/server.js, the `/branches` and
 * `/pulls` endpoints).
 */
module Records {
  import opened Wrappers

  /** `getDate()` of a date: the day of the month. */
  type DayOfMonth = d: int | 1 <= d <= 31 witness 1

  /**
   * An instant as the server's `Date` object sees it: milliseconds since
   * the epoch (what `>=` and `-` compare and subtract), with the year and
   * day of the month of the server's local calendar at that instant.
   */
  datatype Stamp = Stamp(millis: int, year: int, day: DayOfMonth)

  /**
   * `new Date(null)`: instant zero, with the year and day of the month the
   * server's local calendar gives it (1 January 1970 at or east of UTC,
   * 31 December 1969 west of it).
   */
  type NullDate = s: Stamp | s.millis == 0 witness Stamp(0, 1970, 1)

  // ---------------------------------------------------------------- branches

  datatype Commit = Commit(sha: string, url: string)

  /** A branch as the hosting API lists it. */
  datatype RawBranch = RawBranch(name: string, commit: Commit, protected: bool)

  /** A branch as `/branches` returns it. */
  datatype Branch = Branch(name: string, commitSha: string, commitUrl: string)

  /** `{ name: branch.name, commit_sha: branch.commit.sha, commit_url: branch.commit.url }` */
  function ProjectBranch(b: RawBranch): (r: Branch)
    ensures r.name == b.name && r.commitSha == b.commit.sha && r.commitUrl == b.commit.url
  {
    Branch(b.name, b.commit.sha, b.commit.url)
  }

  /** `response.data.map(branch => ...)`: one projected branch per listed branch, in order. */
  function ProjectBranches(bs: seq<RawBranch>): (r: seq<Branch>)
    ensures |r| == |bs|
    ensures forall i :: 0 <= i < |bs| ==>
      r[i].name == bs[i].name && r[i].commitSha == bs[i].commit.sha && r[i].commitUrl == bs[i].commit.url
  {
    if bs == [] then [] else [ProjectBranch(bs[0])] + ProjectBranches(bs[1..])
  }

  /** The projection keeps exactly the name and the head commit; only the protection flag is dropped. */
  lemma ProjectBranchKeeps(a: RawBranch, b: RawBranch)
    ensures ProjectBranch(a) == ProjectBranch(b) <==> (a.name == b.name && a.commit == b.commit)
  {
  }

  // ----------------------------------------------------------- pull requests

  datatype User = User(login: string)

  /** A pull request as the hosting API lists it. */
  datatype RawPullRequest = RawPullRequest(
    id: int,
    title: string,
    state: string,
    createdAt: Stamp,
    mergedAt: Option<Stamp>,
    closedAt: Option<Stamp>,
    user: Option<User>,
    htmlUrl: string)

  /** A pull request as `/pulls` returns it; `user` is the author's login. */
  datatype PullRequest = PullRequest(
    id: int,
    title: string,
    state: string,
    createdAt: Stamp,
    mergedAt: Option<Stamp>,
    user: string,
    url: string)

  const UnknownAuthor: string := "Unknown"

  /** `pr.user ? pr.user.login : "Unknown"` */
  function AuthorOf(user: Option<User>): (author: string)
    ensures user.Some? ==> author == user.value.login
    ensures user.None? ==> author == UnknownAuthor
  {
    match user
    case Some(u) => u.login
    case None => UnknownAuthor
  }

  /** The fields `/pulls` keeps of one pull request, `html_url` renamed `url`. */
  function ProjectPullRequest(pr: RawPullRequest): (r: PullRequest)
    ensures r.id == pr.id && r.title == pr.title && r.state == pr.state
    ensures r.createdAt == pr.createdAt && r.mergedAt == pr.mergedAt && r.url == pr.htmlUrl
    ensures r.user == AuthorOf(pr.user)
  {
    PullRequest(pr.id, pr.title, pr.state, pr.createdAt, pr.mergedAt, AuthorOf(pr.user), pr.htmlUrl)
  }

  /** `response.data.map(pr => ...)`: one projected pull request per listed one, in order. */
  function ProjectPullRequests(prs: seq<RawPullRequest>): (r: seq<PullRequest>)
    ensures |r| == |prs|
    ensures forall i :: 0 <= i < |prs| ==>
      && r[i].id == prs[i].id && r[i].title == prs[i].title && r[i].state == prs[i].state
      && r[i].createdAt == prs[i].createdAt && r[i].mergedAt == prs[i].mergedAt
      && r[i].url == prs[i].htmlUrl
      && (prs[i].user.Some? ==> r[i].user == prs[i].user.value.login)
      && (prs[i].user.None? ==> r[i].user == UnknownAuthor)
  {
    if prs == [] then [] else [ProjectPullRequest(prs[0])] + ProjectPullRequests(prs[1..])
  }

  /**
   * The projected author reads "Unknown" exactly when the author is absent
   * or really has that login: the two cases cannot be told apart afterwards.
   */
  lemma UnknownAuthorIsAmbiguous(pr: RawPullRequest)
    ensures ProjectPullRequest(pr).user == UnknownAuthor <==>
      (pr.user.None? || pr.user.value.login == UnknownAuthor)
  {
  }

  /** The closing time is dropped; every other field survives the projection. */
  lemma ProjectPullRequestKeeps(a: RawPullRequest, b: RawPullRequest)
    requires a.user.Some? && b.user.Some?
    ensures ProjectPullRequest(a) == ProjectPullRequest(b) <==>
      a == b.(closedAt := a.closedAt)
  {
  }
}
