// The derived columns of the projection, what each of them must equal, and
// which of them one event refreshes.
module FederationCounts {
  import opened Options
  import opened FederationTables

  // --- What each column must equal, as sets of live rows -------------------

  function StarAuthors(stars: map<Uri, Row<Uri>>, r: Uri): set<string> {
    set s | s in stars && stars[s].live && stars[s].value == r :: s.did
  }

  function IssuesOf(issues: map<Uri, Row<Uri>>, r: Uri): set<Uri> {
    set i | i in issues && issues[i].live && issues[i].value == r
  }

  function OpenIssuesOf(issues: map<Uri, Row<Uri>>, states: map<Uri, State>, r: Uri): set<Uri> {
    set i | i in issues && issues[i].live && issues[i].value == r && StateOf(states, i) == Open
  }

  // A reply counts unless its parent is a live comment of another issue.
  predicate Counts(comments: map<Uri, Row<CommentValue>>, value: CommentValue) {
    value.parent.Some? && Live(comments, value.parent.value) ==>
      comments[value.parent.value].value.issue == value.issue
  }

  function CommentsOfIssue(comments: map<Uri, Row<CommentValue>>, i: Uri): set<Uri> {
    set c | c in comments && comments[c].live && comments[c].value.issue == i && Counts(comments, comments[c].value)
  }

  // Every live comment of a live issue of the repository, counted or not.
  function RepliesOf(comments: map<Uri, Row<CommentValue>>, issues: map<Uri, Row<Uri>>, r: Uri): set<Uri> {
    set c | c in comments && comments[c].live && comments[c].value.issue in IssuesOf(issues, r)
  }

  function CommentsOf(comments: map<Uri, Row<CommentValue>>, issues: map<Uri, Row<Uri>>, r: Uri): set<Uri> {
    set c | c in comments && comments[c].live && comments[c].value.issue in IssuesOf(issues, r)
            && Counts(comments, comments[c].value)
  }

  function ForksOf(repositories: map<Uri, Row<RepositoryValue>>, r: Uri): set<Uri> {
    set f | f in repositories && repositories[f].live && repositories[f].value.forkedFrom == Some(r) && f != r
  }

  function PullsOf(pulls: map<Uri, Row<PullValue>>, r: Uri): set<Uri> {
    set p | p in pulls && pulls[p].live && pulls[p].value.target == r
  }

  function OpenPullsOf(pulls: map<Uri, Row<PullValue>>, states: map<Uri, State>, r: Uri): set<Uri> {
    set p | p in pulls && pulls[p].live && pulls[p].value.target == r && StateOf(states, p) == Open
  }

  function OwnedBy(repositories: map<Uri, Row<RepositoryValue>>, did: string): set<Uri> {
    set u | u in repositories && repositories[u].live && u.did == did
  }

  // --- Issue and pull request states ---------------------------------------

  // State columns default to open.
  function StateOf(states: map<Uri, State>, u: Uri): State { if u in states then states[u] else Open }

  // Statuses of `subject` that the repository's owner wrote about the
  // repository version named `cid`.
  function Authoritative(statuses: map<Uri, Row<StatusValue>>, subject: Uri, repository: Uri, cid: string): map<Uri, Row<StatusValue>> {
    map s | s in statuses && statuses[s].live && statuses[s].value.subject == subject
            && statuses[s].value.repository == repository && statuses[s].value.repositoryCid == cid
            && s.did == repository.did :: statuses[s]
  }

  // A status must also name the pull request's current version.
  function OfVersion(statuses: map<Uri, Row<StatusValue>>, cid: string): map<Uri, Row<StatusValue>> {
    map s | s in statuses && statuses[s].value.subjectCid == cid :: statuses[s]
  }

  predicate IsNewest(candidates: map<Uri, Row<StatusValue>>, s: Uri) {
    s in candidates && forall c | c in candidates :: candidates[c].eventId <= candidates[s].eventId
  }

  // The state in the candidate with the newest event; open without candidates.
  ghost function NewestState(candidates: map<Uri, Row<StatusValue>>): State {
    if exists s :: IsNewest(candidates, s)
    then var s :| IsNewest(candidates, s); candidates[s].value.state
    else Open
  }

  // A repository that is not live has no CID, so no status names its version.
  ghost function IssueStateNow(t: Tables, i: Uri): State
    requires i in t.issues
  {
    var r := t.issues[i].value;
    if Live(t.repositories, r)
    then NewestState(Authoritative(t.issueStatuses, i, r, t.repositories[r].value.cid))
    else Open
  }

  ghost function PullStateNow(t: Tables, p: Uri): State
    requires p in t.pulls
  {
    var r := t.pulls[p].value.target;
    if t.pulls[p].live && Live(t.repositories, r)
    then NewestState(OfVersion(Authoritative(t.pullStatuses, p, r, t.repositories[r].value.cid), t.pulls[p].value.cid))
    else Open
  }

  // --- Columns and exactness -------------------------------------------------

  datatype Columns = Columns(
    stars: map<Uri, nat>,
    issues: map<Uri, nat>,
    openIssues: map<Uri, nat>,
    comments: map<Uri, nat>,
    forks: map<Uri, nat>,
    pulls: map<Uri, nat>,
    openPulls: map<Uri, nat>,
    issueComments: map<Uri, nat>,
    owned: map<string, nat>,
    issueStates: map<Uri, State>,
    pullStates: map<Uri, State>
  )

  const BLANK := Columns(map[], map[], map[], map[], map[], map[], map[], map[], map[], map[], map[])

  // Count columns default to 0.
  function Count<K>(column: map<K, nat>, k: K): nat { if k in column then column[k] else 0 }

  // Every live row's column holds its recount.
  predicate Matches<K, V>(rows: map<K, Row<V>>, column: map<K, nat>, recounts: map<K, nat>) {
    forall k | k in rows && rows[k].live :: k in recounts && Count(column, k) == recounts[k]
  }

  // --- Recounts: the value each Recompute query would store, per row -------

  function StarRecounts(t: Tables): map<Uri, nat> { map r | r in t.repositories :: |StarAuthors(t.stars, r)| }
  function IssueRecounts(t: Tables): map<Uri, nat> { map r | r in t.repositories :: |IssuesOf(t.issues, r)| }
  function CommentRecounts(t: Tables): map<Uri, nat> { map r | r in t.repositories :: |CommentsOf(t.comments, t.issues, r)| }
  function ReplyRecounts(t: Tables): map<Uri, nat> { map r | r in t.repositories :: |RepliesOf(t.comments, t.issues, r)| }
  function ForkRecounts(t: Tables): map<Uri, nat> { map r | r in t.repositories :: |ForksOf(t.repositories, r)| }
  function PullRecounts(t: Tables): map<Uri, nat> { map r | r in t.repositories :: |PullsOf(t.pulls, r)| }
  function OwnedRecounts(t: Tables): map<string, nat> { map d | d in t.profiles :: |OwnedBy(t.repositories, d)| }

  function OpenIssueRecounts(t: Tables, states: map<Uri, State>): map<Uri, nat> {
    map r | r in t.repositories :: |OpenIssuesOf(t.issues, states, r)|
  }

  function OpenPullRecounts(t: Tables, states: map<Uri, State>): map<Uri, nat> {
    map r | r in t.repositories :: |OpenPullsOf(t.pulls, states, r)|
  }

  // A dead issue has no CID, and its comments count for nothing.
  function IssueCommentRecounts(t: Tables): map<Uri, nat> {
    map i | i in t.issues :: if t.issues[i].live then |CommentsOfIssue(t.comments, i)| else 0
  }

  // States are stored only where the subject's repository has a row.
  ghost function IssueStatesNow(t: Tables): map<Uri, State> {
    map i | i in t.issues && t.issues[i].value in t.repositories :: IssueStateNow(t, i)
  }

  ghost function PullStatesNow(t: Tables): map<Uri, State> {
    map p | p in t.pulls && t.pulls[p].value.target in t.repositories :: PullStateNow(t, p)
  }

  // --- Which keys one event refreshes, column by column ---------------------

  predicate IsPut(e: Event, c: Collection) { e.change.Put? && e.uri.collection == c }
  predicate IsDelete(e: Event, c: Collection) { e.change.Delete? && e.uri.collection == c }

  // Repository events refresh every count of their own repository.
  function OwnRepository(e: Event): set<Uri> {
    if e.uri.collection == RepositoryCollection then {e.uri} else {}
  }

  function Elements<T>(o: Option<T>): set<T> { if o.Some? then {o.value} else {} }

  function TouchedStars(t: Tables, e: Event): set<Uri> {
    match e.change
    case Put(_, Star(starred)) => if Replaces(t, t.stars, e) then {starred} else {}
    case Put(_, _) => OwnRepository(e)
    case Delete =>
      if IsDelete(e, StarCollection) && Removes(t, t.stars, e) then {t.stars[e.uri].value} else OwnRepository(e)
  }

  // The repositories an issue event moves an issue between.
  function TouchedByIssue(t: Tables, e: Event): set<Uri> {
    match e.change
    case Put(_, Issue(repository)) =>
      if !Replaces(t, t.issues, e) then {}
      else {repository} + (if e.uri in t.issues then {t.issues[e.uri].value} else {})
    case Put(_, _) => {}
    case Delete => if IsDelete(e, IssueCollection) && Removes(t, t.issues, e) then {t.issues[e.uri].value} else {}
  }

  // The issue whose state an issue status event may change.
  function TouchedByIssueStatus(t: Tables, e: Event): set<Uri> {
    match e.change
    case Put(_, IssueStatus(status)) => if Replaces(t, t.issueStatuses, e) then {status.subject} else {}
    case Put(_, _) => {}
    case Delete =>
      if IsDelete(e, IssueStatusCollection) && Removes(t, t.issueStatuses, e)
      then {t.issueStatuses[e.uri].value.subject} else {}
  }

  function RepositoriesOfIssues(t: Tables, issues: set<Uri>): set<Uri> {
    set i | i in issues && i in t.issues :: t.issues[i].value
  }

  // Issue and open issue counts.
  function TouchedIssues(t: Tables, e: Event): set<Uri> {
    OwnRepository(e) + TouchedByIssue(t, e) + RepositoriesOfIssues(t, TouchedByIssueStatus(t, e))
  }

  function TouchedIssueStates(t: Tables, e: Event): set<Uri> {
    TouchedByIssueStatus(t, e) + (if IsPut(e, IssueCollection) && Replaces(t, t.issues, e) then {e.uri} else {})
  }

  // Issues that hold a live reply to comment `u`.
  function ChildIssues(comments: map<Uri, Row<CommentValue>>, u: Uri): set<Uri> {
    set c | c in comments && comments[c].live && comments[c].value.parent == Some(u) :: comments[c].value.issue
  }

  // The issues whose comment count a comment event may change.
  function TouchedByComment(t: Tables, e: Event): set<Uri> {
    match e.change
    case Put(_, Comment(issue, parent)) =>
      if ReplacesComment(t, e, CommentValue(issue, parent)) then {issue} + ChildIssues(t.comments, e.uri) else {}
    case Put(_, _) => {}
    case Delete =>
      if IsDelete(e, CommentCollection) && Removes(t, t.comments, e)
      then {t.comments[e.uri].value.issue} + ChildIssues(t.comments, e.uri) else {}
  }

  function TouchedIssueComments(t: Tables, e: Event): set<Uri> {
    TouchedByComment(t, e) + (if IsPut(e, IssueCollection) && Replaces(t, t.issues, e) then {e.uri} else {})
  }

  // Repository comment counts.
  function TouchedComments(t: Tables, e: Event): set<Uri> {
    OwnRepository(e) + TouchedByIssue(t, e) + RepositoriesOfIssues(t, TouchedByComment(t, e))
  }

  // The live fork source of a repository row before the event.
  function ForkSource(repositories: map<Uri, Row<RepositoryValue>>, r: Uri): Option<Uri> {
    if Live(repositories, r) then repositories[r].value.forkedFrom else None
  }

  function TouchedForks(t: Tables, e: Event): set<Uri> {
    match e.change
    case Put(_, Repository(forkedFrom)) => {e.uri} + Elements(ForkSource(t.repositories, e.uri)) + Elements(forkedFrom)
    case Put(_, _) => {}
    case Delete => if IsDelete(e, RepositoryCollection) then Elements(ForkSource(t.repositories, e.uri)) else {}
  }

  function TouchedOwned(e: Event): set<string> {
    if IsPut(e, ProfileCollection) || e.uri.collection == RepositoryCollection then {e.uri.did} else {}
  }

  // The pull request whose state a pull request status event may change.
  function TouchedByPullStatus(t: Tables, e: Event): set<Uri> {
    match e.change
    case Put(_, PullRequestStatus(status)) => if ReplacesPullStatus(t, e, status) then {status.subject} else {}
    case Put(_, _) => {}
    case Delete =>
      if IsDelete(e, PullRequestStatusCollection) && Removes(t, t.pullStatuses, e)
      then {t.pullStatuses[e.uri].value.subject} else {}
  }

  function TargetsOf(t: Tables, pulls: set<Uri>): set<Uri> {
    set p | p in pulls && p in t.pulls :: t.pulls[p].value.target
  }

  // Pull request and open pull request counts.
  function TouchedPulls(t: Tables, e: Event): set<Uri> {
    match e.change
    case Put(_, PullRequest(target, origin)) => if ReplacesPull(t, e, target, origin) then {target} else {}
    case Put(_, _) => OwnRepository(e) + TargetsOf(t, TouchedByPullStatus(t, e))
    case Delete =>
      if IsDelete(e, PullRequestCollection) && Removes(t, t.pulls, e) then {t.pulls[e.uri].value.target}
      else OwnRepository(e) + TargetsOf(t, TouchedByPullStatus(t, e))
  }

  // A repository upsert refreshes the state of every pull request aimed at it.
  function TouchedPullStates(t: Tables, e: Event): set<Uri> {
    match e.change
    case Put(_, PullRequest(target, origin)) => if ReplacesPull(t, e, target, origin) then {e.uri} else {}
    case Put(_, Repository(_)) => set p | p in t.pulls && t.pulls[p].value.target == e.uri
    case Put(_, _) => TouchedByPullStatus(t, e)
    case Delete => TouchedByPullStatus(t, e)
  }

  // Events that end with the recount of every lineage.
  predicate RecountsLineages(e: Event) {
    e.uri.collection == OrganizationCollection || IsDelete(e, RepositoryCollection)
  }

  // --- Refreshing columns ----------------------------------------------------

  function Refreshed<K, V>(column: map<K, V>, recounts: map<K, V>, keys: set<K>): map<K, V> {
    column + (map k | k in keys && k in recounts :: recounts[k])
  }

  ghost function IssueStatesAfter(t: Tables, c: Columns, e: Event): map<Uri, State> {
    Refreshed(c.issueStates, IssueStatesNow(Apply(t, e)), TouchedIssueStates(t, e))
  }

  ghost function PullStatesAfter(t: Tables, c: Columns, e: Event): map<Uri, State> {
    Refreshed(c.pullStates, PullStatesNow(Apply(t, e)), TouchedPullStates(t, e))
  }

  // The columns after one event, before any lineage recount.
  ghost function Refresh(t: Tables, c: Columns, e: Event): Columns {
    var after := Apply(t, e);
    Columns(
      Refreshed(c.stars, StarRecounts(after), TouchedStars(t, e)),
      Refreshed(c.issues, IssueRecounts(after), TouchedIssues(t, e)),
      Refreshed(c.openIssues, OpenIssueRecounts(after, IssueStatesAfter(t, c, e)), TouchedIssues(t, e)),
      Refreshed(c.comments, CommentRecounts(after), TouchedComments(t, e)),
      Refreshed(c.forks, ForkRecounts(after), TouchedForks(t, e)),
      Refreshed(c.pulls, PullRecounts(after), TouchedPulls(t, e)),
      Refreshed(c.openPulls, OpenPullRecounts(after, PullStatesAfter(t, c, e)), TouchedPulls(t, e)),
      Refreshed(c.issueComments, IssueCommentRecounts(after), TouchedIssueComments(t, e)),
      Refreshed(c.owned, OwnedRecounts(after), TouchedOwned(e)),
      IssueStatesAfter(t, c, e),
      PullStatesAfter(t, c, e))
  }

  // The recount of every lineage that has a live repository. It counts every
  // reply, where the recount of one repository leaves out those that Counts
  // rejects.
  function LineageRecount(t: Tables, c: Columns): Columns {
    var all := set r | r in t.repositories && t.repositories[r].live;
    c.(stars := Refreshed(c.stars, StarRecounts(t), all),
       issues := Refreshed(c.issues, IssueRecounts(t), all),
       openIssues := Refreshed(c.openIssues, OpenIssueRecounts(t, c.issueStates), all),
       comments := Refreshed(c.comments, ReplyRecounts(t), all),
       forks := Refreshed(c.forks, ForkRecounts(t), all),
       pulls := Refreshed(c.pulls, PullRecounts(t), all),
       openPulls := Refreshed(c.openPulls, OpenPullRecounts(t, c.pullStates), all))
  }

  // The columns after one event, given the tables before it.
  ghost function Project(t: Tables, c: Columns, e: Event): Columns {
    if RecountsLineages(e) then LineageRecount(Apply(t, e), Refresh(t, c, e)) else Refresh(t, c, e)
  }
}
