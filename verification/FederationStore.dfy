// The store as the program runs it: one transaction per delivery, whose
// statements change the tables and recompute single counts in the order of the
// source. Its methods are proved against the functions of FederationSteps, and
// through them against FederationRuns.
module FederationStore {
  import opened Options
  import opened FederationTables
  import opened FederationCounts
  import FederationExactness
  import FederationStates
  import opened FederationRuns
  import opened FederationLocks
  import opened FederationQuiet
  import opened FederationSteps

  // --- The newest status ---------------------------------------------------------

  ghost predicate DistinctIdsOf(rows: map<Uri, Row<StatusValue>>) {
    forall a, b | a in rows && b in rows && rows[a].eventId == rows[b].eventId :: a == b
  }

  // The event ids of status rows: one per row, and each with a receipt.
  ghost predicate DistinctStatuses(rows: map<Uri, Row<StatusValue>>, receipts: map<int, Outcome>) {
    DistinctIdsOf(rows) && forall a | a in rows :: rows[a].eventId in receipts
  }

  // ORDER BY source_event_id DESC LIMIT 1.
  method FindNewestState(candidates: map<Uri, Row<StatusValue>>) returns (state: State)
    requires DistinctIdsOf(candidates)
    ensures state == NewestState(candidates)
  {
    if candidates == map[] {
      assert !exists s :: IsNewest(candidates, s);
      return Open;
    }
    var newest :| newest in candidates;
    var rest := candidates.Keys - {newest};
    while rest != {}
      invariant newest in candidates && rest <= candidates.Keys
      invariant forall c | c in candidates && c !in rest :: candidates[c].eventId <= candidates[newest].eventId
      decreases |rest|
    {
      var c :| c in rest;
      if candidates[c].eventId > candidates[newest].eventId {
        newest := c;
      }
      rest := rest - {c};
    }
    assert IsNewest(candidates, newest);
    assert forall s | IsNewest(candidates, s) :: s == newest;
    state := candidates[newest].value.state;
  }

  class Store {
    var tables: Tables
    var columns: Columns
    var receipts: map<int, Outcome>
    var cursor: Option<int>

    constructor ()
      ensures Ready() && Database() == INITIAL
    {
      tables, columns, receipts, cursor := EMPTY, BLANK, map[], None;
    }

    ghost function Database(): FederationRuns.Database
      reads this
    {
      FederationRuns.Database(tables, columns, receipts, cursor)
    }

    ghost predicate Ready()
      reads this
    {
      DistinctStatuses(tables.issueStatuses, receipts) && DistinctStatuses(tables.pullStatuses, receipts)
    }

    // --- Recomputing one row ---------------------------------------------------

    method RecomputeStarCount(r: Uri)
      modifies this`columns
      ensures columns == RefreshStars(tables, old(columns), {r})
    {
      RefreshedOne(columns.stars, StarRecounts(tables), r);
      if r in tables.repositories {
        columns := columns.(stars := columns.stars[r := |StarAuthors(tables.stars, r)|]);
      }
    }

    method RecomputeIssueCounts(r: Uri)
      modifies this`columns
      ensures columns == RefreshIssues(tables, old(columns), {r})
    {
      RefreshedOne(columns.issues, IssueRecounts(tables), r);
      RefreshedOne(columns.openIssues, OpenIssueRecounts(tables, columns.issueStates), r);
      if r in tables.repositories {
        columns := columns.(issues := columns.issues[r := |IssuesOf(tables.issues, r)|],
                            openIssues := columns.openIssues[r := |OpenIssuesOf(tables.issues, columns.issueStates, r)|]);
      }
    }

    method RecomputeRepositoryCommentCount(r: Uri)
      modifies this`columns
      ensures columns == RefreshComments(tables, old(columns), {r})
    {
      RefreshedOne(columns.comments, CommentRecounts(tables), r);
      if r in tables.repositories {
        columns := columns.(comments := columns.comments[r := |CommentsOf(tables.comments, tables.issues, r)|]);
      }
    }

    method RecomputeForkCount(r: Uri)
      modifies this`columns
      ensures columns == RefreshForks(tables, old(columns), {r})
    {
      RefreshedOne(columns.forks, ForkRecounts(tables), r);
      if r in tables.repositories {
        columns := columns.(forks := columns.forks[r := |ForksOf(tables.repositories, r)|]);
      }
    }

    method RecomputePullRequestCounts(r: Uri)
      modifies this`columns
      ensures columns == RefreshPulls(tables, old(columns), {r})
    {
      RefreshedOne(columns.pulls, PullRecounts(tables), r);
      RefreshedOne(columns.openPulls, OpenPullRecounts(tables, columns.pullStates), r);
      if r in tables.repositories {
        columns := columns.(pulls := columns.pulls[r := |PullsOf(tables.pulls, r)|],
                            openPulls := columns.openPulls[r := |OpenPullsOf(tables.pulls, columns.pullStates, r)|]);
      }
    }

    method RecomputeIssueCommentCount(i: Uri)
      modifies this`columns
      ensures columns == RefreshIssueComments(tables, old(columns), {i})
    {
      RefreshedOne(columns.issueComments, IssueCommentRecounts(tables), i);
      if i in tables.issues {
        var count := if tables.issues[i].live then |CommentsOfIssue(tables.comments, i)| else 0;
        columns := columns.(issueComments := columns.issueComments[i := count]);
      }
    }

    method RecomputeRepositoryCount(did: string)
      modifies this`columns
      ensures columns == RefreshOwned(tables, old(columns), {did})
    {
      RefreshedOne(columns.owned, OwnedRecounts(tables), did);
      if did in tables.profiles {
        columns := columns.(owned := columns.owned[did := |OwnedBy(tables.repositories, did)|]);
      }
    }

    method RecomputeIssueState(i: Uri)
      requires DistinctIdsOf(tables.issueStatuses)
      modifies this`columns
      ensures columns == RefreshIssueStates(tables, old(columns), {i})
      ensures i in tables.issues && Live(tables.repositories, tables.issues[i].value) ==>
                i in columns.issueStates && FederationStates.IsIssueWord(tables, i, columns.issueStates[i])
    {
      if i in tables.issues && Live(tables.repositories, tables.issues[i].value) {
        FederationStates.IssueStateIsOwnersWord(tables, i);
      }
      RefreshedOne(columns.issueStates, IssueStatesNow(tables), i);
      if i in tables.issues && tables.issues[i].value in tables.repositories {
        var r := tables.issues[i].value;
        var state := Open;
        if tables.repositories[r].live {
          state := FindNewestState(Authoritative(tables.issueStatuses, i, r, tables.repositories[r].value.cid));
        }
        columns := columns.(issueStates := columns.issueStates[i := state]);
      }
    }

    method RecomputePullRequestState(p: Uri)
      requires DistinctIdsOf(tables.pullStatuses)
      modifies this`columns
      ensures columns == RefreshPullStates(tables, old(columns), {p})
      ensures Live(tables.pulls, p) && Live(tables.repositories, tables.pulls[p].value.target) ==>
                p in columns.pullStates && FederationStates.IsPullWord(tables, p, columns.pullStates[p])
    {
      if Live(tables.pulls, p) && Live(tables.repositories, tables.pulls[p].value.target) {
        FederationStates.PullStateIsOwnersWord(tables, p);
      }
      RefreshedOne(columns.pullStates, PullStatesNow(tables), p);
      if p in tables.pulls && tables.pulls[p].value.target in tables.repositories {
        var r := tables.pulls[p].value.target;
        var state := Open;
        if tables.pulls[p].live && tables.repositories[r].live {
          var statuses := Authoritative(tables.pullStatuses, p, r, tables.repositories[r].value.cid);
          state := FindNewestState(OfVersion(statuses, tables.pulls[p].value.cid));
        }
        columns := columns.(pullStates := columns.pullStates[p := state]);
      }
    }

    // One statement recounts every repository of every lineage.
    method RecomputeLineageCounts()
      modifies this`columns
      ensures columns == LineageRecount(tables, old(columns))
      ensures FederationExactness.LineageCounted(tables, columns)
      ensures columns.issueStates == old(columns.issueStates) && columns.pullStates == old(columns.pullStates)
      ensures columns.issueComments == old(columns.issueComments) && columns.owned == old(columns.owned)
    {
      FederationExactness.LineageRecountIsExact(tables, columns);
      var recounted := LineageRecount(tables, columns);
      columns := recounted;
    }

    // --- Recomputing related rows --------------------------------------------------

    method RecomputeCommentCounts(i: Uri)
      modifies this`columns
      ensures columns == RefreshBothComments(tables, old(columns), {i})
    {
      RecomputeIssueCommentCount(i);
      if i in tables.issues {
        assert RepositoriesOfIssues(tables, {i}) == {tables.issues[i].value};
        RecomputeRepositoryCommentCount(tables.issues[i].value);
      } else {
        assert RepositoriesOfIssues(tables, {i}) == {};
        RefreshedNone(columns.comments, CommentRecounts(tables));
      }
    }

    method RecomputeChildCommentCounts(issues: set<Uri>)
      modifies this`columns
      ensures columns == RefreshBothComments(tables, old(columns), issues)
    {
      ghost var before := columns;
      var rest := issues;
      assert issues - rest == {};
      BothCommentsNone(tables, columns);
      while rest != {}
        invariant rest <= issues
        invariant columns == RefreshBothComments(tables, before, issues - rest)
        decreases |rest|
      {
        var i :| i in rest;
        BothCommentsAdd(tables, before, issues - rest, {i});
        RecomputeCommentCounts(i);
        assert issues - (rest - {i}) == issues - rest + {i};
        rest := rest - {i};
      }
      assert issues - rest == issues;
    }

    method RecomputeIssueStateAndCounts(i: Uri)
      requires DistinctIdsOf(tables.issueStatuses)
      modifies this`columns
      ensures columns == RefreshIssueStateAndCounts(tables, old(columns), {i})
    {
      RecomputeIssueState(i);
      if i in tables.issues {
        assert RepositoriesOfIssues(tables, {i}) == {tables.issues[i].value};
        RecomputeIssueCounts(tables.issues[i].value);
      } else {
        assert RepositoriesOfIssues(tables, {i}) == {};
        RefreshedNone(columns.issues, IssueRecounts(tables));
        RefreshedNone(columns.openIssues, OpenIssueRecounts(tables, columns.issueStates));
      }
    }

    method RecomputePullRequestStateAndCounts(p: Uri)
      requires DistinctIdsOf(tables.pullStatuses)
      modifies this`columns
      ensures columns == RefreshPullStateAndCounts(tables, old(columns), {p})
    {
      RecomputePullRequestState(p);
      if p in tables.pulls {
        assert TargetsOf(tables, {p}) == {tables.pulls[p].value.target};
        RecomputePullRequestCounts(tables.pulls[p].value.target);
      } else {
        assert TargetsOf(tables, {p}) == {};
        RefreshedNone(columns.pulls, PullRecounts(tables));
        RefreshedNone(columns.openPulls, OpenPullRecounts(tables, columns.pullStates));
      }
    }

    method RecomputePullRequestStates(pulls: set<Uri>)
      requires DistinctIdsOf(tables.pullStatuses)
      modifies this`columns
      ensures columns == RefreshPullStates(tables, old(columns), pulls)
    {
      ghost var before := columns;
      var rest := pulls;
      assert pulls - rest == {};
      RefreshedNone(columns.pullStates, PullStatesNow(tables));
      while rest != {}
        invariant rest <= pulls
        invariant columns == RefreshPullStates(tables, before, pulls - rest)
        decreases |rest|
      {
        var p :| p in rest;
        RefreshedTwice(before.pullStates, PullStatesNow(tables), pulls - rest, {p});
        RecomputePullRequestState(p);
        assert pulls - (rest - {p}) == pulls - rest + {p};
        rest := rest - {p};
      }
      assert pulls - rest == pulls;
    }

    // --- Projecting the record of each collection --------------------------------------

    method DeleteStar(e: Event)
      modifies this`tables, this`columns
      ensures (tables, columns) == StarDeleted(old(tables), old(columns), e)
    {
      if Tombstones(tables, tables.stars, e) {
        var repository := tables.stars[e.uri].value;
        tables := tables.(stars := Kill(tables.stars, e.uri, e.id));
        RecomputeStarCount(repository);
      }
    }

    method PutStar(e: Event, repository: Uri)
      modifies this`tables, this`columns
      ensures (tables, columns) == StarPut(old(tables), old(columns), e, repository)
    {
      if Upserts(tables, tables.stars, e) {
        tables := tables.(stars := tables.stars[e.uri := Row(repository, true, e.id)]);
        RecomputeStarCount(repository);
      }
    }

    method DeleteIssue(e: Event)
      modifies this`tables, this`columns
      ensures (tables, columns) == IssueDeleted(old(tables), old(columns), e)
    {
      if Tombstones(tables, tables.issues, e) {
        var repository := tables.issues[e.uri].value;
        tables := tables.(issues := Kill(tables.issues, e.uri, e.id));
        RecomputeIssueCounts(repository);
        RecomputeRepositoryCommentCount(repository);
      }
    }

    method PutIssue(e: Event, repository: Uri)
      requires DistinctIdsOf(tables.issueStatuses)
      modifies this`tables, this`columns
      ensures (tables, columns) == IssuePut(old(tables), old(columns), e, repository)
    {
      var previous := if e.uri in tables.issues then Some(tables.issues[e.uri].value) else None;
      ghost var both := BothRepositories(tables, e, repository);
      if Upserts(tables, tables.issues, e) {
        tables := tables.(issues := tables.issues[e.uri := Row(repository, true, e.id)]);
        RecomputeIssueState(e.uri);
        RecomputeIssueCommentCount(e.uri);
        ghost var c := columns;
        RecomputeIssueCounts(repository);
        if previous.Some? && previous.value != repository {
          RecomputeIssueCounts(previous.value);
          RecomputeRepositoryCommentCount(previous.value);
          MovedIssue(tables, c, repository, previous.value);
          assert both == {repository, previous.value};
        } else {
          assert both == {repository};
        }
        RecomputeRepositoryCommentCount(repository);
      }
    }

    method DeleteComment(e: Event)
      modifies this`tables, this`columns
      ensures (tables, columns) == CommentDeleted(old(tables), old(columns), e)
    {
      var children := ChildIssues(tables.comments, e.uri);
      if Tombstones(tables, tables.comments, e) {
        var issue := tables.comments[e.uri].value.issue;
        tables := tables.(comments := Kill(tables.comments, e.uri, e.id));
        BothCommentsAdd(tables, columns, {issue}, children);
        RecomputeCommentCounts(issue);
        RecomputeChildCommentCounts(children);
      }
    }

    // An accepted version names the issue of the version before it, so there is
    // no other issue to recount.
    method PutComment(e: Event, value: CommentValue)
      modifies this`tables, this`columns
      ensures (tables, columns) == CommentPut(old(tables), old(columns), e, value)
    {
      var children := ChildIssues(tables.comments, e.uri);
      if UpsertsComment(tables, e, value) {
        tables := tables.(comments := tables.comments[e.uri := Row(value, true, e.id)]);
        BothCommentsAdd(tables, columns, {value.issue}, children);
        RecomputeCommentCounts(value.issue);
        RecomputeChildCommentCounts(children);
      }
    }

    method DeleteIssueStatus(e: Event)
      requires DistinctStatuses(tables.issueStatuses, receipts) && e.id !in receipts
      modifies this`tables, this`columns
      ensures (tables, columns) == IssueStatusDeleted(old(tables), old(columns), e)
    {
      if Tombstones(tables, tables.issueStatuses, e) {
        var issue := tables.issueStatuses[e.uri].value.subject;
        tables := tables.(issueStatuses := Kill(tables.issueStatuses, e.uri, e.id));
        RecomputeIssueStateAndCounts(issue);
      }
    }

    method PutIssueStatus(e: Event, status: StatusValue)
      requires DistinctStatuses(tables.issueStatuses, receipts) && e.id !in receipts
      modifies this`tables, this`columns
      ensures (tables, columns) == IssueStatusPut(old(tables), old(columns), e, status)
    {
      if Upserts(tables, tables.issueStatuses, e) {
        tables := tables.(issueStatuses := tables.issueStatuses[e.uri := Row(status, true, e.id)]);
        RecomputeIssueStateAndCounts(status.subject);
      }
    }

    method DeletePullRequest(e: Event)
      modifies this`tables, this`columns
      ensures (tables, columns) == PullDeleted(old(tables), old(columns), e)
    {
      if Tombstones(tables, tables.pulls, e) {
        var target := tables.pulls[e.uri].value.target;
        tables := tables.(pulls := Kill(tables.pulls, e.uri, e.id));
        RecomputePullRequestCounts(target);
      }
    }

    method PutPullRequest(e: Event, value: PullValue)
      requires DistinctIdsOf(tables.pullStatuses)
      modifies this`tables, this`columns
      ensures (tables, columns) == PullPut(old(tables), old(columns), e, value)
    {
      if UpsertsPull(tables, e, value) {
        tables := tables.(pulls := tables.pulls[e.uri := Row(value, true, e.id)]);
        RecomputePullRequestState(e.uri);
        RecomputePullRequestCounts(value.target);
      }
    }

    method DeletePullRequestStatus(e: Event)
      requires DistinctStatuses(tables.pullStatuses, receipts) && e.id !in receipts
      modifies this`tables, this`columns
      ensures (tables, columns) == PullStatusDeleted(old(tables), old(columns), e)
    {
      if Tombstones(tables, tables.pullStatuses, e) {
        var pull := tables.pullStatuses[e.uri].value.subject;
        tables := tables.(pullStatuses := Kill(tables.pullStatuses, e.uri, e.id));
        RecomputePullRequestStateAndCounts(pull);
      }
    }

    method PutPullRequestStatus(e: Event, status: StatusValue)
      requires DistinctStatuses(tables.pullStatuses, receipts) && e.id !in receipts
      modifies this`tables, this`columns
      ensures (tables, columns) == PullStatusPut(old(tables), old(columns), e, status)
    {
      if UpsertsPullStatus(tables, e, status) {
        tables := tables.(pullStatuses := tables.pullStatuses[e.uri := Row(status, true, e.id)]);
        RecomputePullRequestStateAndCounts(status.subject);
      }
    }

    method DeleteRepository(e: Event)
      modifies this`tables, this`columns
      ensures (tables, columns) == RepositoryDeleted(old(tables), old(columns), e)
    {
      var previous := ForkSource(tables.repositories, e.uri);
      tables := tables.(repositories := Bury(tables.repositories, e.uri, RepositoryValue("", None), e.id));
      RefreshedNone(columns.forks, ForkRecounts(tables));
      if previous.Some? {
        RecomputeForkCount(previous.value);
      }
      RecomputeRepositoryCount(e.uri.did);
      RecomputeStarCount(e.uri);
      RecomputeIssueCounts(e.uri);
      RecomputeRepositoryCommentCount(e.uri);
      RecomputePullRequestCounts(e.uri);
    }

    method RecomputeForkCounts(r: Uri, previous: Option<Uri>, forkedFrom: Option<Uri>)
      modifies this`columns
      ensures columns == RefreshForks(tables, old(columns), {r} + Elements(previous) + Elements(forkedFrom))
    {
      ghost var before := columns;
      RefreshedNone(columns.forks, ForkRecounts(tables));
      if previous.Some? && previous != forkedFrom {
        RecomputeForkCount(previous.value);
      }
      ghost var first := if previous != forkedFrom then Elements(previous) else {};
      assert columns == RefreshForks(tables, before, first);
      RefreshedTwice(before.forks, ForkRecounts(tables), first, Elements(forkedFrom));
      RefreshedNone(columns.forks, ForkRecounts(tables));
      if forkedFrom.Some? {
        RecomputeForkCount(forkedFrom.value);
      }
      RefreshedTwice(before.forks, ForkRecounts(tables), first + Elements(forkedFrom), {r});
      RecomputeForkCount(r);
      assert first + Elements(forkedFrom) + {r} == {r} + Elements(previous) + Elements(forkedFrom);
    }

    method PutRepository(e: Event, value: RepositoryValue)
      requires DistinctIdsOf(tables.pullStatuses)
      modifies this`tables, this`columns
      ensures (tables, columns) == RepositoryPut(old(tables), old(columns), e, value)
    {
      var previous := ForkSource(tables.repositories, e.uri);
      tables := tables.(repositories := Upsert(tables.repositories, e.uri, value, e.id));
      RecomputeForkCounts(e.uri, previous, value.forkedFrom);
      RecomputeRepositoryCount(e.uri.did);
      RecomputeStarCount(e.uri);
      RecomputeIssueCounts(e.uri);
      RecomputeRepositoryCommentCount(e.uri);
      RecomputePullRequestStates(PullsAimedAt(tables, e.uri));
      RecomputePullRequestCounts(e.uri);
    }

    method PutProfile(e: Event)
      modifies this`tables, this`columns
      ensures (tables, columns) == ProfilePut(old(tables), old(columns), e)
    {
      tables := tables.(profiles := Upsert(tables.profiles, e.uri.did, (), e.id));
      RecomputeRepositoryCount(e.uri.did);
    }

    method DeleteProfile(e: Event)
      modifies this`tables
      ensures tables == ProfileDeleted(old(tables), e)
      ensures tables == old(tables).(profiles := tables.profiles) && e.uri.did in tables.profiles
      ensures tables.profiles - {e.uri.did} == old(tables.profiles) - {e.uri.did}
      ensures Live(tables.profiles, e.uri.did) <==>
              Live(old(tables.profiles), e.uri.did) && old(tables.profiles)[e.uri.did].eventId >= e.id
      ensures tables.profiles[e.uri.did].eventId >= e.id
    {
      tables := tables.(profiles := Bury(tables.profiles, e.uri.did, (), e.id));
    }

    // --- Projecting one event -------------------------------------------------------------

    method ProjectStar(ghost before: Tables, e: Event)
      requires Valid(e) && e.uri.collection == StarCollection && tables == Begun(before, e)
      modifies this`tables, this`columns
      ensures tables == StarTables(before, e)
      ensures columns == RefreshStars(tables, old(columns), TouchedStars(before, e))
    {
      StarSteps(before, columns, e);
      if e.change.Delete? {
        DeleteStar(e);
      } else {
        PutStar(e, e.change.payload.starred);
      }
    }

    method ProjectIssue(ghost before: Tables, e: Event)
      requires Valid(e) && e.uri.collection == IssueCollection && tables == Begun(before, e)
      requires DistinctIdsOf(tables.issueStatuses)
      modifies this`tables, this`columns
      ensures tables == IssueTables(before, e)
      ensures columns == IssueColumns(tables, old(columns), TouchedIssueStates(before, e), TouchedIssueComments(before, e),
                                      TouchedIssues(before, e), TouchedComments(before, e))
    {
      if e.change.Delete? {
        IssueDeleteSteps(before, columns, e);
        DeleteIssue(e);
      } else {
        IssuePutSteps(before, columns, e);
        PutIssue(e, e.change.payload.repository);
      }
    }

    method ProjectComment(ghost before: Tables, e: Event)
      requires Valid(e) && e.uri.collection == CommentCollection && tables == Begun(before, e)
      modifies this`tables, this`columns
      ensures tables == CommentTables(before, e)
      ensures columns == RefreshBothComments(tables, old(columns), TouchedByComment(before, e))
    {
      if e.change.Delete? {
        CommentDeleteSteps(before, columns, e);
        DeleteComment(e);
      } else {
        var value := CommentValue(e.change.payload.issue, e.change.payload.parent);
        CommentPutSteps(before, columns, e, value);
        PutComment(e, value);
      }
    }

    method ProjectIssueStatus(ghost before: Tables, e: Event)
      requires Valid(e) && e.uri.collection == IssueStatusCollection && tables == Begun(before, e)
      requires DistinctStatuses(tables.issueStatuses, receipts) && e.id !in receipts
      modifies this`tables, this`columns
      ensures tables == IssueStatusTables(before, e)
      ensures columns == RefreshIssueStateAndCounts(tables, old(columns), TouchedByIssueStatus(before, e))
    {
      if e.change.Delete? {
        IssueStatusDeleteSteps(before, columns, e);
        DeleteIssueStatus(e);
      } else {
        IssueStatusPutSteps(before, columns, e, e.change.payload.status);
        PutIssueStatus(e, e.change.payload.status);
      }
    }

    method ProjectPullRequest(ghost before: Tables, e: Event)
      requires Valid(e) && e.uri.collection == PullRequestCollection && tables == Begun(before, e)
      requires DistinctIdsOf(tables.pullStatuses)
      modifies this`tables, this`columns
      ensures tables == PullTables(before, e)
      ensures columns == PullColumns(tables, old(columns), TouchedPullStates(before, e), TouchedPulls(before, e))
    {
      if e.change.Delete? {
        PullDeleteSteps(before, columns, e);
        DeletePullRequest(e);
      } else {
        var value := PullValue(e.change.cid, e.change.payload.target, e.change.payload.origin);
        PullPutSteps(before, columns, e, value);
        PutPullRequest(e, value);
      }
    }

    method ProjectPullRequestStatus(ghost before: Tables, e: Event)
      requires Valid(e) && e.uri.collection == PullRequestStatusCollection && tables == Begun(before, e)
      requires DistinctStatuses(tables.pullStatuses, receipts) && e.id !in receipts
      modifies this`tables, this`columns
      ensures tables == PullStatusTables(before, e)
      ensures columns == RefreshPullStateAndCounts(tables, old(columns), TouchedByPullStatus(before, e))
    {
      if e.change.Delete? {
        PullStatusDeleteSteps(before, columns, e);
        DeletePullRequestStatus(e);
      } else {
        PullStatusPutSteps(before, columns, e, e.change.payload.status);
        PutPullRequestStatus(e, e.change.payload.status);
      }
    }

    method ProjectRepository(ghost before: Tables, e: Event)
      requires Valid(e) && e.uri.collection == RepositoryCollection && tables == Begun(before, e)
      requires DistinctIdsOf(tables.pullStatuses)
      modifies this`tables, this`columns
      ensures tables == Apply(before, e) && columns == Refresh(before, old(columns), e)
    {
      if e.change.Delete? {
        RepositoryDeleteProjected(before, columns, e);
        DeleteRepository(e);
      } else {
        var value := RepositoryValue(e.change.cid, e.change.payload.forkedFrom);
        RepositoryPutProjected(before, columns, e, value);
        PutRepository(e, value);
      }
    }

    method ProjectProfile(ghost before: Tables, e: Event)
      requires Valid(e) && e.uri.collection == ProfileCollection && tables == Begun(before, e)
      modifies this`tables, this`columns
      ensures tables == Apply(before, e) && columns == Refresh(before, old(columns), e)
    {
      if e.change.Delete? {
        ProfileDeleteProjected(before, columns, e);
        DeleteProfile(e);
      } else {
        ProfilePutProjected(before, columns, e);
        PutProfile(e);
      }
    }

    // The branch for the record's collection.
    method ProjectRecord(ghost before: Tables, e: Event)
      requires Valid(e) && Ready() && e.id !in receipts && tables == Begun(before, e)
      modifies this`tables, this`columns
      ensures tables == Apply(before, e) && columns == Refresh(before, old(columns), e)
    {
      match e.uri.collection {
        case StarCollection =>
          StarProjected(before, columns, e);
          ProjectStar(before, e);
        case IssueCollection =>
          IssueProjected(before, columns, e);
          ProjectIssue(before, e);
        case CommentCollection =>
          CommentProjected(before, columns, e);
          ProjectComment(before, e);
        case IssueStatusCollection =>
          IssueStatusProjected(before, columns, e);
          ProjectIssueStatus(before, e);
        case PullRequestCollection =>
          PullProjected(before, columns, e);
          ProjectPullRequest(before, e);
        case PullRequestStatusCollection =>
          PullStatusProjected(before, columns, e);
          ProjectPullRequestStatus(before, e);
        case RepositoryCollection =>
          ProjectRepository(before, e);
        case ProfileCollection =>
          ProjectProfile(before, e);
        case _ =>
          OtherProjected(before, columns, e);
      }
    }

    // The statements of one transaction on a record. Its locks come first,
    // except that the fork and lineage locks are taken just before the
    // repository row is written and the lineages are recounted; no statement in
    // between changes what decides on them.
    method ProjectEvent(e: Event) returns (locks: seq<Lock>)
      requires Valid(e) && Ready() && e.id !in receipts
      modifies this`tables, this`columns
      ensures tables == Apply(old(tables), e) && columns == Project(old(tables), old(columns), e)
      ensures locks == LocksSeeing(old(tables), e)
    {
      locks := TakeLocks(tables, e);
      WriteEvent(e);
    }

    method WriteEvent(e: Event)
      requires Valid(e) && Ready() && e.id !in receipts
      modifies this`tables, this`columns
      ensures tables == Apply(old(tables), e) && columns == Project(old(tables), old(columns), e)
    {
      ghost var before := tables;
      tables := tables.(records := RecordsAfter(tables.records, e));
      ProjectRecord(before, e);
      if RecountsLineages(e) {
        RecomputeLineageCounts();
      }
    }

    // One delivery: its receipt is checked first, and an error rolls back.
    method Store(d: Delivery) returns (duplicate: Result<bool, string>)
      requires Ready() && (d.message.RecordMessage? ==> Valid(d.message.event))
      modifies this
      ensures Ready() && Database() == Stored(old(Database()), d)
      ensures duplicate ==
              if Id(d.message) in old(receipts) then Ok(true)
              else if Commits(old(receipts), d) then Ok(false)
              else Err("project event: missing validated payload")
    {
      var id := Id(d.message);
      if id in receipts {
        return Ok(true);
      }
      if d.rejection == "" {
        match d.message {
          case RecordMessage(event) =>
            StatusesStayDistinct(tables, event, receipts, OutcomeOf(d));
            var _ := ProjectEvent(event);
          case IdentityMessage(_) =>
          case EmptyMessage(_) =>
            return Err("project event: missing validated payload");
        }
      }
      cursor := Advanced(cursor, id);
      receipts := receipts[id := OutcomeOf(d)];
      duplicate := Ok(false);
    }
  }

  // The locks of a transaction during which no other commits.
  ghost function LocksSeeing(t: Tables, e: Event): seq<Lock> {
    TransactionLocks(Views(k => t, k => t, t, t), e)
  }

  method TakeLocks(t: Tables, e: Event) returns (locks: seq<Lock>)
    ensures locks == LocksSeeing(t, e)
  {
    var issueLocks := LockIssueProjection(k => t, e);
    var pullLocks := LockPullRequestProjection(k => t, e);
    var forkLocks := LockForkProjection(t, e);
    locks := issueLocks + pullLocks + StarLocks(t, e) + forkLocks;
    if RecountsLineages(e) {
      locks := locks + [Lock(Lineages, "")];
    }
  }

  // Neither status table ever holds two rows written by one event.
  lemma StatusesStayDistinct(t: Tables, e: Event, receipts: map<int, Outcome>, outcome: Outcome)
    requires e.id !in receipts
    requires DistinctStatuses(t.issueStatuses, receipts) && DistinctStatuses(t.pullStatuses, receipts)
    ensures DistinctStatuses(IssueStatusesAfter(t, e), receipts[e.id := outcome])
    ensures DistinctStatuses(PullStatusesAfter(t, e), receipts[e.id := outcome])
  {
  }

  lemma BothCommentsAdd(t: Tables, c: Columns, a: set<Uri>, b: set<Uri>)
    ensures RefreshBothComments(t, RefreshBothComments(t, c, a), b) == RefreshBothComments(t, c, a + b)
  {
    RefreshedTwice(c.issueComments, IssueCommentRecounts(t), a, b);
    RefreshedTwice(c.comments, CommentRecounts(t), RepositoriesOfIssues(t, a), RepositoriesOfIssues(t, b));
    RepositoriesAdd(t, a, b);
  }

  lemma RepositoriesAdd(t: Tables, a: set<Uri>, b: set<Uri>)
    ensures RepositoriesOfIssues(t, a + b) == RepositoriesOfIssues(t, a) + RepositoriesOfIssues(t, b)
  {
  }

  lemma MovedIssue(t: Tables, c: Columns, a: Uri, b: Uri)
    ensures RefreshComments(t, RefreshComments(t, RefreshIssues(t, RefreshIssues(t, c, {a}), {b}), {b}), {a}) ==
            RefreshComments(t, RefreshIssues(t, c, {a, b}), {a, b})
  {
    assert {a} + {b} == {a, b} == {b} + {a};
    RefreshedTwice(c.issues, IssueRecounts(t), {a}, {b});
    RefreshedTwice(c.openIssues, OpenIssueRecounts(t, c.issueStates), {a}, {b});
    RefreshedTwice(c.comments, CommentRecounts(t), {b}, {a});
  }
}
