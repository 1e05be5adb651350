// What the projection of one record does after the raw record was written, as
// a function of the tables and columns at that point, and proof that these
// steps add up to Apply and Refresh.
module FederationSteps {
  import opened Options
  import opened FederationTables
  import opened FederationCounts
  import opened FederationQuiet

  predicate Upserts<V>(t: Tables, rows: map<Uri, Row<V>>, e: Event) {
    Names(t.records, e) && Fresh(rows, e.uri, e.id)
  }

  predicate Tombstones<V>(t: Tables, rows: map<Uri, Row<V>>, e: Event) {
    Names(t.records, e) && e.uri in rows && rows[e.uri].eventId < e.id
  }

  // The tables at the start of a step.
  function Begun(t: Tables, e: Event): Tables { t.(records := RecordsAfter(t.records, e)) }

  function RefreshStars(t: Tables, c: Columns, keys: set<Uri>): Columns {
    c.(stars := Refreshed(c.stars, StarRecounts(t), keys))
  }

  function RefreshIssues(t: Tables, c: Columns, keys: set<Uri>): Columns {
    c.(issues := Refreshed(c.issues, IssueRecounts(t), keys),
       openIssues := Refreshed(c.openIssues, OpenIssueRecounts(t, c.issueStates), keys))
  }

  function RefreshComments(t: Tables, c: Columns, keys: set<Uri>): Columns {
    c.(comments := Refreshed(c.comments, CommentRecounts(t), keys))
  }

  function RefreshIssueComments(t: Tables, c: Columns, keys: set<Uri>): Columns {
    c.(issueComments := Refreshed(c.issueComments, IssueCommentRecounts(t), keys))
  }

  function RefreshForks(t: Tables, c: Columns, keys: set<Uri>): Columns {
    c.(forks := Refreshed(c.forks, ForkRecounts(t), keys))
  }

  function RefreshPulls(t: Tables, c: Columns, keys: set<Uri>): Columns {
    c.(pulls := Refreshed(c.pulls, PullRecounts(t), keys),
       openPulls := Refreshed(c.openPulls, OpenPullRecounts(t, c.pullStates), keys))
  }

  function RefreshOwned(t: Tables, c: Columns, keys: set<string>): Columns {
    c.(owned := Refreshed(c.owned, OwnedRecounts(t), keys))
  }

  ghost function RefreshIssueStates(t: Tables, c: Columns, keys: set<Uri>): Columns {
    c.(issueStates := Refreshed(c.issueStates, IssueStatesNow(t), keys))
  }

  ghost function RefreshPullStates(t: Tables, c: Columns, keys: set<Uri>): Columns {
    c.(pullStates := Refreshed(c.pullStates, PullStatesNow(t), keys))
  }

  // A comment count and the count of the repository behind the issue.
  function RefreshBothComments(t: Tables, c: Columns, issues: set<Uri>): Columns {
    RefreshComments(t, RefreshIssueComments(t, c, issues), RepositoriesOfIssues(t, issues))
  }

  // --- Stars -------------------------------------------------------------------

  function StarDeleted(t: Tables, c: Columns, e: Event): (Tables, Columns) {
    if !Tombstones(t, t.stars, e) then (t, c)
    else
      var t' := t.(stars := Kill(t.stars, e.uri, e.id));
      (t', RefreshStars(t', c, {t.stars[e.uri].value}))
  }

  function StarPut(t: Tables, c: Columns, e: Event, repository: Uri): (Tables, Columns) {
    if !Upserts(t, t.stars, e) then (t, c)
    else
      var t' := t.(stars := t.stars[e.uri := Row(repository, true, e.id)]);
      (t', RefreshStars(t', c, {repository}))
  }

  // The tables and columns after a star event, without those it leaves alone.
  function StarTables(t: Tables, e: Event): Tables {
    t.(records := RecordsAfter(t.records, e), stars := StarsAfter(t, e))
  }

  lemma StarSteps(t: Tables, c: Columns, e: Event)
    requires Valid(e) && e.uri.collection == StarCollection
    ensures
      var t' := StarTables(t, e);
      (t', RefreshStars(t', c, TouchedStars(t, e))) ==
        if e.change.Put? then StarPut(Begun(t, e), c, e, e.change.payload.starred) else StarDeleted(Begun(t, e), c, e)
  {
    RefreshedNone(c.stars, StarRecounts(StarTables(t, e)));
  }

  lemma StarProjected(t: Tables, c: Columns, e: Event)
    requires Valid(e) && e.uri.collection == StarCollection
    ensures Apply(t, e) == StarTables(t, e)
    ensures Refresh(t, c, e) == RefreshStars(StarTables(t, e), c, TouchedStars(t, e))
  {
    StarEventTables(t, e);
    StarEventColumns(t, c, e);
  }

  // --- Issues ------------------------------------------------------------------

  function IssueDeleted(t: Tables, c: Columns, e: Event): (Tables, Columns) {
    if !Tombstones(t, t.issues, e) then (t, c)
    else
      var t' := t.(issues := Kill(t.issues, e.uri, e.id));
      var repository := t.issues[e.uri].value;
      (t', RefreshComments(t', RefreshIssues(t', c, {repository}), {repository}))
  }

  ghost function IssuePut(t: Tables, c: Columns, e: Event, repository: Uri): (Tables, Columns) {
    if !Upserts(t, t.issues, e) then (t, c)
    else
      var t' := t.(issues := t.issues[e.uri := Row(repository, true, e.id)]);
      var both := BothRepositories(t, e, repository);
      var c' := RefreshIssueComments(t', RefreshIssueStates(t', c, {e.uri}), {e.uri});
      (t', RefreshComments(t', RefreshIssues(t', c', both), both))
  }

  function IssueTables(t: Tables, e: Event): Tables {
    t.(records := RecordsAfter(t.records, e), issues := IssuesAfter(t, e))
  }

  ghost function IssueColumns(t: Tables, c: Columns, states: set<Uri>, issueComments: set<Uri>, issues: set<Uri>, comments: set<Uri>): Columns {
    var c' := RefreshIssueComments(t, RefreshIssueStates(t, c, states), issueComments);
    RefreshComments(t, RefreshIssues(t, c', issues), comments)
  }

  lemma IssueColumnsNone(t: Tables, c: Columns)
    ensures IssueColumns(t, c, {}, {}, {}, {}) == c
    ensures forall r :: IssueColumns(t, c, {}, {}, {r}, {r}) == RefreshComments(t, RefreshIssues(t, c, {r}), {r})
  {
    RefreshedNone(c.issues, IssueRecounts(t));
    RefreshedNone(c.openIssues, OpenIssueRecounts(t, c.issueStates));
    RefreshedNone(c.comments, CommentRecounts(t));
    RefreshedNone(c.issueComments, IssueCommentRecounts(t));
    RefreshedNone(c.issueStates, IssueStatesNow(t));
  }

  lemma IssueDeleteTouches(t: Tables, e: Event)
    requires Valid(e) && IsDelete(e, IssueCollection)
    ensures TouchedIssueStates(t, e) == {} && TouchedIssueComments(t, e) == {}
    ensures TouchedIssues(t, e) == TouchedComments(t, e) ==
            if !Tombstones(Begun(t, e), t.issues, e) then {} else {t.issues[e.uri].value}
    ensures IssueTables(t, e) ==
            if !Tombstones(Begun(t, e), t.issues, e) then Begun(t, e) else Begun(t, e).(issues := Kill(t.issues, e.uri, e.id))
  {
  }

  lemma IssueDeleteSteps(t: Tables, c: Columns, e: Event)
    requires Valid(e) && IsDelete(e, IssueCollection)
    ensures
      var t' := IssueTables(t, e);
      IssueDeleted(Begun(t, e), c, e) ==
        (t', IssueColumns(t', c, TouchedIssueStates(t, e), TouchedIssueComments(t, e), TouchedIssues(t, e), TouchedComments(t, e)))
  {
    IssueDeleteTouches(t, e);
    IssueColumnsNone(IssueTables(t, e), c);
  }

  // The repositories whose counts an applied issue version changes.
  function BothRepositories(t: Tables, e: Event, repository: Uri): set<Uri> {
    {repository} + (if e.uri in t.issues then {t.issues[e.uri].value} else {})
  }

  lemma IssuePutTouches(t: Tables, e: Event)
    requires Valid(e) && IsPut(e, IssueCollection)
    ensures Upserts(Begun(t, e), t.issues, e) ==>
              && TouchedIssueStates(t, e) == TouchedIssueComments(t, e) == {e.uri}
              && TouchedIssues(t, e) == TouchedComments(t, e) == BothRepositories(t, e, e.change.payload.repository)
    ensures !Upserts(Begun(t, e), t.issues, e) ==>
              TouchedIssueStates(t, e) == TouchedIssueComments(t, e) == TouchedIssues(t, e) == TouchedComments(t, e) == {}
  {
  }

  lemma IssuePutTables(t: Tables, e: Event)
    requires Valid(e) && IsPut(e, IssueCollection)
    ensures IssueTables(t, e) ==
            if !Upserts(Begun(t, e), t.issues, e) then Begun(t, e)
            else Begun(t, e).(issues := t.issues[e.uri := Row(e.change.payload.repository, true, e.id)])
  {
  }

  lemma IssuePutSteps(t: Tables, c: Columns, e: Event)
    requires Valid(e) && IsPut(e, IssueCollection)
    ensures
      var t' := IssueTables(t, e);
      IssuePut(Begun(t, e), c, e, e.change.payload.repository) ==
        (t', IssueColumns(t', c, TouchedIssueStates(t, e), TouchedIssueComments(t, e), TouchedIssues(t, e), TouchedComments(t, e)))
  {
    IssuePutTouches(t, e);
    IssuePutTables(t, e);
    if !Upserts(Begun(t, e), t.issues, e) {
      IssueColumnsNone(IssueTables(t, e), c);
    }
  }

  lemma IssueProjected(t: Tables, c: Columns, e: Event)
    requires Valid(e) && e.uri.collection == IssueCollection
    ensures Apply(t, e) == IssueTables(t, e)
    ensures Refresh(t, c, e) == IssueColumns(IssueTables(t, e), c, TouchedIssueStates(t, e), TouchedIssueComments(t, e),
                                             TouchedIssues(t, e), TouchedComments(t, e))
  {
    IssueEventTables(t, e);
    IssueEventColumns(t, c, e);
  }

  // --- Comments ----------------------------------------------------------------

  function CommentDeleted(t: Tables, c: Columns, e: Event): (Tables, Columns) {
    if !Tombstones(t, t.comments, e) then (t, c)
    else
      var t' := t.(comments := Kill(t.comments, e.uri, e.id));
      (t', RefreshBothComments(t', c, {t.comments[e.uri].value.issue} + ChildIssues(t.comments, e.uri)))
  }

  predicate UpsertsComment(t: Tables, e: Event, value: CommentValue) {
    Upserts(t, t.comments, e) && (e.uri in t.comments ==> t.comments[e.uri].value == value)
  }

  function CommentPut(t: Tables, c: Columns, e: Event, value: CommentValue): (Tables, Columns) {
    if !UpsertsComment(t, e, value) then (t, c)
    else
      var t' := t.(comments := t.comments[e.uri := Row(value, true, e.id)]);
      (t', RefreshBothComments(t', c, {value.issue} + ChildIssues(t.comments, e.uri)))
  }

  function CommentTables(t: Tables, e: Event): Tables {
    t.(records := RecordsAfter(t.records, e), comments := CommentsAfter(t, e))
  }

  lemma CommentDeleteTouches(t: Tables, e: Event)
    requires Valid(e) && IsDelete(e, CommentCollection)
    ensures TouchedByComment(t, e) ==
            if !Tombstones(Begun(t, e), t.comments, e) then {}
            else {t.comments[e.uri].value.issue} + ChildIssues(t.comments, e.uri)
    ensures TouchedIssueComments(t, e) == TouchedByComment(t, e)
    ensures TouchedComments(t, e) == RepositoriesOfIssues(t, TouchedByComment(t, e))
    ensures CommentTables(t, e) ==
            if !Tombstones(Begun(t, e), t.comments, e) then Begun(t, e)
            else Begun(t, e).(comments := Kill(t.comments, e.uri, e.id))
  {
  }

  lemma CommentPutTouches(t: Tables, e: Event, value: CommentValue)
    requires Valid(e) && e.change.Put? && e.change.payload == Comment(value.issue, value.parent)
    ensures TouchedByComment(t, e) ==
            if !UpsertsComment(Begun(t, e), e, value) then {} else {value.issue} + ChildIssues(t.comments, e.uri)
    ensures TouchedIssueComments(t, e) == TouchedByComment(t, e)
    ensures TouchedComments(t, e) == RepositoriesOfIssues(t, TouchedByComment(t, e))
    ensures CommentTables(t, e) ==
            if !UpsertsComment(Begun(t, e), e, value) then Begun(t, e)
            else Begun(t, e).(comments := t.comments[e.uri := Row(value, true, e.id)])
  {
  }

  lemma BothCommentsNone(t: Tables, c: Columns)
    ensures RefreshBothComments(t, c, {}) == c
  {
    assert RepositoriesOfIssues(t, {}) == {};
    RefreshedNone(c.comments, CommentRecounts(t));
    RefreshedNone(c.issueComments, IssueCommentRecounts(t));
  }

  lemma CommentDeleteSteps(t: Tables, c: Columns, e: Event)
    requires Valid(e) && IsDelete(e, CommentCollection)
    ensures CommentDeleted(Begun(t, e), c, e) == (CommentTables(t, e), RefreshBothComments(CommentTables(t, e), c, TouchedByComment(t, e)))
  {
    CommentDeleteTouches(t, e);
    BothCommentsNone(CommentTables(t, e), c);
  }

  lemma CommentPutSteps(t: Tables, c: Columns, e: Event, value: CommentValue)
    requires Valid(e) && e.change.Put? && e.change.payload == Comment(value.issue, value.parent)
    ensures CommentPut(Begun(t, e), c, e, value) == (CommentTables(t, e), RefreshBothComments(CommentTables(t, e), c, TouchedByComment(t, e)))
  {
    CommentPutTouches(t, e, value);
    BothCommentsNone(CommentTables(t, e), c);
  }

  lemma CommentProjected(t: Tables, c: Columns, e: Event)
    requires Valid(e) && e.uri.collection == CommentCollection
    ensures Apply(t, e) == CommentTables(t, e)
    ensures Refresh(t, c, e) == RefreshBothComments(CommentTables(t, e), c, TouchedByComment(t, e))
  {
    CommentEventTables(t, e);
    CommentEventColumns(t, c, e);
    CommentTouches(t, e);
    assert RepositoriesOfIssues(CommentTables(t, e), TouchedByComment(t, e)) == RepositoriesOfIssues(t, TouchedByComment(t, e));
  }

  lemma CommentTouches(t: Tables, e: Event)
    requires Valid(e) && e.uri.collection == CommentCollection
    ensures TouchedIssueComments(t, e) == TouchedByComment(t, e)
    ensures TouchedComments(t, e) == RepositoriesOfIssues(t, TouchedByComment(t, e))
  {
  }

  // --- Issue statuses ------------------------------------------------------------

  // The state of an issue and the counts of its repository.
  ghost function RefreshIssueStateAndCounts(t: Tables, c: Columns, issues: set<Uri>): Columns {
    RefreshIssues(t, RefreshIssueStates(t, c, issues), RepositoriesOfIssues(t, issues))
  }

  ghost function IssueStatusDeleted(t: Tables, c: Columns, e: Event): (Tables, Columns) {
    if !Tombstones(t, t.issueStatuses, e) then (t, c)
    else
      var t' := t.(issueStatuses := Kill(t.issueStatuses, e.uri, e.id));
      (t', RefreshIssueStateAndCounts(t', c, {t.issueStatuses[e.uri].value.subject}))
  }

  ghost function IssueStatusPut(t: Tables, c: Columns, e: Event, status: StatusValue): (Tables, Columns) {
    if !Upserts(t, t.issueStatuses, e) then (t, c)
    else
      var t' := t.(issueStatuses := t.issueStatuses[e.uri := Row(status, true, e.id)]);
      (t', RefreshIssueStateAndCounts(t', c, {status.subject}))
  }

  function IssueStatusTables(t: Tables, e: Event): Tables {
    t.(records := RecordsAfter(t.records, e), issueStatuses := IssueStatusesAfter(t, e))
  }

  lemma IssueStatusTouches(t: Tables, e: Event)
    requires Valid(e) && e.uri.collection == IssueStatusCollection
    ensures TouchedIssueStates(t, e) == TouchedByIssueStatus(t, e)
    ensures TouchedIssues(t, e) == RepositoriesOfIssues(t, TouchedByIssueStatus(t, e))
  {
  }

  lemma IssueStateAndCountsNone(t: Tables, c: Columns)
    ensures RefreshIssueStateAndCounts(t, c, {}) == c
  {
    assert RepositoriesOfIssues(t, {}) == {};
    RefreshedNone(c.issues, IssueRecounts(t));
    RefreshedNone(c.openIssues, OpenIssueRecounts(t, c.issueStates));
    RefreshedNone(c.issueStates, IssueStatesNow(t));
  }

  lemma IssueStatusDeleteTouches(t: Tables, e: Event)
    requires Valid(e) && IsDelete(e, IssueStatusCollection)
    ensures TouchedByIssueStatus(t, e) ==
            if !Tombstones(Begun(t, e), t.issueStatuses, e) then {} else {t.issueStatuses[e.uri].value.subject}
    ensures IssueStatusTables(t, e) ==
            if !Tombstones(Begun(t, e), t.issueStatuses, e) then Begun(t, e)
            else Begun(t, e).(issueStatuses := Kill(t.issueStatuses, e.uri, e.id))
  {
  }

  lemma IssueStatusPutTouches(t: Tables, e: Event, status: StatusValue)
    requires Valid(e) && e.change.Put? && e.change.payload == IssueStatus(status)
    ensures TouchedByIssueStatus(t, e) == if !Upserts(Begun(t, e), t.issueStatuses, e) then {} else {status.subject}
    ensures IssueStatusTables(t, e) ==
            if !Upserts(Begun(t, e), t.issueStatuses, e) then Begun(t, e)
            else Begun(t, e).(issueStatuses := t.issueStatuses[e.uri := Row(status, true, e.id)])
  {
  }

  lemma IssueStatusDeleteSteps(t: Tables, c: Columns, e: Event)
    requires Valid(e) && IsDelete(e, IssueStatusCollection)
    ensures IssueStatusDeleted(Begun(t, e), c, e) ==
            (IssueStatusTables(t, e), RefreshIssueStateAndCounts(IssueStatusTables(t, e), c, TouchedByIssueStatus(t, e)))
  {
    IssueStatusDeleteTouches(t, e);
    IssueStateAndCountsNone(IssueStatusTables(t, e), c);
  }

  lemma IssueStatusPutSteps(t: Tables, c: Columns, e: Event, status: StatusValue)
    requires Valid(e) && e.change.Put? && e.change.payload == IssueStatus(status)
    ensures IssueStatusPut(Begun(t, e), c, e, status) ==
            (IssueStatusTables(t, e), RefreshIssueStateAndCounts(IssueStatusTables(t, e), c, TouchedByIssueStatus(t, e)))
  {
    IssueStatusPutTouches(t, e, status);
    IssueStateAndCountsNone(IssueStatusTables(t, e), c);
  }

  lemma IssueStatusProjected(t: Tables, c: Columns, e: Event)
    requires Valid(e) && e.uri.collection == IssueStatusCollection
    ensures Apply(t, e) == IssueStatusTables(t, e)
    ensures Refresh(t, c, e) == RefreshIssueStateAndCounts(IssueStatusTables(t, e), c, TouchedByIssueStatus(t, e))
  {
    IssueStatusEventTables(t, e);
    IssueStatusEventColumns(t, c, e);
    IssueStatusTouches(t, e);
    assert RepositoriesOfIssues(IssueStatusTables(t, e), TouchedByIssueStatus(t, e)) == RepositoriesOfIssues(t, TouchedByIssueStatus(t, e));
  }

  // --- Pull requests ---------------------------------------------------------------

  function PullDeleted(t: Tables, c: Columns, e: Event): (Tables, Columns) {
    if !Tombstones(t, t.pulls, e) then (t, c)
    else
      var t' := t.(pulls := Kill(t.pulls, e.uri, e.id));
      (t', RefreshPulls(t', c, {t.pulls[e.uri].value.target}))
  }

  predicate UpsertsPull(t: Tables, e: Event, value: PullValue) {
    Upserts(t, t.pulls, e) &&
    (e.uri in t.pulls ==> t.pulls[e.uri].value.target == value.target && t.pulls[e.uri].value.origin == value.origin)
  }

  ghost function PullPut(t: Tables, c: Columns, e: Event, value: PullValue): (Tables, Columns) {
    if !UpsertsPull(t, e, value) then (t, c)
    else
      var t' := t.(pulls := t.pulls[e.uri := Row(value, true, e.id)]);
      (t', RefreshPulls(t', RefreshPullStates(t', c, {e.uri}), {value.target}))
  }

  function PullTables(t: Tables, e: Event): Tables {
    t.(records := RecordsAfter(t.records, e), pulls := PullsAfter(t, e))
  }

  ghost function PullColumns(t: Tables, c: Columns, states: set<Uri>, targets: set<Uri>): Columns {
    RefreshPulls(t, RefreshPullStates(t, c, states), targets)
  }

  lemma PullColumnsNone(t: Tables, c: Columns)
    ensures PullColumns(t, c, {}, {}) == c
    ensures forall r :: PullColumns(t, c, {}, {r}) == RefreshPulls(t, c, {r})
  {
    RefreshedNone(c.pulls, PullRecounts(t));
    RefreshedNone(c.openPulls, OpenPullRecounts(t, c.pullStates));
    RefreshedNone(c.pullStates, PullStatesNow(t));
  }

  lemma PullDeleteTouches(t: Tables, e: Event)
    requires Valid(e) && IsDelete(e, PullRequestCollection)
    ensures TouchedPullStates(t, e) == {}
    ensures TouchedPulls(t, e) == if !Tombstones(Begun(t, e), t.pulls, e) then {} else {t.pulls[e.uri].value.target}
    ensures PullTables(t, e) ==
            if !Tombstones(Begun(t, e), t.pulls, e) then Begun(t, e) else Begun(t, e).(pulls := Kill(t.pulls, e.uri, e.id))
  {
  }

  lemma PullPutTouches(t: Tables, e: Event, value: PullValue)
    requires Valid(e) && e.change == Put(value.cid, PullRequest(value.target, value.origin))
    ensures TouchedPullStates(t, e) == if !UpsertsPull(Begun(t, e), e, value) then {} else {e.uri}
    ensures TouchedPulls(t, e) == if !UpsertsPull(Begun(t, e), e, value) then {} else {value.target}
    ensures PullTables(t, e) ==
            if !UpsertsPull(Begun(t, e), e, value) then Begun(t, e)
            else Begun(t, e).(pulls := t.pulls[e.uri := Row(value, true, e.id)])
  {
  }

  lemma PullDeleteSteps(t: Tables, c: Columns, e: Event)
    requires Valid(e) && IsDelete(e, PullRequestCollection)
    ensures PullDeleted(Begun(t, e), c, e) ==
            (PullTables(t, e), PullColumns(PullTables(t, e), c, TouchedPullStates(t, e), TouchedPulls(t, e)))
  {
    PullDeleteTouches(t, e);
    PullColumnsNone(PullTables(t, e), c);
  }

  lemma PullPutSteps(t: Tables, c: Columns, e: Event, value: PullValue)
    requires Valid(e) && e.change == Put(value.cid, PullRequest(value.target, value.origin))
    ensures PullPut(Begun(t, e), c, e, value) ==
            (PullTables(t, e), PullColumns(PullTables(t, e), c, TouchedPullStates(t, e), TouchedPulls(t, e)))
  {
    PullPutTouches(t, e, value);
    PullColumnsNone(PullTables(t, e), c);
  }

  lemma PullProjected(t: Tables, c: Columns, e: Event)
    requires Valid(e) && e.uri.collection == PullRequestCollection
    ensures Apply(t, e) == PullTables(t, e)
    ensures Refresh(t, c, e) == PullColumns(PullTables(t, e), c, TouchedPullStates(t, e), TouchedPulls(t, e))
  {
    PullRequestEventTables(t, e);
    PullRequestEventColumns(t, c, e);
  }

  // --- Pull request statuses ---------------------------------------------------------

  ghost function RefreshPullStateAndCounts(t: Tables, c: Columns, pulls: set<Uri>): Columns {
    PullColumns(t, c, pulls, TargetsOf(t, pulls))
  }

  ghost function PullStatusDeleted(t: Tables, c: Columns, e: Event): (Tables, Columns) {
    if !Tombstones(t, t.pullStatuses, e) then (t, c)
    else
      var t' := t.(pullStatuses := Kill(t.pullStatuses, e.uri, e.id));
      (t', RefreshPullStateAndCounts(t', c, {t.pullStatuses[e.uri].value.subject}))
  }

  predicate UpsertsPullStatus(t: Tables, e: Event, status: StatusValue) {
    Upserts(t, t.pullStatuses, e) &&
    (e.uri in t.pullStatuses ==>
      && t.pullStatuses[e.uri].value.subject == status.subject
      && t.pullStatuses[e.uri].value.repository == status.repository)
  }

  ghost function PullStatusPut(t: Tables, c: Columns, e: Event, status: StatusValue): (Tables, Columns) {
    if !UpsertsPullStatus(t, e, status) then (t, c)
    else
      var t' := t.(pullStatuses := t.pullStatuses[e.uri := Row(status, true, e.id)]);
      (t', RefreshPullStateAndCounts(t', c, {status.subject}))
  }

  function PullStatusTables(t: Tables, e: Event): Tables {
    t.(records := RecordsAfter(t.records, e), pullStatuses := PullStatusesAfter(t, e))
  }

  lemma PullStatusTouches(t: Tables, e: Event)
    requires Valid(e) && e.uri.collection == PullRequestStatusCollection
    ensures TouchedPullStates(t, e) == TouchedByPullStatus(t, e)
    ensures TouchedPulls(t, e) == TargetsOf(t, TouchedByPullStatus(t, e))
  {
  }

  lemma PullStatusDeleteTouches(t: Tables, e: Event)
    requires Valid(e) && IsDelete(e, PullRequestStatusCollection)
    ensures TouchedByPullStatus(t, e) ==
            if !Tombstones(Begun(t, e), t.pullStatuses, e) then {} else {t.pullStatuses[e.uri].value.subject}
    ensures PullStatusTables(t, e) ==
            if !Tombstones(Begun(t, e), t.pullStatuses, e) then Begun(t, e)
            else Begun(t, e).(pullStatuses := Kill(t.pullStatuses, e.uri, e.id))
  {
  }

  lemma PullStatusPutTouches(t: Tables, e: Event, status: StatusValue)
    requires Valid(e) && e.change.Put? && e.change.payload == PullRequestStatus(status)
    ensures TouchedByPullStatus(t, e) == if !UpsertsPullStatus(Begun(t, e), e, status) then {} else {status.subject}
    ensures PullStatusTables(t, e) ==
            if !UpsertsPullStatus(Begun(t, e), e, status) then Begun(t, e)
            else Begun(t, e).(pullStatuses := t.pullStatuses[e.uri := Row(status, true, e.id)])
  {
  }

  lemma PullStateAndCountsNone(t: Tables, c: Columns)
    ensures RefreshPullStateAndCounts(t, c, {}) == c
  {
    assert TargetsOf(t, {}) == {};
    PullColumnsNone(t, c);
  }

  lemma PullStatusDeleteSteps(t: Tables, c: Columns, e: Event)
    requires Valid(e) && IsDelete(e, PullRequestStatusCollection)
    ensures PullStatusDeleted(Begun(t, e), c, e) ==
            (PullStatusTables(t, e), RefreshPullStateAndCounts(PullStatusTables(t, e), c, TouchedByPullStatus(t, e)))
  {
    PullStatusDeleteTouches(t, e);
    PullStateAndCountsNone(PullStatusTables(t, e), c);
  }

  lemma PullStatusPutSteps(t: Tables, c: Columns, e: Event, status: StatusValue)
    requires Valid(e) && e.change.Put? && e.change.payload == PullRequestStatus(status)
    ensures PullStatusPut(Begun(t, e), c, e, status) ==
            (PullStatusTables(t, e), RefreshPullStateAndCounts(PullStatusTables(t, e), c, TouchedByPullStatus(t, e)))
  {
    PullStatusPutTouches(t, e, status);
    PullStateAndCountsNone(PullStatusTables(t, e), c);
  }

  lemma PullStatusProjected(t: Tables, c: Columns, e: Event)
    requires Valid(e) && e.uri.collection == PullRequestStatusCollection
    ensures Apply(t, e) == PullStatusTables(t, e)
    ensures Refresh(t, c, e) == RefreshPullStateAndCounts(PullStatusTables(t, e), c, TouchedByPullStatus(t, e))
  {
    PullRequestStatusEventTables(t, e);
    PullRequestStatusEventColumns(t, c, e);
    PullStatusTouches(t, e);
    assert TargetsOf(PullStatusTables(t, e), TouchedByPullStatus(t, e)) == TargetsOf(t, TouchedByPullStatus(t, e));
  }

  // --- Repositories --------------------------------------------------------------------

  function RepositoryTables(t: Tables, e: Event): Tables {
    t.(records := RecordsAfter(t.records, e), repositories := RepositoriesAfter(t, e))
  }

  // The counts that any event of repository `r` refreshes.
  function RefreshOwn(t: Tables, c: Columns, r: Uri): Columns {
    RefreshComments(t, RefreshIssues(t, RefreshStars(t, RefreshOwned(t, c, {r.did}), {r}), {r}), {r})
  }

  function PullsAimedAt(t: Tables, r: Uri): set<Uri> { set p | p in t.pulls && t.pulls[p].value.target == r }

  function RepositoryDeleted(t: Tables, c: Columns, e: Event): (Tables, Columns) {
    var t' := t.(repositories := Bury(t.repositories, e.uri, RepositoryValue("", None), e.id));
    (t', RefreshPulls(t', RefreshOwn(t', RefreshForks(t', c, Elements(ForkSource(t.repositories, e.uri))), e.uri), {e.uri}))
  }

  ghost function RepositoryPut(t: Tables, c: Columns, e: Event, value: RepositoryValue): (Tables, Columns) {
    var t' := t.(repositories := Upsert(t.repositories, e.uri, value, e.id));
    var forks := {e.uri} + Elements(ForkSource(t.repositories, e.uri)) + Elements(value.forkedFrom);
    (t', PullColumns(t', RefreshOwn(t', RefreshForks(t', c, forks), e.uri), PullsAimedAt(t', e.uri), {e.uri}))
  }

  lemma RepositoryTouches(t: Tables, e: Event)
    requires Valid(e) && e.uri.collection == RepositoryCollection
    ensures TouchedStars(t, e) == TouchedIssues(t, e) == TouchedComments(t, e) == TouchedPulls(t, e) == {e.uri}
    ensures TouchedOwned(e) == {e.uri.did}
    ensures TouchedPullStates(t, e) == if e.change.Put? then PullsAimedAt(t, e.uri) else {}
    ensures TouchedForks(t, e) == Elements(ForkSource(t.repositories, e.uri)) +
              if e.change.Put? then {e.uri} + Elements(e.change.payload.forkedFrom) else {}
  {
  }

  lemma RepositoryDeleteProjected(t: Tables, c: Columns, e: Event)
    requires Valid(e) && IsDelete(e, RepositoryCollection)
    ensures (Apply(t, e), Refresh(t, c, e)) == RepositoryDeleted(Begun(t, e), c, e)
  {
    RepositoryEventTables(t, e);
    RepositoryEventColumns(t, c, e);
    RepositoryTouches(t, e);
    RefreshedNone(c.pullStates, PullStatesNow(RepositoryTables(t, e)));
  }

  lemma RepositoryPutProjected(t: Tables, c: Columns, e: Event, value: RepositoryValue)
    requires Valid(e) && e.change == Put(value.cid, Repository(value.forkedFrom))
    ensures (Apply(t, e), Refresh(t, c, e)) == RepositoryPut(Begun(t, e), c, e, value)
  {
    RepositoryEventTables(t, e);
    RepositoryEventColumns(t, c, e);
    RepositoryTouches(t, e);
  }

  // --- Profiles and all others -----------------------------------------------------------

  function ProfilePut(t: Tables, c: Columns, e: Event): (Tables, Columns) {
    var t' := t.(profiles := Upsert(t.profiles, e.uri.did, (), e.id));
    (t', RefreshOwned(t', c, {e.uri.did}))
  }

  function ProfileDeleted(t: Tables, e: Event): Tables {
    t.(profiles := Bury(t.profiles, e.uri.did, (), e.id))
  }

  lemma ProfilePutProjected(t: Tables, c: Columns, e: Event)
    requires Valid(e) && IsPut(e, ProfileCollection)
    ensures (Apply(t, e), Refresh(t, c, e)) == ProfilePut(Begun(t, e), c, e)
  {
    ProfileEventTables(t, e);
    ProfileEventColumns(t, c, e);
  }

  lemma ProfileDeleteProjected(t: Tables, c: Columns, e: Event)
    requires Valid(e) && IsDelete(e, ProfileCollection)
    ensures (Apply(t, e), Refresh(t, c, e)) == (ProfileDeleted(Begun(t, e), e), c)
  {
    ProfileEventTables(t, e);
    ProfileEventColumns(t, c, e);
    RefreshedNone(c.owned, OwnedRecounts(Apply(t, e)));
  }

  lemma OtherProjected(t: Tables, c: Columns, e: Event)
    requires Valid(e) && (e.uri.collection == OrganizationCollection || e.uri.collection.OtherCollection?)
    ensures (Apply(t, e), Refresh(t, c, e)) == (Begun(t, e), c)
  {
    OtherEventTables(t, e);
    OtherEventColumns(t, c, e);
  }
}
