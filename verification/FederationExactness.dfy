// Refreshing only the keys an event touches keeps the derived columns equal to
// a full recount.
module FederationExactness {
  import opened Options
  import opened FederationTables
  import opened FederationCounts

  // A star and an issue status live under a record key derived from the URI
  // they name, so one such URI names the same repository or issue for ever.
  // `key` is that derivation read backwards.
  predicate KeyedEvent(e: Event, key: Uri -> Uri) {
    e.change.Put? ==>
      && (e.change.payload.Star? ==> e.change.payload.starred == key(e.uri))
      && (e.change.payload.IssueStatus? ==> e.change.payload.status.subject == key(e.uri))
  }

  ghost predicate Keyed(rows: map<Uri, Row<Uri>>, key: Uri -> Uri) {
    forall s | s in rows :: rows[s].value == key(s)
  }

  lemma StarsStay(t: Tables, e: Event, key: Uri -> Uri, r: Uri)
    requires Valid(e) && KeyedEvent(e, key) && Keyed(t.stars, key)
    requires r !in TouchedStars(t, e)
    ensures StarAuthors(StarsAfter(t, e), r) == StarAuthors(t.stars, r)
  {
  }

  lemma IssuesStay(t: Tables, e: Event, r: Uri)
    requires Valid(e) && r !in TouchedByIssue(t, e)
    ensures IssuesOf(IssuesAfter(t, e), r) == IssuesOf(t.issues, r)
  {
  }

  lemma PullsStay(t: Tables, e: Event, r: Uri)
    requires Valid(e) && r !in TouchedPulls(t, e)
    ensures PullsOf(PullsAfter(t, e), r) == PullsOf(t.pulls, r)
  {
  }

  lemma ForksStay(t: Tables, e: Event, r: Uri)
    requires Valid(e) && r !in TouchedForks(t, e)
    ensures ForksOf(RepositoriesAfter(t, e), r) == ForksOf(t.repositories, r)
  {
  }

  lemma OwnedStay(t: Tables, e: Event, did: string)
    requires Valid(e) && did !in TouchedOwned(e)
    ensures OwnedBy(RepositoriesAfter(t, e), did) == OwnedBy(t.repositories, did)
  {
  }

  lemma IssueCommentsStay(t: Tables, e: Event, i: Uri)
    requires Valid(e) && i !in TouchedByComment(t, e)
    ensures CommentsOfIssue(CommentsAfter(t, e), i) == CommentsOfIssue(t.comments, i)
  {
  }

  lemma CommentsStay(t: Tables, e: Event, r: Uri)
    requires Valid(e) && r !in TouchedComments(t, e)
    ensures CommentsOf(CommentsAfter(t, e), IssuesAfter(t, e), r) == CommentsOf(t.comments, t.issues, r)
  {
    IssuesStay(t, e, r);
    var comments := CommentsAfter(t, e);
    forall i | i in IssuesOf(t.issues, r)
      ensures CommentsOfIssue(comments, i) == CommentsOfIssue(t.comments, i)
    {
      assert i in t.issues && t.issues[i].value == r;
      IssueCommentsStay(t, e, i);
    }
    CommentsByIssue(comments, IssuesAfter(t, e), r);
    CommentsByIssue(t.comments, t.issues, r);
  }

  // A repository's comments are those of its issues.
  lemma CommentsByIssue(comments: map<Uri, Row<CommentValue>>, issues: map<Uri, Row<Uri>>, r: Uri)
    ensures CommentsOf(comments, issues, r) ==
            set c | c in comments && comments[c].value.issue in IssuesOf(issues, r)
                    && c in CommentsOfIssue(comments, comments[c].value.issue)
  {
  }

  // --- From sets of rows to columns -----------------------------------------

  lemma MatchesRefreshed<K, V>(
    rows: map<K, Row<V>>, rows': map<K, Row<V>>, column: map<K, nat>,
    before: map<K, nat>, after: map<K, nat>, keys: set<K>)
    requires Matches(rows, column, before)
    requires forall k | k in rows' && rows'[k].live :: k in after
    requires forall k | k in rows' && rows'[k].live && k !in keys ::
               k in rows && rows[k].live && k in before && before[k] == after[k]
    ensures Matches(rows', Refreshed(column, after, keys), after)
  {
  }

  // Only a repository upsert brings a row to life, and that row is its own.
  lemma LiveRepositories(t: Tables, e: Event, r: Uri)
    requires Valid(e) && Live(RepositoriesAfter(t, e), r) && !(IsPut(e, RepositoryCollection) && r == e.uri)
    ensures Live(t.repositories, r) && RepositoriesAfter(t, e)[r] == t.repositories[r]
  {
  }

  predicate StarsExact(t: Tables, c: Columns) { Matches(t.repositories, c.stars, StarRecounts(t)) }
  predicate IssuesExact(t: Tables, c: Columns) { Matches(t.repositories, c.issues, IssueRecounts(t)) }
  predicate OpenIssuesExact(t: Tables, c: Columns) { Matches(t.repositories, c.openIssues, OpenIssueRecounts(t, c.issueStates)) }
  predicate CommentsExact(t: Tables, c: Columns) { Matches(t.repositories, c.comments, CommentRecounts(t)) }
  predicate ForksExact(t: Tables, c: Columns) { Matches(t.repositories, c.forks, ForkRecounts(t)) }
  predicate PullsExact(t: Tables, c: Columns) { Matches(t.repositories, c.pulls, PullRecounts(t)) }
  predicate OpenPullsExact(t: Tables, c: Columns) { Matches(t.repositories, c.openPulls, OpenPullRecounts(t, c.pullStates)) }
  predicate IssueCommentsExact(t: Tables, c: Columns) { Matches(t.issues, c.issueComments, IssueCommentRecounts(t)) }
  predicate OwnedExact(t: Tables, c: Columns) { Matches(t.profiles, c.owned, OwnedRecounts(t)) }

  lemma RefreshStars(t: Tables, c: Columns, e: Event, key: Uri -> Uri)
    requires Valid(e) && KeyedEvent(e, key) && Keyed(t.stars, key) && StarsExact(t, c)
    ensures StarsExact(Apply(t, e), Refresh(t, c, e))
  {
    var after := Apply(t, e);
    forall r | Live(after.repositories, r) && r !in TouchedStars(t, e)
      ensures Live(t.repositories, r) && StarRecounts(t)[r] == StarRecounts(after)[r]
    {
      LiveRepositories(t, e, r);
      StarsStay(t, e, key, r);
    }
    MatchesRefreshed(t.repositories, after.repositories, c.stars, StarRecounts(t), StarRecounts(after), TouchedStars(t, e));
  }

  lemma RefreshIssues(t: Tables, c: Columns, e: Event)
    requires Valid(e) && IssuesExact(t, c)
    ensures IssuesExact(Apply(t, e), Refresh(t, c, e))
  {
    var after := Apply(t, e);
    forall r | Live(after.repositories, r) && r !in TouchedIssues(t, e)
      ensures Live(t.repositories, r) && IssueRecounts(t)[r] == IssueRecounts(after)[r]
    {
      LiveRepositories(t, e, r);
      IssuesStay(t, e, r);
    }
    MatchesRefreshed(t.repositories, after.repositories, c.issues, IssueRecounts(t), IssueRecounts(after), TouchedIssues(t, e));
  }

  lemma RefreshComments(t: Tables, c: Columns, e: Event)
    requires Valid(e) && CommentsExact(t, c)
    ensures CommentsExact(Apply(t, e), Refresh(t, c, e))
  {
    var after := Apply(t, e);
    forall r | Live(after.repositories, r) && r !in TouchedComments(t, e)
      ensures Live(t.repositories, r) && CommentRecounts(t)[r] == CommentRecounts(after)[r]
    {
      LiveRepositories(t, e, r);
      CommentsStay(t, e, r);
    }
    MatchesRefreshed(t.repositories, after.repositories, c.comments, CommentRecounts(t), CommentRecounts(after), TouchedComments(t, e));
  }

  lemma RefreshForks(t: Tables, c: Columns, e: Event)
    requires Valid(e) && ForksExact(t, c)
    ensures ForksExact(Apply(t, e), Refresh(t, c, e))
  {
    var after := Apply(t, e);
    forall r | Live(after.repositories, r) && r !in TouchedForks(t, e)
      ensures Live(t.repositories, r) && ForkRecounts(t)[r] == ForkRecounts(after)[r]
    {
      LiveRepositories(t, e, r);
      ForksStay(t, e, r);
    }
    MatchesRefreshed(t.repositories, after.repositories, c.forks, ForkRecounts(t), ForkRecounts(after), TouchedForks(t, e));
  }

  lemma RefreshPulls(t: Tables, c: Columns, e: Event)
    requires Valid(e) && PullsExact(t, c)
    ensures PullsExact(Apply(t, e), Refresh(t, c, e))
  {
    var after := Apply(t, e);
    forall r | Live(after.repositories, r) && r !in TouchedPulls(t, e)
      ensures Live(t.repositories, r) && PullRecounts(t)[r] == PullRecounts(after)[r]
    {
      LiveRepositories(t, e, r);
      PullsStay(t, e, r);
    }
    MatchesRefreshed(t.repositories, after.repositories, c.pulls, PullRecounts(t), PullRecounts(after), TouchedPulls(t, e));
  }

  lemma RefreshIssueComments(t: Tables, c: Columns, e: Event)
    requires Valid(e) && IssueCommentsExact(t, c)
    ensures IssueCommentsExact(Apply(t, e), Refresh(t, c, e))
  {
    var after := Apply(t, e);
    forall i | Live(after.issues, i) && i !in TouchedIssueComments(t, e)
      ensures Live(t.issues, i) && IssueCommentRecounts(t)[i] == IssueCommentRecounts(after)[i]
    {
      IssueCommentsStay(t, e, i);
    }
    MatchesRefreshed(t.issues, after.issues, c.issueComments, IssueCommentRecounts(t), IssueCommentRecounts(after), TouchedIssueComments(t, e));
  }

  lemma RefreshOwned(t: Tables, c: Columns, e: Event)
    requires Valid(e) && OwnedExact(t, c)
    ensures OwnedExact(Apply(t, e), Refresh(t, c, e))
  {
    var after := Apply(t, e);
    forall d | Live(after.profiles, d) && d !in TouchedOwned(e)
      ensures Live(t.profiles, d) && OwnedRecounts(t)[d] == OwnedRecounts(after)[d]
    {
      OwnedStay(t, e, d);
    }
    MatchesRefreshed(t.profiles, after.profiles, c.owned, OwnedRecounts(t), OwnedRecounts(after), TouchedOwned(e));
  }

  // --- Open counts, which also depend on the stored states -------------------

  lemma OpenIssuesStay(t: Tables, c: Columns, e: Event, r: Uri)
    requires Valid(e) && r !in TouchedIssues(t, e)
    ensures OpenIssuesOf(IssuesAfter(t, e), IssueStatesAfter(t, c, e), r) == OpenIssuesOf(t.issues, c.issueStates, r)
  {
    IssuesStay(t, e, r);
    var states := IssueStatesAfter(t, c, e);
    forall i | i in IssuesOf(t.issues, r) ensures StateOf(states, i) == StateOf(c.issueStates, i) {
      assert i !in TouchedIssueStates(t, e);
    }
    OpenIssuesAmong(t.issues, c.issueStates, r);
    OpenIssuesAmong(IssuesAfter(t, e), states, r);
  }

  lemma OpenIssuesAmong(issues: map<Uri, Row<Uri>>, states: map<Uri, State>, r: Uri)
    ensures OpenIssuesOf(issues, states, r) == set i | i in IssuesOf(issues, r) && StateOf(states, i) == Open
  {
  }

  lemma RefreshOpenIssues(t: Tables, c: Columns, e: Event)
    requires Valid(e) && OpenIssuesExact(t, c)
    ensures OpenIssuesExact(Apply(t, e), Refresh(t, c, e))
  {
    var after, states := Apply(t, e), IssueStatesAfter(t, c, e);
    forall r | Live(after.repositories, r) && r !in TouchedIssues(t, e)
      ensures Live(t.repositories, r) && OpenIssueRecounts(t, c.issueStates)[r] == OpenIssueRecounts(after, states)[r]
    {
      LiveRepositories(t, e, r);
      OpenIssuesStay(t, c, e, r);
    }
    MatchesRefreshed(t.repositories, after.repositories, c.openIssues,
                     OpenIssueRecounts(t, c.issueStates), OpenIssueRecounts(after, states), TouchedIssues(t, e));
  }

  lemma OpenPullsStay(t: Tables, c: Columns, e: Event, r: Uri)
    requires Valid(e) && r !in TouchedPulls(t, e)
    ensures OpenPullsOf(PullsAfter(t, e), PullStatesAfter(t, c, e), r) == OpenPullsOf(t.pulls, c.pullStates, r)
  {
    PullsStay(t, e, r);
    var states := PullStatesAfter(t, c, e);
    forall p | p in PullsOf(t.pulls, r) ensures StateOf(states, p) == StateOf(c.pullStates, p) {
      assert p !in TouchedPullStates(t, e);
    }
    OpenPullsAmong(t.pulls, c.pullStates, r);
    OpenPullsAmong(PullsAfter(t, e), states, r);
  }

  lemma OpenPullsAmong(pulls: map<Uri, Row<PullValue>>, states: map<Uri, State>, r: Uri)
    ensures OpenPullsOf(pulls, states, r) == set p | p in PullsOf(pulls, r) && StateOf(states, p) == Open
  {
  }

  lemma RefreshOpenPulls(t: Tables, c: Columns, e: Event)
    requires Valid(e) && OpenPullsExact(t, c)
    ensures OpenPullsExact(Apply(t, e), Refresh(t, c, e))
  {
    var after, states := Apply(t, e), PullStatesAfter(t, c, e);
    forall r | Live(after.repositories, r) && r !in TouchedPulls(t, e)
      ensures Live(t.repositories, r) && OpenPullRecounts(t, c.pullStates)[r] == OpenPullRecounts(after, states)[r]
    {
      LiveRepositories(t, e, r);
      OpenPullsStay(t, c, e, r);
    }
    MatchesRefreshed(t.repositories, after.repositories, c.openPulls,
                     OpenPullRecounts(t, c.pullStates), OpenPullRecounts(after, states), TouchedPulls(t, e));
  }

  // --- Pull request and issue states -----------------------------------------

  // Every live pull request of a live repository stores the state its statuses
  // give it now.
  ghost predicate PullStatesCurrent(t: Tables, states: map<Uri, State>) {
    forall p | p in t.pulls && t.pulls[p].live && Live(t.repositories, t.pulls[p].value.target) ::
      StateOf(states, p) == PullStateNow(t, p)
  }

  ghost predicate IssueStatesCurrent(t: Tables, states: map<Uri, State>) {
    forall i | i in t.issues && t.issues[i].live && Live(t.repositories, t.issues[i].value) ::
      StateOf(states, i) == IssueStateNow(t, i)
  }

  lemma PullStatusesStay(t: Tables, e: Event, p: Uri, r: Uri, cid: string)
    requires Valid(e) && p !in TouchedByPullStatus(t, e)
    ensures Authoritative(PullStatusesAfter(t, e), p, r, cid) == Authoritative(t.pullStatuses, p, r, cid)
  {
  }

  lemma PullStatesStayCurrent(t: Tables, c: Columns, e: Event)
    requires Valid(e) && PullStatesCurrent(t, c.pullStates)
    ensures PullStatesCurrent(Apply(t, e), PullStatesAfter(t, c, e))
  {
    var pulls, repositories := PullsAfter(t, e), RepositoriesAfter(t, e);
    forall p | Live(pulls, p) && Live(repositories, pulls[p].value.target)
      ensures StateOf(PullStatesAfter(t, c, e), p) == PullStateNow(Apply(t, e), p)
    {
      if p !in TouchedPullStates(t, e) {
        assert p in t.pulls && pulls[p] == t.pulls[p];
        var r := pulls[p].value.target;
        LiveRepositories(t, e, r);
        PullStatusesStay(t, e, p, r, repositories[r].value.cid);
      }
    }
  }

  lemma IssueStatusesStay(t: Tables, e: Event, key: Uri -> Uri, i: Uri, r: Uri, cid: string)
    requires Valid(e) && KeyedEvent(e, key) && KeyedStatuses(t.issueStatuses, key)
    requires i !in TouchedByIssueStatus(t, e)
    ensures Authoritative(IssueStatusesAfter(t, e), i, r, cid) == Authoritative(t.issueStatuses, i, r, cid)
  {
  }

  ghost predicate KeyedStatuses(rows: map<Uri, Row<StatusValue>>, key: Uri -> Uri) {
    forall s | s in rows :: rows[s].value.subject == key(s)
  }

  // A repository upsert that takes effect.
  predicate RewritesRepository(t: Tables, e: Event) {
    IsPut(e, RepositoryCollection) && Fresh(t.repositories, e.uri, e.id)
  }

  // The newest status naming the incoming version already agrees with what
  // every live issue of the repository stores.
  ghost predicate IssuesAgreeWithVersion(t: Tables, c: Columns, r: Uri, cid: string) {
    forall i | i in IssuesOf(t.issues, r) :: StateOf(c.issueStates, i) == NewestState(Authoritative(t.issueStatuses, i, r, cid))
  }

  lemma IssueStateKept(t: Tables, c: Columns, e: Event, key: Uri -> Uri, i: Uri)
    requires Valid(e) && KeyedEvent(e, key) && KeyedStatuses(t.issueStatuses, key) && IssueStatesCurrent(t, c.issueStates)
    requires Live(IssuesAfter(t, e), i) && Live(RepositoriesAfter(t, e), IssuesAfter(t, e)[i].value)
    requires !(RewritesRepository(t, e) && IssuesAfter(t, e)[i].value == e.uri)
    ensures StateOf(IssueStatesAfter(t, c, e), i) == IssueStateNow(Apply(t, e), i)
  {
    if i !in TouchedIssueStates(t, e) {
      var r := IssuesAfter(t, e)[i].value;
      assert i in t.issues && IssuesAfter(t, e)[i] == t.issues[i];
      IssueStatusesStay(t, e, key, i, r, RepositoriesAfter(t, e)[r].value.cid);
      assert Live(t.repositories, r) && t.repositories[r] == RepositoriesAfter(t, e)[r];
    }
  }

  lemma IssueStateOnRewrite(t: Tables, c: Columns, e: Event, i: Uri)
    requires Valid(e) && RewritesRepository(t, e) && i in IssuesOf(t.issues, e.uri)
    ensures Live(IssuesAfter(t, e), i) && IssuesAfter(t, e)[i].value == e.uri && Live(RepositoriesAfter(t, e), e.uri)
    ensures StateOf(IssueStatesAfter(t, c, e), i) == StateOf(c.issueStates, i)
    ensures IssueStateNow(Apply(t, e), i) == NewestState(Authoritative(t.issueStatuses, i, e.uri, e.change.cid))
  {
    assert IssueStatusesAfter(t, e) == t.issueStatuses;
  }

  // A repository upsert refreshes no issue state, so it keeps them current
  // exactly when they agree with the incoming version; every other event keeps
  // them current.
  lemma IssueStatesStayCurrentIff(t: Tables, c: Columns, e: Event, key: Uri -> Uri)
    requires Valid(e) && KeyedEvent(e, key) && KeyedStatuses(t.issueStatuses, key) && IssueStatesCurrent(t, c.issueStates)
    ensures IssueStatesCurrent(Apply(t, e), IssueStatesAfter(t, c, e)) <==>
            (RewritesRepository(t, e) ==> IssuesAgreeWithVersion(t, c, e.uri, e.change.cid))
  {
    var issues, repositories, states := IssuesAfter(t, e), RepositoriesAfter(t, e), IssueStatesAfter(t, c, e);
    forall i | Live(issues, i) && Live(repositories, issues[i].value) && !(RewritesRepository(t, e) && issues[i].value == e.uri)
      ensures StateOf(states, i) == IssueStateNow(Apply(t, e), i)
    {
      IssueStateKept(t, c, e, key, i);
    }
    if RewritesRepository(t, e) {
      assert issues == t.issues;
      forall i | i in IssuesOf(t.issues, e.uri)
        ensures Live(repositories, e.uri)
        ensures StateOf(states, i) == StateOf(c.issueStates, i)
        ensures IssueStateNow(Apply(t, e), i) == NewestState(Authoritative(t.issueStatuses, i, e.uri, e.change.cid))
      {
        IssueStateOnRewrite(t, c, e, i);
      }
    }
  }

  // --- All columns, including the lineage recount ----------------------------

  predicate CountsExact(t: Tables, c: Columns) {
    && StarsExact(t, c) && IssuesExact(t, c) && OpenIssuesExact(t, c) && ForksExact(t, c)
    && PullsExact(t, c) && OpenPullsExact(t, c) && IssueCommentsExact(t, c) && OwnedExact(t, c)
  }

  lemma AllRefreshed<K, V>(rows: map<K, Row<V>>, column: map<K, nat>, recounts: map<K, nat>, keys: set<K>)
    requires forall k | k in rows && rows[k].live :: k in keys && k in recounts
    ensures Matches(rows, Refreshed(column, recounts, keys), recounts)
  {
  }

  // Whatever the columns held before, the lineage recount leaves every live
  // repository with exact counts, except that its comment count is the number
  // of all live replies.
  lemma LineageRecountIsExact(t: Tables, c: Columns)
    ensures LineageCounted(t, LineageRecount(t, c))
  {
    var all := set r | r in t.repositories && t.repositories[r].live;
    AllRefreshed(t.repositories, c.stars, StarRecounts(t), all);
    AllRefreshed(t.repositories, c.issues, IssueRecounts(t), all);
    AllRefreshed(t.repositories, c.openIssues, OpenIssueRecounts(t, c.issueStates), all);
    AllRefreshed(t.repositories, c.comments, ReplyRecounts(t), all);
    AllRefreshed(t.repositories, c.forks, ForkRecounts(t), all);
    AllRefreshed(t.repositories, c.pulls, PullRecounts(t), all);
    AllRefreshed(t.repositories, c.openPulls, OpenPullRecounts(t, c.pullStates), all);
  }

  predicate LineageCounted(t: Tables, c: Columns) {
    && StarsExact(t, c) && IssuesExact(t, c) && OpenIssuesExact(t, c) && ForksExact(t, c) && PullsExact(t, c)
    && OpenPullsExact(t, c) && Matches(t.repositories, c.comments, ReplyRecounts(t))
  }

  lemma LineageRecountKeepsExact(t: Tables, c: Columns)
    requires CountsExact(t, c)
    ensures CountsExact(t, LineageRecount(t, c))
  {
    LineageRecountIsExact(t, c);
  }

  lemma RefreshKeepsCountsExact(t: Tables, c: Columns, e: Event, key: Uri -> Uri)
    requires Valid(e) && KeyedEvent(e, key) && Keyed(t.stars, key) && CountsExact(t, c)
    ensures CountsExact(Apply(t, e), Refresh(t, c, e))
  {
    RefreshStars(t, c, e, key);
    RefreshIssues(t, c, e);
    RefreshOpenIssues(t, c, e);
    RefreshForks(t, c, e);
    RefreshPulls(t, c, e);
    RefreshOpenPulls(t, c, e);
    RefreshIssueComments(t, c, e);
    RefreshOwned(t, c, e);
  }

  // One event keeps every count but the repository comment count exact.
  lemma ProjectKeepsCountsExact(t: Tables, c: Columns, e: Event, key: Uri -> Uri)
    requires Valid(e) && KeyedEvent(e, key) && Keyed(t.stars, key) && CountsExact(t, c)
    ensures CountsExact(Apply(t, e), Project(t, c, e))
  {
    RefreshKeepsCountsExact(t, c, e, key);
    if RecountsLineages(e) {
      LineageRecountKeepsExact(Apply(t, e), Refresh(t, c, e));
    }
  }

  // No later step of the projection rewrites a state.
  lemma ProjectKeepsStates(t: Tables, c: Columns, e: Event)
    ensures Project(t, c, e).pullStates == PullStatesAfter(t, c, e)
    ensures Project(t, c, e).issueStates == IssueStatesAfter(t, c, e)
  {
    LineageRecountKeepsStates(Apply(t, e), Refresh(t, c, e));
    RefreshedStates(t, c, e);
  }

  lemma LineageRecountKeepsStates(t: Tables, c: Columns)
    ensures LineageRecount(t, c).pullStates == c.pullStates
    ensures LineageRecount(t, c).issueStates == c.issueStates
  {
  }

  lemma RefreshedStates(t: Tables, c: Columns, e: Event)
    ensures Refresh(t, c, e).pullStates == PullStatesAfter(t, c, e)
    ensures Refresh(t, c, e).issueStates == IssueStatesAfter(t, c, e)
  {
  }

  // No live comment of a live repository is left out of its issue's count.
  predicate NoStrayReplies(t: Tables) {
    forall r | r in t.repositories && t.repositories[r].live :: NoStrayRepliesOf(t, r)
  }

  predicate NoStrayRepliesOf(t: Tables, r: Uri) {
    forall c | c in RepliesOf(t.comments, t.issues, r) :: Counts(t.comments, t.comments[c].value)
  }

  lemma SameSize<T>(small: set<T>, large: set<T>)
    requires small <= large
    ensures |small| == |large| <==> small == large
  {
    assert large == small + (large - small);
  }

  lemma StrayRepliesOf(t: Tables, r: Uri)
    requires r in t.repositories
    ensures CommentRecounts(t)[r] == ReplyRecounts(t)[r] <==> NoStrayRepliesOf(t, r)
  {
    SameSize(CommentsOf(t.comments, t.issues, r), RepliesOf(t.comments, t.issues, r));
  }

  lemma MatchesOther<K, V>(rows: map<K, Row<V>>, column: map<K, nat>, stored: map<K, nat>, wanted: map<K, nat>)
    requires Matches(rows, column, stored) && stored.Keys == wanted.Keys
    ensures Matches(rows, column, wanted) <==> forall k | k in rows && rows[k].live :: stored[k] == wanted[k]
  {
  }

  // The lineage recount leaves repository comment counts exact if and only if
  // there is no stray reply to tell the two recounts apart.
  lemma LineageRecountCommentsIff(t: Tables, c: Columns)
    ensures CommentsExact(t, LineageRecount(t, c)) <==> NoStrayReplies(t)
  {
    var all := set r | r in t.repositories && t.repositories[r].live;
    var column := Refreshed(c.comments, ReplyRecounts(t), all);
    AllRefreshed(t.repositories, c.comments, ReplyRecounts(t), all);
    MatchesOther(t.repositories, column, ReplyRecounts(t), CommentRecounts(t));
    forall r | r in t.repositories && t.repositories[r].live
      ensures ReplyRecounts(t)[r] == CommentRecounts(t)[r] <==> NoStrayRepliesOf(t, r)
    {
      StrayRepliesOf(t, r);
    }
  }

  // One event keeps repository comment counts exact, unless it ends with the
  // lineage recount while a stray reply is live.
  lemma ProjectKeepsCommentsExactIff(t: Tables, c: Columns, e: Event)
    requires Valid(e) && CommentsExact(t, c)
    ensures CommentsExact(Apply(t, e), Project(t, c, e)) <==> (RecountsLineages(e) ==> NoStrayReplies(Apply(t, e)))
  {
    RefreshComments(t, c, e);
    LineageRecountCommentsIff(Apply(t, e), Refresh(t, c, e));
  }
}
