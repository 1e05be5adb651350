// The columns and tables that an event of each collection leaves alone.
module FederationQuiet {
  import opened Options
  import opened FederationTables
  import opened FederationCounts

  // --- Refreshing a few keys at a time -------------------------------------------

  lemma RefreshedOne<K, V>(column: map<K, V>, recounts: map<K, V>, k: K)
    ensures Refreshed(column, recounts, {k}) == if k in recounts then column[k := recounts[k]] else column
  {
  }

  lemma RefreshedTwice<K, V>(column: map<K, V>, recounts: map<K, V>, a: set<K>, b: set<K>)
    ensures Refreshed(Refreshed(column, recounts, a), recounts, b) == Refreshed(column, recounts, a + b)
  {
  }

  lemma RefreshedNone<K, V>(column: map<K, V>, recounts: map<K, V>)
    ensures Refreshed(column, recounts, {}) == column
  {
  }

  // --- What an event of one collection leaves alone --------------------------------

  lemma QuietStars(t: Tables, e: Event, column: map<Uri, nat>, recounts: map<Uri, nat>)
    requires Valid(e) && e.uri.collection != StarCollection && e.uri.collection != RepositoryCollection
    ensures Refreshed(column, recounts, TouchedStars(t, e)) == column
  {
    assert TouchedStars(t, e) == {};
    RefreshedNone(column, recounts);
  }

  lemma QuietIssues(t: Tables, e: Event, column: map<Uri, nat>, recounts: map<Uri, nat>)
    requires Valid(e) && e.uri.collection != IssueCollection && e.uri.collection != IssueStatusCollection
    requires e.uri.collection != RepositoryCollection
    ensures Refreshed(column, recounts, TouchedIssues(t, e)) == column
  {
    assert TouchedIssues(t, e) == {};
    RefreshedNone(column, recounts);
  }

  lemma QuietComments(t: Tables, e: Event, column: map<Uri, nat>, recounts: map<Uri, nat>)
    requires Valid(e) && e.uri.collection != IssueCollection && e.uri.collection != CommentCollection
    requires e.uri.collection != RepositoryCollection
    ensures Refreshed(column, recounts, TouchedComments(t, e)) == column
  {
    assert TouchedComments(t, e) == {};
    RefreshedNone(column, recounts);
  }

  lemma QuietForks(t: Tables, e: Event, column: map<Uri, nat>, recounts: map<Uri, nat>)
    requires Valid(e) && e.uri.collection != RepositoryCollection
    ensures Refreshed(column, recounts, TouchedForks(t, e)) == column
  {
    assert TouchedForks(t, e) == {};
    RefreshedNone(column, recounts);
  }

  lemma QuietPulls(t: Tables, e: Event, column: map<Uri, nat>, recounts: map<Uri, nat>)
    requires Valid(e) && e.uri.collection != PullRequestCollection && e.uri.collection != PullRequestStatusCollection
    requires e.uri.collection != RepositoryCollection
    ensures Refreshed(column, recounts, TouchedPulls(t, e)) == column
  {
    assert TouchedPulls(t, e) == {};
    RefreshedNone(column, recounts);
  }

  lemma QuietIssueComments(t: Tables, e: Event, column: map<Uri, nat>, recounts: map<Uri, nat>)
    requires Valid(e) && e.uri.collection != IssueCollection && e.uri.collection != CommentCollection
    ensures Refreshed(column, recounts, TouchedIssueComments(t, e)) == column
  {
    assert TouchedIssueComments(t, e) == {};
    RefreshedNone(column, recounts);
  }

  lemma QuietOwned(e: Event, column: map<string, nat>, recounts: map<string, nat>)
    requires e.uri.collection != ProfileCollection && e.uri.collection != RepositoryCollection
    ensures Refreshed(column, recounts, TouchedOwned(e)) == column
  {
    RefreshedNone(column, recounts);
  }

  lemma QuietIssueStates(t: Tables, c: Columns, e: Event)
    requires Valid(e) && e.uri.collection != IssueCollection && e.uri.collection != IssueStatusCollection
    ensures IssueStatesAfter(t, c, e) == c.issueStates
  {
    assert TouchedIssueStates(t, e) == {};
    RefreshedNone(c.issueStates, IssueStatesNow(Apply(t, e)));
  }

  lemma QuietPullStates(t: Tables, c: Columns, e: Event)
    requires Valid(e) && e.uri.collection != PullRequestCollection && e.uri.collection != PullRequestStatusCollection
    requires e.uri.collection != RepositoryCollection
    ensures PullStatesAfter(t, c, e) == c.pullStates
  {
    assert TouchedPullStates(t, e) == {};
    RefreshedNone(c.pullStates, PullStatesNow(Apply(t, e)));
  }

  lemma StarEventTables(t: Tables, e: Event)
    requires Valid(e) && e.uri.collection == StarCollection
    ensures Apply(t, e) == t.(records := RecordsAfter(t.records, e), stars := StarsAfter(t, e))
  {
  }

  lemma StarEventColumns(t: Tables, c: Columns, e: Event)
    requires Valid(e) && e.uri.collection == StarCollection
    ensures Refresh(t, c, e) == c.(
      stars := Refreshed(c.stars, StarRecounts(Apply(t, e)), TouchedStars(t, e)))
  {
    var after := Apply(t, e);
    QuietIssueStates(t, c, e);
    QuietPullStates(t, c, e);
    QuietIssues(t, e, c.issues, IssueRecounts(after));
    QuietIssues(t, e, c.openIssues, OpenIssueRecounts(after, c.issueStates));
    QuietComments(t, e, c.comments, CommentRecounts(after));
    QuietForks(t, e, c.forks, ForkRecounts(after));
    QuietPulls(t, e, c.pulls, PullRecounts(after));
    QuietPulls(t, e, c.openPulls, OpenPullRecounts(after, c.pullStates));
    QuietIssueComments(t, e, c.issueComments, IssueCommentRecounts(after));
    QuietOwned(e, c.owned, OwnedRecounts(after));
  }

  lemma IssueEventTables(t: Tables, e: Event)
    requires Valid(e) && e.uri.collection == IssueCollection
    ensures Apply(t, e) == t.(records := RecordsAfter(t.records, e), issues := IssuesAfter(t, e))
  {
  }

  lemma IssueEventColumns(t: Tables, c: Columns, e: Event)
    requires Valid(e) && e.uri.collection == IssueCollection
    ensures Refresh(t, c, e) == c.(
      issueStates := IssueStatesAfter(t, c, e),
      issues := Refreshed(c.issues, IssueRecounts(Apply(t, e)), TouchedIssues(t, e)),
      openIssues := Refreshed(c.openIssues, OpenIssueRecounts(Apply(t, e), IssueStatesAfter(t, c, e)), TouchedIssues(t, e)),
      comments := Refreshed(c.comments, CommentRecounts(Apply(t, e)), TouchedComments(t, e)),
      issueComments := Refreshed(c.issueComments, IssueCommentRecounts(Apply(t, e)), TouchedIssueComments(t, e)))
  {
    var after := Apply(t, e);
    QuietPullStates(t, c, e);
    QuietStars(t, e, c.stars, StarRecounts(after));
    QuietForks(t, e, c.forks, ForkRecounts(after));
    QuietPulls(t, e, c.pulls, PullRecounts(after));
    QuietPulls(t, e, c.openPulls, OpenPullRecounts(after, c.pullStates));
    QuietOwned(e, c.owned, OwnedRecounts(after));
  }

  lemma CommentEventTables(t: Tables, e: Event)
    requires Valid(e) && e.uri.collection == CommentCollection
    ensures Apply(t, e) == t.(records := RecordsAfter(t.records, e), comments := CommentsAfter(t, e))
  {
  }

  lemma CommentEventColumns(t: Tables, c: Columns, e: Event)
    requires Valid(e) && e.uri.collection == CommentCollection
    ensures Refresh(t, c, e) == c.(
      comments := Refreshed(c.comments, CommentRecounts(Apply(t, e)), TouchedComments(t, e)),
      issueComments := Refreshed(c.issueComments, IssueCommentRecounts(Apply(t, e)), TouchedIssueComments(t, e)))
  {
    var after := Apply(t, e);
    QuietIssueStates(t, c, e);
    QuietPullStates(t, c, e);
    QuietStars(t, e, c.stars, StarRecounts(after));
    QuietIssues(t, e, c.issues, IssueRecounts(after));
    QuietIssues(t, e, c.openIssues, OpenIssueRecounts(after, c.issueStates));
    QuietForks(t, e, c.forks, ForkRecounts(after));
    QuietPulls(t, e, c.pulls, PullRecounts(after));
    QuietPulls(t, e, c.openPulls, OpenPullRecounts(after, c.pullStates));
    QuietOwned(e, c.owned, OwnedRecounts(after));
  }

  lemma IssueStatusEventTables(t: Tables, e: Event)
    requires Valid(e) && e.uri.collection == IssueStatusCollection
    ensures Apply(t, e) == t.(records := RecordsAfter(t.records, e), issueStatuses := IssueStatusesAfter(t, e))
  {
  }

  lemma IssueStatusEventColumns(t: Tables, c: Columns, e: Event)
    requires Valid(e) && e.uri.collection == IssueStatusCollection
    ensures Refresh(t, c, e) == c.(
      issueStates := IssueStatesAfter(t, c, e),
      issues := Refreshed(c.issues, IssueRecounts(Apply(t, e)), TouchedIssues(t, e)),
      openIssues := Refreshed(c.openIssues, OpenIssueRecounts(Apply(t, e), IssueStatesAfter(t, c, e)), TouchedIssues(t, e)))
  {
    var after := Apply(t, e);
    QuietPullStates(t, c, e);
    QuietStars(t, e, c.stars, StarRecounts(after));
    QuietComments(t, e, c.comments, CommentRecounts(after));
    QuietForks(t, e, c.forks, ForkRecounts(after));
    QuietPulls(t, e, c.pulls, PullRecounts(after));
    QuietPulls(t, e, c.openPulls, OpenPullRecounts(after, c.pullStates));
    QuietIssueComments(t, e, c.issueComments, IssueCommentRecounts(after));
    QuietOwned(e, c.owned, OwnedRecounts(after));
  }

  lemma PullRequestEventTables(t: Tables, e: Event)
    requires Valid(e) && e.uri.collection == PullRequestCollection
    ensures Apply(t, e) == t.(records := RecordsAfter(t.records, e), pulls := PullsAfter(t, e))
  {
  }

  lemma PullRequestEventColumns(t: Tables, c: Columns, e: Event)
    requires Valid(e) && e.uri.collection == PullRequestCollection
    ensures Refresh(t, c, e) == c.(
      pullStates := PullStatesAfter(t, c, e),
      pulls := Refreshed(c.pulls, PullRecounts(Apply(t, e)), TouchedPulls(t, e)),
      openPulls := Refreshed(c.openPulls, OpenPullRecounts(Apply(t, e), PullStatesAfter(t, c, e)), TouchedPulls(t, e)))
  {
    var after := Apply(t, e);
    QuietIssueStates(t, c, e);
    QuietStars(t, e, c.stars, StarRecounts(after));
    QuietIssues(t, e, c.issues, IssueRecounts(after));
    QuietIssues(t, e, c.openIssues, OpenIssueRecounts(after, c.issueStates));
    QuietComments(t, e, c.comments, CommentRecounts(after));
    QuietForks(t, e, c.forks, ForkRecounts(after));
    QuietIssueComments(t, e, c.issueComments, IssueCommentRecounts(after));
    QuietOwned(e, c.owned, OwnedRecounts(after));
  }

  lemma PullRequestStatusEventTables(t: Tables, e: Event)
    requires Valid(e) && e.uri.collection == PullRequestStatusCollection
    ensures Apply(t, e) == t.(records := RecordsAfter(t.records, e), pullStatuses := PullStatusesAfter(t, e))
  {
  }

  lemma PullRequestStatusEventColumns(t: Tables, c: Columns, e: Event)
    requires Valid(e) && e.uri.collection == PullRequestStatusCollection
    ensures Refresh(t, c, e) == c.(
      pullStates := PullStatesAfter(t, c, e),
      pulls := Refreshed(c.pulls, PullRecounts(Apply(t, e)), TouchedPulls(t, e)),
      openPulls := Refreshed(c.openPulls, OpenPullRecounts(Apply(t, e), PullStatesAfter(t, c, e)), TouchedPulls(t, e)))
  {
    var after := Apply(t, e);
    QuietIssueStates(t, c, e);
    QuietStars(t, e, c.stars, StarRecounts(after));
    QuietIssues(t, e, c.issues, IssueRecounts(after));
    QuietIssues(t, e, c.openIssues, OpenIssueRecounts(after, c.issueStates));
    QuietComments(t, e, c.comments, CommentRecounts(after));
    QuietForks(t, e, c.forks, ForkRecounts(after));
    QuietIssueComments(t, e, c.issueComments, IssueCommentRecounts(after));
    QuietOwned(e, c.owned, OwnedRecounts(after));
  }

  lemma RepositoryEventTables(t: Tables, e: Event)
    requires Valid(e) && e.uri.collection == RepositoryCollection
    ensures Apply(t, e) == t.(records := RecordsAfter(t.records, e), repositories := RepositoriesAfter(t, e))
  {
  }

  lemma RepositoryEventColumns(t: Tables, c: Columns, e: Event)
    requires Valid(e) && e.uri.collection == RepositoryCollection
    ensures Refresh(t, c, e) == c.(
      pullStates := PullStatesAfter(t, c, e),
      stars := Refreshed(c.stars, StarRecounts(Apply(t, e)), TouchedStars(t, e)),
      issues := Refreshed(c.issues, IssueRecounts(Apply(t, e)), TouchedIssues(t, e)),
      openIssues := Refreshed(c.openIssues, OpenIssueRecounts(Apply(t, e), IssueStatesAfter(t, c, e)), TouchedIssues(t, e)),
      comments := Refreshed(c.comments, CommentRecounts(Apply(t, e)), TouchedComments(t, e)),
      forks := Refreshed(c.forks, ForkRecounts(Apply(t, e)), TouchedForks(t, e)),
      pulls := Refreshed(c.pulls, PullRecounts(Apply(t, e)), TouchedPulls(t, e)),
      openPulls := Refreshed(c.openPulls, OpenPullRecounts(Apply(t, e), PullStatesAfter(t, c, e)), TouchedPulls(t, e)),
      owned := Refreshed(c.owned, OwnedRecounts(Apply(t, e)), TouchedOwned(e)))
  {
    var after := Apply(t, e);
    QuietIssueStates(t, c, e);
    QuietIssueComments(t, e, c.issueComments, IssueCommentRecounts(after));
  }

  lemma ProfileEventTables(t: Tables, e: Event)
    requires Valid(e) && e.uri.collection == ProfileCollection
    ensures Apply(t, e) == t.(records := RecordsAfter(t.records, e), profiles := ProfilesAfter(t, e))
  {
  }

  lemma ProfileEventColumns(t: Tables, c: Columns, e: Event)
    requires Valid(e) && e.uri.collection == ProfileCollection
    ensures Refresh(t, c, e) == c.(
      owned := Refreshed(c.owned, OwnedRecounts(Apply(t, e)), TouchedOwned(e)))
  {
    var after := Apply(t, e);
    QuietIssueStates(t, c, e);
    QuietPullStates(t, c, e);
    QuietStars(t, e, c.stars, StarRecounts(after));
    QuietIssues(t, e, c.issues, IssueRecounts(after));
    QuietIssues(t, e, c.openIssues, OpenIssueRecounts(after, c.issueStates));
    QuietComments(t, e, c.comments, CommentRecounts(after));
    QuietForks(t, e, c.forks, ForkRecounts(after));
    QuietPulls(t, e, c.pulls, PullRecounts(after));
    QuietPulls(t, e, c.openPulls, OpenPullRecounts(after, c.pullStates));
    QuietIssueComments(t, e, c.issueComments, IssueCommentRecounts(after));
  }

  lemma OtherEventTables(t: Tables, e: Event)
    requires Valid(e) && (e.uri.collection == OrganizationCollection || e.uri.collection.OtherCollection?)
    ensures Apply(t, e) == t.(records := RecordsAfter(t.records, e))
  {
  }

  lemma OtherEventColumns(t: Tables, c: Columns, e: Event)
    requires Valid(e) && (e.uri.collection == OrganizationCollection || e.uri.collection.OtherCollection?)
    ensures Refresh(t, c, e) == c
  {
    var after := Apply(t, e);
    QuietIssueStates(t, c, e);
    QuietPullStates(t, c, e);
    QuietStars(t, e, c.stars, StarRecounts(after));
    QuietIssues(t, e, c.issues, IssueRecounts(after));
    QuietIssues(t, e, c.openIssues, OpenIssueRecounts(after, c.issueStates));
    QuietComments(t, e, c.comments, CommentRecounts(after));
    QuietForks(t, e, c.forks, ForkRecounts(after));
    QuietPulls(t, e, c.pulls, PullRecounts(after));
    QuietPulls(t, e, c.openPulls, OpenPullRecounts(after, c.pullStates));
    QuietIssueComments(t, e, c.issueComments, IssueCommentRecounts(after));
    QuietOwned(e, c.owned, OwnedRecounts(after));
  }
}
