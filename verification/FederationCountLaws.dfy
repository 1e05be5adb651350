// What the stored counts count: how each of them moves when a record appears,
// changes or disappears, in terms of the rows before and the event. In every
// run the counts are exact, so that these laws hold after every delivery that is
// newer than what the tables hold under its URI.
module FederationCountLaws {
  import opened Options
  import opened FederationTables
  import opened FederationCounts
  import opened FederationExactness
  import opened FederationRuns

  function One(b: bool): nat { if b then 1 else 0 }

  lemma OneElement<T>(a: set<T>, b: set<T>, u: T)
    requires forall x | x != u :: x in a <==> x in b
    ensures |b| == |a| + One(u in b) - One(u in a)
  {
    var rest := a - {u};
    assert rest == b - {u};
    assert a == rest + (if u in a then {u} else {});
    assert b == rest + (if u in b then {u} else {});
  }

  // The raw record and the row under the event's URI are older.
  predicate IsLatest<V>(t: Tables, rows: map<Uri, Row<V>>, e: Event) { Fresh(t.records, e.uri, e.id) && Fresh(rows, e.uri, e.id) }

  lemma CountIs<K, V>(rows: map<K, Row<V>>, column: map<K, nat>, recounts: map<K, nat>, k: K)
    requires Matches(rows, column, recounts) && Live(rows, k)
    ensures k in recounts && Count(column, k) == recounts[k]
  {
  }

  lemma ProjectIsRefresh(t: Tables, c: Columns, e: Event)
    requires !RecountsLineages(e)
    ensures Project(t, c, e) == Refresh(t, c, e)
  {
  }

  lemma RepositoriesStay(t: Tables, e: Event)
    requires Valid(e) && e.uri.collection != RepositoryCollection
    ensures RepositoriesAfter(t, e) == t.repositories
  {
  }

  // --- Stars ---------------------------------------------------------------------------

  predicate IsStar(e: Event, r: Uri) { e.change.Put? && e.change.payload == Star(r) }

  // The author has a live star on the repository, other than under `u`.
  predicate HasStarred(stars: map<Uri, Row<Uri>>, did: string, r: Uri, u: Option<Uri>) {
    exists s | s in stars :: stars[s].live && stars[s].value == r && s.did == did && u != Some(s)
  }

  lemma StarAuthorsIff(stars: map<Uri, Row<Uri>>, r: Uri, did: string)
    ensures did in StarAuthors(stars, r) <==> HasStarred(stars, did, r, None)
  {
  }

  // One star row changes.
  lemma StarRowMovesOne(stars: map<Uri, Row<Uri>>, u: Uri, row: Row<Uri>, q: Uri)
    requires u in stars ==> stars[u].value == row.value
    ensures |StarAuthors(stars[u := row], q)| ==
            |StarAuthors(stars, q)|
            + One(row.live && row.value == q && !HasStarred(stars, u.did, q, None))
            - One(!row.live && HasStarred(stars, u.did, q, None) && !HasStarred(stars, u.did, q, Some(u)))
  {
    var before, after := StarAuthors(stars, q), StarAuthors(stars[u := row], q);
    forall d | d != u.did ensures d in before <==> d in after {
      OtherStars(stars, u, row, q, d);
    }
    OneElement(before, after, u.did);
    StarAuthorsIff(stars, q, u.did);
    OwnStars(stars, u, row, q);
  }

  lemma OtherStars(stars: map<Uri, Row<Uri>>, u: Uri, row: Row<Uri>, q: Uri, d: string)
    requires d != u.did
    ensures d in StarAuthors(stars, q) <==> d in StarAuthors(stars[u := row], q)
  {
    var stars' := stars[u := row];
    if d in StarAuthors(stars, q) {
      var s :| s in stars && stars[s].live && stars[s].value == q && s.did == d;
      assert s in stars' && stars'[s] == stars[s];
    }
    if d in StarAuthors(stars', q) {
      var s :| s in stars' && stars'[s].live && stars'[s].value == q && s.did == d;
      assert s in stars && stars'[s] == stars[s];
    }
  }

  lemma OwnStars(stars: map<Uri, Row<Uri>>, u: Uri, row: Row<Uri>, q: Uri)
    ensures u.did in StarAuthors(stars[u := row], q) <==> (row.live && row.value == q) || HasStarred(stars, u.did, q, Some(u))
  {
    var stars' := stars[u := row];
    if u.did in StarAuthors(stars', q) {
      var s :| s in stars' && stars'[s].live && stars'[s].value == q && s.did == u.did;
      assert s == u || (s in stars && stars'[s] == stars[s]);
    }
    if row.live && row.value == q {
      assert u in stars' && stars'[u] == row;
    }
    if HasStarred(stars, u.did, q, Some(u)) {
      var s :| s in stars && stars[s].live && stars[s].value == q && s.did == u.did && s != u;
      assert s in stars' && stars'[s] == stars[s];
    }
  }

  lemma StarCountStored(t: Tables, c: Columns, q: Uri)
    requires StarsExact(t, c) && Live(t.repositories, q)
    ensures Count(c.stars, q) == |StarAuthors(t.stars, q)|
  {
    CountIs(t.repositories, c.stars, StarRecounts(t), q);
  }

  lemma StarCounts(t: Tables, c: Columns, e: Event, key: Uri -> Uri, q: Uri)
    requires StarsExact(t, c) && Keyed(t.stars, key) && Valid(e) && KeyedEvent(e, key) && e.uri.collection == StarCollection
    requires Live(t.repositories, q)
    ensures Count(c.stars, q) == |StarAuthors(t.stars, q)| && Count(Project(t, c, e).stars, q) == |StarAuthors(StarsAfter(t, e), q)|
  {
    StarCountStored(t, c, q);
    RefreshStars(t, c, e, key);
    ProjectIsRefresh(t, c, e);
    RepositoriesStay(t, e);
    StarCountStored(Apply(t, e), Refresh(t, c, e), q);
  }

  lemma StarRowAfter(t: Tables, e: Event, q: Uri)
    requires e.uri.collection == StarCollection && IsLatest(t, t.stars, e)
    ensures forall r | IsStar(e, r) :: StarsAfter(t, e) == t.stars[e.uri := Row(r, true, e.id)]
    ensures e.change.Delete? && e.uri in t.stars ==> StarsAfter(t, e) == t.stars[e.uri := Row(t.stars[e.uri].value, false, e.id)]
  {
  }

  lemma PutStarMovesOne(t: Tables, e: Event, r: Uri, q: Uri)
    requires Valid(e) && IsStar(e, r) && IsLatest(t, t.stars, e) && (e.uri in t.stars ==> t.stars[e.uri].value == r)
    ensures |StarAuthors(StarsAfter(t, e), q)| == |StarAuthors(t.stars, q)| + One(q == r && !HasStarred(t.stars, e.uri.did, q, None))
  {
    StarRowAfter(t, e, q);
    StarRowMovesOne(t.stars, e.uri, Row(r, true, e.id), q);
  }

  lemma DeleteStarMovesOne(t: Tables, e: Event, q: Uri)
    requires IsDelete(e, StarCollection) && IsLatest(t, t.stars, e) && Live(t.stars, e.uri)
    ensures |StarAuthors(StarsAfter(t, e), q)| ==
            |StarAuthors(t.stars, q)| - One(q == t.stars[e.uri].value && !HasStarred(t.stars, e.uri.did, q, Some(e.uri)))
  {
    StarRowAfter(t, e, q);
    StarRowMovesOne(t.stars, e.uri, Row(t.stars[e.uri].value, false, e.id), q);
    assert HasStarred(t.stars, e.uri.did, t.stars[e.uri].value, None);
    if HasStarred(t.stars, e.uri.did, q, None) && !HasStarred(t.stars, e.uri.did, q, Some(e.uri)) {
      assert q == t.stars[e.uri].value;
    }
  }

  // A star adds one to the count of its repository, if its author had none
  // there, whatever key it is stored under.
  lemma StarAddsOne(t: Tables, c: Columns, e: Event, key: Uri -> Uri, r: Uri, q: Uri)
    requires StarsExact(t, c) && Keyed(t.stars, key) && Valid(e) && KeyedEvent(e, key)
    requires IsStar(e, r) && IsLatest(t, t.stars, e) && Live(t.repositories, q)
    ensures Count(Project(t, c, e).stars, q) == Count(c.stars, q) + One(q == r && !HasStarred(t.stars, e.uri.did, q, None))
  {
    StarCounts(t, c, e, key, q);
    PutStarMovesOne(t, e, r, q);
  }

  // Deleting a live star takes one away, if it was its author's only one there.
  lemma StarTakesOne(t: Tables, c: Columns, e: Event, key: Uri -> Uri, q: Uri)
    requires StarsExact(t, c) && Keyed(t.stars, key) && Valid(e) && KeyedEvent(e, key)
    requires IsDelete(e, StarCollection) && IsLatest(t, t.stars, e) && Live(t.stars, e.uri) && Live(t.repositories, q)
    ensures Count(Project(t, c, e).stars, q) ==
            Count(c.stars, q) - One(q == t.stars[e.uri].value && !HasStarred(t.stars, e.uri.did, q, Some(e.uri)))
  {
    StarCounts(t, c, e, key, q);
    DeleteStarMovesOne(t, e, q);
  }

  lemma RunStarsExact(deliveries: seq<Delivery>, key: Uri -> Uri)
    requires WellFormed(deliveries, key)
    ensures var s := Run(INITIAL, deliveries); StarsExact(s.tables, s.columns) && Keyed(s.tables.stars, key)
  {
    EveryRunIsSound(deliveries, key);
  }

  lemma RunProjects(deliveries: seq<Delivery>, d: Delivery)
    requires Projects(Run(INITIAL, deliveries).receipts, d)
    ensures
      var s := Run(INITIAL, deliveries);
      Run(INITIAL, deliveries + [d]).columns == Project(s.tables, s.columns, d.message.event)
  {
    assert (deliveries + [d])[..|deliveries|] == deliveries;
  }

  // The same in every run: for the delivery that comes after it.
  lemma RunStarsAddOne(deliveries: seq<Delivery>, d: Delivery, key: Uri -> Uri, r: Uri, q: Uri)
    requires WellFormed(deliveries, key) && d.message.RecordMessage? && Valid(d.message.event) && KeyedEvent(d.message.event, key)
    requires
      var s := Run(INITIAL, deliveries);
      && Projects(s.receipts, d) && IsStar(d.message.event, r) && IsLatest(s.tables, s.tables.stars, d.message.event)
      && Live(s.tables.repositories, q)
    ensures
      var s := Run(INITIAL, deliveries);
      Count(Run(INITIAL, deliveries + [d]).columns.stars, q) ==
      Count(s.columns.stars, q) + One(q == r && !HasStarred(s.tables.stars, d.message.event.uri.did, q, None))
  {
    var s := Run(INITIAL, deliveries);
    RunStarsExact(deliveries, key);
    RunProjects(deliveries, d);
    StarAddsOne(s.tables, s.columns, d.message.event, key, r, q);
  }

  lemma RunStarsTakeOne(deliveries: seq<Delivery>, d: Delivery, key: Uri -> Uri, q: Uri)
    requires WellFormed(deliveries, key) && d.message.RecordMessage? && Valid(d.message.event) && KeyedEvent(d.message.event, key)
    requires
      var s := Run(INITIAL, deliveries);
      && Projects(s.receipts, d) && IsDelete(d.message.event, StarCollection) && IsLatest(s.tables, s.tables.stars, d.message.event)
      && Live(s.tables.stars, d.message.event.uri) && Live(s.tables.repositories, q)
    ensures
      var s, u := Run(INITIAL, deliveries), d.message.event.uri;
      Count(Run(INITIAL, deliveries + [d]).columns.stars, q) ==
      Count(s.columns.stars, q) - One(q == s.tables.stars[u].value && !HasStarred(s.tables.stars, u.did, q, Some(u)))
  {
    var s := Run(INITIAL, deliveries);
    RunStarsExact(deliveries, key);
    RunProjects(deliveries, d);
    StarTakesOne(s.tables, s.columns, d.message.event, key, q);
  }

  // --- Issues ----------------------------------------------------------------------------

  predicate IsIssueIn(e: Event, r: Uri) { e.change.Put? && e.change.payload == Issue(r) }

  predicate IsIn(rows: map<Uri, Row<Uri>>, i: Uri, r: Uri) { i in rows && rows[i].live && rows[i].value == r }

  lemma IssueRowAfter(t: Tables, e: Event, q: Uri)
    requires Valid(e) && e.uri.collection == IssueCollection && IsLatest(t, t.issues, e)
    ensures forall i | i != e.uri :: IsIn(IssuesAfter(t, e), i, q) <==> IsIn(t.issues, i, q)
    ensures IsIn(IssuesAfter(t, e), e.uri, q) <==> IsIssueIn(e, q)
  {
  }

  lemma IssueCountStored(t: Tables, c: Columns, q: Uri)
    requires IssuesExact(t, c) && Live(t.repositories, q)
    ensures Count(c.issues, q) == |IssuesOf(t.issues, q)|
  {
    CountIs(t.repositories, c.issues, IssueRecounts(t), q);
  }

  lemma IssueCounts(t: Tables, c: Columns, e: Event, q: Uri)
    requires IssuesExact(t, c) && Valid(e) && e.uri.collection == IssueCollection && Live(t.repositories, q)
    ensures Count(c.issues, q) == |IssuesOf(t.issues, q)| && Count(Project(t, c, e).issues, q) == |IssuesOf(IssuesAfter(t, e), q)|
  {
    IssueCountStored(t, c, q);
    RefreshIssues(t, c, e);
    ProjectIsRefresh(t, c, e);
    RepositoriesStay(t, e);
    IssueCountStored(Apply(t, e), Refresh(t, c, e), q);
  }

  lemma IssueRowMovesOne(t: Tables, e: Event, q: Uri)
    requires Valid(e) && e.uri.collection == IssueCollection && IsLatest(t, t.issues, e)
    ensures |IssuesOf(IssuesAfter(t, e), q)| == |IssuesOf(t.issues, q)| + One(IsIssueIn(e, q)) - One(IsIn(t.issues, e.uri, q))
  {
    IssueRowAfter(t, e, q);
    var before, after := IssuesOf(t.issues, q), IssuesOf(IssuesAfter(t, e), q);
    forall i ensures (i in before <==> IsIn(t.issues, i, q)) && (i in after <==> IsIn(IssuesAfter(t, e), i, q)) {
    }
    OneElement(before, after, e.uri);
  }

  // An issue counts for the repository that it names, and no longer for the one
  // that it named before; a deleted one for none.
  lemma IssueMovesOne(t: Tables, c: Columns, e: Event, q: Uri)
    requires IssuesExact(t, c) && Valid(e) && e.uri.collection == IssueCollection && IsLatest(t, t.issues, e) && Live(t.repositories, q)
    ensures Count(Project(t, c, e).issues, q) == Count(c.issues, q) + One(IsIssueIn(e, q)) - One(IsIn(t.issues, e.uri, q))
  {
    IssueCounts(t, c, e, q);
    IssueRowMovesOne(t, e, q);
  }

  // An issue is open by its stored state.
  predicate IsOpenIn(issues: map<Uri, Row<Uri>>, states: map<Uri, State>, i: Uri, r: Uri) {
    IsIn(issues, i, r) && StateOf(states, i) == Open
  }

  predicate IsIssueOrStatusOf(e: Event, i: Uri) {
    || (e.uri.collection == IssueCollection && e.uri == i)
    || (e.change.Put? && e.change.payload.IssueStatus? && e.change.payload.status.subject == i)
  }

  lemma OpenIssueCountStored(t: Tables, c: Columns, q: Uri)
    requires OpenIssuesExact(t, c) && Live(t.repositories, q)
    ensures Count(c.openIssues, q) == |OpenIssuesOf(t.issues, c.issueStates, q)|
  {
    CountIs(t.repositories, c.openIssues, OpenIssueRecounts(t, c.issueStates), q);
  }

  lemma OpenIssueCounts(t: Tables, c: Columns, e: Event, q: Uri)
    requires OpenIssuesExact(t, c) && Valid(e) && e.uri.collection != RepositoryCollection && e.uri.collection != OrganizationCollection
    requires Live(t.repositories, q)
    ensures Count(c.openIssues, q) == |OpenIssuesOf(t.issues, c.issueStates, q)|
    ensures Count(Project(t, c, e).openIssues, q) == |OpenIssuesOf(IssuesAfter(t, e), Project(t, c, e).issueStates, q)|
  {
    OpenIssueCountStored(t, c, q);
    RefreshOpenIssues(t, c, e);
    ProjectIsRefresh(t, c, e);
    RepositoriesStay(t, e);
    OpenIssueCountStored(Apply(t, e), Refresh(t, c, e), q);
  }

  lemma OtherIssueRowsKept(t: Tables, e: Event, i: Uri, x: Uri, q: Uri)
    requires Valid(e) && IsIssueOrStatusOf(e, i) && x != i
    ensures IsIn(IssuesAfter(t, e), x, q) <==> IsIn(t.issues, x, q)
  {
  }

  lemma OtherIssueUntouched(t: Tables, e: Event, i: Uri, x: Uri)
    requires Valid(e) && IsIssueOrStatusOf(e, i) && x != i
    ensures x !in TouchedIssueStates(t, e)
  {
  }

  lemma OtherIssueStatesKept(t: Tables, c: Columns, e: Event, i: Uri, x: Uri)
    requires Valid(e) && IsIssueOrStatusOf(e, i) && x != i
    ensures StateOf(Project(t, c, e).issueStates, x) == StateOf(c.issueStates, x)
  {
    ProjectKeepsStates(t, c, e);
    OtherIssueUntouched(t, e, i, x);
  }

  // A version or a status of an issue moves the open count of a repository by
  // that issue alone.
  lemma OpenIssueMovesOne(t: Tables, c: Columns, e: Event, i: Uri, q: Uri)
    requires OpenIssuesExact(t, c) && Valid(e) && IsIssueOrStatusOf(e, i) && Live(t.repositories, q)
    ensures Count(Project(t, c, e).openIssues, q) ==
            Count(c.openIssues, q) + One(IsOpenIn(Apply(t, e).issues, Project(t, c, e).issueStates, i, q))
            - One(IsOpenIn(t.issues, c.issueStates, i, q))
  {
    OpenIssueCounts(t, c, e, q);
    var states := Project(t, c, e).issueStates;
    var before, after := OpenIssuesOf(t.issues, c.issueStates, q), OpenIssuesOf(IssuesAfter(t, e), states, q);
    forall x ensures x in before <==> IsOpenIn(t.issues, c.issueStates, x, q)
             ensures x in after <==> IsOpenIn(IssuesAfter(t, e), states, x, q) {
    }
    forall x | x != i ensures x in before <==> x in after {
      OtherIssueRowsKept(t, e, i, x, q);
      OtherIssueStatesKept(t, c, e, i, x);
    }
    OneElement(before, after, i);
  }

  // --- Pull requests ---------------------------------------------------------------------

  predicate IsPullTo(e: Event, r: Uri) { e.change.Put? && e.change.payload.PullRequest? && e.change.payload.target == r }

  predicate IsAimedAt(pulls: map<Uri, Row<PullValue>>, p: Uri, r: Uri) { p in pulls && pulls[p].live && pulls[p].value.target == r }

  // The incoming version keeps the target and the branches of the row before.
  predicate KeepsTarget(t: Tables, e: Event) {
    e.change.Put? && e.change.payload.PullRequest? && e.uri in t.pulls ==>
      t.pulls[e.uri].value.target == e.change.payload.target && t.pulls[e.uri].value.origin == e.change.payload.origin
  }

  lemma PullRowAfter(t: Tables, e: Event, q: Uri)
    requires Valid(e) && e.uri.collection == PullRequestCollection && IsLatest(t, t.pulls, e) && KeepsTarget(t, e)
    ensures forall p | p != e.uri :: IsAimedAt(PullsAfter(t, e), p, q) <==> IsAimedAt(t.pulls, p, q)
    ensures IsAimedAt(PullsAfter(t, e), e.uri, q) <==> IsPullTo(e, q)
  {
  }

  lemma PullCountStored(t: Tables, c: Columns, q: Uri)
    requires PullsExact(t, c) && Live(t.repositories, q)
    ensures Count(c.pulls, q) == |PullsOf(t.pulls, q)|
  {
    CountIs(t.repositories, c.pulls, PullRecounts(t), q);
  }

  lemma PullCounts(t: Tables, c: Columns, e: Event, q: Uri)
    requires PullsExact(t, c) && Valid(e) && e.uri.collection == PullRequestCollection && Live(t.repositories, q)
    ensures Count(c.pulls, q) == |PullsOf(t.pulls, q)| && Count(Project(t, c, e).pulls, q) == |PullsOf(PullsAfter(t, e), q)|
  {
    PullCountStored(t, c, q);
    RefreshPulls(t, c, e);
    ProjectIsRefresh(t, c, e);
    RepositoriesStay(t, e);
    PullCountStored(Apply(t, e), Refresh(t, c, e), q);
  }

  lemma PullRowMovesOne(t: Tables, e: Event, q: Uri)
    requires Valid(e) && e.uri.collection == PullRequestCollection && IsLatest(t, t.pulls, e) && KeepsTarget(t, e)
    ensures |PullsOf(PullsAfter(t, e), q)| == |PullsOf(t.pulls, q)| + One(IsPullTo(e, q)) - One(IsAimedAt(t.pulls, e.uri, q))
  {
    PullRowAfter(t, e, q);
    var before, after := PullsOf(t.pulls, q), PullsOf(PullsAfter(t, e), q);
    forall p ensures (p in before <==> IsAimedAt(t.pulls, p, q)) && (p in after <==> IsAimedAt(PullsAfter(t, e), p, q)) {
    }
    OneElement(before, after, e.uri);
  }

  // A pull request counts for its target until it is deleted.
  lemma PullMovesOne(t: Tables, c: Columns, e: Event, q: Uri)
    requires PullsExact(t, c) && Valid(e) && e.uri.collection == PullRequestCollection && IsLatest(t, t.pulls, e)
    requires KeepsTarget(t, e) && Live(t.repositories, q)
    ensures Count(Project(t, c, e).pulls, q) == Count(c.pulls, q) + One(IsPullTo(e, q)) - One(IsAimedAt(t.pulls, e.uri, q))
  {
    PullCounts(t, c, e, q);
    PullRowMovesOne(t, e, q);
  }

  predicate IsOpenAt(pulls: map<Uri, Row<PullValue>>, states: map<Uri, State>, p: Uri, r: Uri) {
    IsAimedAt(pulls, p, r) && StateOf(states, p) == Open
  }

  predicate IsPullOrStatusOf(e: Event, p: Uri) {
    || (e.uri.collection == PullRequestCollection && e.uri == p)
    || (e.change.Put? && e.change.payload.PullRequestStatus? && e.change.payload.status.subject == p)
  }

  lemma OpenPullCountStored(t: Tables, c: Columns, q: Uri)
    requires OpenPullsExact(t, c) && Live(t.repositories, q)
    ensures Count(c.openPulls, q) == |OpenPullsOf(t.pulls, c.pullStates, q)|
  {
    CountIs(t.repositories, c.openPulls, OpenPullRecounts(t, c.pullStates), q);
  }

  lemma OpenPullCounts(t: Tables, c: Columns, e: Event, q: Uri)
    requires OpenPullsExact(t, c) && Valid(e) && e.uri.collection != RepositoryCollection && e.uri.collection != OrganizationCollection
    requires Live(t.repositories, q)
    ensures Count(c.openPulls, q) == |OpenPullsOf(t.pulls, c.pullStates, q)|
    ensures Count(Project(t, c, e).openPulls, q) == |OpenPullsOf(PullsAfter(t, e), Project(t, c, e).pullStates, q)|
  {
    OpenPullCountStored(t, c, q);
    RefreshOpenPulls(t, c, e);
    ProjectIsRefresh(t, c, e);
    RepositoriesStay(t, e);
    OpenPullCountStored(Apply(t, e), Refresh(t, c, e), q);
  }

  lemma OtherPullRowsKept(t: Tables, e: Event, p: Uri, x: Uri, q: Uri)
    requires Valid(e) && IsPullOrStatusOf(e, p) && x != p
    ensures IsAimedAt(PullsAfter(t, e), x, q) <==> IsAimedAt(t.pulls, x, q)
  {
  }

  lemma OtherPullUntouched(t: Tables, e: Event, p: Uri, x: Uri)
    requires Valid(e) && IsPullOrStatusOf(e, p) && x != p
    ensures x !in TouchedPullStates(t, e)
  {
  }

  lemma OtherPullStatesKept(t: Tables, c: Columns, e: Event, p: Uri, x: Uri)
    requires Valid(e) && IsPullOrStatusOf(e, p) && x != p
    ensures StateOf(Project(t, c, e).pullStates, x) == StateOf(c.pullStates, x)
  {
    ProjectKeepsStates(t, c, e);
    OtherPullUntouched(t, e, p, x);
  }

  // A version or a status of a pull request moves the open count by it alone.
  lemma OpenPullMovesOne(t: Tables, c: Columns, e: Event, p: Uri, q: Uri)
    requires OpenPullsExact(t, c) && Valid(e) && IsPullOrStatusOf(e, p) && Live(t.repositories, q)
    ensures Count(Project(t, c, e).openPulls, q) ==
            Count(c.openPulls, q) + One(IsOpenAt(Apply(t, e).pulls, Project(t, c, e).pullStates, p, q))
            - One(IsOpenAt(t.pulls, c.pullStates, p, q))
  {
    OpenPullCounts(t, c, e, q);
    var states := Project(t, c, e).pullStates;
    var before, after := OpenPullsOf(t.pulls, c.pullStates, q), OpenPullsOf(PullsAfter(t, e), states, q);
    forall x ensures x in before <==> IsOpenAt(t.pulls, c.pullStates, x, q)
             ensures x in after <==> IsOpenAt(PullsAfter(t, e), states, x, q) {
    }
    forall x | x != p ensures x in before <==> x in after {
      OtherPullRowsKept(t, e, p, x, q);
      OtherPullStatesKept(t, c, e, p, x);
    }
    OneElement(before, after, p);
  }

  // --- Forks and owners --------------------------------------------------------------------

  predicate NamesSource(e: Event, r: Uri) { e.change.Put? && e.change.payload == Repository(Some(r)) }

  predicate IsForkOf(repositories: map<Uri, Row<RepositoryValue>>, f: Uri, r: Uri) {
    f in repositories && repositories[f].live && repositories[f].value.forkedFrom == Some(r) && f != r
  }

  lemma ForkRowAfter(t: Tables, e: Event, q: Uri)
    requires Valid(e) && e.uri.collection == RepositoryCollection && Fresh(t.repositories, e.uri, e.id)
    ensures forall f | f != e.uri :: IsForkOf(RepositoriesAfter(t, e), f, q) <==> IsForkOf(t.repositories, f, q)
    ensures IsForkOf(RepositoriesAfter(t, e), e.uri, q) <==> NamesSource(e, q)
  {
  }

  lemma ForkCountStored(t: Tables, c: Columns, q: Uri)
    requires ForksExact(t, c) && Live(t.repositories, q)
    ensures Count(c.forks, q) == |ForksOf(t.repositories, q)|
  {
    CountIs(t.repositories, c.forks, ForkRecounts(t), q);
  }

  lemma ForkCounts(t: Tables, c: Columns, e: Event, q: Uri)
    requires ForksExact(t, c) && Valid(e) && e.uri.collection == RepositoryCollection
    requires Live(t.repositories, q) && Live(RepositoriesAfter(t, e), q)
    ensures Count(c.forks, q) == |ForksOf(t.repositories, q)| && Count(Project(t, c, e).forks, q) == |ForksOf(RepositoriesAfter(t, e), q)|
  {
    ForkCountStored(t, c, q);
    RefreshForks(t, c, e);
    if RecountsLineages(e) {
      LineageRecountIsExact(Apply(t, e), Refresh(t, c, e));
    }
    ForkCountStored(Apply(t, e), Project(t, c, e), q);
  }

  // A repository counts as a fork of the one that it names, and no longer of the
  // one that it named before.
  lemma ForkMovesOne(t: Tables, c: Columns, e: Event, q: Uri)
    requires ForksExact(t, c) && Valid(e) && e.uri.collection == RepositoryCollection && Fresh(t.repositories, e.uri, e.id)
    requires Live(t.repositories, q) && Live(Apply(t, e).repositories, q)
    ensures Count(Project(t, c, e).forks, q) == Count(c.forks, q) + One(NamesSource(e, q)) - One(IsForkOf(t.repositories, e.uri, q))
  {
    ForkCounts(t, c, e, q);
    ForkRowAfter(t, e, q);
    var before, after := ForksOf(t.repositories, q), ForksOf(RepositoriesAfter(t, e), q);
    forall f ensures (f in before <==> IsForkOf(t.repositories, f, q)) && (f in after <==> IsForkOf(RepositoriesAfter(t, e), f, q)) {
    }
    OneElement(before, after, e.uri);
  }

  lemma OwnedCountStored(t: Tables, c: Columns, did: string)
    requires OwnedExact(t, c) && Live(t.profiles, did)
    ensures Count(c.owned, did) == |OwnedBy(t.repositories, did)|
  {
    CountIs(t.profiles, c.owned, OwnedRecounts(t), did);
  }

  lemma OwnedCounts(t: Tables, c: Columns, e: Event, did: string)
    requires OwnedExact(t, c) && Valid(e) && e.uri.collection == RepositoryCollection && Live(t.profiles, did)
    ensures Count(c.owned, did) == |OwnedBy(t.repositories, did)|
    ensures Count(Project(t, c, e).owned, did) == |OwnedBy(RepositoriesAfter(t, e), did)|
  {
    OwnedCountStored(t, c, did);
    RefreshOwned(t, c, e);
    assert Project(t, c, e).owned == Refresh(t, c, e).owned;
    OwnedCountStored(Apply(t, e), Refresh(t, c, e), did);
  }

  lemma OwnedRowMovesOne(t: Tables, e: Event, did: string)
    requires Valid(e) && e.uri.collection == RepositoryCollection && Fresh(t.repositories, e.uri, e.id)
    ensures |OwnedBy(RepositoriesAfter(t, e), did)| ==
            |OwnedBy(t.repositories, did)| + One(did == e.uri.did && e.change.Put?) - One(did == e.uri.did && Live(t.repositories, e.uri))
  {
    OneElement(OwnedBy(t.repositories, did), OwnedBy(RepositoriesAfter(t, e), did), e.uri);
  }

  // An owner has one repository more when one appears, and one less when one
  // disappears.
  lemma OwnedMovesOne(t: Tables, c: Columns, e: Event, did: string)
    requires OwnedExact(t, c) && Valid(e) && e.uri.collection == RepositoryCollection && Fresh(t.repositories, e.uri, e.id)
    requires Live(t.profiles, did)
    ensures Count(Project(t, c, e).owned, did) ==
            Count(c.owned, did) + One(did == e.uri.did && e.change.Put?) - One(did == e.uri.did && Live(t.repositories, e.uri))
  {
    OwnedCounts(t, c, e, did);
    OwnedRowMovesOne(t, e, did);
  }
}
