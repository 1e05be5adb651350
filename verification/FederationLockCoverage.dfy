// Which of the counts that an event refreshes are under a lock of its own.
//
// Other transactions may commit between the queries that name the locks and the
// statements that write and refresh: the queries see the tables in `v`, the
// write and the recounts see the tables in `now`.
module FederationLockCoverage {
  import opened Options
  import opened FederationTables
  import opened FederationCounts
  import opened FederationLocks

  ghost predicate Holds(v: Views, e: Event, c: LockClass, u: Uri) {
    Lock(c, Text(u)) in TransactionLocks(v, e)
  }

  // --- The names behind the locks ------------------------------------------------------

  // What the queries after each lock on an issue add.
  ghost function Requeried(see: Snapshots, e: Event): set<string> {
    var ordered := Sorted(Texts(IssueKeys(see, e)));
    FoundRepositories(see, ordered, |ordered|)
  }

  ghost function RequeriedTargets(see: Snapshots, e: Event): set<string> {
    var ordered := Sorted(Texts(PullKeys(see, e)));
    FoundTargets(see, ordered, |ordered|)
  }

  ghost function Named(v: Views, e: Event, c: LockClass): set<string> {
    match c
    case IssueComments => Texts(IssueKeys(v.issue, e))
    case RepositoryIssues => Texts(IssueRepositoryKeys(v.issue, e)) + Requeried(v.issue, e)
    case PullRequests => Texts(PullKeys(v.pull, e))
    case RepositoryPullRequests => Texts(PullRepositoryKeys(v.pull, e)) + RequeriedTargets(v.pull, e)
    case RepositoryStars => Texts(Elements(StarKey(v.star, e)))
    case RepositoryForks => Texts(ForkKeys(v.fork, e))
    case Lineages => if RecountsLineages(e) then {""} else {}
  }

  lemma IssueNames(v: Views, e: Event, l: Lock)
    ensures l in IssueLocks(v.issue, e) <==> (l.kind == IssueComments || l.kind == RepositoryIssues) && l.name in Named(v, e, l.kind)
  {
    var issues := Sorted(Texts(IssueKeys(v.issue, e)));
    var repositories := Sorted(Texts(IssueRepositoryKeys(v.issue, e)) + Requeried(v.issue, e));
    InLocksOf(IssueComments, issues, l.name);
    InLocksOf(RepositoryIssues, repositories, l.name);
  }

  lemma PullNames(v: Views, e: Event, l: Lock)
    ensures l in PullLocks(v.pull, e) <==> (l.kind == PullRequests || l.kind == RepositoryPullRequests) && l.name in Named(v, e, l.kind)
  {
    var pulls := Sorted(Texts(PullKeys(v.pull, e)));
    var repositories := Sorted(Texts(PullRepositoryKeys(v.pull, e)) + RequeriedTargets(v.pull, e));
    InLocksOf(PullRequests, pulls, l.name);
    InLocksOf(RepositoryPullRequests, repositories, l.name);
  }

  lemma StarAndForkNames(v: Views, e: Event, l: Lock)
    ensures l in StarLocks(v.star, e) <==> l.kind == RepositoryStars && l.name in Named(v, e, RepositoryStars)
    ensures l in ForkLocks(v.fork, e) <==> l.kind == RepositoryForks && l.name in Named(v, e, RepositoryForks)
  {
    var star := StarKey(v.star, e);
    var keys := if star.Some? then [Text(star.value)] else [];
    InLocksOf(RepositoryStars, keys, l.name);
    assert l.name in Texts(Elements(star)) <==> l.name in keys;
    InLocksOf(RepositoryForks, Sorted(Texts(ForkKeys(v.fork, e))), l.name);
  }

  // A lock is taken exactly if a query has named it.
  lemma LockedIffNamed(v: Views, e: Event, l: Lock)
    ensures l in TransactionLocks(v, e) <==> l.name in Named(v, e, l.kind)
  {
    IssueNames(v, e, l);
    PullNames(v, e, l);
    StarAndForkNames(v, e, l);
  }

  // --- When every refreshed key is locked --------------------------------------------------

  // The keys of the counts and states that an event refreshes, by the class of
  // the lock that should protect them.
  function Touched(now: Tables, e: Event, c: LockClass): set<Uri> {
    match c
    case IssueComments => TouchedIssueComments(now, e)
    case RepositoryIssues => TouchedIssues(now, e) + TouchedComments(now, e)
    case PullRequests => TouchedPullStates(now, e)
    case RepositoryPullRequests => TouchedPulls(now, e)
    case RepositoryStars => TouchedStars(now, e)
    case RepositoryForks => TouchedForks(now, e)
    case Lineages => {}
  }

  ghost predicate AllLocked(v: Views, now: Tables, e: Event) {
    forall c, u | u in Touched(now, e, c) :: Holds(v, e, c, u)
  }

  ghost predicate IsNamed(v: Views, e: Event, c: LockClass, u: Uri) { Text(u) in Named(v, e, c) }

  ghost predicate AllNamed(v: Views, now: Tables, e: Event) {
    forall c, u | u in Touched(now, e, c) :: IsNamed(v, e, c, u)
  }

  lemma AllLockedIffNamed(v: Views, now: Tables, e: Event)
    ensures AllLocked(v, now, e) <==> AllNamed(v, now, e)
  {
    forall c, u | u in Touched(now, e, c) ensures Holds(v, e, c, u) <==> IsNamed(v, e, c, u) {
      LockedIffNamed(v, e, Lock(c, Text(u)));
    }
  }

  // --- The same, kind by kind: the rows that the queries and the write must agree on ----------

  // The query saw an issue row that names the repository.
  predicate SawIssueIn(t: Tables, i: Uri, r: Uri) { i in t.issues && Text(t.issues[i].value) == Text(r) }

  predicate SawStarOf(t: Tables, s: Uri, r: Uri) { s in t.stars && Text(t.stars[s].value) == Text(r) }

  predicate SawPullTo(t: Tables, p: Uri, r: Uri) { p in t.pulls && Text(t.pulls[p].value.target) == Text(r) }

  // A query by text after the lock on that text saw such a row.
  predicate SawTextIn(t: Tables, text: string, r: Uri) {
    exists i | i in t.issues :: Text(i) == text && Text(t.issues[i].value) == Text(r)
  }

  predicate SawTextTo(t: Tables, text: string, r: Uri) {
    exists p | p in t.pulls :: Text(p) == text && Text(t.pulls[p].value.target) == Text(r)
  }

  predicate RequerySaw(t: Tables, i: Uri, r: Uri) { SawTextIn(t, Text(i), r) }
  predicate RequerySawPull(t: Tables, p: Uri, r: Uri) { SawTextTo(t, Text(p), r) }

  // The query after one of the locks saw such a row.
  ghost predicate SomeRequerySaw(see: Snapshots, e: Event, r: Uri) {
    var order := Sorted(Texts(IssueKeys(see, e)));
    exists n | 0 <= n < |order| :: SawTextIn(see(6 + n), order[n], r)
  }

  ghost predicate SomeRequerySawPull(see: Snapshots, e: Event, r: Uri) {
    var order := Sorted(Texts(PullKeys(see, e)));
    exists n | 0 <= n < |order| :: SawTextTo(see(3 + n), order[n], r)
  }

  ghost predicate QueriesAgree(v: Views, now: Tables, e: Event) {
    match e.change
    case Put(_, payload) => PutAgrees(v, now, e, payload)
    case Delete => DeleteAgrees(v, now, e)
  }

  ghost predicate PutAgrees(v: Views, now: Tables, e: Event, payload: Payload) {
    match payload
    case Issue(repository) =>
      Replaces(now, now.issues, e) && e.uri in now.issues ==>
        var r := now.issues[e.uri].value;
        Text(r) == Text(repository) || SawIssueIn(v.issue(0), e.uri, r) || RequerySaw(v.issue(6), e.uri, r)
    case Comment(issue, parent) =>
      ReplacesComment(now, e, CommentValue(issue, parent)) ==> CommentAgrees(v, now, e)
    case IssueStatus(status) =>
      Replaces(now, now.issueStatuses, e) && status.subject in now.issues ==>
        var r := now.issues[status.subject].value;
        || Text(r) == Text(status.repository)
        || SawIssueIn(v.issue(1), status.subject, r) || RequerySaw(v.issue(6), status.subject, r)
        || SawOldStatusIn(v.issue(4), v.issue(5), e.uri, r)
    case PullRequestStatus(status) =>
      ReplacesPullStatus(now, e, status) && status.subject in now.pulls ==>
        var r := now.pulls[status.subject].value.target;
        || Text(r) == Text(status.repository)
        || SawPullStatusIn(v.pull(2), e.uri, r) || SomeRequerySawPull(v.pull, e, r)
    case Repository(forkedFrom) =>
      && (forall p | p in now.pulls && now.pulls[p].value.target == e.uri :: SawPullAt(v.pull(0), p, e.uri))
      && SourceAgrees(v, now, e, forkedFrom)
    case _ => true
  }

  ghost predicate DeleteAgrees(v: Views, now: Tables, e: Event) {
    match e.uri.collection
    case StarCollection => Removes(now, now.stars, e) ==> SawStarOf(v.star, e.uri, now.stars[e.uri].value)
    case IssueCollection => Removes(now, now.issues, e) ==> SawIssueIn(v.issue(0), e.uri, now.issues[e.uri].value)
    case CommentCollection => Removes(now, now.comments, e) ==> CommentAgrees(v, now, e)
    case IssueStatusCollection =>
      Removes(now, now.issueStatuses, e) && now.issueStatuses[e.uri].value.subject in now.issues ==>
        SawOldStatusIn(v.issue(4), v.issue(5), e.uri, now.issues[now.issueStatuses[e.uri].value.subject].value)
    case PullRequestCollection =>
      Removes(now, now.pulls, e) ==>
        var r := now.pulls[e.uri].value.target;
        SawPullTo(v.pull(1), e.uri, r) || (e.uri in v.pull(1).pulls && RequerySawPull(v.pull(3), e.uri, r))
    case PullRequestStatusCollection =>
      Removes(now, now.pullStatuses, e) ==>
        var subject := now.pullStatuses[e.uri].value.subject;
        && SawPullStatusOf(v.pull(2), e.uri, subject)
        && (subject in now.pulls ==>
              var r := now.pulls[subject].value.target;
              SawPullStatusIn(v.pull(2), e.uri, r) || SomeRequerySawPull(v.pull, e, r))
    case RepositoryCollection => SourceAgrees(v, now, e, None)
    case _ => true
  }

  // Each affected issue was seen, and its repository was seen after one of the
  // issue locks.
  ghost predicate CommentAgrees(v: Views, now: Tables, e: Event) {
    forall i | i in TouchedByComment(now, e) :: IssueAgrees(v, now, e, i)
  }

  ghost predicate IssueAgrees(v: Views, now: Tables, e: Event, i: Uri) {
    SawCommentOf(v, e, i) && (i in now.issues ==> SomeRequerySaw(v.issue, e, now.issues[i].value))
  }

  // The issue is the one that the event names, or that a query saw the comment
  // on, or that a query saw a reply to the comment on.
  predicate SawCommentOf(v: Views, e: Event, i: Uri) {
    || (e.change.Put? && e.change.payload.Comment? && Text(e.change.payload.issue) == Text(i))
    || (e.uri in v.issue(2).comments && Text(v.issue(2).comments[e.uri].value.issue) == Text(i))
    || SawReplyOn(v.issue(3), e.uri, i)
  }

  predicate SawReplyOn(t: Tables, u: Uri, i: Uri) {
    exists c | c in t.comments :: t.comments[c].live && t.comments[c].value.parent == Some(u) && Text(t.comments[c].value.issue) == Text(i)
  }

  // The query saw an earlier version of the status, and that version's
  // repository or its subject's was `r`.
  predicate SawOldStatusIn(statuses: Tables, issues: Tables, s: Uri, r: Uri) {
    s in statuses.issueStatuses &&
    (Text(statuses.issueStatuses[s].value.repository) == Text(r) || SawIssueIn(issues, statuses.issueStatuses[s].value.subject, r))
  }

  predicate SawPullStatusOf(t: Tables, s: Uri, subject: Uri) {
    s in t.pullStatuses && Text(t.pullStatuses[s].value.subject) == Text(subject)
  }

  predicate SawPullStatusIn(t: Tables, s: Uri, r: Uri) { s in t.pullStatuses && Text(t.pullStatuses[s].value.repository) == Text(r) }

  predicate SawPullAt(t: Tables, p: Uri, r: Uri) { exists q | q in t.pulls :: Text(q) == Text(p) && t.pulls[q].value.target == r }

  // The source at the write is the one that the query saw, or the new one.
  predicate SourceAgrees(v: Views, now: Tables, e: Event, forkedFrom: Option<Uri>) {
    var source, seen := ForkSource(now.repositories, e.uri), ForkSource(v.fork.repositories, e.uri);
    source.Some? ==>
      || (seen.Some? && Text(seen.value) == Text(source.value))
      || (forkedFrom.Some? && Text(forkedFrom.value) == Text(source.value))
      || Text(source.value) == Text(e.uri)
  }

  // --- Names and rows --------------------------------------------------------------------------

  lemma {:induction false} FoundIff(see: Snapshots, keys: seq<string>, n: nat, r: Uri)
    requires n <= |keys|
    ensures Text(r) in FoundRepositories(see, keys, n) <==> exists m | 0 <= m < n :: SawTextIn(see(6 + m), keys[m], r)
  {
    if n > 0 {
      FoundIff(see, keys, n - 1, r);
      assert Text(r) in RepositoriesOfIssueText(see(5 + n), keys[n - 1]) <==> SawTextIn(see(6 + (n - 1)), keys[n - 1], r);
    }
  }

  lemma {:induction false} FoundTargetIff(see: Snapshots, keys: seq<string>, n: nat, r: Uri)
    requires n <= |keys|
    ensures Text(r) in FoundTargets(see, keys, n) <==> exists m | 0 <= m < n :: SawTextTo(see(3 + m), keys[m], r)
  {
    if n > 0 {
      FoundTargetIff(see, keys, n - 1, r);
      assert Text(r) in TargetsOfPullText(see(2 + n), keys[n - 1]) <==> SawTextTo(see(3 + (n - 1)), keys[n - 1], r);
    }
  }

  lemma RequeriedIff(see: Snapshots, e: Event, r: Uri)
    ensures Text(r) in Requeried(see, e) <==> SomeRequerySaw(see, e, r)
    ensures Text(r) in RequeriedTargets(see, e) <==> SomeRequerySawPull(see, e, r)
  {
    FoundIff(see, Sorted(Texts(IssueKeys(see, e))), |Sorted(Texts(IssueKeys(see, e)))|, r);
    FoundTargetIff(see, Sorted(Texts(PullKeys(see, e))), |Sorted(Texts(PullKeys(see, e)))|, r);
  }

  lemma NoneRequeried(see: Snapshots, e: Event)
    ensures IssueKeys(see, e) == {} ==> Requeried(see, e) == {}
    ensures PullKeys(see, e) == {} ==> RequeriedTargets(see, e) == {}
  {
    assert Texts({}) == {} && Sorted({}) == [];
  }

  lemma SortedOne(s: string)
    ensures Sorted({s}) == [s]
  {
    assert IsSorted([s], {s});
    SortedIsUnique(Sorted({s}), [s], {s});
  }

  lemma OneRequeried(see: Snapshots, e: Event, u: Uri, r: Uri)
    ensures IssueKeys(see, e) == {u} ==> (Text(r) in Requeried(see, e) <==> RequerySaw(see(6), u, r))
    ensures PullKeys(see, e) == {u} ==> (Text(r) in RequeriedTargets(see, e) <==> RequerySawPull(see(3), u, r))
  {
    SortedOne(Text(u));
    assert Texts({u}) == {Text(u)};
    FoundIff(see, [Text(u)], 1, r);
    FoundTargetIff(see, [Text(u)], 1, r);
    assert see(6 + 0) == see(6) && see(3 + 0) == see(3);
  }

  // --- Each kind -----------------------------------------------------------------------------

  lemma StarTouches(now: Tables, e: Event)
    requires Valid(e) && e.uri.collection == StarCollection
    ensures forall c | c != RepositoryStars :: Touched(now, e, c) == {}
    ensures e.change.Put? ==> Touched(now, e, RepositoryStars) <= {e.change.payload.starred}
    ensures e.change.Delete? ==> Touched(now, e, RepositoryStars) == if Removes(now, now.stars, e) then {now.stars[e.uri].value} else {}
  {
  }

  lemma StarNames(v: Views, e: Event, r: Uri)
    requires Valid(e) && e.uri.collection == StarCollection
    ensures IsNamed(v, e, RepositoryStars, r) <==>
            if e.change.Put? then Text(r) == Text(e.change.payload.starred) else SawStarOf(v.star, e.uri, r)
  {
  }

  lemma StarNamedIff(v: Views, now: Tables, e: Event)
    requires Valid(e) && e.uri.collection == StarCollection
    ensures AllNamed(v, now, e) <==> QueriesAgree(v, now, e)
  {
    StarTouches(now, e);
    forall r ensures IsNamed(v, e, RepositoryStars, r) <==>
                     if e.change.Put? then Text(r) == Text(e.change.payload.starred) else SawStarOf(v.star, e.uri, r) {
      StarNames(v, e, r);
    }
  }

  lemma IssueTouches(now: Tables, e: Event)
    requires Valid(e) && e.uri.collection == IssueCollection
    ensures forall c | c != RepositoryIssues && c != IssueComments :: Touched(now, e, c) == {}
    ensures Touched(now, e, RepositoryIssues) == TouchedByIssue(now, e)
    ensures Touched(now, e, IssueComments) <= if e.change.Put? then {e.uri} else {}
  {
  }

  lemma IssuePutNames(v: Views, e: Event, r: Uri)
    requires Valid(e) && IsPut(e, IssueCollection)
    ensures IsNamed(v, e, RepositoryIssues, r) <==>
            Text(r) == Text(e.change.payload.repository) || SawIssueIn(v.issue(0), e.uri, r) || RequerySaw(v.issue(6), e.uri, r)
    ensures IsNamed(v, e, IssueComments, e.uri)
  {
    assert IssueKeys(v.issue, e) == {e.uri};
    OneRequeried(v.issue, e, e.uri, r);
  }

  lemma IssueDeleteNames(v: Views, e: Event, r: Uri)
    requires Valid(e) && IsDelete(e, IssueCollection)
    ensures IsNamed(v, e, RepositoryIssues, r) <==> SawIssueIn(v.issue(0), e.uri, r)
  {
    assert IssueKeys(v.issue, e) == {};
    NoneRequeried(v.issue, e);
  }

  lemma IssueNamedIff(v: Views, now: Tables, e: Event)
    requires Valid(e) && e.uri.collection == IssueCollection
    ensures AllNamed(v, now, e) <==> QueriesAgree(v, now, e)
  {
    IssueTouches(now, e);
    if e.change.Put? {
      IssuePutNames(v, e, e.change.payload.repository);
      if e.uri in now.issues {
        IssuePutNames(v, e, now.issues[e.uri].value);
      }
    } else if e.uri in now.issues {
      IssueDeleteNames(v, e, now.issues[e.uri].value);
    }
    OnlyRepositoriesMatter(v, now, e);
  }

  lemma OnlyRepositoriesMatter(v: Views, now: Tables, e: Event)
    requires Valid(e) && e.uri.collection == IssueCollection
    ensures AllNamed(v, now, e) <==> forall r | r in TouchedByIssue(now, e) :: IsNamed(v, e, RepositoryIssues, r)
  {
    IssueTouches(now, e);
    if e.change.Put? {
      IssuePutNames(v, e, e.uri);
    }
  }

  lemma CommentTouches(now: Tables, e: Event)
    requires Valid(e) && e.uri.collection == CommentCollection
    ensures forall c | c != RepositoryIssues && c != IssueComments :: Touched(now, e, c) == {}
    ensures Touched(now, e, RepositoryIssues) == RepositoriesOfIssues(now, TouchedByComment(now, e))
    ensures Touched(now, e, IssueComments) == TouchedByComment(now, e)
  {
  }

  lemma CommentNames(v: Views, e: Event, u: Uri)
    requires Valid(e) && e.uri.collection == CommentCollection
    ensures IsNamed(v, e, RepositoryIssues, u) <==> SomeRequerySaw(v.issue, e, u)
    ensures IsNamed(v, e, IssueComments, u) <==> SawCommentOf(v, e, u)
  {
    assert IssueRepositoryKeys(v.issue, e) == {};
    RequeriedIff(v.issue, e, u);
    RepliesNamed(v.issue(3), e.uri, u);
  }

  lemma RepliesNamed(t: Tables, u: Uri, i: Uri)
    ensures Text(i) in Texts(ChildIssues(t.comments, u)) <==> SawReplyOn(t, u, i)
  {
    if c :| c in t.comments && t.comments[c].live && t.comments[c].value.parent == Some(u) && Text(t.comments[c].value.issue) == Text(i) {
      assert t.comments[c].value.issue in ChildIssues(t.comments, u);
    }
  }

  lemma CommentNamedIff(v: Views, now: Tables, e: Event)
    requires Valid(e) && e.uri.collection == CommentCollection
    ensures AllNamed(v, now, e) <==> forall i | i in TouchedByComment(now, e) :: IssueAgrees(v, now, e, i)
  {
    CommentTouches(now, e);
    var affected := TouchedByComment(now, e);
    forall u ensures IsNamed(v, e, RepositoryIssues, u) <==> SomeRequerySaw(v.issue, e, u)
             ensures IsNamed(v, e, IssueComments, u) <==> SawCommentOf(v, e, u) {
      CommentNames(v, e, u);
    }
    forall i | i in affected && i in now.issues ensures now.issues[i].value in RepositoriesOfIssues(now, affected) {
    }
  }

  lemma RepositoryTouches(now: Tables, e: Event)
    requires Valid(e) && e.uri.collection == RepositoryCollection
    ensures Touched(now, e, IssueComments) == {} && Touched(now, e, RepositoryIssues) == Touched(now, e, RepositoryStars) == {e.uri}
    ensures Touched(now, e, RepositoryPullRequests) == {e.uri}
    ensures Touched(now, e, PullRequests) ==
            if e.change.Put? then set p | p in now.pulls && now.pulls[p].value.target == e.uri else {}
    ensures Touched(now, e, RepositoryForks) ==
            Elements(ForkSource(now.repositories, e.uri)) + (if e.change.Put? then {e.uri} + Elements(e.change.payload.forkedFrom) else {})
  {
  }

  lemma RepositoryNames(v: Views, e: Event)
    requires Valid(e) && e.uri.collection == RepositoryCollection
    ensures IsNamed(v, e, RepositoryIssues, e.uri) && IsNamed(v, e, RepositoryStars, e.uri)
    ensures IsNamed(v, e, RepositoryPullRequests, e.uri) && IsNamed(v, e, RepositoryForks, e.uri)
    ensures e.change.Put? && e.change.payload.forkedFrom.Some? ==> IsNamed(v, e, RepositoryForks, e.change.payload.forkedFrom.value)
  {
  }

  ghost predicate PullsAreNamed(v: Views, now: Tables, e: Event) {
    forall p | p in Touched(now, e, PullRequests) :: IsNamed(v, e, PullRequests, p)
  }

  ghost predicate ForksAreNamed(v: Views, now: Tables, e: Event) {
    forall r | r in Touched(now, e, RepositoryForks) :: IsNamed(v, e, RepositoryForks, r)
  }

  lemma OwnKeysNamed(v: Views, now: Tables, e: Event, c: LockClass, u: Uri)
    requires Valid(e) && e.uri.collection == RepositoryCollection
    requires u in Touched(now, e, c) && c != PullRequests && c != RepositoryForks
    ensures IsNamed(v, e, c, u)
  {
    RepositoryTouches(now, e);
    RepositoryNames(v, e);
    match c {
      case RepositoryIssues => assert u == e.uri;
      case RepositoryPullRequests => assert u == e.uri;
      case RepositoryStars => assert u == e.uri;
      case _ => assert false;
    }
  }

  lemma RepositoryClasses(v: Views, now: Tables, e: Event)
    requires Valid(e) && e.uri.collection == RepositoryCollection
    ensures AllNamed(v, now, e) <==> PullsAreNamed(v, now, e) && ForksAreNamed(v, now, e)
  {
    forall c, u | u in Touched(now, e, c) && c != PullRequests && c != RepositoryForks ensures IsNamed(v, e, c, u) {
      OwnKeysNamed(v, now, e, c, u);
    }
  }

  lemma ForksNamedIff(v: Views, now: Tables, e: Event)
    requires Valid(e) && e.uri.collection == RepositoryCollection
    ensures
      var source := ForkSource(now.repositories, e.uri);
      ForksAreNamed(v, now, e) <==> (source.Some? ==> IsNamed(v, e, RepositoryForks, source.value))
  {
    RepositoryTouches(now, e);
    RepositoryNames(v, e);
    var source := ForkSource(now.repositories, e.uri);
    assert source.Some? ==> source.value in Touched(now, e, RepositoryForks);
  }

  lemma PullsNamedIff(v: Views, now: Tables, e: Event)
    requires Valid(e) && e.uri.collection == RepositoryCollection
    ensures PullsAreNamed(v, now, e) <==>
            (e.change.Put? ==> forall p | p in now.pulls && now.pulls[p].value.target == e.uri :: Text(p) in Texts(PullKeys(v.pull, e)))
  {
    RepositoryTouches(now, e);
    forall p ensures p in Touched(now, e, PullRequests) <==> e.change.Put? && p in now.pulls && now.pulls[p].value.target == e.uri
             ensures IsNamed(v, e, PullRequests, p) <==> Text(p) in Texts(PullKeys(v.pull, e)) {
    }
  }

  lemma RepositoryNamedIff(v: Views, now: Tables, e: Event)
    requires Valid(e) && e.uri.collection == RepositoryCollection
    ensures AllNamed(v, now, e) <==> QueriesAgree(v, now, e)
  {
    RepositoryClasses(v, now, e);
    ForksNamedIff(v, now, e);
    PullsNamedIff(v, now, e);
  }

  lemma IssueStatusTouches(now: Tables, e: Event)
    requires Valid(e) && e.uri.collection == IssueStatusCollection
    ensures forall c | c != RepositoryIssues :: Touched(now, e, c) == {}
    ensures Touched(now, e, RepositoryIssues) == RepositoriesOfIssues(now, TouchedByIssueStatus(now, e))
  {
  }

  lemma IssueStatusPutNames(v: Views, e: Event, r: Uri)
    requires Valid(e) && IsPut(e, IssueStatusCollection)
    ensures
      var status := e.change.payload.status;
      IsNamed(v, e, RepositoryIssues, r) <==>
        || Text(r) == Text(status.repository) || SawIssueIn(v.issue(1), status.subject, r)
        || RequerySaw(v.issue(6), status.subject, r) || SawOldStatusIn(v.issue(4), v.issue(5), e.uri, r)
  {
    assert IssueKeys(v.issue, e) == {e.change.payload.status.subject};
    OneRequeried(v.issue, e, e.change.payload.status.subject, r);
  }

  lemma IssueStatusDeleteNames(v: Views, e: Event, r: Uri)
    requires Valid(e) && IsDelete(e, IssueStatusCollection)
    ensures IsNamed(v, e, RepositoryIssues, r) <==> SawOldStatusIn(v.issue(4), v.issue(5), e.uri, r)
  {
    assert IssueKeys(v.issue, e) == {};
    NoneRequeried(v.issue, e);
  }

  lemma IssueStatusNamedIff(v: Views, now: Tables, e: Event)
    requires Valid(e) && e.uri.collection == IssueStatusCollection
    ensures AllNamed(v, now, e) <==> QueriesAgree(v, now, e)
  {
    IssueStatusTouches(now, e);
    forall r | r in RepositoriesOfIssues(now, TouchedByIssueStatus(now, e))
      ensures e.change.Put? ==>
                (IsNamed(v, e, RepositoryIssues, r) <==>
                  || Text(r) == Text(e.change.payload.status.repository) || SawIssueIn(v.issue(1), e.change.payload.status.subject, r)
                  || RequerySaw(v.issue(6), e.change.payload.status.subject, r) || SawOldStatusIn(v.issue(4), v.issue(5), e.uri, r))
      ensures e.change.Delete? ==>
                (IsNamed(v, e, RepositoryIssues, r) <==> SawOldStatusIn(v.issue(4), v.issue(5), e.uri, r))
    {
      if e.change.Put? {
        IssueStatusPutNames(v, e, r);
      } else {
        IssueStatusDeleteNames(v, e, r);
      }
    }
    forall i | i in TouchedByIssueStatus(now, e) && i in now.issues
      ensures now.issues[i].value in RepositoriesOfIssues(now, TouchedByIssueStatus(now, e)) {
    }
    assert AllNamed(v, now, e) <==>
           forall r | r in RepositoriesOfIssues(now, TouchedByIssueStatus(now, e)) :: IsNamed(v, e, RepositoryIssues, r);
  }

  lemma PullTouches(now: Tables, e: Event)
    requires Valid(e) && e.uri.collection == PullRequestCollection
    ensures forall c | c != RepositoryPullRequests && c != PullRequests :: Touched(now, e, c) == {}
    ensures Touched(now, e, PullRequests) <= if e.change.Put? then {e.uri} else {}
    ensures e.change.Put? ==> Touched(now, e, RepositoryPullRequests) <= {e.change.payload.target}
    ensures e.change.Delete? ==>
              Touched(now, e, RepositoryPullRequests) == if Removes(now, now.pulls, e) then {now.pulls[e.uri].value.target} else {}
  {
  }

  lemma PullPutNames(v: Views, e: Event)
    requires Valid(e) && IsPut(e, PullRequestCollection)
    ensures IsNamed(v, e, PullRequests, e.uri) && IsNamed(v, e, RepositoryPullRequests, e.change.payload.target)
  {
  }

  lemma PullDeleteNames(v: Views, e: Event, r: Uri)
    requires Valid(e) && IsDelete(e, PullRequestCollection)
    ensures IsNamed(v, e, RepositoryPullRequests, r) <==>
            SawPullTo(v.pull(1), e.uri, r) || (e.uri in v.pull(1).pulls && RequerySawPull(v.pull(3), e.uri, r))
  {
    if e.uri in v.pull(1).pulls {
      assert PullKeys(v.pull, e) == {e.uri};
      OneRequeried(v.pull, e, e.uri, r);
    } else {
      assert PullKeys(v.pull, e) == {};
      NoneRequeried(v.pull, e);
    }
  }

  lemma PullDeleteIff(v: Views, now: Tables, e: Event)
    requires Valid(e) && IsDelete(e, PullRequestCollection)
    ensures AllNamed(v, now, e) <==> DeleteAgrees(v, now, e)
  {
    PullTouches(now, e);
    if Removes(now, now.pulls, e) {
      PullDeleteNames(v, e, now.pulls[e.uri].value.target);
    }
  }

  lemma PullNamedIff(v: Views, now: Tables, e: Event)
    requires Valid(e) && e.uri.collection == PullRequestCollection
    ensures AllNamed(v, now, e) <==> QueriesAgree(v, now, e)
  {
    PullTouches(now, e);
    if e.change.Put? {
      PullPutNames(v, e);
    } else {
      PullDeleteIff(v, now, e);
    }
  }

  lemma PullStatusTouches(now: Tables, e: Event)
    requires Valid(e) && e.uri.collection == PullRequestStatusCollection
    ensures forall c | c != RepositoryPullRequests && c != PullRequests :: Touched(now, e, c) == {}
    ensures Touched(now, e, PullRequests) == TouchedByPullStatus(now, e)
    ensures Touched(now, e, RepositoryPullRequests) == TargetsOf(now, TouchedByPullStatus(now, e))
  {
  }

  lemma PullStatusPutNames(v: Views, e: Event, r: Uri)
    requires Valid(e) && IsPut(e, PullRequestStatusCollection)
    ensures IsNamed(v, e, PullRequests, e.change.payload.status.subject)
    ensures IsNamed(v, e, RepositoryPullRequests, r) <==>
            || Text(r) == Text(e.change.payload.status.repository)
            || SawPullStatusIn(v.pull(2), e.uri, r) || SomeRequerySawPull(v.pull, e, r)
  {
    assert e.change.payload.status.subject in PullKeys(v.pull, e);
    RequeriedIff(v.pull, e, r);
  }

  lemma PullStatusDeleteNames(v: Views, e: Event, u: Uri)
    requires Valid(e) && IsDelete(e, PullRequestStatusCollection)
    ensures IsNamed(v, e, PullRequests, u) <==> SawPullStatusOf(v.pull(2), e.uri, u)
    ensures IsNamed(v, e, RepositoryPullRequests, u) <==> SawPullStatusIn(v.pull(2), e.uri, u) || SomeRequerySawPull(v.pull, e, u)
  {
    RequeriedIff(v.pull, e, u);
  }

  lemma PullStatusClasses(v: Views, now: Tables, e: Event)
    requires Valid(e) && e.uri.collection == PullRequestStatusCollection
    ensures AllNamed(v, now, e) <==>
            forall p | p in TouchedByPullStatus(now, e) ::
              IsNamed(v, e, PullRequests, p) && (p in now.pulls ==> IsNamed(v, e, RepositoryPullRequests, now.pulls[p].value.target))
  {
    PullStatusTouches(now, e);
    forall p | p in TouchedByPullStatus(now, e) && p in now.pulls ensures now.pulls[p].value.target in TargetsOf(now, TouchedByPullStatus(now, e)) {
    }
  }

  lemma PullStatusPutIff(v: Views, now: Tables, e: Event)
    requires Valid(e) && IsPut(e, PullRequestStatusCollection)
    ensures AllNamed(v, now, e) <==> PutAgrees(v, now, e, e.change.payload)
  {
    PullStatusClasses(v, now, e);
    var status := e.change.payload.status;
    var affected := TouchedByPullStatus(now, e);
    assert affected == if ReplacesPullStatus(now, e, status) then {status.subject} else {};
    PullStatusPutNames(v, e, if status.subject in now.pulls then now.pulls[status.subject].value.target else e.uri);
  }

  lemma PullStatusDeleteIff(v: Views, now: Tables, e: Event)
    requires Valid(e) && IsDelete(e, PullRequestStatusCollection)
    ensures AllNamed(v, now, e) <==> DeleteAgrees(v, now, e)
  {
    PullStatusClasses(v, now, e);
    var affected := TouchedByPullStatus(now, e);
    if Removes(now, now.pullStatuses, e) {
      var subject := now.pullStatuses[e.uri].value.subject;
      assert affected == {subject};
      PullStatusDeleteNames(v, e, subject);
      PullStatusDeleteNames(v, e, if subject in now.pulls then now.pulls[subject].value.target else e.uri);
    } else {
      assert affected == {};
    }
  }

  lemma PullStatusNamedIff(v: Views, now: Tables, e: Event)
    requires Valid(e) && e.uri.collection == PullRequestStatusCollection
    ensures AllNamed(v, now, e) <==> QueriesAgree(v, now, e)
  {
    if e.change.Put? {
      PullStatusPutIff(v, now, e);
    } else {
      PullStatusDeleteIff(v, now, e);
    }
  }

  lemma OtherNamed(v: Views, now: Tables, e: Event)
    requires Valid(e)
    requires e.uri.collection == ProfileCollection || e.uri.collection == OrganizationCollection || e.uri.collection.OtherCollection?
    ensures AllNamed(v, now, e) && QueriesAgree(v, now, e)
  {
  }

  // Every count and state that an event refreshes is under its lock if and only
  // if the queries that named the locks saw the rows that the write sees.
  lemma CountsAreLockedIff(v: Views, now: Tables, e: Event)
    requires Valid(e)
    ensures AllLocked(v, now, e) <==> QueriesAgree(v, now, e)
  {
    AllLockedIffNamed(v, now, e);
    match e.uri.collection {
      case StarCollection => StarNamedIff(v, now, e);
      case IssueCollection => IssueNamedIff(v, now, e);
      case CommentCollection => CommentNamedIff(v, now, e);
      case RepositoryCollection => RepositoryNamedIff(v, now, e);
      case IssueStatusCollection => IssueStatusNamedIff(v, now, e);
      case PullRequestCollection => PullNamedIff(v, now, e);
      case PullRequestStatusCollection => PullStatusNamedIff(v, now, e);
      case _ => OtherNamed(v, now, e);
    }
  }

  // --- What the locks themselves keep -------------------------------------------------------

  // While a lock on an issue's comments is held, nobody else moves the issue, so
  // the query after that lock has seen what the write will see.
  lemma LockedIssueStays(v: Views, e: Event, t: Tables, i: Uri)
    requires Valid(e) && !Holds(v, e, IssueComments, i)
    ensures i in Apply(t, e).issues <==> i in t.issues
    ensures i in t.issues ==> Apply(t, e).issues[i].value == t.issues[i].value
  {
    LockedIffNamed(v, e, Lock(IssueComments, Text(i)));
    assert IsPut(e, IssueCollection) && e.uri == i ==> i in IssueKeys(v.issue, e);
  }

  // What other transactions commit, each after locks that its own views name.
  datatype Transaction = Transaction(v: Views, e: Event)

  ghost function AfterCommits(t: Tables, commits: seq<Transaction>): Tables {
    if commits == [] then t else Apply(AfterCommits(t, commits[..|commits| - 1]), commits[|commits| - 1].e)
  }

  ghost predicate LeaveAlone(commits: seq<Transaction>, i: Uri) {
    forall c | c in commits :: Valid(c.e) && !Holds(c.v, c.e, IssueComments, i)
  }

  lemma {:induction false} LockedIssueStaysForAll(t: Tables, commits: seq<Transaction>, i: Uri)
    requires LeaveAlone(commits, i)
    ensures i in AfterCommits(t, commits).issues <==> i in t.issues
    ensures i in t.issues ==> AfterCommits(t, commits).issues[i].value == t.issues[i].value
  {
    if commits != [] {
      var before, last := commits[..|commits| - 1], commits[|commits| - 1];
      assert last in commits;
      LockedIssueStaysForAll(t, before, i);
      LockedIssueStays(last.v, last.e, AfterCommits(t, before), i);
    }
  }

  predicate PutsIssueOrStatus(e: Event) { IsPut(e, IssueCollection) || IsPut(e, IssueStatusCollection) }

  // The issue whose comments such an event locks.
  function LockedIssue(e: Event): Uri
    requires Valid(e) && PutsIssueOrStatus(e)
  {
    if e.uri.collection == IssueCollection then e.uri else e.change.payload.status.subject
  }

  lemma RequeryAgrees(v: Views, now: Tables, e: Event)
    requires Valid(e) && PutsIssueOrStatus(e)
    requires
      var i := LockedIssue(e);
      i in now.issues ==> i in v.issue(6).issues && v.issue(6).issues[i].value == now.issues[i].value
    ensures QueriesAgree(v, now, e)
  {
    var i := LockedIssue(e);
    if i in now.issues {
      assert RequerySaw(v.issue(6), i, now.issues[i].value);
    }
  }

  // So putting an issue or an issue status refreshes nothing without its lock,
  // whatever commits between the query after that lock and the write.
  lemma PutsAreAlwaysLocked(v: Views, commits: seq<Transaction>, e: Event)
    requires Valid(e) && PutsIssueOrStatus(e) && LeaveAlone(commits, LockedIssue(e))
    ensures AllLocked(v, AfterCommits(v.issue(6), commits), e)
  {
    var now := AfterCommits(v.issue(6), commits);
    LockedIssueStaysForAll(v.issue(6), commits, LockedIssue(e));
    assert QueriesAgree(v, now, e) by { RequeryAgrees(v, now, e); }
    assert AllLocked(v, now, e) by { CountsAreLockedIff(v, now, e); }
  }

  // A deletion takes no such lock.
  lemma DeletionNamesNoIssue(v: Views, e: Event)
    requires Valid(e) && IsDelete(e, IssueCollection)
    ensures IssueKeys(v.issue, e) == {} && PullKeys(v.pull, e) == {} && PullRepositoryKeys(v.pull, e) == {}
    ensures forall i :: !Holds(v, e, IssueComments, i)
  {
    forall i ensures !Holds(v, e, IssueComments, i) {
      LockedIffNamed(v, e, Lock(IssueComments, Text(i)));
    }
  }

  // --- Nothing commits in between -------------------------------------------------------------

  function Alone(t: Tables): Views {
    var all: Snapshots := k => t;
    Views(all, all, t, t)
  }

  lemma FindsRepository(see: Snapshots, issues: seq<string>, n: nat, t: Tables, i: Uri)
    requires n <= |issues| && Text(i) in issues[..n] && i in t.issues
    requires forall k :: see(k) == t
    ensures Text(t.issues[i].value) in FoundRepositories(see, issues, n)
  {
    if issues[n - 1] != Text(i) {
      assert issues[..n] == issues[..n - 1] + [issues[n - 1]];
      FindsRepository(see, issues, n - 1, t, i);
    }
  }

  lemma FindsTarget(see: Snapshots, pulls: seq<string>, n: nat, t: Tables, p: Uri)
    requires n <= |pulls| && Text(p) in pulls[..n] && p in t.pulls
    requires forall k :: see(k) == t
    ensures Text(t.pulls[p].value.target) in FoundTargets(see, pulls, n)
  {
    if pulls[n - 1] != Text(p) {
      assert pulls[..n] == pulls[..n - 1] + [pulls[n - 1]];
      FindsTarget(see, pulls, n - 1, t, p);
    }
  }

  lemma NamedIsRequeried(t: Tables, e: Event, u: Uri)
    ensures u in t.issues && u in IssueKeys(Alone(t).issue, e) ==> Text(t.issues[u].value) in Requeried(Alone(t).issue, e)
    ensures u in t.pulls && u in PullKeys(Alone(t).pull, e) ==> Text(t.pulls[u].value.target) in RequeriedTargets(Alone(t).pull, e)
  {
    if u in t.issues && u in IssueKeys(Alone(t).issue, e) {
      var ordered := Sorted(Texts(IssueKeys(Alone(t).issue, e)));
      assert ordered[..|ordered|] == ordered;
      FindsRepository(Alone(t).issue, ordered, |ordered|, t, u);
    }
    if u in t.pulls && u in PullKeys(Alone(t).pull, e) {
      var ordered := Sorted(Texts(PullKeys(Alone(t).pull, e)));
      assert ordered[..|ordered|] == ordered;
      FindsTarget(Alone(t).pull, ordered, |ordered|, t, u);
    }
  }

  lemma CommentAgreesAlone(t: Tables, e: Event)
    requires Valid(e) && e.uri.collection == CommentCollection
    ensures CommentAgrees(Alone(t), t, e)
  {
    forall i | i in TouchedByComment(t, e) ensures IssueAgrees(Alone(t), t, e, i) {
      assert Alone(t).issue(2) == t && Alone(t).issue(3) == t;
      RepliesNamed(t, e.uri, i);
      NamedIsRequeried(t, e, i);
      if i in t.issues {
        RequeriedIff(Alone(t).issue, e, t.issues[i].value);
      }
    }
  }

  lemma PullStatusAgreesAlone(t: Tables, e: Event)
    requires Valid(e) && e.uri.collection == PullRequestStatusCollection
    ensures QueriesAgree(Alone(t), t, e)
  {
    assert Alone(t).pull(2) == t;
    forall p | p in TouchedByPullStatus(t, e) && p in t.pulls ensures SomeRequerySawPull(Alone(t).pull, e, t.pulls[p].value.target) {
      NamedIsRequeried(t, e, p);
      RequeriedIff(Alone(t).pull, e, t.pulls[p].value.target);
    }
  }

  lemma RepositoryAgreesAlone(t: Tables, e: Event)
    requires Valid(e) && e.uri.collection == RepositoryCollection
    ensures QueriesAgree(Alone(t), t, e)
  {
    assert Alone(t).pull(0) == t;
  }

  // If nothing commits between the first query and the write, then every count
  // that an event refreshes is under its lock.
  lemma AloneAllLocked(t: Tables, e: Event)
    requires Valid(e)
    ensures AllLocked(Alone(t), t, e)
  {
    CountsAreLockedIff(Alone(t), t, e);
    match e.uri.collection {
      case CommentCollection => CommentAgreesAlone(t, e);
      case PullRequestStatusCollection => PullStatusAgreesAlone(t, e);
      case RepositoryCollection => RepositoryAgreesAlone(t, e);
      case _ => OthersAgreeAlone(t, e);
    }
  }

  lemma OthersAgreeAlone(t: Tables, e: Event)
    requires Valid(e) && e.uri.collection != CommentCollection && e.uri.collection != PullRequestStatusCollection
    requires e.uri.collection != RepositoryCollection
    ensures QueriesAgree(Alone(t), t, e)
  {
  }

  // --- What deleting and putting an issue hold ------------------------------------------------

  // A deletion holds nothing but the lock of the repository that its first query
  // saw.
  lemma RemovalHolds(v: Views, e: Event, l: Lock)
    requires Valid(e) && IsDelete(e, IssueCollection) && l in TransactionLocks(v, e)
    ensures e.uri in v.issue(0).issues && l == Lock(RepositoryIssues, Text(v.issue(0).issues[e.uri].value))
  {
    LockedIffNamed(v, e, l);
    DeletionNamesNoIssue(v, e);
    NoneRequeried(v.issue, e);
    NoneRequeried(v.pull, e);
  }

  lemma DeletionHolds(v: Views, e: Event, r: Uri)
    requires Valid(e) && IsDelete(e, IssueCollection)
    ensures Holds(v, e, RepositoryIssues, r) <==> SawIssueIn(v.issue(0), e.uri, r)
  {
    LockedIffNamed(v, e, Lock(RepositoryIssues, Text(r)));
    IssueDeleteNames(v, e, r);
  }

  lemma PutHolds(v: Views, e: Event, repository: Uri, r: Uri)
    requires Valid(e) && e.change.Put? && e.change.payload == Issue(repository)
    ensures Holds(v, e, RepositoryIssues, r) <==>
            Text(r) == Text(repository) || SawIssueIn(v.issue(0), e.uri, r) || RequerySaw(v.issue(6), e.uri, r)
  {
    LockedIffNamed(v, e, Lock(RepositoryIssues, Text(r)));
    IssuePutNames(v, e, r);
  }

  // --- A count without a lock ---------------------------------------------------------------------

  // The repository count of an owner is refreshed under no lock at all.
  lemma OwnedCountIsNotLocked(v: Views, e: Event)
    requires IsPut(e, ProfileCollection) && Valid(e)
    ensures e.uri.did in TouchedOwned(e) && TransactionLocks(v, e) == []
  {
    assert Texts({}) == {} && Sorted({}) == [];
    assert IssueKeys(v.issue, e) == {} && IssueRepositoryKeys(v.issue, e) == {};
    assert PullKeys(v.pull, e) == {} && PullRepositoryKeys(v.pull, e) == {};
    assert ForkKeys(v.fork, e) == {};
  }

  lemma CreationNames(t: Tables, e: Event)
    requires Valid(e) && e.change.Put? && e.change.payload == Repository(None)
    requires e.uri !in t.repositories && forall p | p in t.pulls :: t.pulls[p].value.target != e.uri
    ensures IssueKeys(Alone(t).issue, e) == {} && PullKeys(Alone(t).pull, e) == {}
    ensures IssueRepositoryKeys(Alone(t).issue, e) == {e.uri} && PullRepositoryKeys(Alone(t).pull, e) == {e.uri}
    ensures ForkKeys(Alone(t).fork, e) == {e.uri} && StarKey(Alone(t).star, e) == Some(e.uri)
  {
  }

  lemma CreationLocks(t: Tables, e: Event, l: Lock)
    requires Valid(e) && e.change.Put? && e.change.payload == Repository(None) && l in TransactionLocks(Alone(t), e)
    requires e.uri !in t.repositories && forall p | p in t.pulls :: t.pulls[p].value.target != e.uri
    ensures l.name == Text(e.uri)
  {
    LockedIffNamed(Alone(t), e, l);
    CreationNames(t, e);
    NoneRequeried(Alone(t).issue, e);
    NoneRequeried(Alone(t).pull, e);
  }

  // Two new repositories share no lock, also if they have the same owner.
  lemma CreationsShareNoLock(t: Tables, a: Event, b: Event, l: Lock)
    requires Valid(a) && a.change.Put? && a.change.payload == Repository(None) && a.uri !in t.repositories
    requires Valid(b) && b.change.Put? && b.change.payload == Repository(None) && b.uri !in t.repositories
    requires forall p | p in t.pulls :: t.pulls[p].value.target != a.uri && t.pulls[p].value.target != b.uri
    requires Text(a.uri) != Text(b.uri) && l in TransactionLocks(Alone(t), a)
    ensures l !in TransactionLocks(Alone(t), b)
  {
    CreationLocks(t, a, l);
    if l in TransactionLocks(Alone(t), b) {
      CreationLocks(t, b, l);
      assert false;
    }
  }
}
