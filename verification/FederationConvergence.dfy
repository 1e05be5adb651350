// Delivery order, duplicates and rejections do not matter: replicas that
// received the same events hold the same rows, except where a table refuses
// to change a field of a row it already has.
module FederationConvergence {
  import opened Options
  import opened FederationTables
  import opened FederationRuns
  import opened NewestWins

  // --- A run projects each event once ------------------------------------------

  ghost function Receipts(deliveries: seq<Delivery>): map<int, Outcome> {
    if deliveries == [] then map[]
    else ReceiptsAfter(Receipts(deliveries[..|deliveries| - 1]), deliveries[|deliveries| - 1])
  }

  // The events that a run projected, in order.
  ghost function Log(deliveries: seq<Delivery>): seq<Event> {
    if deliveries == [] then []
    else
      var before, d := deliveries[..|deliveries| - 1], deliveries[|deliveries| - 1];
      Log(before) + (if Projects(Receipts(before), d) then [d.message.event] else [])
  }

  ghost function Replay(log: seq<Event>): Tables {
    if log == [] then EMPTY else Apply(Replay(log[..|log| - 1]), log[|log| - 1])
  }

  // The server that sends events never reuses an id, and decoding is a
  // function of the message.
  ghost predicate Coherent(deliveries: seq<Delivery>) {
    forall a, b | a in deliveries && b in deliveries && Id(a.message) == Id(b.message) :: a == b
  }

  ghost function Accepted(deliveries: seq<Delivery>): set<Event> {
    set d | d in deliveries && d.message.RecordMessage? && d.rejection == "" :: d.message.event
  }

  ghost predicate ReceiptsOf(receipts: map<int, Outcome>, deliveries: seq<Delivery>) {
    && (forall d | d in deliveries && Commits(map[], d) :: Id(d.message) in receipts)
    && (forall id | id in receipts :: exists d | d in deliveries :: Commits(map[], d) && Id(d.message) == id && receipts[id] == OutcomeOf(d))
  }

  lemma {:induction false} ReceiptsAreOf(deliveries: seq<Delivery>)
    requires Coherent(deliveries)
    ensures ReceiptsOf(Receipts(deliveries), deliveries)
  {
    if deliveries != [] {
      var before, d := deliveries[..|deliveries| - 1], deliveries[|deliveries| - 1];
      ReceiptsAreOf(before);
      assert deliveries == before + [d];
    }
  }

  lemma AcceptedGrows(before: seq<Delivery>, d: Delivery)
    ensures Accepted(before + [d]) ==
            Accepted(before) + (if d.message.RecordMessage? && d.rejection == "" then {d.message.event} else {})
  {
  }

  lemma StoredTables(s: Database, d: Delivery)
    ensures Stored(s, d).tables == if Projects(s.receipts, d) then Apply(s.tables, d.message.event) else s.tables
    ensures Stored(s, d).receipts == ReceiptsAfter(s.receipts, d)
  {
  }

  lemma ReplayGrows(log: seq<Event>, e: Event)
    ensures Replay(log + [e]) == Apply(Replay(log), e)
  {
    assert (log + [e])[..|log|] == log;
  }

  // A run's tables are the replay of its log.
  lemma {:induction false} RunReplaysLog(deliveries: seq<Delivery>)
    ensures Run(INITIAL, deliveries).tables == Replay(Log(deliveries))
    ensures Run(INITIAL, deliveries).receipts == Receipts(deliveries)
  {
    if deliveries != [] {
      var before, d := deliveries[..|deliveries| - 1], deliveries[|deliveries| - 1];
      RunReplaysLog(before);
      StoredTables(Run(INITIAL, before), d);
      if Projects(Receipts(before), d) {
        ReplayGrows(Log(before), d.message.event);
      } else {
        assert Log(deliveries) == Log(before);
      }
    }
  }

  lemma AcceptedHaveDistinctIds(deliveries: seq<Delivery>)
    requires Coherent(deliveries)
    ensures DistinctIds(Accepted(deliveries))
  {
  }

  lemma ProjectsNewEvent(before: seq<Delivery>, d: Delivery)
    requires Coherent(before + [d]) && d.message.RecordMessage? && d.rejection == ""
    ensures Projects(Receipts(before), d) <==> d.message.event !in Accepted(before)
  {
    var all := before + [d];
    assert d == all[|before|];
    assert forall x | x in before :: x in all;
    ReceiptsAreOf(before);
  }

  ghost predicate Lists(log: seq<Event>, events: set<Event>) { Events(log) == events && |log| == |events| }

  lemma ListsOneMore(log: seq<Event>, events: set<Event>, e: Event)
    requires Lists(log, events) && e !in events
    ensures Lists(log + [e], events + {e})
  {
  }

  // Each accepted event is projected exactly once.
  lemma {:induction false} LogIsAccepted(deliveries: seq<Delivery>)
    requires Coherent(deliveries)
    ensures Lists(Log(deliveries), Accepted(deliveries))
  {
    if deliveries == [] {
      assert Accepted(deliveries) == {};
    } else {
      var before, d := deliveries[..|deliveries| - 1], deliveries[|deliveries| - 1];
      LogIsAccepted(before);
      assert deliveries == before + [d];
      LogStep(before, d);
    }
  }

  lemma LogStep(before: seq<Delivery>, d: Delivery)
    requires Coherent(before + [d]) && Lists(Log(before), Accepted(before))
    ensures Lists(Log(before) + (if Projects(Receipts(before), d) then [d.message.event] else []), Accepted(before + [d]))
  {
    AcceptedGrows(before, d);
    if d.message.RecordMessage? && d.rejection == "" {
      ProjectsNewEvent(before, d);
      if Projects(Receipts(before), d) {
        ListsOneMore(Log(before), Accepted(before), d.message.event);
      } else {
        assert Accepted(before + [d]) == Accepted(before);
      }
    }
  }

  // --- Each table on its own ---------------------------------------------------

  function StarOf(e: Event): Option<Uri> {
    match e.change case Put(_, Star(starred)) => Some(starred) case _ => None
  }

  function IssueOf(e: Event): Option<Uri> {
    match e.change case Put(_, Issue(repository)) => Some(repository) case _ => None
  }

  function CommentOf(e: Event): Option<CommentValue> {
    match e.change case Put(_, Comment(issue, parent)) => Some(CommentValue(issue, parent)) case _ => None
  }

  function IssueStatusOf(e: Event): Option<StatusValue> {
    match e.change case Put(_, IssueStatus(status)) => Some(status) case _ => None
  }

  function PullOf(e: Event): Option<PullValue> {
    match e.change case Put(cid, PullRequest(target, origin)) => Some(PullValue(cid, target, origin)) case _ => None
  }

  function PullStatusOf(e: Event): Option<StatusValue> {
    match e.change case Put(_, PullRequestStatus(status)) => Some(status) case _ => None
  }

  // The fields of a row that no later version may change.
  function NoField<V>(value: V): () { () }
  function WholeComment(value: CommentValue): CommentValue { value }
  function PullOrigin(value: PullValue): (Uri, Origin) { (value.target, value.origin) }
  function StatusNames(value: StatusValue): (Uri, Uri) { (value.subject, value.repository) }

  predicate HomedIn<V>(rows: map<Uri, Row<V>>, c: Collection) { forall u | u in rows :: u.collection == c }

  predicate Homed(t: Tables) {
    && HomedIn(t.stars, StarCollection) && HomedIn(t.issues, IssueCollection) && HomedIn(t.comments, CommentCollection)
    && HomedIn(t.issueStatuses, IssueStatusCollection) && HomedIn(t.pulls, PullRequestCollection)
    && HomedIn(t.pullStatuses, PullRequestStatusCollection)
  }

  lemma StarsStep(t: Tables, e: Event)
    requires Valid(e) && HomedIn(t.stars, StarCollection)
    ensures StarsAfter(t, e) == GuardedAfter(t.stars, t.records, e, StarOf(e), NoField)
    ensures HomedIn(StarsAfter(t, e), StarCollection)
  {
  }

  lemma IssuesStep(t: Tables, e: Event)
    requires Valid(e) && HomedIn(t.issues, IssueCollection)
    ensures IssuesAfter(t, e) == GuardedAfter(t.issues, t.records, e, IssueOf(e), NoField)
    ensures HomedIn(IssuesAfter(t, e), IssueCollection)
  {
  }

  lemma CommentsStep(t: Tables, e: Event)
    requires Valid(e) && HomedIn(t.comments, CommentCollection)
    ensures CommentsAfter(t, e) == GuardedAfter(t.comments, t.records, e, CommentOf(e), WholeComment)
    ensures HomedIn(CommentsAfter(t, e), CommentCollection)
  {
  }

  lemma IssueStatusesStep(t: Tables, e: Event)
    requires Valid(e) && HomedIn(t.issueStatuses, IssueStatusCollection)
    ensures IssueStatusesAfter(t, e) == GuardedAfter(t.issueStatuses, t.records, e, IssueStatusOf(e), NoField)
    ensures HomedIn(IssueStatusesAfter(t, e), IssueStatusCollection)
  {
  }

  lemma PullsStep(t: Tables, e: Event)
    requires Valid(e) && HomedIn(t.pulls, PullRequestCollection)
    ensures PullsAfter(t, e) == GuardedAfter(t.pulls, t.records, e, PullOf(e), PullOrigin)
    ensures HomedIn(PullsAfter(t, e), PullRequestCollection)
  {
  }

  lemma PullStatusesStep(t: Tables, e: Event)
    requires Valid(e) && HomedIn(t.pullStatuses, PullRequestStatusCollection)
    ensures PullStatusesAfter(t, e) == GuardedAfter(t.pullStatuses, t.records, e, PullStatusOf(e), StatusNames)
    ensures HomedIn(PullStatusesAfter(t, e), PullRequestStatusCollection)
  {
  }

  ghost predicate GuardedTables(t: Tables, log: seq<Event>) {
    && t.records == RecordsReplay(log)
    && t.stars == GuardedReplay(log, StarOf, NoField)
    && t.issues == GuardedReplay(log, IssueOf, NoField)
    && t.comments == GuardedReplay(log, CommentOf, WholeComment)
    && t.issueStatuses == GuardedReplay(log, IssueStatusOf, NoField)
    && t.pulls == GuardedReplay(log, PullOf, PullOrigin)
    && t.pullStatuses == GuardedReplay(log, PullStatusOf, StatusNames)
  }

  lemma GuardedTablesStep(t: Tables, log: seq<Event>, e: Event)
    requires Valid(e) && Homed(t) && GuardedTables(t, log)
    ensures Homed(Apply(t, e)) && GuardedTables(Apply(t, e), log + [e])
  {
    assert (log + [e])[..|log|] == log;
    StarsStep(t, e);
    IssuesStep(t, e);
    CommentsStep(t, e);
    IssueStatusesStep(t, e);
    PullsStep(t, e);
    PullStatusesStep(t, e);
  }

  lemma {:induction false} ReplayIsGuarded(log: seq<Event>)
    requires forall e | e in log :: Valid(e)
    ensures Homed(Replay(log)) && GuardedTables(Replay(log), log)
  {
    if log != [] {
      var before, e := log[..|log| - 1], log[|log| - 1];
      ReplayIsGuarded(before);
      GuardedTablesStep(Replay(before), before, e);
      assert log == before + [e];
    }
  }

  // --- Tables whose own event ids are their only guard -------------------------

  function RepositoryKey(e: Event): Option<Uri> {
    if e.uri.collection == RepositoryCollection then Some(e.uri) else None
  }

  function RepositoryOf(e: Event): RepositoryValue {
    match e.change case Put(cid, Repository(forkedFrom)) => RepositoryValue(cid, forkedFrom) case _ => NO_REPOSITORY
  }

  const NO_REPOSITORY := RepositoryValue("", None)

  function ProfileKey(e: Event): Option<string> {
    if e.uri.collection == ProfileCollection then Some(e.uri.did) else None
  }

  ghost predicate OwnTables(t: Tables, log: seq<Event>) {
    && t.repositories == OwnReplay(log, RepositoryKey, RepositoryOf, NO_REPOSITORY)
    && t.profiles == OwnReplay(log, ProfileKey, Nothing, ())
  }

  lemma RepositoriesStep(t: Tables, e: Event)
    requires Valid(e)
    ensures RepositoriesAfter(t, e) == OwnAfter(t.repositories, e, RepositoryKey(e), RepositoryOf(e), NO_REPOSITORY)
  {
  }

  lemma ProfilesStep(t: Tables, e: Event)
    requires Valid(e)
    ensures ProfilesAfter(t, e) == OwnAfter(t.profiles, e, ProfileKey(e), Nothing(e), ())
  {
  }

  lemma OwnReplayGrows<K, V>(log: seq<Event>, e: Event, key: Event -> Option<K>, value: Event -> V, absent: V)
    ensures OwnReplay(log + [e], key, value, absent) ==
            OwnAfter(OwnReplay(log, key, value, absent), e, key(e), value(e), absent)
  {
    assert (log + [e])[..|log|] == log;
  }

  lemma OwnTablesStep(t: Tables, log: seq<Event>, e: Event)
    requires Valid(e) && OwnTables(t, log)
    ensures OwnTables(Apply(t, e), log + [e])
  {
    RepositoriesStep(t, e);
    ProfilesStep(t, e);
    OwnReplayGrows(log, e, RepositoryKey, RepositoryOf, NO_REPOSITORY);
    OwnReplayGrows(log, e, ProfileKey, Nothing, ());
  }

  lemma {:induction false} ReplayIsOwn(log: seq<Event>)
    requires forall e | e in log :: Valid(e)
    ensures OwnTables(Replay(log), log)
  {
    if log != [] {
      var before, e := log[..|log| - 1], log[|log| - 1];
      ReplayIsOwn(before);
      OwnTablesStep(Replay(before), before, e);
      assert log == before + [e];
    }
  }

  // --- Replicas ------------------------------------------------------------------

  ghost predicate SameDeliveries(p: seq<Delivery>, q: seq<Delivery>) { forall d :: d in p <==> d in q }

  ghost predicate AllValid(deliveries: seq<Delivery>) {
    forall d | d in deliveries && d.message.RecordMessage? :: Valid(d.message.event)
  }

  lemma LogIsValid(deliveries: seq<Delivery>)
    requires Coherent(deliveries) && AllValid(deliveries)
    ensures IsLog(Log(deliveries)) && forall e | e in Log(deliveries) :: Valid(e)
  {
    LogIsAccepted(deliveries);
    AcceptedHaveDistinctIds(deliveries);
    LogSize(Log(deliveries));
    forall e | e in Log(deliveries) ensures Valid(e) {
      assert e in Accepted(deliveries);
    }
  }
}
