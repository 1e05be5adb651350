// Concrete inputs for the three ways in which the projection is not exact or
// not convergent.
module FederationFailures {
  import opened Options
  import opened FederationTables
  import opened FederationCounts
  import opened FederationExactness
  import opened FederationRuns
  import opened NewestWins
  import opened FederationConvergence
  import opened FederationReplicas
  import FederationStates

  const ALICE := "did:alice"
  const REPOSITORY := Uri(ALICE, RepositoryCollection, "r")
  const ISSUE := Uri(ALICE, IssueCollection, "i")
  const OTHER_ISSUE := Uri(ALICE, IssueCollection, "j")
  const STATUS := Uri(ALICE, IssueStatusCollection, "s")
  const PARENT := Uri(ALICE, CommentCollection, "p")
  const REPLY := Uri(ALICE, CommentCollection, "c")
  const ORGANIZATION := Uri(ALICE, OrganizationCollection, "o")

  function Key(u: Uri): Uri { if u.collection == IssueStatusCollection then ISSUE else REPOSITORY }

  function Publish(id: int, u: Uri, cid: string, payload: Payload): Delivery {
    Delivery(RecordMessage(Event(id, u, Put(cid, payload))), "")
  }

  // The n-th delivery is the event with id n + 1.
  ghost predicate Numbered(deliveries: seq<Delivery>) {
    forall n | 0 <= n < |deliveries| ::
      deliveries[n].message.RecordMessage? && deliveries[n].rejection == "" && deliveries[n].message.event.id == n + 1
  }

  lemma {:induction false} NumberedReceipts(deliveries: seq<Delivery>)
    requires Numbered(deliveries)
    ensures forall id | id in Receipts(deliveries) :: id <= |deliveries|
  {
    if deliveries != [] {
      NumberedReceipts(deliveries[..|deliveries| - 1]);
    }
  }

  lemma NumberedNext(deliveries: seq<Delivery>, n: nat)
    requires Numbered(deliveries) && n < |deliveries|
    ensures Projects(After(deliveries, n).receipts, deliveries[n])
    ensures After(deliveries, n + 1).tables == Apply(After(deliveries, n).tables, deliveries[n].message.event)
  {
    NumberedReceipts(deliveries[..n]);
    RunReplaysLog(deliveries[..n]);
    AfterNext(deliveries, n);
    StoredTables(After(deliveries, n), deliveries[n]);
  }

  ghost function TablesAt(deliveries: seq<Delivery>): nat -> Tables {
    (n: nat) => if n <= |deliveries| then After(deliveries, n).tables else EMPTY
  }

  // Each event changes the tables that the one before has left.
  ghost predicate Chained(at: nat -> Tables, deliveries: seq<Delivery>) {
    && Numbered(deliveries) && at(0) == EMPTY
    && forall n | 0 <= n < |deliveries| :: at(n + 1) == Apply(at(n), deliveries[n].message.event)
  }

  lemma RunIsChained(deliveries: seq<Delivery>)
    requires Numbered(deliveries)
    ensures Chained(TablesAt(deliveries), deliveries)
  {
    var at := TablesAt(deliveries);
    assert After(deliveries, 0).tables == EMPTY;
    forall n | 0 <= n < |deliveries| ensures at(n + 1) == Apply(at(n), deliveries[n].message.event) {
      NumberedNext(deliveries, n);
    }
  }

  // No raw record is newer than event n.
  predicate RecordsUpTo(t: Tables, n: int) { forall u | u in t.records :: t.records[u].eventId <= n }

  // --- A republished repository ------------------------------------------------------

  // The owner of a repository closes an issue, and then publishes the repository
  // again.
  ghost predicate Republishes(d: seq<Delivery>) {
    && |d| == 4
    && d[0] == Publish(1, REPOSITORY, "v1", Repository(None))
    && d[1] == Publish(2, ISSUE, "", Issue(REPOSITORY))
    && d[2] == Publish(3, STATUS, "", IssueStatus(StatusValue(ISSUE, "", REPOSITORY, "v1", Closed)))
    && d[3] == Publish(4, REPOSITORY, "v2", Repository(None))
  }

  const CLOSING := Row(StatusValue(ISSUE, "", REPOSITORY, "v1", Closed), true, 3)

  predicate HasRepository(t: Tables) {
    t.repositories == map[REPOSITORY := Row(RepositoryValue("v1", None), true, 1)]
  }

  predicate HasClosedIssue(t: Tables) {
    HasRepository(t) && t.issues == map[ISSUE := Row(REPOSITORY, true, 2)] && t.issueStatuses == map[STATUS := CLOSING]
  }

  lemma PublishRepository()
    ensures
      var t := Apply(EMPTY, Event(1, REPOSITORY, Put("v1", Repository(None))));
      HasRepository(t) && t.issues == map[] && t.issueStatuses == map[] && t.comments == map[] && RecordsUpTo(t, 1)
  {
  }

  lemma PublishIssue(t: Tables, id: int, issue: Uri)
    requires HasRepository(t) && RecordsUpTo(t, id - 1) && issue.collection == IssueCollection && issue !in t.issues
    ensures
      var t' := Apply(t, Event(id, issue, Put("", Issue(REPOSITORY))));
      && HasRepository(t') && RecordsUpTo(t', id) && t'.issueStatuses == t.issueStatuses && t'.comments == t.comments
      && t'.issues == t.issues[issue := Row(REPOSITORY, true, id)]
  {
  }

  lemma PublishClosing(t: Tables)
    requires HasRepository(t) && RecordsUpTo(t, 2) && t.issues == map[ISSUE := Row(REPOSITORY, true, 2)] && t.issueStatuses == map[]
    ensures HasClosedIssue(Apply(t, Event(3, STATUS, Put("", IssueStatus(CLOSING.value)))))
  {
  }

  lemma AfterRepository(at: nat -> Tables, d: seq<Delivery>)
    requires Chained(at, d) && d != [] && d[0] == Publish(1, REPOSITORY, "v1", Repository(None))
    ensures HasRepository(at(1)) && at(1).issues == map[] && at(1).issueStatuses == map[] && at(1).comments == map[] && RecordsUpTo(at(1), 1)
  {
    PublishRepository();
    assert at(1) == Apply(at(0), d[0].message.event);
  }

  lemma AfterIssue(at: nat -> Tables, d: seq<Delivery>)
    requires Chained(at, d) && |d| > 1
    requires d[0] == Publish(1, REPOSITORY, "v1", Repository(None)) && d[1] == Publish(2, ISSUE, "", Issue(REPOSITORY))
    ensures HasRepository(at(2)) && at(2).issues == map[ISSUE := Row(REPOSITORY, true, 2)] && at(2).issueStatuses == map[]
    ensures at(2).comments == map[] && RecordsUpTo(at(2), 2)
  {
    AfterRepository(at, d);
    PublishIssue(at(1), 2, ISSUE);
    assert at(2) == Apply(at(1), d[1].message.event);
  }

  lemma AfterClosing(at: nat -> Tables, d: seq<Delivery>)
    requires Chained(at, d) && Republishes(d)
    ensures exists n: nat :: ClosedBefore(at, d, n)
  {
    AfterIssue(at, d);
    PublishClosing(at(2));
    assert at(3) == Apply(at(2), d[2].message.event);
    assert ClosedBefore(at, d, 3);
  }

  lemma ClosedInRun(d: seq<Delivery>)
    requires Republishes(d)
    ensures exists n: nat :: ClosedBefore(TablesAt(d), d, n)
  {
    RunIsChained(d);
    AfterClosing(TablesAt(d), d);
  }

  // The n-th delivery is the new version, and the issue is closed by then.
  predicate ClosedBefore(at: nat -> Tables, d: seq<Delivery>, n: nat) {
    n < |d| && d[n] == Publish(4, REPOSITORY, "v2", Repository(None)) && HasClosedIssue(at(n))
  }

  lemma ClosedBeforeOpenAfter()
    ensures NewestState(Authoritative(map[STATUS := CLOSING], ISSUE, REPOSITORY, "v1")) == Closed
    ensures NewestState(Authoritative(map[STATUS := CLOSING], ISSUE, REPOSITORY, "v2")) == Open
  {
    var before := Authoritative(map[STATUS := CLOSING], ISSUE, REPOSITORY, "v1");
    assert before.Keys == {STATUS};
    assert IsNewest(before, STATUS);
    assert Authoritative(map[STATUS := CLOSING], ISSUE, REPOSITORY, "v2") == map[];
  }

  lemma VersionDisagrees(s: Database, d: Delivery)
    requires HasClosedIssue(s.tables) && HoldsCurrentStates(s)
    requires d == Publish(4, REPOSITORY, "v2", Repository(None)) && Projects(s.receipts, d)
    ensures !KeepsIssueStates(s, d)
  {
    ClosedBeforeOpenAfter();
    assert Live(s.tables.issues, ISSUE) && IssueStateNow(s.tables, ISSUE) == Closed;
    assert ISSUE in IssuesOf(s.tables.issues, REPOSITORY);
  }

  lemma OtherEventsKeepStates(s: Database, d: Delivery)
    requires d.message.RecordMessage? && (IsPut(d.message.event, RepositoryCollection) ==> s == INITIAL)
    ensures KeepsIssueStates(s, d)
  {
  }

  lemma StatesAreCurrentBefore(d: seq<Delivery>)
    requires Republishes(d) && WellFormed(d[..3], Key)
    ensures AlwaysHolds(d[..3], HoldsCurrentStates)
  {
    forall m | 0 <= m < 3 ensures KeepsIssueStates(After(d[..3], m), d[..3][m]) {
      OtherEventsKeepStates(After(d[..3], m), d[..3][m]);
    }
    IssueStatesCurrentIff(d[..3], Key);
  }

  lemma StaleVersionArrives(d: seq<Delivery>)
    requires Numbered(d) && WellFormed(d, Key) && exists n: nat :: ClosedBefore(TablesAt(d), d, n)
    ensures !AlwaysHolds(d, HoldsCurrentStates)
  {
    var n: nat :| ClosedBefore(TablesAt(d), d, n);
    if AlwaysHolds(d, HoldsCurrentStates) {
      NumberedNext(d, n);
      VersionDisagrees(After(d, n), d[n]);
      IssueStatesCurrentIff(d, Key);
    }
  }

  lemma RepublishedIsWellFormed(d: seq<Delivery>)
    requires Republishes(d)
    ensures Numbered(d) && WellFormed(d, Key) && WellFormed(d[..3], Key)
  {
  }

  // States are current up to the status; after the new version the issue keeps
  // showing as closed, though no status names that version.
  lemma RepublishedRepositoryLeavesStaleState(d: seq<Delivery>)
    requires Republishes(d)
    ensures WellFormed(d, Key)
    ensures AlwaysHolds(d[..3], HoldsCurrentStates) && !AlwaysHolds(d, HoldsCurrentStates)
  {
    RepublishedIsWellFormed(d);
    assert AlwaysHolds(d[..3], HoldsCurrentStates) by { StatesAreCurrentBefore(d); }
    assert !AlwaysHolds(d, HoldsCurrentStates) by {
      ClosedInRun(d);
      StaleVersionArrives(d);
    }
  }

  // That state is set right by anybody's status, which itself does not count.
  const STRANGER := Event(5, Uri("did:mallory", IssueStatusCollection, "s"), Put("", IssueStatus(StatusValue(ISSUE, "", REPOSITORY, "v2", Merged))))

  predicate HasStaleIssue(t: Tables, c: Columns) {
    && t.repositories == map[REPOSITORY := Row(RepositoryValue("v2", None), true, 4)]
    && t.issues == map[ISSUE := Row(REPOSITORY, true, 2)] && t.issueStatuses == map[STATUS := CLOSING] && RecordsUpTo(t, 4)
    && c.issueStates == map[ISSUE := Closed]
  }

  lemma StrangerMovesStaleIssue(t: Tables, c: Columns)
    requires HasStaleIssue(t, c)
    ensures StateOf(c.issueStates, ISSUE) == Closed && StateOf(Project(t, c, STRANGER).issueStates, ISSUE) == Open
  {
    ClosedBeforeOpenAfter();
    FederationStates.StrangersAreNotHeardOnIssues(t, STRANGER, ISSUE, REPOSITORY, "v2");
    FederationStates.StatusTouches(t, STRANGER);
    FederationStates.IssueStateAfterStatus(t, c, STRANGER, ISSUE);
    StrangerIsRecomputed(t);
  }

  lemma StrangerIsRecomputed(t: Tables)
    requires RecordsUpTo(t, 4) && t.issueStatuses == map[STATUS := CLOSING]
    ensures ISSUE in TouchedByIssueStatus(t, STRANGER)
  {
    assert STRANGER.uri.did != STATUS.did;
  }

  // --- A stray reply ---------------------------------------------------------------------

  // A reply whose parent is a comment of another issue, and then an organization
  // record.
  ghost predicate Strays(d: seq<Delivery>) {
    && |d| == 6
    && d[0] == Publish(1, REPOSITORY, "v1", Repository(None))
    && d[1] == Publish(2, ISSUE, "", Issue(REPOSITORY))
    && d[2] == Publish(3, OTHER_ISSUE, "", Issue(REPOSITORY))
    && d[3] == Publish(4, PARENT, "", Comment(OTHER_ISSUE, None))
    && d[4] == Publish(5, REPLY, "", Comment(ISSUE, Some(PARENT)))
    && d[5] == Publish(6, ORGANIZATION, "", Organization)
  }

  predicate HasIssues(t: Tables) {
    HasRepository(t) && t.issues == map[ISSUE := Row(REPOSITORY, true, 2), OTHER_ISSUE := Row(REPOSITORY, true, 3)]
  }

  const PARENT_ROW := Row(CommentValue(OTHER_ISSUE, None), true, 4)
  const REPLY_ROW := Row(CommentValue(ISSUE, Some(PARENT)), true, 5)

  predicate HasStrayReply(t: Tables) { HasIssues(t) && t.comments == map[PARENT := PARENT_ROW, REPLY := REPLY_ROW] }

  lemma PublishComment(t: Tables, id: int, u: Uri, value: CommentValue)
    requires HasIssues(t) && RecordsUpTo(t, id - 1) && u.collection == CommentCollection && u !in t.comments
    ensures
      var t' := Apply(t, Event(id, u, Put("", Comment(value.issue, value.parent))));
      HasIssues(t') && RecordsUpTo(t', id) && t'.comments == t.comments[u := Row(value, true, id)]
  {
  }

  lemma PublishOrganization(t: Tables)
    requires HasStrayReply(t)
    ensures HasStrayReply(Apply(t, Event(6, ORGANIZATION, Put("", Organization))))
  {
  }

  lemma AfterIssues(at: nat -> Tables, d: seq<Delivery>)
    requires Chained(at, d) && Strays(d)
    ensures HasIssues(at(3)) && at(3).comments == map[] && RecordsUpTo(at(3), 3)
  {
    AfterIssue(at, d);
    PublishIssue(at(2), 3, OTHER_ISSUE);
    assert at(3) == Apply(at(2), d[2].message.event);
  }

  lemma AfterParent(at: nat -> Tables, d: seq<Delivery>)
    requires Chained(at, d) && Strays(d)
    ensures HasIssues(at(4)) && at(4).comments == map[PARENT := PARENT_ROW] && RecordsUpTo(at(4), 4)
  {
    AfterIssues(at, d);
    PublishComment(at(3), 4, PARENT, PARENT_ROW.value);
    assert at(4) == Apply(at(3), d[3].message.event);
  }

  lemma AfterReply(at: nat -> Tables, d: seq<Delivery>)
    requires Chained(at, d) && Strays(d)
    ensures exists n: nat :: StrayBefore(at, d, n)
  {
    AfterParent(at, d);
    PublishComment(at(4), 5, REPLY, REPLY_ROW.value);
    assert at(5) == Apply(at(4), d[4].message.event);
    assert StrayBefore(at, d, 5);
  }

  lemma StrayInRun(d: seq<Delivery>)
    requires Strays(d)
    ensures exists n: nat :: StrayBefore(TablesAt(d), d, n)
  {
    RunIsChained(d);
    AfterReply(TablesAt(d), d);
  }

  // The n-th delivery is the organization record, and the reply is there by then.
  predicate StrayBefore(at: nat -> Tables, d: seq<Delivery>, n: nat) {
    n < |d| && d[n] == Publish(6, ORGANIZATION, "", Organization) && HasStrayReply(at(n))
  }

  lemma StrayReplyIsStray(t: Tables)
    requires HasStrayReply(t)
    ensures !NoStrayReplies(t)
  {
    assert ISSUE in IssuesOf(t.issues, REPOSITORY);
    assert REPLY in RepliesOf(t.comments, t.issues, REPOSITORY);
    assert !Counts(t.comments, t.comments[REPLY].value);
    assert !NoStrayRepliesOf(t, REPOSITORY);
  }

  lemma StrayReplyIsCounted(d: seq<Delivery>)
    requires Numbered(d) && WellFormed(d, Key) && exists n: nat :: StrayBefore(TablesAt(d), d, n)
    ensures !AlwaysHolds(d, HoldsExactComments)
  {
    var n: nat :| StrayBefore(TablesAt(d), d, n);
    NumberedNext(d, n);
    PublishOrganization(After(d, n).tables);
    StrayReplyIsStray(Apply(After(d, n).tables, d[n].message.event));
    assert !KeepsComments(After(d, n), d[n]);
    CommentsExactIff(d, Key);
  }

  lemma OtherEventsKeepComments(s: Database, d: Delivery)
    requires d.message.RecordMessage? && !RecountsLineages(d.message.event)
    ensures KeepsComments(s, d)
  {
  }

  lemma CommentsAreExactBefore(d: seq<Delivery>)
    requires Strays(d) && WellFormed(d[..5], Key)
    ensures AlwaysHolds(d[..5], HoldsExactComments)
  {
    forall m | 0 <= m < 5 ensures KeepsComments(After(d[..5], m), d[..5][m]) {
      OtherEventsKeepComments(After(d[..5], m), d[..5][m]);
    }
    CommentsExactIff(d[..5], Key);
  }

  lemma StrayIsWellFormed(d: seq<Delivery>)
    requires Strays(d)
    ensures Numbered(d) && WellFormed(d, Key) && WellFormed(d[..5], Key)
  {
  }

  // Comment counts are exact up to the reply; the organization record makes the
  // repository count it.
  lemma OrganizationEventCountsStrayReply(d: seq<Delivery>)
    requires Strays(d)
    ensures WellFormed(d, Key)
    ensures AlwaysHolds(d[..5], HoldsExactComments) && !AlwaysHolds(d, HoldsExactComments)
  {
    StrayIsWellFormed(d);
    assert AlwaysHolds(d[..5], HoldsExactComments) by { CommentsAreExactBefore(d); }
    assert !AlwaysHolds(d, HoldsExactComments) by {
      StrayInRun(d);
      StrayReplyIsCounted(d);
    }
  }

  // --- Two versions of a comment -----------------------------------------------------------

  function Version(id: int, issue: Uri): Delivery {
    Delivery(RecordMessage(Event(id, REPLY, Put("", Comment(issue, None)))), "")
  }

  // Two versions of a comment on different issues: the first to arrive wins.
  lemma CommentVersionsDiverge()
    ensures
      var deliveries := [Version(1, ISSUE), Version(2, OTHER_ISSUE)];
      Coherent(deliveries) && AllValid(deliveries) && !CommentOrderFree(deliveries, REPLY)
  {
    var a, b := Version(1, ISSUE), Version(2, OTHER_ISSUE);
    var deliveries := [a, b];
    assert a in deliveries && b in deliveries;
    assert Accepted(deliveries) == {a.message.event, b.message.event};
    assert Newest(Accepted(deliveries), b.message.event);
    CommentOrderIff(deliveries, REPLY);
  }
}
