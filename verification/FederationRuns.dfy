// Runs of stored deliveries: what every run keeps, and what any two replicas
// that received the same events agree on.
module FederationRuns {
  import opened Options
  import opened FederationTables
  import opened FederationCounts
  import opened FederationExactness

  // What decoding hands to the store. A message with neither a record nor an
  // identity reaches it only together with a rejection.
  datatype Message =
    | RecordMessage(event: Event)
    | IdentityMessage(identityId: int)
    | EmptyMessage(emptyId: int)

  datatype Delivery = Delivery(message: Message, rejection: string)

  datatype Outcome = Applied | Rejected(reason: string)

  datatype Database = Database(tables: Tables, columns: Columns, receipts: map<int, Outcome>, cursor: Option<int>)

  const INITIAL := Database(EMPTY, BLANK, map[], None)

  function Id(m: Message): int {
    match m
    case RecordMessage(event) => event.id
    case IdentityMessage(id) => id
    case EmptyMessage(id) => id
  }

  function Advanced(cursor: Option<int>, id: int): Option<int> {
    if cursor.Some? && cursor.value >= id then cursor else Some(id)
  }

  function OutcomeOf(d: Delivery): Outcome { if d.rejection == "" then Applied else Rejected(d.rejection) }

  // Whether the message is new and the store commits its transaction.
  predicate Commits(receipts: map<int, Outcome>, d: Delivery) {
    Id(d.message) !in receipts && !(d.rejection == "" && d.message.EmptyMessage?)
  }

  function ReceiptsAfter(receipts: map<int, Outcome>, d: Delivery): map<int, Outcome> {
    if Commits(receipts, d) then receipts[Id(d.message) := OutcomeOf(d)] else receipts
  }

  predicate Projects(receipts: map<int, Outcome>, d: Delivery) {
    Commits(receipts, d) && d.rejection == "" && d.message.RecordMessage?
  }

  // The database after one delivery. A delivery that does not commit is a
  // duplicate, or fails because there is nothing to project and no reason to
  // reject, and leaves the database as it was.
  ghost function Stored(s: Database, d: Delivery): Database {
    if !Commits(s.receipts, d) then s
    else Database(
      if Projects(s.receipts, d) then Apply(s.tables, d.message.event) else s.tables,
      if Projects(s.receipts, d) then Project(s.tables, s.columns, d.message.event) else s.columns,
      ReceiptsAfter(s.receipts, d),
      Advanced(s.cursor, Id(d.message)))
  }

  ghost function Run(s: Database, deliveries: seq<Delivery>): Database {
    if deliveries == [] then s
    else Stored(Run(s, deliveries[..|deliveries| - 1]), deliveries[|deliveries| - 1])
  }

  // --- Exactness over every run ------------------------------------------------

  ghost predicate WellFormed(deliveries: seq<Delivery>, key: Uri -> Uri) {
    forall d | d in deliveries && d.message.RecordMessage? :: Valid(d.message.event) && KeyedEvent(d.message.event, key)
  }

  // What the projection keeps of the tables and their columns.
  ghost predicate Exact(t: Tables, c: Columns, key: Uri -> Uri) {
    Keyed(t.stars, key) && KeyedStatuses(t.issueStatuses, key) && CountsExact(t, c) && PullStatesCurrent(t, c.pullStates)
  }

  // The cursor is the greatest id with a receipt.
  ghost predicate CursorLeads(s: Database) {
    && (s.cursor.None? ==> s.receipts == map[])
    && (s.cursor.Some? ==> s.cursor.value in s.receipts && forall id | id in s.receipts :: id <= s.cursor.value)
  }

  ghost predicate Sound(s: Database, key: Uri -> Uri) {
    Exact(s.tables, s.columns, key) && CursorLeads(s)
  }

  lemma KeysStay(t: Tables, e: Event, key: Uri -> Uri)
    requires Valid(e) && KeyedEvent(e, key) && Keyed(t.stars, key) && KeyedStatuses(t.issueStatuses, key)
    ensures Keyed(StarsAfter(t, e), key) && KeyedStatuses(IssueStatusesAfter(t, e), key)
  {
  }

  lemma ProjectIsExact(t: Tables, c: Columns, e: Event, key: Uri -> Uri)
    requires Valid(e) && KeyedEvent(e, key) && Exact(t, c, key)
    ensures Exact(Apply(t, e), Project(t, c, e), key)
  {
    KeysStay(t, e, key);
    ProjectKeepsCountsExact(t, c, e, key);
    PullStatesStayCurrent(t, c, e);
    ProjectKeepsStates(t, c, e);
  }

  lemma StoredIsSound(s: Database, d: Delivery, key: Uri -> Uri)
    requires Sound(s, key)
    requires d.message.RecordMessage? ==> Valid(d.message.event) && KeyedEvent(d.message.event, key)
    ensures Sound(Stored(s, d), key)
  {
    if d.message.RecordMessage? {
      ProjectIsExact(s.tables, s.columns, d.message.event, key);
    }
    CursorStaysAhead(s, d);
  }

  lemma CursorStaysAhead(s: Database, d: Delivery)
    requires CursorLeads(s)
    ensures CursorLeads(Stored(s, d))
  {
  }

  // In every run, whatever the order, every live row's counts equal a full
  // recount and every live pull request of a live repository has the state its
  // statuses give it.
  lemma {:induction false} EveryRunIsSound(deliveries: seq<Delivery>, key: Uri -> Uri)
    requires WellFormed(deliveries, key)
    ensures Sound(Run(INITIAL, deliveries), key)
  {
    if deliveries != [] {
      var last := |deliveries| - 1;
      EveryRunIsSound(deliveries[..last], key);
      assert deliveries[last] in deliveries;
      StoredIsSound(Run(INITIAL, deliveries[..last]), deliveries[last], key);
    }
  }

  // The first delivery with an id decides its receipt for good: applied, or
  // rejected with the reason that decoding gave. One with neither a record nor a
  // reason leaves none.
  lemma {:induction false} FirstDeliveryDecides(deliveries: seq<Delivery>, n: nat)
    requires n < |deliveries| && forall m | 0 <= m < n :: Id(deliveries[m].message) != Id(deliveries[n].message)
    requires deliveries[n].message.EmptyMessage? ==> deliveries[n].rejection != ""
    ensures
      var receipts, id, reason := Run(INITIAL, deliveries).receipts, Id(deliveries[n].message), deliveries[n].rejection;
      id in receipts && receipts[id] == if reason == "" then Applied else Rejected(reason)
    decreases |deliveries|
  {
    var last := |deliveries| - 1;
    if n == last {
      NoReceiptYet(deliveries[..last], Id(deliveries[n].message));
    } else {
      FirstDeliveryDecides(deliveries[..last], n);
    }
  }

  lemma {:induction false} NoReceiptYet(deliveries: seq<Delivery>, id: int)
    requires forall d | d in deliveries :: Id(d.message) != id
    ensures id !in Run(INITIAL, deliveries).receipts
  {
    if deliveries != [] {
      var last := |deliveries| - 1;
      assert deliveries[last] in deliveries && forall d | d in deliveries[..last] :: d in deliveries;
      NoReceiptYet(deliveries[..last], id);
    }
  }

  // --- What runs keep only under a condition -----------------------------------

  // The delivery is not a repository version that disagrees with the stored
  // states of the repository's issues.
  ghost predicate KeepsIssueStates(s: Database, d: Delivery) {
    Projects(s.receipts, d) && RewritesRepository(s.tables, d.message.event) ==>
      IssuesAgreeWithVersion(s.tables, s.columns, d.message.event.uri, d.message.event.change.cid)
  }

  // The delivery does not end with a lineage recount that would count a stray reply.
  ghost predicate KeepsComments(s: Database, d: Delivery) {
    Projects(s.receipts, d) && RecountsLineages(d.message.event) ==> NoStrayReplies(Apply(s.tables, d.message.event))
  }

  lemma StoredIssueStatesIff(s: Database, d: Delivery, key: Uri -> Uri)
    requires Sound(s, key) && IssueStatesCurrent(s.tables, s.columns.issueStates)
    requires d.message.RecordMessage? ==> Valid(d.message.event) && KeyedEvent(d.message.event, key)
    ensures IssueStatesCurrent(Stored(s, d).tables, Stored(s, d).columns.issueStates) <==> KeepsIssueStates(s, d)
  {
    if Projects(s.receipts, d) {
      ProjectKeepsStates(s.tables, s.columns, d.message.event);
      IssueStatesStayCurrentIff(s.tables, s.columns, d.message.event, key);
    }
  }

  lemma StoredCommentsIff(s: Database, d: Delivery)
    requires CommentsExact(s.tables, s.columns)
    requires d.message.RecordMessage? ==> Valid(d.message.event)
    ensures CommentsExact(Stored(s, d).tables, Stored(s, d).columns) <==> KeepsComments(s, d)
  {
    if Projects(s.receipts, d) {
      ProjectKeepsCommentsExactIff(s.tables, s.columns, d.message.event);
    }
  }

  ghost function After(deliveries: seq<Delivery>, n: nat): Database
    requires n <= |deliveries|
  {
    Run(INITIAL, deliveries[..n])
  }

  lemma AfterNext(deliveries: seq<Delivery>, n: nat)
    requires n < |deliveries|
    ensures After(deliveries, n + 1) == Stored(After(deliveries, n), deliveries[n])
  {
    assert deliveries[..n + 1][..n] == deliveries[..n];
  }

  ghost predicate HoldsCurrentStates(s: Database) { IssueStatesCurrent(s.tables, s.columns.issueStates) }
  ghost predicate HoldsExactComments(s: Database) { CommentsExact(s.tables, s.columns) }

  lemma NextIssueStatesIff(deliveries: seq<Delivery>, key: Uri -> Uri, n: nat)
    requires WellFormed(deliveries, key) && n < |deliveries| && HoldsCurrentStates(After(deliveries, n))
    ensures HoldsCurrentStates(After(deliveries, n + 1)) <==> KeepsIssueStates(After(deliveries, n), deliveries[n])
  {
    AfterNext(deliveries, n);
    EveryRunIsSound(deliveries[..n], key);
    assert deliveries[n] in deliveries;
    StoredIssueStatesIff(After(deliveries, n), deliveries[n], key);
  }

  lemma NextCommentsIff(deliveries: seq<Delivery>, key: Uri -> Uri, n: nat)
    requires WellFormed(deliveries, key) && n < |deliveries| && HoldsExactComments(After(deliveries, n))
    ensures HoldsExactComments(After(deliveries, n + 1)) <==> KeepsComments(After(deliveries, n), deliveries[n])
  {
    AfterNext(deliveries, n);
    assert deliveries[n] in deliveries;
    StoredCommentsIff(After(deliveries, n), deliveries[n]);
  }

  ghost predicate AlwaysHolds(deliveries: seq<Delivery>, holds: Database -> bool) {
    forall m | 0 <= m <= |deliveries| :: holds(After(deliveries, m))
  }

  ghost predicate AlwaysKeeps(deliveries: seq<Delivery>, keeps: (Database, Delivery) -> bool) {
    forall m | 0 <= m < |deliveries| :: keeps(After(deliveries, m), deliveries[m])
  }

  lemma {:induction false} AllAlong(
    deliveries: seq<Delivery>, n: nat, holds: Database -> bool, keeps: (Database, Delivery) -> bool)
    requires n <= |deliveries| && holds(After(deliveries, 0))
    requires forall m | 0 <= m < |deliveries| && holds(After(deliveries, m)) ::
               holds(After(deliveries, m + 1)) <==> keeps(After(deliveries, m), deliveries[m])
    ensures (forall m | 0 <= m <= n :: holds(After(deliveries, m))) <==>
            (forall m | 0 <= m < n :: keeps(After(deliveries, m), deliveries[m]))
  {
    if n > 0 {
      AllAlong(deliveries, n - 1, holds, keeps);
      var m := n - 1;
      assert holds(After(deliveries, m)) ==> (holds(After(deliveries, m + 1)) <==> keeps(After(deliveries, m), deliveries[m]));
    }
  }

  // Issue states are current all along a run exactly when no repository version
  // arrives that disagrees with them.
  lemma IssueStatesCurrentIff(deliveries: seq<Delivery>, key: Uri -> Uri)
    requires WellFormed(deliveries, key)
    ensures AlwaysHolds(deliveries, HoldsCurrentStates) <==> AlwaysKeeps(deliveries, KeepsIssueStates)
  {
    forall m | 0 <= m < |deliveries| && HoldsCurrentStates(After(deliveries, m))
      ensures HoldsCurrentStates(After(deliveries, m + 1)) <==> KeepsIssueStates(After(deliveries, m), deliveries[m])
    {
      NextIssueStatesIff(deliveries, key, m);
    }
    AllAlong(deliveries, |deliveries|, HoldsCurrentStates, KeepsIssueStates);
  }

  // Repository comment counts are exact all along a run exactly when no lineage
  // recount happens while a stray reply is live.
  lemma CommentsExactIff(deliveries: seq<Delivery>, key: Uri -> Uri)
    requires WellFormed(deliveries, key)
    ensures AlwaysHolds(deliveries, HoldsExactComments) <==> AlwaysKeeps(deliveries, KeepsComments)
  {
    forall m | 0 <= m < |deliveries| && HoldsExactComments(After(deliveries, m))
      ensures HoldsExactComments(After(deliveries, m + 1)) <==> KeepsComments(After(deliveries, m), deliveries[m])
    {
      NextCommentsIff(deliveries, key, m);
    }
    AllAlong(deliveries, |deliveries|, HoldsExactComments, KeepsComments);
  }
}
