// Replicas that received the same deliveries, in any order and with any
// repetitions: what they agree on, and exactly where they may differ.
module FederationReplicas {
  import opened Options
  import opened FederationTables
  import opened FederationCounts
  import opened FederationExactness
  import opened FederationRuns
  import opened NewestWins
  import opened FederationConvergence

  ghost predicate SameLive<K(!new), V>(a: map<K, Row<V>>, b: map<K, Row<V>>) {
    forall k :: LiveRow(a, k) == LiveRow(b, k)
  }

  ghost predicate SameReceived(p: seq<Delivery>, q: seq<Delivery>) {
    Coherent(p) && AllValid(p) && SameDeliveries(p, q)
  }

  lemma SameLogs(p: seq<Delivery>, q: seq<Delivery>)
    requires SameReceived(p, q)
    ensures Coherent(q) && AllValid(q)
    ensures Events(Log(p)) == Events(Log(q)) == Accepted(p) && DistinctIds(Events(Log(p)))
  {
    assert Coherent(q);
    assert AllValid(q);
    LogIsAccepted(p);
    LogIsAccepted(q);
    LogIsValid(p);
  }

  lemma SameReceipts(p: seq<Delivery>, q: seq<Delivery>)
    requires SameReceived(p, q)
    ensures Receipts(p) == Receipts(q)
  {
    SameLogs(p, q);
    ReceiptsAreOf(p);
    ReceiptsAreOf(q);
    ReceiptsOfSame(Receipts(q), q, p);
    ReceiptsDetermined(Receipts(p), Receipts(q), p);
  }

  lemma ReceiptsDetermined(a: map<int, Outcome>, b: map<int, Outcome>, deliveries: seq<Delivery>)
    requires Coherent(deliveries) && ReceiptsOf(a, deliveries) && ReceiptsOf(b, deliveries)
    ensures a == b
  {
    ReceiptsWithin(a, b, deliveries);
    ReceiptsWithin(b, a, deliveries);
    assert forall id | id in a :: id in b && a[id] == b[id];
    assert forall id | id in b :: id in a && a[id] == b[id];
  }

  lemma ReceiptsOfSame(receipts: map<int, Outcome>, q: seq<Delivery>, p: seq<Delivery>)
    requires ReceiptsOf(receipts, q) && SameDeliveries(p, q)
    ensures ReceiptsOf(receipts, p)
  {
    forall id | id in receipts
      ensures exists d | d in p :: Commits(map[], d) && Id(d.message) == id && receipts[id] == OutcomeOf(d)
    {
      var d :| d in q && Commits(map[], d) && Id(d.message) == id && receipts[id] == OutcomeOf(d);
      assert d in p;
    }
  }

  lemma ReceiptsWithin(a: map<int, Outcome>, b: map<int, Outcome>, deliveries: seq<Delivery>)
    requires Coherent(deliveries) && ReceiptsOf(a, deliveries) && ReceiptsOf(b, deliveries)
    ensures forall id | id in a :: id in b && a[id] == b[id]
  {
  }

  lemma OwnTablesAgree<K(!new), V>(
    p: seq<Event>, q: seq<Event>, key: Event -> Option<K>, value: Event -> V, absent: V)
    requires IsLog(p) && IsLog(q) && Events(p) == Events(q)
    ensures SameLive(OwnReplay(p, key, value, absent), OwnReplay(q, key, value, absent))
  {
    OwnReplayReflects(p, key, value, absent);
    OwnReplayReflects(q, key, value, absent);
    forall k ensures LiveRow(OwnReplay(p, key, value, absent), k) == LiveRow(OwnReplay(q, key, value, absent), k) {
      OwnRowsAgree(OwnReplay(p, key, value, absent), OwnReplay(q, key, value, absent), Events(p), key, value, k);
    }
  }

  // The raw records agree on deleted URIs as well.
  lemma RecordsAgree(p: seq<Event>, q: seq<Event>)
    requires IsLog(p) && IsLog(q) && Events(p) == Events(q)
    ensures RecordsReplay(p) == RecordsReplay(q)
  {
    RecordsReflect(p);
    RecordsReflect(q);
    var a, b := RecordsReplay(p), RecordsReplay(q);
    forall u ensures (u in a <==> u in b) && (u in a ==> a[u] == b[u]) {
      OwnRowsAgree(a, b, Events(p), Anything, Nothing, u);
      if u in a {
        assert a[u].value == () && b[u].value == ();
      }
    }
    assert a.Keys == b.Keys;
  }

  lemma FreeTablesAgree<V>(p: seq<Event>, q: seq<Event>, value: Event -> Option<V>)
    requires IsLog(p) && IsLog(q) && Events(p) == Events(q) && Typed(value, Events(p))
    ensures SameLive(GuardedReplay(p, value, NoField), GuardedReplay(q, value, NoField))
  {
    forall u ensures LiveRow(GuardedReplay(p, value, NoField), u) == LiveRow(GuardedReplay(q, value, NoField), u) {
      GuardedRowsAgree(p, q, u, value, NoField);
    }
  }

  lemma ValuesAreTyped(log: seq<Event>)
    requires forall e | e in log :: Valid(e)
    ensures Typed(StarOf, Events(log)) && Typed(IssueOf, Events(log)) && Typed(IssueStatusOf, Events(log))
    ensures Typed(CommentOf, Events(log)) && Typed(PullOf, Events(log)) && Typed(PullStatusOf, Events(log))
  {
  }

  // Replicas agree on the raw records and on every row that readers see,
  // except in the three tables that keep fields of a first version.
  lemma ReplicasAgree(p: seq<Delivery>, q: seq<Delivery>)
    requires SameReceived(p, q)
    ensures
      var a, b := Run(INITIAL, p), Run(INITIAL, q);
      && a.receipts == b.receipts
      && a.cursor == b.cursor
      && a.tables.records == b.tables.records
      && SameLive(a.tables.repositories, b.tables.repositories)
      && SameLive(a.tables.profiles, b.tables.profiles)
      && SameLive(a.tables.stars, b.tables.stars)
      && SameLive(a.tables.issues, b.tables.issues)
      && SameLive(a.tables.issueStatuses, b.tables.issueStatuses)
  {
    SameLogs(p, q);
    SameReceipts(p, q);
    RunReplaysLog(p);
    RunReplaysLog(q);
    CursorIsLast(p);
    CursorIsLast(q);
    LogsAgree(Log(p), Log(q)) by { LogIsValid(p); LogIsValid(q); }
  }

  lemma {:induction false} CursorIsLast(deliveries: seq<Delivery>)
    ensures CursorLeads(Run(INITIAL, deliveries))
  {
    if deliveries != [] {
      CursorIsLast(deliveries[..|deliveries| - 1]);
      CursorStaysAhead(Run(INITIAL, deliveries[..|deliveries| - 1]), deliveries[|deliveries| - 1]);
    }
  }

  lemma LogsAgree(p: seq<Event>, q: seq<Event>)
    requires IsLog(p) && IsLog(q) && Events(p) == Events(q)
    requires (forall e | e in p :: Valid(e)) && (forall e | e in q :: Valid(e))
    ensures Replay(p).records == Replay(q).records
    ensures SameLive(Replay(p).repositories, Replay(q).repositories)
    ensures SameLive(Replay(p).profiles, Replay(q).profiles)
    ensures SameLive(Replay(p).stars, Replay(q).stars)
    ensures SameLive(Replay(p).issues, Replay(q).issues)
    ensures SameLive(Replay(p).issueStatuses, Replay(q).issueStatuses)
  {
    ReplayIsGuarded(p);
    ReplayIsGuarded(q);
    ReplayIsOwn(p);
    ReplayIsOwn(q);
    RecordsAgree(p, q);
    OwnTablesAgree(p, q, RepositoryKey, RepositoryOf, NO_REPOSITORY);
    OwnTablesAgree(p, q, ProfileKey, Nothing, ());
    ValuesAreTyped(p);
    FreeTablesAgree(p, q, StarOf);
    FreeTablesAgree(p, q, IssueOf);
    FreeTablesAgree(p, q, IssueStatusOf);
  }

  // --- Tables that keep fields of a first version --------------------------------

  lemma LogStartsWith(d: Delivery, deliveries: seq<Delivery>)
    requires Projects(map[], d)
    ensures Log([d] + deliveries) != [] && Log([d] + deliveries)[0] == d.message.event
  {
    var all := [d] + deliveries;
    if deliveries == [] {
      assert all[..0] == [];
    } else {
      var last := |deliveries| - 1;
      LogStartsWith(d, deliveries[..last]);
      assert all[..|all| - 1] == [d] + deliveries[..last];
    }
  }

  // All orders and repetitions of the same deliveries leave the same row under `u`.
  ghost predicate OrderFree<V, F>(deliveries: seq<Delivery>, u: Uri, value: Event -> Option<V>, fixed: V -> F) {
    forall p, q | SameDeliveries(deliveries, p) && SameDeliveries(deliveries, q) ::
      LiveRow(GuardedReplay(Log(p), value, fixed), u) == LiveRow(GuardedReplay(Log(q), value, fixed), u)
  }

  lemma OrderFreeIffSettled<V, F>(deliveries: seq<Delivery>, u: Uri, value: Event -> Option<V>, fixed: V -> F)
    requires Coherent(deliveries) && AllValid(deliveries) && Typed(value, Accepted(deliveries))
    ensures OrderFree(deliveries, u, value, fixed) <==> Settled(Accepted(deliveries), u, value, fixed)
  {
    if Settled(Accepted(deliveries), u, value, fixed) {
      forall p, q | SameDeliveries(deliveries, p) && SameDeliveries(deliveries, q)
        ensures LiveRow(GuardedReplay(Log(p), value, fixed), u) == LiveRow(GuardedReplay(Log(q), value, fixed), u)
      {
        SameLogs(deliveries, p);
        SameLogs(deliveries, q);
        LogIsValid(p);
        LogIsValid(q);
        GuardedRowsAgree(Log(p), Log(q), u, value, fixed);
      }
    } else {
      UnsettledOrders(deliveries, u, value, fixed);
    }
  }

  lemma UnsettledOrders<V, F>(deliveries: seq<Delivery>, u: Uri, value: Event -> Option<V>, fixed: V -> F)
    requires Coherent(deliveries) && AllValid(deliveries) && Typed(value, Accepted(deliveries))
    requires !Settled(Accepted(deliveries), u, value, fixed)
    ensures !OrderFree(deliveries, u, value, fixed)
  {
    var x :| Newest(Accepted(deliveries), x) && x.uri == u && value(x).Some? && !AgreesWith(Accepted(deliveries), x, value, fixed);
    var y :| y in Accepted(deliveries) && y.uri == x.uri && value(y).Some? && fixed(value(y).value) != fixed(value(x).value);
    var p := Foremost(x, deliveries);
    var q := Foremost(y, deliveries);
    UnsettledDiffers(Log(p), Log(q), value, fixed);
  }

  // The same deliveries, with one of them delivered first as well.
  lemma Foremost(x: Event, deliveries: seq<Delivery>) returns (p: seq<Delivery>)
    requires Coherent(deliveries) && AllValid(deliveries) && x in Accepted(deliveries)
    ensures SameDeliveries(deliveries, p) && IsLog(Log(p)) && Events(Log(p)) == Accepted(deliveries)
    ensures Log(p) != [] && Log(p)[0] == x
  {
    var d :| d in deliveries && d.message.RecordMessage? && d.rejection == "" && d.message.event == x;
    p := [d] + deliveries;
    SameLogs(deliveries, p);
    LogIsValid(p);
    LogStartsWith(d, deliveries);
  }

  ghost predicate CommentOrderFree(deliveries: seq<Delivery>, u: Uri) {
    forall p, q | SameDeliveries(deliveries, p) && SameDeliveries(deliveries, q) ::
      LiveRow(Run(INITIAL, p).tables.comments, u) == LiveRow(Run(INITIAL, q).tables.comments, u)
  }

  ghost predicate PullOrderFree(deliveries: seq<Delivery>, u: Uri) {
    forall p, q | SameDeliveries(deliveries, p) && SameDeliveries(deliveries, q) ::
      LiveRow(Run(INITIAL, p).tables.pulls, u) == LiveRow(Run(INITIAL, q).tables.pulls, u)
  }

  ghost predicate PullStatusOrderFree(deliveries: seq<Delivery>, u: Uri) {
    forall p, q | SameDeliveries(deliveries, p) && SameDeliveries(deliveries, q) ::
      LiveRow(Run(INITIAL, p).tables.pullStatuses, u) == LiveRow(Run(INITIAL, q).tables.pullStatuses, u)
  }

  lemma RunIsGuarded(deliveries: seq<Delivery>)
    requires Coherent(deliveries) && AllValid(deliveries)
    ensures GuardedTables(Run(INITIAL, deliveries).tables, Log(deliveries))
  {
    RunReplaysLog(deliveries);
    LogIsValid(deliveries);
    ReplayIsGuarded(Log(deliveries));
  }

  lemma AcceptedAreTyped(deliveries: seq<Delivery>)
    requires Coherent(deliveries) && AllValid(deliveries)
    ensures Typed(CommentOf, Accepted(deliveries)) && Typed(PullOf, Accepted(deliveries)) && Typed(PullStatusOf, Accepted(deliveries))
  {
    LogIsValid(deliveries);
    LogIsAccepted(deliveries);
    ValuesAreTyped(Log(deliveries));
  }

  // A comment's row is free of the delivery order exactly when its newest event
  // deletes it or all its versions name the same issue and parent.
  lemma CommentOrderIff(deliveries: seq<Delivery>, u: Uri)
    requires Coherent(deliveries) && AllValid(deliveries)
    ensures CommentOrderFree(deliveries, u) <==> Settled(Accepted(deliveries), u, CommentOf, WholeComment)
  {
    AcceptedAreTyped(deliveries);
    OrderFreeIffSettled(deliveries, u, CommentOf, WholeComment);
    forall p | SameDeliveries(deliveries, p)
      ensures LiveRow(Run(INITIAL, p).tables.comments, u) == LiveRow(GuardedReplay(Log(p), CommentOf, WholeComment), u)
    {
      SameLogs(deliveries, p);
      RunIsGuarded(p);
    }
  }

  lemma PullOrderIff(deliveries: seq<Delivery>, u: Uri)
    requires Coherent(deliveries) && AllValid(deliveries)
    ensures PullOrderFree(deliveries, u) <==> Settled(Accepted(deliveries), u, PullOf, PullOrigin)
  {
    AcceptedAreTyped(deliveries);
    OrderFreeIffSettled(deliveries, u, PullOf, PullOrigin);
    forall p | SameDeliveries(deliveries, p)
      ensures LiveRow(Run(INITIAL, p).tables.pulls, u) == LiveRow(GuardedReplay(Log(p), PullOf, PullOrigin), u)
    {
      SameLogs(deliveries, p);
      RunIsGuarded(p);
    }
  }

  lemma PullStatusOrderIff(deliveries: seq<Delivery>, u: Uri)
    requires Coherent(deliveries) && AllValid(deliveries)
    ensures PullStatusOrderFree(deliveries, u) <==> Settled(Accepted(deliveries), u, PullStatusOf, StatusNames)
  {
    AcceptedAreTyped(deliveries);
    OrderFreeIffSettled(deliveries, u, PullStatusOf, StatusNames);
    forall p | SameDeliveries(deliveries, p)
      ensures LiveRow(Run(INITIAL, p).tables.pullStatuses, u) == LiveRow(GuardedReplay(Log(p), PullStatusOf, StatusNames), u)
    {
      SameLogs(deliveries, p);
      RunIsGuarded(p);
    }
  }

  // --- Counts and states of replicas ----------------------------------------------

  // Replicas that also agree on comments, pull requests and their statuses.
  ghost predicate AllSettled(deliveries: seq<Delivery>) {
    forall u ::
      && Settled(Accepted(deliveries), u, CommentOf, WholeComment)
      && Settled(Accepted(deliveries), u, PullOf, PullOrigin)
      && Settled(Accepted(deliveries), u, PullStatusOf, StatusNames)
  }

  lemma SettledReplicasAgree(p: seq<Delivery>, q: seq<Delivery>)
    requires SameReceived(p, q) && AllSettled(p)
    ensures
      var a, b := Run(INITIAL, p).tables, Run(INITIAL, q).tables;
      SameLive(a.comments, b.comments) && SameLive(a.pulls, b.pulls) && SameLive(a.pullStatuses, b.pullStatuses)
  {
    var a, b := Run(INITIAL, p).tables, Run(INITIAL, q).tables;
    assert SameDeliveries(p, p);
    forall u
      ensures LiveRow(a.comments, u) == LiveRow(b.comments, u)
      ensures LiveRow(a.pulls, u) == LiveRow(b.pulls, u)
      ensures LiveRow(a.pullStatuses, u) == LiveRow(b.pullStatuses, u)
    {
      CommentOrderIff(p, u);
      PullOrderIff(p, u);
      PullStatusOrderIff(p, u);
    }
  }

  lemma SameStarAuthors(a: map<Uri, Row<Uri>>, b: map<Uri, Row<Uri>>, r: Uri)
    requires SameLive(a, b)
    ensures StarAuthors(a, r) == StarAuthors(b, r)
  {
    StarAuthorsWithin(a, b, r);
    StarAuthorsWithin(b, a, r);
  }

  lemma StarAuthorsWithin(a: map<Uri, Row<Uri>>, b: map<Uri, Row<Uri>>, r: Uri)
    requires SameLive(a, b)
    ensures StarAuthors(a, r) <= StarAuthors(b, r)
  {
    forall did | did in StarAuthors(a, r) ensures did in StarAuthors(b, r) {
      var s :| s in a && a[s].live && a[s].value == r && s.did == did;
      assert LiveRow(a, s) == LiveRow(b, s);
    }
  }

  lemma SameIssues(a: map<Uri, Row<Uri>>, b: map<Uri, Row<Uri>>, r: Uri)
    requires SameLive(a, b)
    ensures IssuesOf(a, r) == IssuesOf(b, r)
  {
    forall i ensures i in IssuesOf(a, r) <==> i in IssuesOf(b, r) {
      assert LiveRow(a, i) == LiveRow(b, i);
    }
  }

  lemma SameForks(a: map<Uri, Row<RepositoryValue>>, b: map<Uri, Row<RepositoryValue>>, r: Uri)
    requires SameLive(a, b)
    ensures ForksOf(a, r) == ForksOf(b, r)
  {
    forall f ensures f in ForksOf(a, r) <==> f in ForksOf(b, r) {
      assert LiveRow(a, f) == LiveRow(b, f);
    }
  }

  lemma SameOwned(a: map<Uri, Row<RepositoryValue>>, b: map<Uri, Row<RepositoryValue>>, did: string)
    requires SameLive(a, b)
    ensures OwnedBy(a, did) == OwnedBy(b, did)
  {
    forall u ensures u in OwnedBy(a, did) <==> u in OwnedBy(b, did) {
      assert LiveRow(a, u) == LiveRow(b, u);
    }
  }

  lemma SameCommentsOfIssue(a: map<Uri, Row<CommentValue>>, b: map<Uri, Row<CommentValue>>, i: Uri)
    requires SameLive(a, b)
    ensures CommentsOfIssue(a, i) == CommentsOfIssue(b, i)
  {
    forall c ensures c in CommentsOfIssue(a, i) <==> c in CommentsOfIssue(b, i) {
      assert LiveRow(a, c) == LiveRow(b, c);
      if Live(a, c) && a[c].value.parent.Some? {
        assert LiveRow(a, a[c].value.parent.value) == LiveRow(b, a[c].value.parent.value);
      }
    }
  }

  lemma SamePulls(a: map<Uri, Row<PullValue>>, b: map<Uri, Row<PullValue>>, r: Uri)
    requires SameLive(a, b)
    ensures PullsOf(a, r) == PullsOf(b, r)
  {
    forall p ensures p in PullsOf(a, r) <==> p in PullsOf(b, r) {
      assert LiveRow(a, p) == LiveRow(b, p);
    }
  }

  lemma SameAuthoritative(a: map<Uri, Row<StatusValue>>, b: map<Uri, Row<StatusValue>>, subject: Uri, r: Uri, cid: string)
    requires SameLive(a, b)
    ensures Authoritative(a, subject, r, cid) == Authoritative(b, subject, r, cid)
  {
    var x, y := Authoritative(a, subject, r, cid), Authoritative(b, subject, r, cid);
    forall s ensures (s in x <==> s in y) && (s in x ==> x[s] == y[s]) {
      assert LiveRow(a, s) == LiveRow(b, s);
    }
  }

  // What one column of a live row holds on either replica.
  lemma SameColumn<K, V>(
    a: map<K, Row<V>>, b: map<K, Row<V>>, columnA: map<K, nat>, columnB: map<K, nat>,
    recountsA: map<K, nat>, recountsB: map<K, nat>, k: K)
    requires Matches(a, columnA, recountsA) && Matches(b, columnB, recountsB)
    requires LiveRow(a, k) == LiveRow(b, k) && Live(a, k)
    requires k in recountsA && k in recountsB ==> recountsA[k] == recountsB[k]
    ensures Count(columnA, k) == Count(columnB, k)
  {
  }

  // Replicas show the same star, issue and fork counts.
  lemma ReplicasCountAlike(p: seq<Delivery>, q: seq<Delivery>, key: Uri -> Uri, r: Uri)
    requires SameReceived(p, q) && WellFormed(p, key) && Live(Run(INITIAL, p).tables.repositories, r)
    ensures
      var a, b := Run(INITIAL, p).columns, Run(INITIAL, q).columns;
      Count(a.stars, r) == Count(b.stars, r) && Count(a.issues, r) == Count(b.issues, r) && Count(a.forks, r) == Count(b.forks, r)
  {
    assert WellFormed(q, key);
    ReplicasAgree(p, q);
    EveryRunIsSound(p, key);
    EveryRunIsSound(q, key);
    CountedAlike(Run(INITIAL, p), Run(INITIAL, q), key, r);
  }

  lemma CountedAlike(a: Database, b: Database, key: Uri -> Uri, r: Uri)
    requires Sound(a, key) && Sound(b, key) && Live(a.tables.repositories, r)
    requires SameLive(a.tables.repositories, b.tables.repositories)
    requires SameLive(a.tables.stars, b.tables.stars) && SameLive(a.tables.issues, b.tables.issues)
    ensures Count(a.columns.stars, r) == Count(b.columns.stars, r)
    ensures Count(a.columns.issues, r) == Count(b.columns.issues, r)
    ensures Count(a.columns.forks, r) == Count(b.columns.forks, r)
  {
    assert LiveRow(a.tables.repositories, r) == LiveRow(b.tables.repositories, r);
    SameStarAuthors(a.tables.stars, b.tables.stars, r);
    SameIssues(a.tables.issues, b.tables.issues, r);
    SameForks(a.tables.repositories, b.tables.repositories, r);
    SameColumn(a.tables.repositories, b.tables.repositories, a.columns.stars, b.columns.stars, StarRecounts(a.tables), StarRecounts(b.tables), r);
    SameColumn(a.tables.repositories, b.tables.repositories, a.columns.issues, b.columns.issues, IssueRecounts(a.tables), IssueRecounts(b.tables), r);
    SameColumn(a.tables.repositories, b.tables.repositories, a.columns.forks, b.columns.forks, ForkRecounts(a.tables), ForkRecounts(b.tables), r);
  }

  lemma SamePullState(a: Tables, b: Tables, p: Uri)
    requires SameLive(a.repositories, b.repositories) && SameLive(a.pulls, b.pulls) && SameLive(a.pullStatuses, b.pullStatuses)
    requires Live(a.pulls, p) && Live(a.repositories, a.pulls[p].value.target)
    ensures Live(b.pulls, p) && b.pulls[p] == a.pulls[p] && Live(b.repositories, b.pulls[p].value.target)
    ensures PullStateNow(a, p) == PullStateNow(b, p)
  {
    assert LiveRow(a.pulls, p) == LiveRow(b.pulls, p);
    var r := a.pulls[p].value.target;
    assert LiveRow(a.repositories, r) == LiveRow(b.repositories, r);
    SameAuthoritative(a.pullStatuses, b.pullStatuses, p, r, a.repositories[r].value.cid);
  }

  ghost predicate SameReaders(a: Tables, b: Tables) {
    && SameLive(a.repositories, b.repositories) && SameLive(a.profiles, b.profiles) && SameLive(a.comments, b.comments)
    && SameLive(a.issues, b.issues) && SameLive(a.pulls, b.pulls) && SameLive(a.pullStatuses, b.pullStatuses)
  }

  lemma SameOpenPulls(a: Database, b: Database, r: Uri)
    requires SameReaders(a.tables, b.tables) && Live(a.tables.repositories, r)
    requires PullStatesCurrent(a.tables, a.columns.pullStates) && PullStatesCurrent(b.tables, b.columns.pullStates)
    ensures OpenPullsOf(a.tables.pulls, a.columns.pullStates, r) == OpenPullsOf(b.tables.pulls, b.columns.pullStates, r)
  {
    SamePulls(a.tables.pulls, b.tables.pulls, r);
    forall p | p in PullsOf(a.tables.pulls, r) ensures StateOf(a.columns.pullStates, p) == StateOf(b.columns.pullStates, p) {
      SamePullState(a.tables, b.tables, p);
    }
    OpenPullsAmong(a.tables.pulls, a.columns.pullStates, r);
    OpenPullsAmong(b.tables.pulls, b.columns.pullStates, r);
  }

  lemma SettledPullsAlike(a: Database, b: Database, key: Uri -> Uri, r: Uri)
    requires Sound(a, key) && Sound(b, key) && SameReaders(a.tables, b.tables) && Live(a.tables.repositories, r)
    ensures Count(a.columns.pulls, r) == Count(b.columns.pulls, r)
    ensures Count(a.columns.openPulls, r) == Count(b.columns.openPulls, r)
  {
    assert LiveRow(a.tables.repositories, r) == LiveRow(b.tables.repositories, r);
    SamePulls(a.tables.pulls, b.tables.pulls, r);
    SameOpenPulls(a, b, r);
    SameColumn(a.tables.repositories, b.tables.repositories, a.columns.pulls, b.columns.pulls, PullRecounts(a.tables), PullRecounts(b.tables), r);
    SameColumn(a.tables.repositories, b.tables.repositories, a.columns.openPulls, b.columns.openPulls,
               OpenPullRecounts(a.tables, a.columns.pullStates), OpenPullRecounts(b.tables, b.columns.pullStates), r);
  }

  lemma SettledCommentsAlike(a: Database, b: Database, key: Uri -> Uri, i: Uri)
    requires Sound(a, key) && Sound(b, key) && SameReaders(a.tables, b.tables) && Live(a.tables.issues, i)
    ensures Count(a.columns.issueComments, i) == Count(b.columns.issueComments, i)
  {
    assert LiveRow(a.tables.issues, i) == LiveRow(b.tables.issues, i);
    SameCommentsOfIssue(a.tables.comments, b.tables.comments, i);
    SameColumn(a.tables.issues, b.tables.issues, a.columns.issueComments, b.columns.issueComments,
               IssueCommentRecounts(a.tables), IssueCommentRecounts(b.tables), i);
  }

  lemma SettledOwnersAlike(a: Database, b: Database, key: Uri -> Uri, did: string)
    requires Sound(a, key) && Sound(b, key) && SameReaders(a.tables, b.tables) && Live(a.tables.profiles, did)
    ensures Count(a.columns.owned, did) == Count(b.columns.owned, did)
  {
    assert LiveRow(a.tables.profiles, did) == LiveRow(b.tables.profiles, did);
    SameOwned(a.tables.repositories, b.tables.repositories, did);
    SameColumn(a.tables.profiles, b.tables.profiles, a.columns.owned, b.columns.owned, OwnedRecounts(a.tables), OwnedRecounts(b.tables), did);
  }

  // Replicas whose comments, pull requests and pull request statuses are
  // settled also show the same pull request counts, comment counts of issues,
  // and repository counts of owners.
  lemma SettledReplicasCountAlike(p: seq<Delivery>, q: seq<Delivery>, key: Uri -> Uri)
    requires SameReceived(p, q) && WellFormed(p, key) && AllSettled(p)
    ensures
      var a, b := Run(INITIAL, p), Run(INITIAL, q);
      && (forall r | Live(a.tables.repositories, r) ::
            Count(a.columns.pulls, r) == Count(b.columns.pulls, r) && Count(a.columns.openPulls, r) == Count(b.columns.openPulls, r))
      && (forall i | Live(a.tables.issues, i) :: Count(a.columns.issueComments, i) == Count(b.columns.issueComments, i))
      && (forall did | Live(a.tables.profiles, did) :: Count(a.columns.owned, did) == Count(b.columns.owned, did))
  {
    var a, b := Run(INITIAL, p), Run(INITIAL, q);
    assert WellFormed(q, key);
    ReplicasAgree(p, q);
    SettledReplicasAgree(p, q);
    EveryRunIsSound(p, key);
    EveryRunIsSound(q, key);
    forall r | Live(a.tables.repositories, r)
      ensures Count(a.columns.pulls, r) == Count(b.columns.pulls, r) && Count(a.columns.openPulls, r) == Count(b.columns.openPulls, r)
    {
      SettledPullsAlike(a, b, key, r);
    }
    forall i | Live(a.tables.issues, i) ensures Count(a.columns.issueComments, i) == Count(b.columns.issueComments, i) {
      SettledCommentsAlike(a, b, key, i);
    }
    forall did | Live(a.tables.profiles, did) ensures Count(a.columns.owned, did) == Count(b.columns.owned, did) {
      SettledOwnersAlike(a, b, key, did);
    }
  }
}
