// The issue counts of repositories, with transactions interleaved.
//
// A transaction takes the locks it has planned, then writes its rows and
// recounts the repositories it touches, seeing the committed tables and its own
// write; all of it becomes visible at its commit, when its locks are released.
// From its write on nobody else writes a record of that URI. Events that recount
// whole lineages are not part of this model.
module FederationIssueCounts {
  import opened Options
  import opened FederationTables
  import opened FederationCounts
  import opened FederationExactness
  import opened FederationLocks
  import opened FederationLockCoverage

  // `base` is what was committed when the transaction wrote and recounted.
  datatype Tx =
    | Locking(event: Event, held: seq<Lock>, wanted: seq<Lock>)
    | Counted(event: Event, held: seq<Lock>, base: Tables)

  datatype System = System(t: Tables, counts: map<Uri, nat>, owners: map<Lock, nat>, txs: map<nat, Tx>)

  const START := System(EMPTY, map[], map[], map[])

  datatype Action = Begin(event: Event, plan: seq<Lock>) | Acquire | Recount | Commit | Rollback

  // The counts that are stored for a transaction that saw `base`.
  function CountsFrom(base: Tables, e: Event): map<Uri, nat> { CountsOf(Apply(base, e), TouchedIssues(base, e)) }

  function CountsOf(seen: Tables, keys: set<Uri>): map<Uri, nat> {
    map r | r in keys && r in seen.repositories :: |IssuesOf(seen.issues, r)|
  }

  ghost predicate UriIsFree(s: System, i: nat, u: Uri) {
    forall j | j in s.txs && j != i && s.txs[j].Counted? :: s.txs[j].event.uri != u
  }

  function Released(owners: map<Lock, nat>, i: nat): map<Lock, nat> { map l | l in owners && owners[l] != i :: owners[l] }

  ghost predicate Next(s: System, i: nat, a: Action, s': System) {
    match a
    case Begin(e, plan) =>
      i !in s.txs && Valid(e) && !RecountsLineages(e) && s' == s.(txs := s.txs[i := Locking(e, [], plan)])
    case Acquire =>
      && i in s.txs && s.txs[i].Locking? && s.txs[i].wanted != [] && s.txs[i].wanted[0] !in s.owners
      && s' == s.(owners := s.owners[s.txs[i].wanted[0] := i],
                  txs := s.txs[i := Locking(s.txs[i].event, s.txs[i].held + [s.txs[i].wanted[0]], s.txs[i].wanted[1..])])
    case Recount =>
      && i in s.txs && s.txs[i].Locking? && s.txs[i].wanted == [] && UriIsFree(s, i, s.txs[i].event.uri)
      && s' == s.(txs := s.txs[i := Counted(s.txs[i].event, s.txs[i].held, s.t)])
    case Commit =>
      && i in s.txs && s.txs[i].Counted?
      && s' == System(Apply(s.t, s.txs[i].event), s.counts + CountsFrom(s.txs[i].base, s.txs[i].event),
                      Released(s.owners, i), s.txs - {i})
    case Rollback =>
      i in s.txs && s' == s.(owners := Released(s.owners, i), txs := s.txs - {i})
  }

  ghost predicate IsRun(states: seq<System>, steps: seq<(nat, Action)>) {
    && |states| == |steps| + 1 && states[0] == START
    && forall n | 0 <= n < |steps| :: Next(states[n], steps[n].0, steps[n].1, states[n + 1])
  }

  ghost predicate ExactIssues(s: System) {
    forall r | Live(s.t.repositories, r) :: Count(s.counts, r) == |IssuesOf(s.t.issues, r)|
  }

  // --- What a transaction has written stays its own ---------------------------------------

  // Two tables hold the same record and the same issue under `u`.
  predicate SameUnder(a: Tables, b: Tables, u: Uri) {
    && (u in a.records <==> u in b.records) && (u in a.records ==> a.records[u] == b.records[u])
    && (u in a.issues <==> u in b.issues) && (u in a.issues ==> a.issues[u] == b.issues[u])
  }

  ghost predicate Inv(s: System) {
    && (forall i | i in s.txs :: Valid(s.txs[i].event) && !RecountsLineages(s.txs[i].event))
    && (forall i, j | i in s.txs && j in s.txs && i != j && s.txs[i].Counted? && s.txs[j].Counted? ::
          s.txs[i].event.uri != s.txs[j].event.uri)
    && (forall i | i in s.txs && s.txs[i].Counted? :: SameUnder(s.t, s.txs[i].base, s.txs[i].event.uri))
  }

  lemma OtherUriStays(t: Tables, e: Event, u: Uri)
    requires Valid(e) && e.uri != u
    ensures SameUnder(Apply(t, e), t, u)
  {
  }

  lemma InvNext(s: System, i: nat, a: Action, s': System)
    requires Inv(s) && Next(s, i, a, s')
    ensures Inv(s')
  {
    if a == Commit {
      forall j | j in s'.txs && s'.txs[j].Counted? ensures SameUnder(s'.t, s'.txs[j].base, s'.txs[j].event.uri) {
        OtherUriStays(s.t, s.txs[i].event, s.txs[j].event.uri);
      }
    }
  }

  lemma {:induction false} RunKeepsInv(states: seq<System>, steps: seq<(nat, Action)>, n: nat)
    requires IsRun(states, steps) && n <= |steps|
    ensures Inv(states[n])
  {
    if n > 0 {
      RunKeepsInv(states, steps, n - 1);
      InvNext(states[n - 1], steps[n - 1].0, steps[n - 1].1, states[n]);
    }
  }

  // So an event moves the same issue between the same repositories.
  lemma SameIssueMoves(t: Tables, base: Tables, e: Event)
    requires Valid(e) && SameUnder(t, base, e.uri)
    ensures TouchedByIssue(t, e) == TouchedByIssue(base, e)
  {
  }

  lemma SameRowAfter(t: Tables, base: Tables, e: Event)
    requires Valid(e) && SameUnder(t, base, e.uri)
    ensures SameUnder(Apply(t, e), Apply(base, e), e.uri)
  {
  }

  // --- When counts are exact -----------------------------------------------------------

  // Every live repository that the transaction refreshes has as many issues
  // after the commit as the recount saw; or as before the commit, if the recount
  // found no row to store its count in.
  ghost predicate HarmlessCommit(t: Tables, tx: Tx)
    requires tx.Counted?
  {
    var t', seen := Apply(t, tx.event), Apply(tx.base, tx.event);
    forall r | r in TouchedIssues(tx.base, tx.event) && Live(t'.repositories, r) ::
      |IssuesOf(t'.issues, r)| == |IssuesOf(if r in seen.repositories then seen.issues else t.issues, r)|
  }

  ghost predicate Harmless(s: System, i: nat, a: Action) {
    a == Commit && i in s.txs && s.txs[i].Counted? ==> HarmlessCommit(s.t, s.txs[i])
  }

  lemma OwnRowIsCounted(base: Tables, e: Event)
    requires Valid(e) && e.uri.collection == RepositoryCollection
    ensures e.uri in TouchedIssues(base, e) && e.uri in Apply(base, e).repositories
  {
  }

  lemma UntouchedStays(t: Tables, base: Tables, e: Event, r: Uri)
    requires Valid(e) && SameUnder(t, base, e.uri) && r !in TouchedIssues(base, e)
    ensures IssuesOf(Apply(t, e).issues, r) == IssuesOf(t.issues, r)
  {
    SameIssueMoves(t, base, e);
    IssuesStay(t, e, r);
  }

  // What the commit leaves in one count.
  lemma CountAfterCommit(s: System, tx: Tx, r: Uri)
    requires ExactIssues(s) && tx.Counted? && Valid(tx.event) && SameUnder(s.t, tx.base, tx.event.uri)
    requires Live(Apply(s.t, tx.event).repositories, r)
    ensures
      var counts, seen := CountsFrom(tx.base, tx.event), Apply(tx.base, tx.event);
      && Count(s.counts + counts, r) == (if r in counts then |IssuesOf(seen.issues, r)| else |IssuesOf(s.t.issues, r)|)
      && (r !in TouchedIssues(tx.base, tx.event) ==> IssuesOf(Apply(s.t, tx.event).issues, r) == IssuesOf(s.t.issues, r))
  {
    var e, base := tx.event, tx.base;
    if IsPut(e, RepositoryCollection) {
      OwnRowIsCounted(base, e);
    }
    if r !in CountsFrom(base, e) {
      LiveRepositories(s.t, e, r);
    }
    if r !in TouchedIssues(base, e) {
      UntouchedStays(s.t, base, e, r);
    }
  }

  lemma CommitIsExactIff(s: System, i: nat, s': System)
    requires ExactIssues(s) && Inv(s) && Next(s, i, Commit, s')
    ensures ExactIssues(s') <==> HarmlessCommit(s.t, s.txs[i])
  {
    var tx := s.txs[i];
    forall r | Live(s'.t.repositories, r)
      ensures Count(s'.counts, r) == |IssuesOf(s'.t.issues, r)| <==>
              (r in TouchedIssues(tx.base, tx.event) ==>
                |IssuesOf(s'.t.issues, r)| ==
                |IssuesOf(if r in Apply(tx.base, tx.event).repositories then Apply(tx.base, tx.event).issues else s.t.issues, r)|)
    {
      CountAfterCommit(s, tx, r);
    }
  }

  lemma NextIsExactIff(s: System, i: nat, a: Action, s': System)
    requires ExactIssues(s) && Inv(s) && Next(s, i, a, s')
    ensures ExactIssues(s') <==> Harmless(s, i, a)
  {
    if a == Commit {
      CommitIsExactIff(s, i, s');
    }
  }

  lemma {:induction false} HarmlessRunIsExact(states: seq<System>, steps: seq<(nat, Action)>, n: nat)
    requires IsRun(states, steps) && n <= |steps| && forall m | 0 <= m < n :: Harmless(states[m], steps[m].0, steps[m].1)
    ensures ExactIssues(states[n])
  {
    if n > 0 {
      HarmlessRunIsExact(states, steps, n - 1);
      RunKeepsInv(states, steps, n - 1);
      NextIsExactIff(states[n - 1], steps[n - 1].0, steps[n - 1].1, states[n]);
    }
  }

  lemma ExactStepIsHarmless(states: seq<System>, steps: seq<(nat, Action)>, n: nat)
    requires IsRun(states, steps) && n < |steps| && ExactIssues(states[n]) && ExactIssues(states[n + 1])
    ensures Harmless(states[n], steps[n].0, steps[n].1)
  {
    RunKeepsInv(states, steps, n);
    NextIsExactIff(states[n], steps[n].0, steps[n].1, states[n + 1]);
  }

  // In every run, whatever locks its transactions take: each live repository's
  // issue count equals the number of its live issues after every commit, if and
  // only if every commit leaves the repositories it refreshes with as many as
  // its recount saw, or as before where that stored nothing.
  lemma IssueCountsExactIff(states: seq<System>, steps: seq<(nat, Action)>, n: nat)
    requires IsRun(states, steps) && n <= |steps|
    ensures (forall m | 0 <= m <= n :: ExactIssues(states[m])) <==>
            (forall m | 0 <= m < n :: Harmless(states[m], steps[m].0, steps[m].1))
  {
    if forall m | 0 <= m < n :: Harmless(states[m], steps[m].0, steps[m].1) {
      forall m | 0 <= m <= n ensures ExactIssues(states[m]) {
        HarmlessRunIsExact(states, steps, m);
      }
    }
    if forall m | 0 <= m <= n :: ExactIssues(states[m]) {
      forall m | 0 <= m < n ensures Harmless(states[m], steps[m].0, steps[m].1) {
        ExactStepIsHarmless(states, steps, m);
      }
    }
  }

  // --- What the locks achieve ----------------------------------------------------------------

  ghost predicate HoldsWhatItOwns(s: System, i: nat)
    requires i in s.txs
  {
    forall l :: l in s.txs[i].held <==> l in s.owners && s.owners[l] == i
  }

  ghost predicate LockInv(s: System) {
    (forall i | i in s.txs :: HoldsWhatItOwns(s, i)) && forall l | l in s.owners :: s.owners[l] in s.txs
  }

  lemma LockInvNext(s: System, i: nat, a: Action, s': System)
    requires LockInv(s) && Next(s, i, a, s')
    ensures LockInv(s')
  {
    forall j | j in s'.txs ensures HoldsWhatItOwns(s', j) {
      assert j in s.txs ==> HoldsWhatItOwns(s, j);
    }
  }

  // The transaction holds a lock on each repository that it refreshes.
  predicate Covered(base: Tables, e: Event, held: seq<Lock>) {
    forall r | r in TouchedIssues(base, e) :: Lock(RepositoryIssues, Text(r)) in held
  }

  // What a covered transaction saw of the repositories that it refreshes is
  // still there.
  ghost predicate StillThere(t: Tables, base: Tables, e: Event) {
    var t', seen := Apply(t, e), Apply(base, e);
    forall r | r in TouchedIssues(base, e) ::
      IssuesOf(t'.issues, r) == IssuesOf(seen.issues, r) && (r in t'.repositories ==> r in seen.repositories)
  }

  // The issue rows after two events with different URIs.
  lemma IssuesAfterBoth(t: Tables, first: Event, e: Event, r: Uri)
    requires Valid(first) && Valid(e) && first.uri != e.uri && r !in TouchedByIssue(t, first)
    ensures IssuesOf(Apply(Apply(t, first), e).issues, r) == IssuesOf(Apply(t, e).issues, r)
  {
    OtherUriStays(t, first, e.uri);
    SameRowAfter(Apply(t, first), t, e);
    IssuesStay(t, first, r);
    var one, both := Apply(t, e).issues, Apply(Apply(t, first), e).issues;
    forall i ensures i in IssuesOf(both, r) <==> i in IssuesOf(one, r) {
      if i != e.uri {
        OtherUriStays(t, e, i);
        OtherUriStays(Apply(t, first), e, i);
        assert i in IssuesOf(Apply(t, first).issues, r) <==> i in IssuesOf(t.issues, r);
      }
    }
  }

  lemma OwnEventAdds(t: Tables, e: Event, r: Uri)
    requires Valid(e)
    ensures r in t.repositories ==> r in Apply(t, e).repositories
    ensures r in Apply(t, e).repositories && r !in t.repositories ==> e.uri == r && r.collection == RepositoryCollection
  {
  }

  lemma RepositoryIsNew(t: Tables, first: Event, e: Event, r: Uri)
    requires Valid(first) && Valid(e) && r in Apply(Apply(t, first), e).repositories && r !in Apply(t, e).repositories
    ensures forall base :: r in TouchedIssues(base, first)
  {
    OwnEventAdds(t, first, r);
    OwnEventAdds(t, e, r);
    OwnEventAdds(Apply(t, first), e, r);
    if e.uri.collection == RepositoryCollection {
      OwnRowIsCounted(t, e);
    }
    forall base ensures r in TouchedIssues(base, first) {
      OwnRowIsCounted(base, first);
    }
  }

  // A commit that refreshes none of these repositories keeps it there.
  lemma DisjointCommitKeeps(t: Tables, first: Event, firstBase: Tables, e: Event, base: Tables)
    requires Valid(first) && Valid(e) && first.uri != e.uri && StillThere(t, base, e) && SameUnder(t, firstBase, first.uri)
    requires TouchedIssues(firstBase, first) !! TouchedIssues(base, e)
    ensures StillThere(Apply(t, first), base, e)
  {
    SameIssueMoves(t, firstBase, first);
    forall r | r in TouchedIssues(base, e)
      ensures IssuesOf(Apply(Apply(t, first), e).issues, r) == IssuesOf(Apply(base, e).issues, r)
      ensures r in Apply(Apply(t, first), e).repositories ==> r in Apply(base, e).repositories
    {
      IssuesAfterBoth(t, first, e, r);
      if r in Apply(Apply(t, first), e).repositories && r !in Apply(t, e).repositories {
        RepositoryIsNew(t, first, e, r);
        assert false;
      }
    }
  }

  ghost predicate CoveredInv(s: System) {
    && Inv(s) && LockInv(s)
    && forall i | i in s.txs && s.txs[i].Counted? ::
         Covered(s.txs[i].base, s.txs[i].event, s.txs[i].held) && StillThere(s.t, s.txs[i].base, s.txs[i].event)
  }

  ghost predicate CoveredStep(s: System, i: nat, a: Action) {
    a == Recount && i in s.txs ==> Covered(s.t, s.txs[i].event, s.txs[i].held)
  }

  // Two transactions that hold their locks refresh different repositories.
  lemma DifferentRepositories(s: System, i: nat, j: nat)
    requires LockInv(s) && i in s.txs && j in s.txs && i != j && s.txs[i].Counted? && s.txs[j].Counted?
    requires Covered(s.txs[i].base, s.txs[i].event, s.txs[i].held) && Covered(s.txs[j].base, s.txs[j].event, s.txs[j].held)
    ensures TouchedIssues(s.txs[i].base, s.txs[i].event) !! TouchedIssues(s.txs[j].base, s.txs[j].event)
  {
    assert HoldsWhatItOwns(s, i) && HoldsWhatItOwns(s, j);
    if r :| r in TouchedIssues(s.txs[i].base, s.txs[i].event) && r in TouchedIssues(s.txs[j].base, s.txs[j].event) {
      assert false;
    }
  }

  lemma CoveredCommit(s: System, i: nat, s': System, j: nat)
    requires CoveredInv(s) && Next(s, i, Commit, s') && j in s'.txs && s'.txs[j].Counted?
    ensures StillThere(s'.t, s'.txs[j].base, s'.txs[j].event)
  {
    DifferentRepositories(s, i, j);
    DisjointCommitKeeps(s.t, s.txs[i].event, s.txs[i].base, s.txs[j].event, s.txs[j].base);
  }

  lemma CoveredNext(s: System, i: nat, a: Action, s': System)
    requires CoveredInv(s) && Next(s, i, a, s') && CoveredStep(s, i, a)
    ensures CoveredInv(s') && Harmless(s, i, a)
  {
    InvNext(s, i, a, s');
    LockInvNext(s, i, a, s');
    forall j | j in s'.txs && s'.txs[j].Counted?
      ensures Covered(s'.txs[j].base, s'.txs[j].event, s'.txs[j].held) && StillThere(s'.t, s'.txs[j].base, s'.txs[j].event)
    {
      if a == Commit {
        CoveredCommit(s, i, s', j);
      }
    }
  }

  lemma {:induction false} CoveredRunKeeps(states: seq<System>, steps: seq<(nat, Action)>, n: nat)
    requires IsRun(states, steps) && n <= |steps| && forall m | 0 <= m < n :: CoveredStep(states[m], steps[m].0, steps[m].1)
    ensures CoveredInv(states[n])
  {
    if n > 0 {
      CoveredRunKeeps(states, steps, n - 1);
      CoveredNext(states[n - 1], steps[n - 1].0, steps[n - 1].1, states[n]);
    }
  }

  // In every run whose transactions hold the locks of the repositories that they
  // refresh, issue counts stay exact.
  lemma LockedIssueCountsStayExact(states: seq<System>, steps: seq<(nat, Action)>, n: nat)
    requires IsRun(states, steps) && n <= |steps| && forall m | 0 <= m < n :: CoveredStep(states[m], steps[m].0, steps[m].1)
    ensures ExactIssues(states[n])
  {
    forall m | 0 <= m < n ensures Harmless(states[m], steps[m].0, steps[m].1) {
      CoveredRunKeeps(states, steps, m);
      CoveredNext(states[m], steps[m].0, steps[m].1, states[m + 1]);
    }
    HarmlessRunIsExact(states, steps, n);
  }

  // The transaction holds the locks that its queries named, and these saw the
  // rows that its write sees.
  ghost predicate AgreeingStep(s: System, i: nat, a: Action) {
    a == Recount && i in s.txs ==>
      exists v :: QueriesAgree(v, s.t, s.txs[i].event) && forall l | l in TransactionLocks(v, s.txs[i].event) :: l in s.txs[i].held
  }

  lemma TouchedIsLocked(v: Views, now: Tables, e: Event, r: Uri)
    requires AllLocked(v, now, e) && r in TouchedIssues(now, e)
    ensures Lock(RepositoryIssues, Text(r)) in TransactionLocks(v, e)
  {
    assert r in Touched(now, e, RepositoryIssues);
    assert Holds(v, e, RepositoryIssues, r);
  }

  lemma AgreeingIsCovered(v: Views, now: Tables, e: Event, held: seq<Lock>)
    requires Valid(e) && QueriesAgree(v, now, e) && forall l | l in TransactionLocks(v, e) :: l in held
    ensures Covered(now, e, held)
  {
    CountsAreLockedIff(v, now, e);
    forall r | r in TouchedIssues(now, e) ensures Lock(RepositoryIssues, Text(r)) in held {
      TouchedIsLocked(v, now, e, r);
    }
  }

  lemma AgreeingStepIsCovered(s: System, i: nat, a: Action)
    requires AgreeingStep(s, i, a) && (i in s.txs ==> Valid(s.txs[i].event))
    ensures CoveredStep(s, i, a)
  {
    if a == Recount && i in s.txs {
      var tx := s.txs[i];
      var v :| QueriesAgree(v, s.t, tx.event) && forall l | l in TransactionLocks(v, tx.event) :: l in tx.held;
      AgreeingIsCovered(v, s.t, tx.event, tx.held);
    }
  }

  // So the locks of the program keep issue counts exact in every run in which
  // the queries that name them see what the writes see.
  lemma AgreeingQueriesKeepCountsExact(states: seq<System>, steps: seq<(nat, Action)>, n: nat)
    requires IsRun(states, steps) && n <= |steps| && forall m | 0 <= m < n :: AgreeingStep(states[m], steps[m].0, steps[m].1)
    ensures ExactIssues(states[n])
  {
    forall m | 0 <= m < n ensures CoveredStep(states[m], steps[m].0, steps[m].1) {
      RunKeepsInv(states, steps, m);
      AgreeingStepIsCovered(states[m], steps[m].0, steps[m].1);
    }
    LockedIssueCountsStayExact(states, steps, n);
  }
}
