// A run in which an issue moves while it is being deleted, and a wrong issue
// count is left behind: the deletion recounts the new repository under the lock
// of the old one.
module IssueCountRace {
  import opened Options
  import opened FederationTables
  import opened FederationCounts
  import opened FederationLocks
  import opened FederationLockCoverage
  import opened FederationIssueCounts

  ghost predicate Reachable(s: System) {
    exists states, steps :: IsRun(states, steps) && states[|steps|] == s
  }

  lemma Extend(s: System, i: nat, a: Action, s': System)
    requires Reachable(s) && Next(s, i, a, s')
    ensures Reachable(s')
  {
    var states, steps :| IsRun(states, steps) && states[|steps|] == s;
    var states', steps' := states + [s'], steps + [(i, a)];
    assert IsRun(states', steps') && states'[|steps'|] == s';
  }

  lemma StartIsReachable()
    ensures Reachable(START)
  {
    var states: seq<System>, steps: seq<(nat, Action)> := [START], [];
    assert IsRun(states, steps) && states[|steps|] == START;
  }

  lemma AcquireOne(s: System, i: nat) returns (s': System)
    requires Reachable(s) && i in s.txs && s.txs[i].Locking? && s.txs[i].wanted != [] && s.txs[i].wanted[0] !in s.owners
    ensures Reachable(s') && s'.t == s.t && s'.counts == s.counts && s'.owners == s.owners[s.txs[i].wanted[0] := i]
    ensures s'.txs == s.txs[i := Locking(s.txs[i].event, s.txs[i].held + [s.txs[i].wanted[0]], s.txs[i].wanted[1..])]
  {
    var tx := s.txs[i];
    s' := s.(owners := s.owners[tx.wanted[0] := i],
             txs := s.txs[i := Locking(tx.event, tx.held + [tx.wanted[0]], tx.wanted[1..])]);
    Extend(s, i, Acquire, s');
  }

  lemma RestIsFree(wanted: seq<Lock>, owners: map<Lock, nat>)
    requires Increasing(wanted) && wanted != [] && forall l | l in wanted :: l !in owners
    ensures Increasing(wanted[1..]) && forall l | l in wanted[1..] :: l !in owners && l != wanted[0]
    ensures forall l :: l in wanted <==> l == wanted[0] || l in wanted[1..]
  {
    BeforeIsStrictOrder(wanted[0], wanted[0], wanted[0]);
    assert wanted == [wanted[0]] + wanted[1..];
  }

  // Locks taken one after the other while nobody else holds them.
  lemma AcquireAll(s: System, i: nat) returns (s': System)
    requires Reachable(s) && i in s.txs && s.txs[i].Locking? && Increasing(s.txs[i].wanted)
    requires forall l | l in s.txs[i].wanted :: l !in s.owners
    ensures Reachable(s') && s'.t == s.t && s'.counts == s.counts
    ensures s'.txs == s.txs[i := Locking(s.txs[i].event, s.txs[i].held + s.txs[i].wanted, [])]
    ensures Released(s'.owners, i) == Released(s.owners, i)
    ensures forall l :: l in s'.owners <==> l in s.owners || l in s.txs[i].wanted
    decreases |s.txs[i].wanted|
  {
    var tx := s.txs[i];
    if tx.wanted == [] {
      s' := s;
      assert tx.held + tx.wanted == tx.held;
      assert s.txs == s.txs[i := tx];
    } else {
      RestIsFree(tx.wanted, s.owners);
      var s1 := AcquireOne(s, i);
      s' := AcquireAll(s1, i);
      assert tx.held + tx.wanted == (tx.held + [tx.wanted[0]]) + tx.wanted[1..];
    }
  }

  lemma Start(s: System, i: nat, e: Event, plan: seq<Lock>) returns (s': System)
    requires Reachable(s) && i !in s.txs && Valid(e) && !RecountsLineages(e)
    ensures Reachable(s') && s' == s.(txs := s.txs[i := Locking(e, [], plan)])
  {
    s' := s.(txs := s.txs[i := Locking(e, [], plan)]);
    Extend(s, i, Begin(e, plan), s');
  }

  // It takes its locks, writes and recounts.
  lemma LockAndRecount(s: System, i: nat) returns (s': System)
    requires Reachable(s) && i in s.txs && s.txs[i].Locking? && s.txs[i].held == [] && Increasing(s.txs[i].wanted)
    requires (forall l | l in s.txs[i].wanted :: l !in s.owners) && UriIsFree(s, i, s.txs[i].event.uri)
    ensures Reachable(s') && s'.t == s.t && s'.counts == s.counts
    ensures s'.txs == s.txs[i := Counted(s.txs[i].event, s.txs[i].wanted, s.t)]
    ensures Released(s'.owners, i) == Released(s.owners, i)
    ensures forall l :: l in s'.owners <==> l in s.owners || l in s.txs[i].wanted
  {
    var s1 := AcquireAll(s, i);
    assert [] + s.txs[i].wanted == s.txs[i].wanted;
    s' := s1.(txs := s1.txs[i := Counted(s1.txs[i].event, s1.txs[i].held, s1.t)]);
    Extend(s1, i, Recount, s');
  }

  lemma CommitNow(s: System, i: nat) returns (s': System)
    requires Reachable(s) && i in s.txs && s.txs[i].Counted?
    ensures Reachable(s') && s'.txs == s.txs - {i} && s'.owners == Released(s.owners, i)
    ensures s'.t == Apply(s.t, s.txs[i].event) && s'.counts == s.counts + CountsFrom(s.txs[i].base, s.txs[i].event)
  {
    s' := System(Apply(s.t, s.txs[i].event), s.counts + CountsFrom(s.txs[i].base, s.txs[i].event), Released(s.owners, i), s.txs - {i});
    Extend(s, i, Commit, s');
  }

  // A whole transaction, while nobody holds a lock or has written.
  lemma RunAlone(s: System, i: nat, e: Event, plan: seq<Lock>) returns (s': System)
    requires Reachable(s) && i !in s.txs && Valid(e) && !RecountsLineages(e) && Increasing(plan)
    requires s.owners == map[] && forall j | j in s.txs :: s.txs[j].Locking?
    ensures Reachable(s') && s'.t == Apply(s.t, e) && s'.txs == s.txs && s'.owners == map[]
  {
    var s1 := Start(s, i, e, plan);
    var s2 := LockAndRecount(s1, i);
    assert Released(s1.owners, i) == map[];
    assert s2.txs - {i} == s.txs;
    s' := CommitNow(s2, i);
  }

  // A second transaction begins, a first one runs to its end, and the second one
  // writes and recounts.
  lemma Overtake(s: System, first: Event, plan1: seq<Lock>, second: Event, plan2: seq<Lock>) returns (s': System)
    requires Reachable(s) && s.txs == map[] && s.owners == map[] && Increasing(plan1) && Increasing(plan2)
    requires Valid(first) && Valid(second) && !RecountsLineages(first) && !RecountsLineages(second)
    ensures Reachable(s') && s'.t == Apply(s.t, first) && s'.txs == map[1 := Counted(second, plan2, s'.t)]
    ensures forall l :: l in s'.owners <==> l in plan2
  {
    var s1 := Start(s, 1, second, plan2);
    var s2 := RunAlone(s1, 2, first, plan1);
    s' := LockAndRecount(s2, 1);
  }

  // A third one then writes and recounts.
  lemma Join(s: System, second: Event, held: seq<Lock>, third: Event, plan: seq<Lock>) returns (s': System)
    requires Reachable(s) && s.txs == map[1 := Counted(second, held, s.t)] && second.uri != third.uri
    requires Valid(third) && !RecountsLineages(third) && Increasing(plan) && forall l | l in plan :: l !in s.owners
    ensures Reachable(s') && s'.t == s.t && s'.counts == s.counts
    ensures s'.txs == map[1 := Counted(second, held, s.t), 2 := Counted(third, plan, s.t)]
  {
    var s1 := Start(s, 2, third, plan);
    s' := LockAndRecount(s1, 2);
  }

  // Both are committed.
  lemma CommitBoth(s: System, second: Event, held: seq<Lock>, third: Event, plan: seq<Lock>) returns (s': System)
    requires Reachable(s) && s.txs == map[1 := Counted(second, held, s.t)] && second.uri != third.uri
    requires Valid(third) && !RecountsLineages(third) && Increasing(plan) && forall l | l in plan :: l !in s.owners
    ensures Reachable(s') && s'.txs == map[] && s'.t == Apply(Apply(s.t, second), third)
    ensures s'.counts == s.counts + CountsFrom(s.t, second) + CountsFrom(s.t, third)
  {
    var s2 := Join(s, second, held, third, plan);
    var s3 := CommitNow(s2, 1);
    s' := CommitNow(s3, 2);
  }

  // --- The events --------------------------------------------------------------------------

  const I := Uri("did:alice", IssueCollection, "i")
  const J := Uri("did:alice", IssueCollection, "j")
  const R1 := Uri("did:alice", RepositoryCollection, "r1")
  const R2 := Uri("did:alice", RepositoryCollection, "r2")

  const MOVE := Event(4, I, Put("", Issue(R2)))
  const REMOVAL := Event(5, I, Delete)
  const ARRIVAL := Event(6, J, Put("", Issue(R2)))

  predicate HasRepositories(t: Tables, n: int) {
    Live(t.repositories, R1) && Live(t.repositories, R2) && forall u | u in t.records :: t.records[u].eventId <= n
  }

  predicate IsOpened(t: Tables) { HasRepositories(t, 3) && t.issues == map[I := Row(R1, true, 3)] }
  predicate IsMoved(t: Tables) { HasRepositories(t, 4) && t.issues == map[I := Row(R2, true, 4)] }

  lemma Creation(t: Tables, id: int, r: Uri)
    requires r == R1 || r == R2
    requires r !in t.repositories && forall u | u in t.records :: t.records[u].eventId < id
    ensures
      var t' := Apply(t, Event(id, r, Put("", Repository(None))));
      && Live(t'.repositories, r) && t'.issues == t.issues && (forall u | u in t'.records :: t'.records[u].eventId <= id)
      && forall q | q != r :: (q in t.repositories <==> q in t'.repositories) && (q in t.repositories ==> t'.repositories[q] == t.repositories[q])
  {
  }

  // A new version of an issue, and what it touches.
  lemma Putting(t: Tables, e: Event, r: Uri)
    requires Valid(e) && e.change == Put("", Issue(r)) && HasRepositories(t, e.id - 1)
    requires e.uri in t.issues ==> t.issues[e.uri].eventId < e.id
    ensures HasRepositories(Apply(t, e), e.id) && Apply(t, e).issues == t.issues[e.uri := Row(r, true, e.id)]
    ensures TouchedIssues(t, e) == {r} + (if e.uri in t.issues then {t.issues[e.uri].value} else {})
  {
  }

  lemma Removing(t: Tables, e: Event)
    requires IsDelete(e, IssueCollection) && HasRepositories(t, e.id - 1) && e.uri in t.issues && t.issues[e.uri].eventId < e.id
    ensures HasRepositories(Apply(t, e), e.id)
    ensures Apply(t, e).issues == t.issues[e.uri := Row(t.issues[e.uri].value, false, e.id)]
    ensures TouchedIssues(t, e) == {t.issues[e.uri].value}
  {
  }

  // The locks of a transaction whose queries all see the same tables.
  ghost function Plan(t: Tables, e: Event): (plan: seq<Lock>)
    ensures Increasing(plan)
  {
    LocksIncrease(Alone(t), e);
    TransactionLocks(Alone(t), e)
  }

  lemma OpenFirst() returns (s: System)
    ensures Reachable(s) && s.txs == map[] && s.owners == map[] && s.t.issues == map[]
    ensures Live(s.t.repositories, R1) && R2 !in s.t.repositories && forall u | u in s.t.records :: s.t.records[u].eventId <= 1
  {
    StartIsReachable();
    Creation(EMPTY, 1, R1);
    s := RunAlone(START, 0, Event(1, R1, Put("", Repository(None))), Plan(EMPTY, Event(1, R1, Put("", Repository(None)))));
  }

  lemma OpenSecond() returns (s: System)
    ensures Reachable(s) && s.txs == map[] && s.owners == map[] && s.t.issues == map[] && HasRepositories(s.t, 2)
  {
    var s1 := OpenFirst();
    Creation(s1.t, 2, R2);
    s := RunAlone(s1, 0, Event(2, R2, Put("", Repository(None))), Plan(s1.t, Event(2, R2, Put("", Repository(None)))));
  }

  lemma Open() returns (s: System)
    ensures Reachable(s) && IsOpened(s.t) && s.txs == map[] && s.owners == map[]
  {
    var s1 := OpenSecond();
    Putting(s1.t, Event(3, I, Put("", Issue(R1))), R1);
    s := RunAlone(s1, 0, Event(3, I, Put("", Issue(R1))), Plan(s1.t, Event(3, I, Put("", Issue(R1)))));
  }

  lemma TextsDiffer()
    ensures Text(R1) != Text(R2)
  {
    assert Text(R1)[|Text(R1)| - 1] == '1' && Text(R2)[|Text(R2)| - 1] == '2';
  }

  // The removal looks the issue up before the move is committed, waits for the
  // lock on the old repository, and sees the move in all that follows.
  ghost predicate LooksBefore(v: Views, before: Tables, now: Tables) {
    v.issue(0) == before && v.star == v.fork == now && forall k: nat | k > 0 :: v.issue(k) == now
  }

  lemma RemovalLocks(v: Views, r: Uri)
    requires IsOpened(v.issue(0)) && (r == R1 || r == R2)
    ensures Holds(v, REMOVAL, RepositoryIssues, r) <==> r == R1
  {
    TextsDiffer();
    DeletionHolds(v, REMOVAL, r);
  }

  // It refreshes the new repository without that repository's lock, although
  // both transactions take the lock on the old one.
  lemma MovedIssueEscapesItsLock(t: Tables, v: Views)
    requires IsOpened(t) && LooksBefore(v, t, Apply(t, MOVE))
    ensures TouchedIssues(Apply(t, MOVE), REMOVAL) == {R2} && !Holds(v, REMOVAL, RepositoryIssues, R2)
    ensures Holds(v, REMOVAL, RepositoryIssues, R1)
    ensures Holds(Alone(t), MOVE, RepositoryIssues, R1) && Holds(Alone(t), MOVE, RepositoryIssues, R2)
  {
    Putting(t, MOVE, R2);
    Removing(Apply(t, MOVE), REMOVAL);
    RemovalLocks(v, R1);
    RemovalLocks(v, R2);
    MoveLocks(t);
  }

  lemma MoveLocks(t: Tables)
    requires IsOpened(t)
    ensures Holds(Alone(t), MOVE, RepositoryIssues, R1) && Holds(Alone(t), MOVE, RepositoryIssues, R2)
  {
    PutHolds(Alone(t), MOVE, R2, R1);
    PutHolds(Alone(t), MOVE, R2, R2);
    assert Alone(t).issue(0) == t;
  }

  // The removal's only lock is not among those of an issue that arrives in the
  // new repository.
  lemma ArrivalLeavesR1(now: Tables)
    requires IsMoved(now)
    ensures !Holds(Alone(now), ARRIVAL, RepositoryIssues, R1)
  {
    TextsDiffer();
    PutHolds(Alone(now), ARRIVAL, R2, R1);
    assert Alone(now).issue(0) == now && Alone(now).issue(6) == now;
  }

  lemma NoCommonLock(v: Views, now: Tables, l: Lock)
    requires IsOpened(v.issue(0)) && IsMoved(now) && l in TransactionLocks(Alone(now), ARRIVAL)
    ensures l !in TransactionLocks(v, REMOVAL)
  {
    ArrivalLeavesR1(now);
    if l in TransactionLocks(v, REMOVAL) {
      RemovalHolds(v, REMOVAL, l);
      assert false;
    }
  }

  lemma OneMoreIssue(issues: map<Uri, Row<Uri>>, i: Uri, r: Uri, id: int)
    requires i !in issues
    ensures IssuesOf(issues[i := Row(r, true, id)], r) == IssuesOf(issues, r) + {i}
  {
  }

  lemma OneIssueLess(issues: map<Uri, Row<Uri>>, i: Uri, r: Uri, id: int)
    requires i in issues
    ensures IssuesOf(issues[i := Row(issues[i].value, false, id)], r) == IssuesOf(issues, r) - {i}
  {
  }

  lemma OneCount(seen: Tables, keys: set<Uri>, r: Uri)
    requires keys == {r} && r in seen.repositories
    ensures CountsOf(seen, keys) == map[r := |IssuesOf(seen.issues, r)|]
  {
  }

  // Each of the two recounts misses the other's write.
  lemma RemovalIsCounted(t: Tables, e: Event, r: Uri)
    requires IsDelete(e, IssueCollection) && HasRepositories(t, e.id - 1) && Live(t.repositories, r)
    requires e.uri in t.issues && t.issues[e.uri].eventId < e.id && t.issues[e.uri].value == r && IssuesOf(t.issues, r) == {e.uri}
    ensures CountsFrom(t, e) == map[r := 0] && IssuesOf(Apply(t, e).issues, r) == {}
    ensures HasRepositories(Apply(t, e), e.id) && Apply(t, e).issues.Keys == t.issues.Keys && Live(Apply(t, e).repositories, r)
  {
    Removing(t, e);
    RepositoriesStay(t, e, r);
    OneIssueLess(t.issues, e.uri, r, e.id);
    OneCount(Apply(t, e), TouchedIssues(t, e), r);
  }

  lemma ArrivalIsCounted(t: Tables, e: Event, r: Uri)
    requires Valid(e) && e.change == Put("", Issue(r)) && HasRepositories(t, e.id - 1) && Live(t.repositories, r) && e.uri !in t.issues
    ensures CountsFrom(t, e) == map[r := |IssuesOf(t.issues, r)| + 1] && IssuesOf(Apply(t, e).issues, r) == IssuesOf(t.issues, r) + {e.uri}
    ensures Live(Apply(t, e).repositories, r)
  {
    Putting(t, e, r);
    RepositoriesStay(t, e, r);
    OneMoreIssue(t.issues, e.uri, r, e.id);
    OneCount(Apply(t, e), TouchedIssues(t, e), r);
  }

  lemma RepositoriesStay(t: Tables, e: Event, r: Uri)
    requires Valid(e) && e.uri.collection == IssueCollection
    ensures Live(Apply(t, e).repositories, r) <==> Live(t.repositories, r)
  {
  }

  // So the two commits leave one issue, and the count of the later one.
  lemma LaterCountStays(now: Tables, e: Event, counts: map<Uri, nat>, r: Uri)
    requires Valid(e) && e.change == Put("", Issue(r)) && HasRepositories(now, e.id - 1) && Live(now.repositories, r)
    requires e.uri !in now.issues && |IssuesOf(now.issues, r)| == 1
    ensures Count(counts + CountsFrom(now, e), r) == 2
  {
    ArrivalIsCounted(now, e, r);
  }

  lemma OneIsLeft(now: Tables, removal: Event, arrival: Event, r: Uri)
    requires IsDelete(removal, IssueCollection) && HasRepositories(now, removal.id - 1) && Live(now.repositories, r)
    requires removal.uri in now.issues && now.issues[removal.uri].eventId < removal.id && now.issues[removal.uri].value == r
    requires IssuesOf(now.issues, r) == {removal.uri} && arrival.uri !in now.issues && arrival.id == removal.id + 1
    requires Valid(arrival) && arrival.change == Put("", Issue(r))
    ensures
      var both := Apply(Apply(now, removal), arrival);
      |IssuesOf(both.issues, r)| == 1 && Live(both.repositories, r)
  {
    RemovalIsCounted(now, removal, r);
    ArrivalLeavesOne(Apply(now, removal), arrival, r);
  }

  lemma ArrivalLeavesOne(t: Tables, e: Event, r: Uri)
    requires Valid(e) && e.change == Put("", Issue(r)) && HasRepositories(t, e.id - 1) && Live(t.repositories, r)
    requires e.uri !in t.issues && IssuesOf(t.issues, r) == {}
    ensures |IssuesOf(Apply(t, e).issues, r)| == 1 && Live(Apply(t, e).repositories, r)
  {
    ArrivalIsCounted(t, e, r);
  }

  lemma OvertakenBy(s: System, first: Event, second: Event, v: Views) returns (s': System)
    requires Reachable(s) && s.txs == map[] && s.owners == map[]
    requires Valid(first) && Valid(second) && !RecountsLineages(first) && !RecountsLineages(second)
    ensures Reachable(s') && s'.t == Apply(s.t, first)
    ensures s'.txs == map[1 := Counted(second, TransactionLocks(v, second), s'.t)]
    ensures forall l :: l in s'.owners <==> l in TransactionLocks(v, second)
  {
    LocksIncrease(v, second);
    s' := Overtake(s, first, Plan(s.t, first), second, TransactionLocks(v, second));
  }

  lemma OvertakenByMove() returns (s: System, t: Tables, v: Views)
    ensures Reachable(s) && IsOpened(t) && IsMoved(s.t) && LooksBefore(v, t, s.t)
    ensures s.txs == map[1 := Counted(REMOVAL, TransactionLocks(v, REMOVAL), s.t)]
    ensures forall l :: l in s.owners <==> l in TransactionLocks(v, REMOVAL)
  {
    var s0 := Open();
    t := s0.t;
    v := Views(k => if k == 0 then s0.t else Apply(s0.t, MOVE), k => Apply(s0.t, MOVE), Apply(s0.t, MOVE), Apply(s0.t, MOVE));
    s := OvertakenBy(s0, MOVE, REMOVAL, v);
    Putting(t, MOVE, R2);
  }

  lemma ArriveAndCommit(s: System, removal: Event, held: seq<Lock>, arrival: Event, plan: seq<Lock>, r: Uri) returns (s': System)
    requires Reachable(s) && s.txs == map[1 := Counted(removal, held, s.t)]
    requires Increasing(plan) && forall l | l in plan :: l !in s.owners
    requires IsDelete(removal, IssueCollection) && HasRepositories(s.t, removal.id - 1) && Live(s.t.repositories, r)
    requires removal.uri in s.t.issues && s.t.issues[removal.uri].eventId < removal.id && s.t.issues[removal.uri].value == r
    requires IssuesOf(s.t.issues, r) == {removal.uri} && arrival.uri !in s.t.issues && arrival.id == removal.id + 1
    requires Valid(arrival) && arrival.change == Put("", Issue(r))
    ensures Reachable(s') && s'.txs == map[] && Live(s'.t.repositories, r)
    ensures |IssuesOf(s'.t.issues, r)| == 1 && Count(s'.counts, r) == 2
  {
    s' := CommitBoth(s, removal, held, arrival, plan);
    LaterCountStays(s.t, arrival, s.counts + CountsFrom(s.t, removal), r);
    OneIsLeft(s.t, removal, arrival, r);
  }

  // The removal and an arrival in the new repository are recounted before either
  // is committed: that repository has one issue and a count of two.
  lemma MovedIssueLosesCount() returns (s: System)
    ensures Reachable(s) && s.txs == map[] && Live(s.t.repositories, R2)
    ensures |IssuesOf(s.t.issues, R2)| == 1 && Count(s.counts, R2) == 2 && !ExactIssues(s)
  {
    var s1, t, v := OvertakenByMove();
    forall l | l in Plan(s1.t, ARRIVAL) ensures l !in s1.owners {
      NoCommonLock(v, s1.t, l);
    }
    assert IssuesOf(s1.t.issues, R2) == {I};
    s := ArriveAndCommit(s1, REMOVAL, TransactionLocks(v, REMOVAL), ARRIVAL, Plan(s1.t, ARRIVAL), R2);
  }
}
