// A run in which the recount of every lineage is overtaken by a commit and
// leaves a wrong fork count behind. The recount takes no fork lock.
module ForkRecountRace {
  import opened Options
  import opened FederationTables
  import opened FederationCounts
  import opened FederationLocks
  import opened FederationConcurrency

  ghost predicate Reachable(s: System) {
    exists states, steps :: IsRun(states, steps) && states[|steps|] == s
  }

  lemma Extend(s: System, i: nat, a: Action, s': System)
    requires Reachable(s) && Next(s, i, a, s')
    ensures Reachable(s')
  {
    var states, steps :| IsRun(states, steps) && states[|steps|] == s;
    var states', steps' := states + [s'], steps + [(i, a)];
    assert IsRun(states', steps') && states'[|steps'|] == s';
  }

  lemma StartIsReachable()
    ensures Reachable(START)
  {
    var states: seq<System>, steps: seq<(nat, Action)> := [START], [];
    assert IsRun(states, steps) && states[|steps|] == START;
  }

  // Locks taken one after the other while nobody else holds them.
  lemma AcquireAll(s: System, i: nat) returns (s': System)
    requires Reachable(s) && i in s.txs && Increasing(s.txs[i].wanted)
    requires forall l | l in s.txs[i].wanted :: l !in s.owners
    ensures Reachable(s') && s'.rows == s.rows && s'.forks == s.forks
    ensures s'.txs == s.txs[i := s.txs[i].(held := s.txs[i].held + s.txs[i].wanted, wanted := [])]
    ensures Released(s'.owners, i) == Released(s.owners, i)
    ensures forall l :: l in s'.owners <==> l in s.owners || l in s.txs[i].wanted
    decreases |s.txs[i].wanted|
  {
    var tx := s.txs[i];
    if tx.wanted == [] {
      s' := s;
      assert tx.held + tx.wanted == tx.held;
      assert s.txs == s.txs[i := tx];
    } else {
      var lock := tx.wanted[0];
      var tx1 := tx.(held := tx.held + [lock], wanted := tx.wanted[1..]);
      var s1 := s.(owners := s.owners[lock := i], txs := s.txs[i := tx1]);
      assert lock !in tx.wanted[1..] by {
        BeforeIsStrictOrder(lock, lock, lock);
      }
      assert Next(s, i, Acquire, s1);
      Extend(s, i, Acquire, s1);
      s' := AcquireAll(s1, i);
      assert tx.held + tx.wanted == tx1.held + tx1.wanted;
      assert tx.wanted == [lock] + tx.wanted[1..];
    }
  }

  lemma MoveOn(s: System, i: nat, a: Action) returns (s': System)
    requires Reachable(s) && i in s.txs && CanMove(s.txs[i], a)
    ensures Reachable(s') && s' == s.(txs := s.txs[i := Moved(s.rows, s.txs[i], a)])
  {
    s' := s.(txs := s.txs[i := Moved(s.rows, s.txs[i], a)]);
    assert Next(s, i, a, s');
    Extend(s, i, a, s');
  }

  lemma RecomputeAll(s: System, i: nat) returns (s': System)
    requires Reachable(s) && i in s.txs && s.txs[i].phase == Recomputing
    ensures Reachable(s') && s'.rows == s.rows && s'.forks == s.forks && s'.owners == s.owners
    ensures i in s'.txs && s'.txs - {i} == s.txs - {i}
    ensures s'.txs[i].remaining == {} && s'.txs[i].phase == Recomputing
    ensures s'.txs[i].event == s.txs[i].event && s'.txs[i].row == s.txs[i].row
    decreases |s.txs[i].remaining|
  {
    if s.txs[i].remaining == {} {
      s' := s;
    } else {
      var k :| k in s.txs[i].remaining;
      var s1 := MoveOn(s, i, Recompute(k));
      s' := RecomputeAll(s1, i);
    }
  }

  // State `t` is state `s` with transaction `i` somewhere on its way.
  ghost predicate Underway(s: System, t: System, i: nat) {
    && t.rows == s.rows && t.forks == s.forks && i in t.txs && t.txs - {i} == s.txs
    && Released(t.owners, i) == s.owners
  }

  lemma TakeEarlyLocks(s: System, i: nat, e: Event) returns (t: System)
    requires Reachable(s) && i !in s.txs && Valid(e) && OnRepository(e)
    requires forall l | l in s.owners :: l.kind == Lineages && s.owners[l] != i
    ensures Reachable(t) && Underway(s, t, i) && (forall l | l in t.owners :: l.kind != RepositoryForks)
    ensures t.txs[i].event == e && t.txs[i].phase == Early && t.txs[i].wanted == []
    ensures t.txs[i].counts == map[] && t.txs[i].row == None
  {
    var plan := [Lock(RepositoryIssues, Text(e.uri))];
    assert Lock(RepositoryIssues, Text(e.uri)) in plan;
    var s1 := s.(txs := s.txs[i := NewTx(e, plan)]);
    assert Next(s, i, Begin(e, plan), s1);
    Extend(s, i, Begin(e, plan), s1);
    t := AcquireAll(s1, i);
    assert Released(s.owners, i) == s.owners;
    assert t.txs - {i} == s.txs;
  }

  lemma TakeForkLocks(s: System, t: System, i: nat) returns (t': System)
    requires Reachable(t) && Underway(s, t, i) && t.txs[i].phase == Early && t.txs[i].wanted == []
    requires forall l | l in t.owners :: l.kind != RepositoryForks
    ensures Reachable(t') && Underway(s, t', i)
    ensures t'.txs[i].phase == Forks && t'.txs[i].wanted == []
    ensures t'.txs[i].event == t.txs[i].event && t'.txs[i].counts == t.txs[i].counts && t'.txs[i].row == t.txs[i].row
  {
    var t1 := MoveOn(t, i, ReadSource);
    var keys := Sorted(Texts(LockedForks(t.txs[i].event, t1.txs[i].previous)));
    LocksOfRanked(RepositoryForks, keys);
    t' := AcquireForks(t1, i, keys);
    assert t'.txs - {i} == s.txs;
  }

  lemma AcquireForks(t: System, i: nat, keys: seq<string>) returns (t': System)
    requires Reachable(t) && i in t.txs && t.txs[i].wanted == LocksOf(RepositoryForks, keys) && Ascending(keys)
    requires forall l | l in t.owners :: l.kind != RepositoryForks
    ensures Reachable(t') && t'.rows == t.rows && t'.forks == t.forks
    ensures t'.txs == t.txs[i := t.txs[i].(held := t.txs[i].held + t.txs[i].wanted, wanted := [])]
    ensures Released(t'.owners, i) == Released(t.owners, i)
    ensures forall l | l in t'.owners && l !in t.owners :: l.kind == RepositoryForks
  {
    LocksOfRanked(RepositoryForks, keys);
    t' := AcquireAll(t, i);
  }

  lemma WriteAndRecompute(s: System, t: System, i: nat) returns (t': System)
    requires Reachable(t) && Underway(s, t, i) && t.txs[i].phase == Forks && t.txs[i].wanted == []
    ensures Reachable(t') && Underway(s, t', i)
    ensures t'.txs[i].phase == Recomputing && t'.txs[i].remaining == {} && t'.txs[i].event == t.txs[i].event
    ensures t'.txs[i].row == Written(s.rows, t.txs[i].event)
  {
    var t1 := MoveOn(t, i, Write);
    t' := RecomputeAll(t1, i);
    assert t'.forks == s.forks;
    assert t'.txs - {i} == s.txs;
  }

  // A new repository is projected while no other transaction moves.
  lemma ProjectNewRepository(s: System, i: nat, e: Event, forkedFrom: Option<Uri>) returns (s': System)
    requires Reachable(s) && i !in s.txs && Valid(e) && e.change == Put("v1", Repository(forkedFrom)) && e.uri !in s.rows
    requires forall l | l in s.owners :: l.kind == Lineages && s.owners[l] != i
    ensures Reachable(s') && s'.rows == s.rows[e.uri := Row(RepositoryValue("v1", forkedFrom), true, e.id)]
    ensures s'.txs == s.txs && s'.owners == s.owners
  {
    var t1 := TakeEarlyLocks(s, i, e);
    var t2 := TakeForkLocks(s, t1, i);
    var t3 := WriteAndRecompute(s, t2, i);
    assert Written(s.rows, e) == Some(Row(RepositoryValue("v1", forkedFrom), true, e.id));
    s' := CommitNow(t3, i);
  }

  lemma CommitNow(s: System, i: nat) returns (s': System)
    requires Reachable(s) && i in s.txs && CanCommit(s.txs[i])
    ensures Reachable(s')
    ensures s' == System(Visible(s.rows, s.txs[i]), s.forks + s.txs[i].counts, Released(s.owners, i), s.txs - {i})
  {
    s' := System(Visible(s.rows, s.txs[i]), s.forks + s.txs[i].counts, Released(s.owners, i), s.txs - {i});
    assert Next(s, i, Commit, s');
    Extend(s, i, Commit, s');
  }

  const ALICE := "did:alice"
  const ORIGINAL := Uri(ALICE, RepositoryCollection, "original")
  const COPY := Uri(ALICE, RepositoryCollection, "copy")
  const ORGANIZATION := Event(2, Uri(ALICE, OrganizationCollection, "o"), Put("", Organization))

  // An organization event locks and writes nothing that is kept here.
  lemma RunOrganizationEvent(s: System, i: nat) returns (s': System)
    requires Reachable(s) && i !in s.txs
    ensures Reachable(s') && s'.rows == s.rows && s'.owners == s.owners && s'.txs.Keys == s.txs.Keys + {i}
    ensures s'.txs[i] == Tx(ORGANIZATION, Recomputing, [], [], None, None, {}, map[])
  {
    var e := ORGANIZATION;
    var s1 := s.(txs := s.txs[i := NewTx(e, [])]);
    assert Next(s, i, Begin(e, []), s1);
    Extend(s, i, Begin(e, []), s1);
    var s2 := MoveOn(s1, i, ReadSource);
    NoForkLocks(e);
    s' := MoveOn(s2, i, Write);
  }

  // It then recounts all lineages.
  lemma RecountLineages(s: System, i: nat) returns (s': System)
    requires Reachable(s) && i !in s.txs && s.owners == map[]
    ensures Reachable(s') && s'.rows == s.rows && s'.txs.Keys == s.txs.Keys + {i} && CanCommit(s'.txs[i]) && s'.txs[i].row == None
    ensures forall r | Live(s.rows, r) :: r in s'.txs[i].counts && s'.txs[i].counts[r] == |ForksOf(s.rows, r)|
    ensures forall l | l in s'.owners :: l.kind == Lineages && s'.owners[l] == i
  {
    var s3 := RunOrganizationEvent(s, i);
    var s4 := MoveOn(s3, i, WantLineage);
    assert s4.txs[i].wanted == [Lock(Lineages, "")];
    var s5 := AcquireAll(s4, i);
    s' := MoveOn(s5, i, Recount);
    AcquiredByOne(s4, s5, i);
  }

  lemma NoForkLocks(e: Event)
    requires !OnRepository(e)
    ensures LocksOf(RepositoryForks, Sorted(Texts(LockedForks(e, None)))) == [] && RecomputedForks(e, None) == {}
  {
    assert Texts({}) == {};
  }

  lemma AcquiredByOne(s: System, s': System, i: nat)
    requires s.owners == map[] && Released(s'.owners, i) == Released(s.owners, i)
    ensures forall l | l in s'.owners :: s'.owners[l] == i
  {
    forall l | l in s'.owners ensures s'.owners[l] == i {
      assert l !in Released(s'.owners, i);
    }
  }

  // A fork is committed between another transaction's recount and its commit;
  // that commit then resets the fork count to the older number.
  lemma RecountLosesFork()
    ensures exists s :: Reachable(s) && !ExactForks(s)
  {
    StartIsReachable();
    var s1 := ProjectNewRepository(START, 0, Event(1, ORIGINAL, Put("v1", Repository(None))), None);
    var s2 := RecountLineages(s1, 1);
    var s3 := ProjectNewRepository(s2, 2, Event(3, COPY, Put("v1", Repository(Some(ORIGINAL)))), Some(ORIGINAL));
    var s4 := CommitNow(s3, 1);
    assert ForksOf(s1.rows, ORIGINAL) == {};
    assert Count(s4.forks, ORIGINAL) == 0;
    assert s4.rows == s3.rows;
    assert ForksOf(s4.rows, ORIGINAL) == {COPY};
    assert Live(s4.rows, ORIGINAL);
  }
}
