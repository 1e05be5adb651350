// Any number of projection transactions, interleaved statement by statement.
//
// Each statement sees the committed rows and its own transaction's writes, and
// locks are held until commit or rollback. Of the tables only the repository
// rows and their fork counts are kept; a transaction on any other record takes
// its locks and commits nothing here.
module FederationConcurrency {
  import opened Options
  import opened FederationTables
  import opened FederationCounts
  import opened FederationLocks

  type Rows = map<Uri, Row<RepositoryValue>>

  // Where a transaction is. Locking ends when `wanted` is empty.
  datatype Phase = Early | Forks | Recomputing | Lineage | Finished

  datatype Tx = Tx(
    event: Event,
    phase: Phase,
    held: seq<Lock>,
    wanted: seq<Lock>,
    previous: Option<Uri>,
    row: Option<Row<RepositoryValue>>,
    remaining: set<Uri>,
    counts: map<Uri, nat>)

  datatype System = System(rows: Rows, forks: map<Uri, nat>, owners: map<Lock, nat>, txs: map<nat, Tx>)

  const START := System(map[], map[], map[], map[])

  datatype Action =
    | Begin(event: Event, plan: seq<Lock>)
    | Acquire
    | ReadSource
    | Write
    | Recompute(k: Uri)
    | WantLineage
    | Recount
    | Commit
    | Rollback

  predicate OnRepository(e: Event) { e.uri.collection == RepositoryCollection }

  // The locks that come before the fork locks. The sequence is found while it is
  // being taken; any sequence with these two properties is allowed.
  ghost predicate WellPlanned(e: Event, plan: seq<Lock>) {
    Ranked(plan, 0, 4) && (OnRepository(e) ==> Lock(RepositoryIssues, Text(e.uri)) in plan)
  }

  function LockedForks(e: Event, previous: Option<Uri>): set<Uri> {
    if !OnRepository(e) then {}
    else {e.uri} + Elements(previous) + (if e.change.Put? && e.change.payload.Repository? then Elements(e.change.payload.forkedFrom) else {})
  }

  function RecomputedForks(e: Event, previous: Option<Uri>): set<Uri> {
    if OnRepository(e) && e.change.Delete? then Elements(previous) else LockedForks(e, previous)
  }

  // The row the transaction writes, if any.
  function Written(rows: Rows, e: Event): Option<Row<RepositoryValue>> {
    var after := RepositoriesAfter(EMPTY.(repositories := rows), e);
    if OnRepository(e) && e.uri in after then Some(after[e.uri]) else None
  }

  // The committed rows and the transaction's own.
  function Visible(rows: Rows, tx: Tx): Rows {
    if tx.row.Some? then rows[tx.event.uri := tx.row.value] else rows
  }

  ghost function NewTx(e: Event, plan: seq<Lock>): Tx { Tx(e, Early, [], plan, None, None, {}, map[]) }

  // One statement of transaction `i`.
  ghost predicate Next(s: System, i: nat, a: Action, s': System) {
    match a
    case Begin(e, plan) =>
      i !in s.txs && Valid(e) && WellPlanned(e, plan) && s' == s.(txs := s.txs[i := NewTx(e, plan)])
    case Acquire =>
      && i in s.txs && s.txs[i].wanted != [] && s.txs[i].wanted[0] !in s.owners
      && s' == s.(owners := s.owners[s.txs[i].wanted[0] := i],
                  txs := s.txs[i := s.txs[i].(held := s.txs[i].held + [s.txs[i].wanted[0]], wanted := s.txs[i].wanted[1..])])
    case Commit =>
      && i in s.txs && CanCommit(s.txs[i])
      && s' == System(Visible(s.rows, s.txs[i]), s.forks + s.txs[i].counts, Released(s.owners, i), s.txs - {i})
    case Rollback =>
      i in s.txs && s' == s.(owners := Released(s.owners, i), txs := s.txs - {i})
    case _ =>
      i in s.txs && CanMove(s.txs[i], a) && s' == s.(txs := s.txs[i := Moved(s.rows, s.txs[i], a)])
  }

  // Statements that change nothing outside their transaction.
  predicate CanMove(tx: Tx, a: Action) {
    match a
    case ReadSource => tx.phase == Early && tx.wanted == []
    case Write => tx.phase == Forks && tx.wanted == []
    case Recompute(k) => tx.phase == Recomputing && k in tx.remaining
    case WantLineage => tx.phase == Recomputing && tx.remaining == {} && RecountsLineages(tx.event)
    case Recount => tx.phase == Lineage && tx.wanted == []
    case _ => false
  }

  ghost function Moved(rows: Rows, tx: Tx, a: Action): Tx
    requires CanMove(tx, a)
  {
    match a
    case ReadSource => AfterRead(rows, tx)
    case Write => AfterWrite(rows, tx)
    case Recompute(k) => AfterRecompute(rows, tx, k)
    case WantLineage => tx.(phase := Lineage, wanted := LineageLocks(tx.event))
    case Recount => AfterRecount(rows, tx)
  }

  ghost function AfterRead(rows: Rows, tx: Tx): Tx {
    var previous := if OnRepository(tx.event) then ForkSource(rows, tx.event.uri) else None;
    tx.(phase := Forks, previous := previous,
        wanted := LocksOf(RepositoryForks, Sorted(Texts(LockedForks(tx.event, previous)))))
  }

  function AfterWrite(rows: Rows, tx: Tx): Tx {
    tx.(phase := Recomputing, row := Written(rows, tx.event), remaining := RecomputedForks(tx.event, tx.previous))
  }

  // The recount of one row, if the row exists.
  function AfterRecompute(rows: Rows, tx: Tx, k: Uri): Tx {
    tx.(remaining := tx.remaining - {k},
        counts := if k in Visible(rows, tx) then tx.counts[k := |ForksOf(Visible(rows, tx), k)|] else tx.counts)
  }

  function AfterRecount(rows: Rows, tx: Tx): Tx {
    var seen := Visible(rows, tx);
    tx.(phase := Finished, counts := tx.counts + map r | r in seen && seen[r].live :: |ForksOf(seen, r)|)
  }

  predicate CanCommit(tx: Tx) {
    tx.phase == Finished || (tx.phase == Recomputing && tx.remaining == {} && !RecountsLineages(tx.event))
  }

  function Released(owners: map<Lock, nat>, i: nat): map<Lock, nat> { map l | l in owners && owners[l] != i :: owners[l] }

  // What the locking steps of the source take before the fork locks.
  ghost function EarlyLocks(v: Views, e: Event): seq<Lock> {
    IssueLocks(v.issue, e) + PullLocks(v.pull, e) + StarLocks(v.star, e)
  }

  lemma EarlyLocksArePlanned(v: Views, e: Event)
    ensures WellPlanned(e, EarlyLocks(v, e))
  {
    IssueLocksRanked(v.issue, Texts(IssueKeys(v.issue, e)), Texts(IssueRepositoryKeys(v.issue, e)));
    PullLocksRanked(v.pull, Texts(PullKeys(v.pull, e)), Texts(PullRepositoryKeys(v.pull, e)));
    StarAndForkLocksRanked(v.star, v.fork, e);
    RankedConcat(IssueLocks(v.issue, e), PullLocks(v.pull, e), 0, 1, 3);
    RankedConcat(IssueLocks(v.issue, e) + PullLocks(v.pull, e), StarLocks(v.star, e), 0, 3, 4);
    if OnRepository(e) {
      OwnRepositoryIsLocked(v.issue, Texts(IssueKeys(v.issue, e)), Texts(IssueRepositoryKeys(v.issue, e)), Text(e.uri));
    }
  }

  lemma OwnRepositoryIsLocked(see: Snapshots, issues: set<string>, repositories: set<string>, name: string)
    requires name in repositories
    ensures Lock(RepositoryIssues, name) in IssueLocksOf(see, issues, repositories)
  {
    var ordered := Sorted(issues);
    InLocksOf(RepositoryIssues, Sorted(repositories + FoundRepositories(see, ordered, |ordered|)), name);
  }

  // --- Locks ---------------------------------------------------------------------

  ghost predicate HoldsWhatItOwns(s: System, i: nat)
    requires i in s.txs
  {
    forall l :: l in s.txs[i].held <==> l in s.owners && s.owners[l] == i
  }

  // Held and wanted locks are in order, and below the classes still to come.
  ghost predicate Ordered(tx: Tx) {
    match tx.phase
    case Early => WellPlanned(tx.event, tx.held + tx.wanted)
    case Forks => Ranked(tx.held + tx.wanted, 0, 5)
    case Recomputing => Ranked(tx.held, 0, 5) && tx.wanted == []
    case Lineage => Ranked(tx.held + tx.wanted, 0, 6)
    case Finished => Ranked(tx.held, 0, 6) && tx.wanted == []
  }

  ghost predicate LockInv(s: System) {
    && (forall i | i in s.txs :: HoldsWhatItOwns(s, i))
    && (forall l | l in s.owners :: s.owners[l] in s.txs)
    && (forall i | i in s.txs :: Ordered(s.txs[i]))
  }

  lemma MovedIsOrdered(rows: Rows, tx: Tx, a: Action)
    requires CanMove(tx, a) && Ordered(tx)
    ensures Ordered(Moved(rows, tx, a)) && Moved(rows, tx, a).held == tx.held
  {
    assert tx.wanted == [] ==> tx.held + tx.wanted == tx.held;
    match a {
      case ReadSource =>
        var tx' := AfterRead(rows, tx);
        LocksOfRanked(RepositoryForks, Sorted(Texts(LockedForks(tx.event, tx'.previous))));
        RankedConcat(tx.held, tx'.wanted, 0, 4, 5);
      case WantLineage =>
        RankedConcat(tx.held, LineageLocks(tx.event), 0, 5, 6);
      case _ =>
    }
  }

  lemma MoveKeepsLockInv(s: System, i: nat, a: Action)
    requires LockInv(s) && i in s.txs && CanMove(s.txs[i], a)
    ensures LockInv(s.(txs := s.txs[i := Moved(s.rows, s.txs[i], a)]))
  {
    MovedIsOrdered(s.rows, s.txs[i], a);
    var s' := s.(txs := s.txs[i := Moved(s.rows, s.txs[i], a)]);
    forall j | j in s'.txs ensures HoldsWhatItOwns(s', j) {
      assert HoldsWhatItOwns(s, j);
    }
  }

  lemma LockInvNext(s: System, i: nat, a: Action, s': System)
    requires LockInv(s) && Next(s, i, a, s')
    ensures LockInv(s')
  {
    match a {
      case Begin(e, plan) =>
        BeginOwnsNothing(s, i, s');
        assert [] + plan == plan;
      case Acquire =>
        AcquireKeepsOwners(s, i, s');
        AcquireKeepsOrder(s.txs[i]);
      case Commit =>
        ReleaseKeepsOwners(s, i, s');
      case Rollback =>
        ReleaseKeepsOwners(s, i, s');
      case _ =>
        MoveKeepsLockInv(s, i, a);
    }
  }

  lemma AcquireKeepsOrder(tx: Tx)
    requires Ordered(tx) && tx.wanted != []
    ensures Ordered(tx.(held := tx.held + [tx.wanted[0]], wanted := tx.wanted[1..]))
  {
    assert tx.held + tx.wanted == (tx.held + [tx.wanted[0]]) + tx.wanted[1..];
  }

  lemma BeginOwnsNothing(s: System, i: nat, s': System)
    requires LockInv(s) && i !in s.txs && s'.owners == s.owners && s'.txs.Keys == s.txs.Keys + {i}
    requires s'.txs[i].held == [] && forall j | j in s.txs :: s'.txs[j] == s.txs[j]
    ensures forall j | j in s'.txs :: HoldsWhatItOwns(s', j)
  {
    forall j | j in s'.txs ensures HoldsWhatItOwns(s', j) {
      if j != i {
        assert HoldsWhatItOwns(s, j);
      }
    }
  }

  lemma AcquireKeepsOwners(s: System, i: nat, s': System)
    requires LockInv(s) && Next(s, i, Acquire, s')
    ensures forall j | j in s'.txs :: HoldsWhatItOwns(s', j)
  {
    forall j | j in s'.txs ensures HoldsWhatItOwns(s', j) {
      assert HoldsWhatItOwns(s, j);
    }
  }

  lemma ReleaseKeepsOwners(s: System, i: nat, s': System)
    requires LockInv(s) && i in s.txs && s'.owners == Released(s.owners, i) && s'.txs == s.txs - {i}
    ensures forall j | j in s'.txs :: HoldsWhatItOwns(s', j)
    ensures forall l | l in s'.owners :: s'.owners[l] in s'.txs
  {
    forall j | j in s'.txs ensures HoldsWhatItOwns(s', j) {
      assert HoldsWhatItOwns(s, j);
    }
  }

  // --- Deadlock freedom --------------------------------------------------------------

  // Transaction `i` can take a step of its own towards its commit.
  ghost predicate CanAdvance(s: System, i: nat) {
    exists a: Action, s': System :: !a.Begin? && !a.Rollback? && Next(s, i, a, s')
  }

  ghost predicate Blocked(s: System, i: nat) {
    i in s.txs && s.txs[i].wanted != [] && s.txs[i].wanted[0] in s.owners
  }

  lemma UnblockedAdvances(s: System, i: nat)
    requires i in s.txs && Ordered(s.txs[i]) && !Blocked(s, i)
    ensures CanAdvance(s, i)
  {
    var tx := s.txs[i];
    if tx.wanted != [] {
      var tx' := tx.(held := tx.held + [tx.wanted[0]], wanted := tx.wanted[1..]);
      assert Next(s, i, Acquire, s.(owners := s.owners[tx.wanted[0] := i], txs := s.txs[i := tx']));
    } else if CanCommit(tx) {
      assert Next(s, i, Commit, System(Visible(s.rows, tx), s.forks + tx.counts, Released(s.owners, i), s.txs - {i}));
    } else {
      var a := NextMove(tx);
      assert Next(s, i, a, s.(txs := s.txs[i := Moved(s.rows, tx, a)]));
    }
  }

  ghost function NextMove(tx: Tx): (a: Action)
    requires tx.wanted == [] && !CanCommit(tx)
    ensures CanMove(tx, a)
  {
    match tx.phase
    case Early => ReadSource
    case Forks => Write
    case Recomputing => if tx.remaining == {} then WantLineage else var k :| k in tx.remaining; Recompute(k)
    case Lineage => Recount
  }

  // The transaction in `ids` that wants the greatest lock.
  lemma GreatestWanted(s: System, ids: set<nat>) returns (top: nat)
    requires ids != {} && forall i | i in ids :: i in s.txs && s.txs[i].wanted != []
    ensures top in ids && forall i | i in ids :: !Before(s.txs[top].wanted[0], s.txs[i].wanted[0])
  {
    var i :| i in ids;
    BeforeIsStrictOrder(s.txs[i].wanted[0], s.txs[i].wanted[0], s.txs[i].wanted[0]);
    if ids == {i} {
      top := i;
    } else {
      var rest := GreatestWanted(s, ids - {i});
      var a, b := s.txs[i].wanted[0], s.txs[rest].wanted[0];
      top := if Before(b, a) then i else rest;
      forall j | j in ids ensures !Before(s.txs[top].wanted[0], s.txs[j].wanted[0]) {
        if top == i && j != i {
          BeforeIsStrictOrder(b, a, s.txs[j].wanted[0]);
          assert !Before(b, s.txs[j].wanted[0]);
        }
      }
    }
  }

  // Whatever the interleaving, some unfinished transaction can advance.
  lemma NoDeadlock(s: System)
    requires LockInv(s) && s.txs != map[]
    ensures exists i :: i in s.txs && CanAdvance(s, i)
  {
    var i := UnblockedExists(s);
    UnblockedAdvances(s, i);
  }

  // The transaction that wants the greatest lock is not waiting for another.
  lemma UnblockedExists(s: System) returns (free: nat)
    requires LockInv(s) && s.txs != map[]
    ensures free in s.txs && !Blocked(s, free)
  {
    var waiting := set i | i in s.txs && s.txs[i].wanted != [];
    if waiting == {} {
      free :| free in s.txs;
      assert free !in waiting;
    } else {
      free := GreatestWanted(s, waiting);
      var lock := s.txs[free].wanted[0];
      if lock in s.owners {
        var owner := s.owners[lock];
        assert HoldsWhatItOwns(s, owner);
        if owner in waiting {
          assert !Before(lock, s.txs[owner].wanted[0]);
          HeldBeforeWanted(s.txs[owner], lock);
          assert false;
        }
        free := owner;
      }
    }
  }

  lemma HeldBeforeWanted(tx: Tx, lock: Lock)
    requires Ordered(tx) && lock in tx.held && tx.wanted != []
    ensures Before(lock, tx.wanted[0])
  {
    var n :| 0 <= n < |tx.held| && tx.held[n] == lock;
    var all := tx.held + tx.wanted;
    assert all[n] == lock && all[|tx.held|] == tx.wanted[0];
  }

  // --- Fork counts -------------------------------------------------------------------

  ghost predicate ExactForks(s: System) {
    forall k | Live(s.rows, k) :: Count(s.forks, k) == |ForksOf(s.rows, k)|
  }

  ghost predicate HasForkLocks(tx: Tx, locks: seq<Lock>) {
    forall k | k in LockedForks(tx.event, tx.previous) :: Lock(RepositoryForks, Text(k)) in locks
  }

  // The locks behind what the transaction has read and written.
  ghost predicate Guarded(tx: Tx) {
    && (OnRepository(tx.event) && tx.phase != Early ==> Lock(RepositoryIssues, Text(tx.event.uri)) in tx.held)
    && (tx.phase == Forks ==> HasForkLocks(tx, tx.held + tx.wanted))
    && (HasWritten(tx) ==> HasForkLocks(tx, tx.held))
  }

  predicate HasWritten(tx: Tx) { tx.phase != Early && tx.phase != Forks }

  // What the transaction has read still holds, and every count it has stored
  // under a fork lock is the count in the rows it would commit.
  ghost predicate Stable(rows: Rows, tx: Tx) {
    && Valid(tx.event)
    && (tx.phase != Early ==> tx.previous == if OnRepository(tx.event) then ForkSource(rows, tx.event.uri) else None)
    && (!HasWritten(tx) ==> tx.row == None && tx.counts == map[])
    && (HasWritten(tx) ==> tx.row == Written(rows, tx.event) && CountsStable(Visible(rows, tx), tx))
  }

  ghost predicate CountsStable(seen: Rows, tx: Tx) {
    && (forall k | k in tx.counts && k in RecomputedForks(tx.event, tx.previous) :: tx.counts[k] == |ForksOf(seen, k)|)
    && (forall k | k in RecomputedForks(tx.event, tx.previous) && k !in tx.remaining && k in seen :: k in tx.counts)
    && (tx.phase != Finished ==> tx.counts.Keys <= RecomputedForks(tx.event, tx.previous))
    && tx.remaining <= RecomputedForks(tx.event, tx.previous)
    && (tx.phase != Recomputing ==> tx.remaining == {})
  }

  lemma MoveIsGuarded(rows: Rows, tx: Tx, a: Action)
    requires CanMove(tx, a) && Ordered(tx) && Guarded(tx)
    ensures Guarded(Moved(rows, tx, a))
  {
    assert tx.wanted == [] ==> tx.held + tx.wanted == tx.held;
    if a.ReadSource? {
      var tx' := AfterRead(rows, tx);
      forall k | k in LockedForks(tx'.event, tx'.previous) ensures Lock(RepositoryForks, Text(k)) in tx'.held + tx'.wanted {
        InLocksOf(RepositoryForks, Sorted(Texts(LockedForks(tx'.event, tx'.previous))), Text(k));
      }
    }
  }

  lemma MoveIsStable(rows: Rows, tx: Tx, a: Action)
    requires CanMove(tx, a) && Stable(rows, tx)
    ensures Stable(rows, Moved(rows, tx, a))
  {
    match a {
      case Recompute(k) =>
        RecomputeIsStable(Visible(rows, tx), tx, k);
      case _ =>
    }
  }

  lemma RecomputeIsStable(seen: Rows, tx: Tx, k: Uri)
    requires CountsStable(seen, tx) && k in tx.remaining && tx.phase == Recomputing
    ensures CountsStable(seen, tx.(remaining := tx.remaining - {k}, counts := if k in seen then tx.counts[k := |ForksOf(seen, k)|] else tx.counts))
  {
  }

  // --- What a commit changes for others -------------------------------------------------

  // Replacing the row of `u` changes the forks of its old and new source only.
  lemma ForksUnaffected(rows: Rows, rows': Rows, u: Uri, k: Uri)
    requires forall f | f != u :: (f in rows <==> f in rows') && (f in rows ==> rows[f] == rows'[f])
    requires ForkSource(rows, u) != Some(k) && ForkSource(rows', u) != Some(k)
    ensures ForksOf(rows', k) == ForksOf(rows, k)
  {
  }

  lemma WrittenSources(rows: Rows, e: Event)
    requires Valid(e) && OnRepository(e)
    ensures Written(rows, e).Some?
    ensures
      var rows' := rows[e.uri := Written(rows, e).value];
      && Elements(ForkSource(rows', e.uri)) <= RecomputedForks(e, ForkSource(rows, e.uri))
      && (e.change.Delete? && Live(rows', e.uri) ==> rows' == rows)
  {
  }

  // What the lineage recount of a finished transaction has stored: the counts
  // of all repositories that were live in the rows it saw.
  ghost predicate CountsFrom(recounted: Rows, tx: Tx) {
    forall k | k !in RecomputedForks(tx.event, tx.previous) ::
      (k in tx.counts <==> Live(recounted, k)) && (k in tx.counts ==> tx.counts[k] == |ForksOf(recounted, k)|)
  }

  // Every repository without a fork lock that was live at the lineage recount
  // and is live after the commit has as many forks at both.
  ghost predicate SameForkCounts(recounted: Rows, rows': Rows, tx: Tx) {
    forall k | k !in RecomputedForks(tx.event, tx.previous) && Live(recounted, k) && Live(rows', k) ::
      |ForksOf(recounted, k)| == |ForksOf(rows', k)|
  }

  lemma CommitIsExactIff(s: System, tx: Tx, recounted: Rows)
    requires ExactForks(s) && Stable(s.rows, tx) && CanCommit(tx)
    requires tx.phase == Finished ==> CountsFrom(recounted, tx)
    ensures ExactForks(System(Visible(s.rows, tx), s.forks + tx.counts, s.owners, s.txs)) <==>
            (tx.phase == Finished ==> SameForkCounts(recounted, Visible(s.rows, tx), tx))
  {
    var rows', forks' := Visible(s.rows, tx), s.forks + tx.counts;
    forall k | Live(rows', k)
      ensures Count(forks', k) == |ForksOf(rows', k)| <==>
              (tx.phase == Finished && k !in RecomputedForks(tx.event, tx.previous) && Live(recounted, k) ==>
                |ForksOf(recounted, k)| == |ForksOf(rows', k)|)
    {
      if k !in tx.counts || k in RecomputedForks(tx.event, tx.previous) {
        CountAfterCommit(s, tx, k);
      }
    }
  }

  // A count that the commit does not store stays exact, and one that it stores
  // under a fork lock is exact.
  lemma CountAfterCommit(s: System, tx: Tx, k: Uri)
    requires ExactForks(s) && Stable(s.rows, tx) && CanCommit(tx) && Live(Visible(s.rows, tx), k)
    requires k !in tx.counts || k in RecomputedForks(tx.event, tx.previous)
    ensures Count(s.forks + tx.counts, k) == |ForksOf(Visible(s.rows, tx), k)|
  {
    if k !in tx.counts && OnRepository(tx.event) {
      WrittenSources(s.rows, tx.event);
      assert k !in RecomputedForks(tx.event, tx.previous);
      ForksUnaffected(s.rows, Visible(s.rows, tx), tx.event.uri, k);
    }
  }

  predicate Disjoint(a: Tx, b: Tx) { forall l | l in a.held :: l !in b.held }

  // Two transactions that hold different locks work on different rows.
  lemma DifferentKeys(a: Tx, b: Tx, k: Uri)
    requires Disjoint(a, b) && Guarded(a) && Guarded(b) && HasWritten(a) && HasWritten(b)
    requires k in LockedForks(a.event, a.previous)
    ensures k !in LockedForks(b.event, b.previous)
  {
    assert Lock(RepositoryForks, Text(k)) in a.held;
  }

  lemma DifferentRows(a: Tx, b: Tx)
    requires Disjoint(a, b) && Guarded(a) && Guarded(b) && a.phase != Early && b.phase != Early
    requires OnRepository(a.event) && OnRepository(b.event)
    ensures a.event.uri != b.event.uri
  {
    assert Lock(RepositoryIssues, Text(a.event.uri)) in a.held;
  }

  // A commit keeps what another transaction has read, and what it has counted
  // under its fork locks.
  lemma OthersStable(rows: Rows, tx: Tx, other: Tx)
    requires Stable(rows, tx) && CanCommit(tx) && Guarded(tx) && Stable(rows, other) && Guarded(other) && Disjoint(tx, other)
    ensures Stable(Visible(rows, tx), other)
  {
    if tx.row.Some? && other.phase != Early {
      var rows' := Visible(rows, tx);
      if OnRepository(other.event) {
        DifferentRows(tx, other);
      }
      if HasWritten(other) {
        OtherCountsStable(rows, tx, other);
      }
    }
  }

  lemma OtherForksUnaffected(rows: Rows, tx: Tx, other: Tx, k: Uri)
    requires Stable(rows, tx) && CanCommit(tx) && Guarded(tx) && Guarded(other) && Disjoint(tx, other)
    requires tx.row.Some? && HasWritten(other) && k in LockedForks(other.event, other.previous)
    requires OnRepository(other.event) ==> tx.event.uri != other.event.uri
    ensures ForksOf(Visible(Visible(rows, tx), other), k) == ForksOf(Visible(rows, other), k)
    ensures k in Visible(Visible(rows, tx), other) ==> k in Visible(rows, other)
  {
    WrittenSources(rows, tx.event);
    if k in LockedForks(tx.event, tx.previous) {
      DifferentKeys(tx, other, k);
    }
    ForksUnaffected(Visible(rows, other), Visible(Visible(rows, tx), other), tx.event.uri, k);
  }

  lemma OtherCountsStable(rows: Rows, tx: Tx, other: Tx)
    requires Stable(rows, tx) && CanCommit(tx) && Guarded(tx) && Stable(rows, other) && Guarded(other) && Disjoint(tx, other)
    requires tx.row.Some? && HasWritten(other)
    requires OnRepository(other.event) ==> tx.event.uri != other.event.uri
    ensures CountsStable(Visible(Visible(rows, tx), other), other)
  {
    var seen, seen' := Visible(rows, other), Visible(Visible(rows, tx), other);
    forall k | k in RecomputedForks(other.event, other.previous)
      ensures ForksOf(seen', k) == ForksOf(seen, k) && (k in seen' ==> k in seen)
    {
      OtherForksUnaffected(rows, tx, other, k);
    }
    CountsStillStable(seen, seen', other);
  }

  lemma CountsStillStable(seen: Rows, seen': Rows, tx: Tx)
    requires CountsStable(seen, tx)
    requires forall k | k in RecomputedForks(tx.event, tx.previous) :: ForksOf(seen', k) == ForksOf(seen, k) && (k in seen' ==> k in seen)
    ensures CountsStable(seen', tx)
  {
  }

  // --- Runs ------------------------------------------------------------------------------

  ghost predicate Inv(s: System) {
    LockInv(s) && forall i | i in s.txs :: Guarded(s.txs[i]) && Stable(s.rows, s.txs[i])
  }

  lemma DistinctOwners(s: System, i: nat, j: nat)
    requires LockInv(s) && i in s.txs && j in s.txs && i != j
    ensures Disjoint(s.txs[i], s.txs[j])
  {
    assert HoldsWhatItOwns(s, i) && HoldsWhatItOwns(s, j);
  }

  lemma InvCommit(s: System, i: nat, s': System)
    requires Inv(s) && Next(s, i, Commit, s')
    ensures Inv(s')
  {
    LockInvNext(s, i, Commit, s');
    forall j | j in s'.txs ensures Stable(s'.rows, s'.txs[j]) {
      DistinctOwners(s, i, j);
      OthersStable(s.rows, s.txs[i], s.txs[j]);
    }
  }

  lemma InvMove(s: System, i: nat, a: Action, s': System)
    requires Inv(s) && i in s.txs && CanMove(s.txs[i], a) && Next(s, i, a, s')
    ensures Inv(s')
  {
    LockInvNext(s, i, a, s');
    MoveIsGuarded(s.rows, s.txs[i], a);
    MoveIsStable(s.rows, s.txs[i], a);
  }

  lemma AcquireIsStable(rows: Rows, tx: Tx)
    requires Guarded(tx) && Stable(rows, tx) && tx.wanted != []
    ensures
      var tx' := tx.(held := tx.held + [tx.wanted[0]], wanted := tx.wanted[1..]);
      Guarded(tx') && Stable(rows, tx')
  {
    assert tx.held + tx.wanted == (tx.held + [tx.wanted[0]]) + tx.wanted[1..];
  }

  lemma InvAcquire(s: System, i: nat, s': System)
    requires Inv(s) && Next(s, i, Acquire, s')
    ensures Inv(s')
  {
    LockInvNext(s, i, Acquire, s');
    AcquireIsStable(s.rows, s.txs[i]);
  }

  lemma InvNext(s: System, i: nat, a: Action, s': System)
    requires Inv(s) && Next(s, i, a, s')
    ensures Inv(s')
  {
    match a {
      case Commit => InvCommit(s, i, s');
      case Acquire => InvAcquire(s, i, s');
      case Begin(_, _) => LockInvNext(s, i, a, s');
      case Rollback => LockInvNext(s, i, a, s');
      case _ => InvMove(s, i, a, s');
    }
  }

  ghost predicate IsRun(states: seq<System>, steps: seq<(nat, Action)>) {
    && |states| == |steps| + 1 && states[0] == START
    && forall n | 0 <= n < |steps| :: Next(states[n], steps[n].0, steps[n].1, states[n + 1])
  }

  lemma {:induction false} RunKeepsInv(states: seq<System>, steps: seq<(nat, Action)>, n: nat)
    requires IsRun(states, steps) && n <= |steps|
    ensures Inv(states[n])
  {
    if n > 0 {
      RunKeepsInv(states, steps, n - 1);
      InvNext(states[n - 1], steps[n - 1].0, steps[n - 1].1, states[n]);
    }
  }

  // --- When fork counts are exact ------------------------------------------------------

  // The rows that transaction `i` saw when it last recounted every lineage.
  ghost function Recounted(states: seq<System>, steps: seq<(nat, Action)>, n: nat, i: nat): Rows
    requires |states| == |steps| + 1 && n <= |steps|
  {
    if n == 0 then map[]
    else if steps[n - 1] == (i, Recount) && i in states[n - 1].txs then Visible(states[n - 1].rows, states[n - 1].txs[i])
    else Recounted(states, steps, n - 1, i)
  }

  // The step is not a commit that publishes a lineage recount whose counts the
  // commits since have changed.
  ghost predicate Harmless(states: seq<System>, steps: seq<(nat, Action)>, n: nat)
    requires |states| == |steps| + 1 && n < |steps|
  {
    var s, i := states[n], steps[n].0;
    steps[n].1 == Commit && i in s.txs && s.txs[i].phase == Finished ==>
      SameForkCounts(Recounted(states, steps, n, i), Visible(s.rows, s.txs[i]), s.txs[i])
  }

  lemma StepKeepsRecounts(s: System, i: nat, a: Action, s': System, j: nat)
    requires Inv(s) && Next(s, i, a, s') && j in s'.txs && s'.txs[j].phase == Finished && (i, a) != (j, Recount)
    ensures j in s.txs && s.txs[j] == s'.txs[j]
  {
    assert i in s.txs ==> Ordered(s.txs[i]);
  }

  lemma RecountStores(s: System, i: nat, s': System)
    requires Inv(s) && Next(s, i, Recount, s')
    ensures CountsFrom(Visible(s.rows, s.txs[i]), s'.txs[i])
  {
  }

  lemma {:induction false} RecountsAreKept(states: seq<System>, steps: seq<(nat, Action)>, n: nat, i: nat)
    requires IsRun(states, steps) && n <= |steps| && i in states[n].txs && states[n].txs[i].phase == Finished
    ensures CountsFrom(Recounted(states, steps, n, i), states[n].txs[i])
  {
    if n > 0 {
      RunKeepsInv(states, steps, n - 1);
      if steps[n - 1] == (i, Recount) {
        RecountStores(states[n - 1], i, states[n]);
      } else {
        StepKeepsRecounts(states[n - 1], steps[n - 1].0, steps[n - 1].1, states[n], i);
        RecountsAreKept(states, steps, n - 1, i);
      }
    }
  }

  lemma NextIsExactIff(states: seq<System>, steps: seq<(nat, Action)>, n: nat)
    requires IsRun(states, steps) && n < |steps| && ExactForks(states[n])
    ensures ExactForks(states[n + 1]) <==> Harmless(states, steps, n)
  {
    var s, i := states[n], steps[n].0;
    if steps[n].1 == Commit {
      assert Next(s, i, Commit, states[n + 1]);
      RunKeepsInv(states, steps, n);
      var recounted := Recounted(states, steps, n, i);
      if s.txs[i].phase == Finished {
        RecountsAreKept(states, steps, n, i);
      }
      CommitIsExactIff(s, s.txs[i], recounted);
    }
  }

  // In every run: after every commit each live repository's fork count equals
  // the number of its live forks, if and only if no commit publishes a lineage
  // recount whose counts the commits since have changed.
  lemma {:induction false} ForkCountsExactIff(states: seq<System>, steps: seq<(nat, Action)>, n: nat)
    requires IsRun(states, steps) && n <= |steps|
    ensures (forall m | 0 <= m <= n :: ExactForks(states[m])) <==> (forall m | 0 <= m < n :: Harmless(states, steps, m))
  {
    if n > 0 {
      ForkCountsExactIff(states, steps, n - 1);
      if ExactForks(states[n - 1]) {
        NextIsExactIff(states, steps, n - 1);
      }
    }
  }

  // --- Quiet runs --------------------------------------------------------------------------

  // No transaction that writes a row commits between the lineage recount of
  // another one and its commit.
  ghost predicate Quiet(s: System, i: nat, a: Action) {
    a.Commit? && i in s.txs && s.txs[i].row.Some? ==> forall j | j in s.txs && j != i :: s.txs[j].phase != Finished
  }

  ghost predicate IsQuiet(states: seq<System>, steps: seq<(nat, Action)>)
    requires |states| == |steps| + 1
  {
    forall n | 0 <= n < |steps| :: Quiet(states[n], steps[n].0, steps[n].1)
  }

  lemma {:induction false} QuietRecountsHold(states: seq<System>, steps: seq<(nat, Action)>, n: nat, i: nat)
    requires IsRun(states, steps) && IsQuiet(states, steps) && n <= |steps| && i in states[n].txs && states[n].txs[i].phase == Finished
    ensures Recounted(states, steps, n, i) == Visible(states[n].rows, states[n].txs[i])
  {
    if n > 0 && steps[n - 1] != (i, Recount) {
      RunKeepsInv(states, steps, n - 1);
      assert Quiet(states[n - 1], steps[n - 1].0, steps[n - 1].1);
      StepKeepsRecounts(states[n - 1], steps[n - 1].0, steps[n - 1].1, states[n], i);
      QuietRecountsHold(states, steps, n - 1, i);
    }
  }

  // In every run in which no commit overtakes a lineage recount, fork counts
  // stay exact.
  lemma ForkCountsStayExact(states: seq<System>, steps: seq<(nat, Action)>, n: nat)
    requires IsRun(states, steps) && IsQuiet(states, steps) && n <= |steps|
    ensures ExactForks(states[n]) && Inv(states[n])
  {
    forall m | 0 <= m < n ensures Harmless(states, steps, m) {
      var i := steps[m].0;
      assert Next(states[m], i, steps[m].1, states[m + 1]);
      if steps[m].1 == Commit && states[m].txs[i].phase == Finished {
        QuietRecountsHold(states, steps, m, i);
      }
    }
    ForkCountsExactIff(states, steps, n);
    RunKeepsInv(states, steps, n);
  }

  // In every run, quiet or not, some unfinished transaction can advance.
  lemma {:induction false} RunsNeverDeadlock(states: seq<System>, steps: seq<(nat, Action)>, n: nat)
    requires IsRun(states, steps) && n <= |steps|
    ensures LockInv(states[n])
    ensures states[n].txs != map[] ==> exists i :: i in states[n].txs && CanAdvance(states[n], i)
  {
    if n > 0 {
      RunsNeverDeadlock(states, steps, n - 1);
      LockInvNext(states[n - 1], steps[n - 1].0, steps[n - 1].1, states[n]);
    }
    if states[n].txs != map[] {
      NoDeadlock(states[n]);
    }
  }
}
