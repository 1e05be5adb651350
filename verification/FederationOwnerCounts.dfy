// The repository counts of owners, with transactions interleaved. No lock
// protects them.
//
// A transaction on a repository or a profile writes its row and recounts its
// owner, seeing the committed rows and its own write; what it wrote and counted
// becomes visible at its commit. From its write on nobody else writes its row.
module FederationOwnerCounts {
  import opened Options
  import opened FederationTables
  import opened FederationCounts

  type Repositories = map<Uri, Row<RepositoryValue>>
  type Profiles = map<string, Row<()>>

  // A recount that finds no profile row stores nothing.
  datatype Tx = Begun(event: Event) | Counted(event: Event, count: Option<nat>)

  datatype System = System(rows: Repositories, profiles: Profiles, owned: map<string, nat>, txs: map<nat, Tx>)

  const START := System(map[], map[], map[], map[])

  datatype Action = Begin(event: Event) | Recount | Commit | Rollback

  function RowsWith(rows: Repositories, e: Event): Repositories { RepositoriesAfter(EMPTY.(repositories := rows), e) }
  function ProfilesWith(profiles: Profiles, e: Event): Profiles { ProfilesAfter(EMPTY.(profiles := profiles), e) }

  predicate SameRow(a: Event, b: Event) {
    a.uri.collection == b.uri.collection && (a.uri == b.uri || (a.uri.collection == ProfileCollection && a.uri.did == b.uri.did))
  }

  // No other transaction has written the row.
  ghost predicate RowIsFree(s: System, i: nat, e: Event) {
    forall j | j in s.txs && j != i && s.txs[j].Counted? :: !SameRow(s.txs[j].event, e)
  }

  function CountedBy(s: System, e: Event): Option<nat> {
    if e.uri.did in ProfilesWith(s.profiles, e) then Some(|OwnedBy(RowsWith(s.rows, e), e.uri.did)|) else None
  }

  predicate CanCommit(tx: Tx) { tx.Counted? || TouchedOwned(tx.event) == {} }

  function Stored(owned: map<string, nat>, tx: Tx): map<string, nat> {
    if tx.Counted? && tx.count.Some? then owned[tx.event.uri.did := tx.count.value] else owned
  }

  ghost predicate Next(s: System, i: nat, a: Action, s': System) {
    match a
    case Begin(e) => i !in s.txs && Valid(e) && s' == s.(txs := s.txs[i := Begun(e)])
    case Recount =>
      && i in s.txs && s.txs[i].Begun? && TouchedOwned(s.txs[i].event) != {} && RowIsFree(s, i, s.txs[i].event)
      && s' == s.(txs := s.txs[i := Counted(s.txs[i].event, CountedBy(s, s.txs[i].event))])
    case Commit =>
      && i in s.txs && CanCommit(s.txs[i]) && RowIsFree(s, i, s.txs[i].event)
      && s' == System(RowsWith(s.rows, s.txs[i].event), ProfilesWith(s.profiles, s.txs[i].event),
                      Stored(s.owned, s.txs[i]), s.txs - {i})
    case Rollback =>
      i in s.txs && s' == s.(txs := s.txs - {i})
  }

  ghost predicate IsRun(states: seq<System>, steps: seq<(nat, Action)>) {
    && |states| == |steps| + 1 && states[0] == START
    && forall n | 0 <= n < |steps| :: Next(states[n], steps[n].0, steps[n].1, states[n + 1])
  }

  ghost predicate ExactOwned(s: System) {
    forall did | Live(s.profiles, did) :: Count(s.owned, did) == |OwnedBy(s.rows, did)|
  }

  // --- When counts are exact -----------------------------------------------------------

  // The repository rows that transaction `i` saw when it last recounted.
  ghost function Recounted(states: seq<System>, steps: seq<(nat, Action)>, n: nat, i: nat): Repositories
    requires |states| == |steps| + 1 && n <= |steps|
  {
    if n == 0 then map[]
    else if steps[n - 1] == (i, Recount) && i in states[n - 1].txs then RowsWith(states[n - 1].rows, states[n - 1].txs[i].event)
    else Recounted(states, steps, n - 1, i)
  }

  // After the commit the owner has as many repositories as the recount saw; or
  // as many as before, if the recount found no profile to store its count in.
  ghost predicate HarmlessCommit(s: System, tx: Tx, recounted: Repositories) {
    var did, rows' := tx.event.uri.did, RowsWith(s.rows, tx.event);
    tx.Counted? && Live(ProfilesWith(s.profiles, tx.event), did) ==>
      |OwnedBy(rows', did)| == |OwnedBy(if tx.count.Some? then recounted else s.rows, did)|
  }

  ghost predicate HarmlessOwned(states: seq<System>, steps: seq<(nat, Action)>, n: nat)
    requires |states| == |steps| + 1 && n < |steps|
  {
    var s, i := states[n], steps[n].0;
    steps[n].1 == Commit && i in s.txs ==> HarmlessCommit(s, s.txs[i], Recounted(states, steps, n, i))
  }

  // What is known of each transaction.
  ghost predicate Inv(s: System) {
    forall i | i in s.txs ::
      && Valid(s.txs[i].event)
      && (s.txs[i].Counted? ==> TouchedOwned(s.txs[i].event) != {})
      && (s.txs[i].Counted? && s.txs[i].count.None? ==> !IsPut(s.txs[i].event, ProfileCollection))
  }

  lemma {:induction false} RunKeepsInv(states: seq<System>, steps: seq<(nat, Action)>, n: nat)
    requires IsRun(states, steps) && n <= |steps|
    ensures Inv(states[n])
  {
    if n > 0 {
      RunKeepsInv(states, steps, n - 1);
      assert Next(states[n - 1], steps[n - 1].0, steps[n - 1].1, states[n]);
    }
  }

  lemma StepKeepsCount(s: System, i: nat, a: Action, s': System, j: nat)
    requires Next(s, i, a, s') && j in s'.txs && s'.txs[j].Counted? && (i, a) != (j, Recount)
    ensures j in s.txs && s.txs[j] == s'.txs[j]
  {
  }

  lemma {:induction false} CountsAreKept(states: seq<System>, steps: seq<(nat, Action)>, n: nat, i: nat)
    requires IsRun(states, steps) && n <= |steps| && i in states[n].txs && states[n].txs[i].Counted?
    ensures
      var tx := states[n].txs[i];
      tx.count.Some? ==> tx.count.value == |OwnedBy(Recounted(states, steps, n, i), tx.event.uri.did)|
  {
    if n > 0 {
      assert Next(states[n - 1], steps[n - 1].0, steps[n - 1].1, states[n]);
      if steps[n - 1] != (i, Recount) {
        StepKeepsCount(states[n - 1], steps[n - 1].0, steps[n - 1].1, states[n], i);
        CountsAreKept(states, steps, n - 1, i);
      }
    }
  }

  // An event changes no other owner's repositories, and none of its own owner
  // if it recounts nobody.
  lemma OthersKeepTheirs(rows: Repositories, e: Event, did: string)
    requires Valid(e) && (did != e.uri.did || TouchedOwned(e) == {})
    ensures OwnedBy(RowsWith(rows, e), did) == OwnedBy(rows, did)
  {
  }

  lemma OthersKeepProfiles(profiles: Profiles, e: Event, did: string)
    requires Valid(e) && Live(ProfilesWith(profiles, e), did) && !(IsPut(e, ProfileCollection) && did == e.uri.did)
    ensures Live(profiles, did)
  {
  }

  lemma CommitIsExactIff(s: System, tx: Tx, recounted: Repositories, txs: map<nat, Tx>)
    requires ExactOwned(s) && CanCommit(tx) && Valid(tx.event)
    requires tx.Counted? && tx.count.Some? ==> tx.count.value == |OwnedBy(recounted, tx.event.uri.did)|
    requires tx.Counted? ==> TouchedOwned(tx.event) != {} && (tx.count.None? ==> !IsPut(tx.event, ProfileCollection))
    ensures
      ExactOwned(System(RowsWith(s.rows, tx.event), ProfilesWith(s.profiles, tx.event), Stored(s.owned, tx), txs)) <==>
      HarmlessCommit(s, tx, recounted)
  {
    var rows', profiles', own := RowsWith(s.rows, tx.event), ProfilesWith(s.profiles, tx.event), tx.event.uri.did;
    forall did | Live(profiles', did)
      ensures Count(Stored(s.owned, tx), did) == |OwnedBy(rows', did)| <==> (did == own ==> HarmlessCommit(s, tx, recounted))
    {
      if did != own || TouchedOwned(tx.event) == {} {
        OthersKeepTheirs(s.rows, tx.event, did);
      }
      if did != own || !IsPut(tx.event, ProfileCollection) {
        OthersKeepProfiles(s.profiles, tx.event, did);
      }
    }
  }

  lemma NextIsExactIff(states: seq<System>, steps: seq<(nat, Action)>, n: nat)
    requires IsRun(states, steps) && n < |steps| && ExactOwned(states[n])
    ensures ExactOwned(states[n + 1]) <==> HarmlessOwned(states, steps, n)
  {
    var s, i := states[n], steps[n].0;
    assert Next(s, i, steps[n].1, states[n + 1]);
    if steps[n].1 == Commit {
      RunKeepsInv(states, steps, n);
      if s.txs[i].Counted? {
        CountsAreKept(states, steps, n, i);
      }
      CommitIsExactIff(s, s.txs[i], Recounted(states, steps, n, i), states[n + 1].txs);
    }
  }

  lemma {:induction false} HarmlessRunIsExact(states: seq<System>, steps: seq<(nat, Action)>, n: nat)
    requires IsRun(states, steps) && n <= |steps| && forall m | 0 <= m < n :: HarmlessOwned(states, steps, m)
    ensures ExactOwned(states[n])
  {
    if n > 0 {
      HarmlessRunIsExact(states, steps, n - 1);
      NextIsExactIff(states, steps, n - 1);
    }
  }

  lemma ExactStepIsHarmless(states: seq<System>, steps: seq<(nat, Action)>, n: nat)
    requires IsRun(states, steps) && n < |steps| && ExactOwned(states[n]) && ExactOwned(states[n + 1])
    ensures HarmlessOwned(states, steps, n)
  {
    NextIsExactIff(states, steps, n);
  }

  // In every run: each live profile's count equals the number of its owner's
  // live repositories after every commit, if and only if every commit leaves the
  // owner with as many as its recount saw, or as before if that stored nothing.
  lemma OwnedCountsExactIff(states: seq<System>, steps: seq<(nat, Action)>, n: nat)
    requires IsRun(states, steps) && n <= |steps|
    ensures (forall m | 0 <= m <= n :: ExactOwned(states[m])) <==> (forall m | 0 <= m < n :: HarmlessOwned(states, steps, m))
  {
    if forall m | 0 <= m < n :: HarmlessOwned(states, steps, m) {
      forall m | 0 <= m <= n ensures ExactOwned(states[m]) {
        HarmlessRunIsExact(states, steps, m);
      }
    }
    if forall m | 0 <= m <= n :: ExactOwned(states[m]) {
      forall m | 0 <= m < n ensures HarmlessOwned(states, steps, m) {
        ExactStepIsHarmless(states, steps, m);
      }
    }
  }

  // --- Quiet runs --------------------------------------------------------------------------

  // No commit for an owner comes between the recount of another transaction for
  // that owner and its commit.
  ghost predicate Quiet(s: System, i: nat, a: Action) {
    a == Commit && i in s.txs ==>
      forall j | j in s.txs && j != i && s.txs[j].Counted? :: s.txs[j].event.uri.did != s.txs[i].event.uri.did
  }

  ghost predicate IsQuiet(states: seq<System>, steps: seq<(nat, Action)>)
    requires |states| == |steps| + 1
  {
    forall n | 0 <= n < |steps| :: Quiet(states[n], steps[n].0, steps[n].1)
  }

  // What a recount saw is still there.
  ghost predicate StillThere(s: System, tx: Tx, recounted: Repositories) {
    && OwnedBy(RowsWith(s.rows, tx.event), tx.event.uri.did) == OwnedBy(recounted, tx.event.uri.did)
    && (tx.Counted? && tx.count.None? ==> tx.event.uri.did !in s.profiles)
  }

  // A commit for another owner keeps it there.
  lemma OtherOwnersCommit(s: System, e: Event, tx: Tx, recounted: Repositories)
    requires Valid(e) && Valid(tx.event) && e.uri.did != tx.event.uri.did && StillThere(s, tx, recounted)
    ensures StillThere(s.(rows := RowsWith(s.rows, e), profiles := ProfilesWith(s.profiles, e)), tx, recounted)
  {
    var did := tx.event.uri.did;
    assert OwnedBy(RowsWith(RowsWith(s.rows, e), tx.event), did) == OwnedBy(RowsWith(s.rows, tx.event), did);
  }

  lemma {:induction false} QuietRecountsHold(states: seq<System>, steps: seq<(nat, Action)>, n: nat, i: nat)
    requires IsRun(states, steps) && IsQuiet(states, steps) && n <= |steps| && i in states[n].txs && states[n].txs[i].Counted?
    ensures StillThere(states[n], states[n].txs[i], Recounted(states, steps, n, i))
  {
    if n > 0 {
      var s, j, a := states[n - 1], steps[n - 1].0, steps[n - 1].1;
      assert Next(s, j, a, states[n]);
      RunKeepsInv(states, steps, n - 1);
      if (j, a) != (i, Recount) {
        StepKeepsCount(s, j, a, states[n], i);
        QuietRecountsHold(states, steps, n - 1, i);
        if a == Commit {
          assert Quiet(s, j, a);
          OtherOwnersCommit(s, s.txs[j].event, s.txs[i], Recounted(states, steps, n, i));
        }
      }
    }
  }

  // In every run in which no such commit comes in between, the counts stay exact.
  lemma OwnedCountsStayExact(states: seq<System>, steps: seq<(nat, Action)>, n: nat)
    requires IsRun(states, steps) && IsQuiet(states, steps) && n <= |steps|
    ensures ExactOwned(states[n])
  {
    forall m | 0 <= m < n ensures HarmlessOwned(states, steps, m) {
      var i := steps[m].0;
      assert Next(states[m], i, steps[m].1, states[m + 1]);
      if steps[m].1 == Commit && states[m].txs[i].Counted? {
        RunKeepsInv(states, steps, m);
        QuietRecountsHold(states, steps, m, i);
        if states[m].txs[i].count.None? {
          assert !Live(ProfilesWith(states[m].profiles, states[m].txs[i].event), states[m].txs[i].event.uri.did);
        }
      }
    }
    OwnedCountsExactIff(states, steps, n);
  }

  // --- Two repositories created at once ----------------------------------------------------

  ghost predicate Reachable(s: System) {
    exists states, steps :: IsRun(states, steps) && states[|steps|] == s
  }

  lemma Extend(s: System, i: nat, a: Action, s': System)
    requires Reachable(s) && Next(s, i, a, s')
    ensures Reachable(s')
  {
    var states, steps :| IsRun(states, steps) && states[|steps|] == s;
    var states', steps' := states + [s'], steps + [(i, a)];
    assert IsRun(states', steps') && states'[|steps'|] == s';
  }

  const OWNER := "did:alice"
  const JOINING := Event(1, Uri(OWNER, ProfileCollection, "self"), Put("", Profile))
  const FIRST := Event(2, Uri(OWNER, RepositoryCollection, "first"), Put("", Repository(None)))
  const SECOND := Event(3, Uri(OWNER, RepositoryCollection, "second"), Put("", Repository(None)))

  // A transaction begins, writes and recounts.
  lemma WriteAndRecount(s: System, i: nat, e: Event) returns (s': System)
    requires Reachable(s) && i !in s.txs && Valid(e) && TouchedOwned(e) != {} && RowIsFree(s, i, e)
    ensures Reachable(s') && s' == s.(txs := s.txs[i := Counted(e, CountedBy(s, e))])
  {
    var begun := s.(txs := s.txs[i := Begun(e)]);
    Extend(s, i, Begin(e), begun);
    s' := s.(txs := s.txs[i := Counted(e, CountedBy(s, e))]);
    assert s' == begun.(txs := begun.txs[i := Counted(e, CountedBy(s, e))]);
    Extend(begun, i, Recount, s');
  }

  lemma CommitNow(s: System, i: nat) returns (s': System)
    requires Reachable(s) && i in s.txs && s.txs[i].Counted? && RowIsFree(s, i, s.txs[i].event)
    ensures Reachable(s') && s'.txs == s.txs - {i} && s'.owned == Stored(s.owned, s.txs[i])
    ensures s'.rows == RowsWith(s.rows, s.txs[i].event) && s'.profiles == ProfilesWith(s.profiles, s.txs[i].event)
  {
    s' := System(RowsWith(s.rows, s.txs[i].event), ProfilesWith(s.profiles, s.txs[i].event), Stored(s.owned, s.txs[i]), s.txs - {i});
    Extend(s, i, Commit, s');
  }

  lemma Join() returns (s: System)
    ensures Reachable(s) && s == System(map[], map[OWNER := Row((), true, 1)], map[OWNER := 0], map[])
  {
    var states, steps: seq<(nat, Action)> := [START], [];
    assert IsRun(states, steps) && states[|steps|] == START;
    s := WriteAndRecount(START, 0, JOINING);
    assert OwnedBy(RowsWith(map[], JOINING), OWNER) == {};
    s := CommitNow(s, 0);
    assert s.txs == map[];
  }

  lemma CountsOfTwo()
    ensures
      var first := RowsWith(map[], FIRST);
      && |OwnedBy(first, OWNER)| == 1 && |OwnedBy(RowsWith(map[], SECOND), OWNER)| == 1
      && |OwnedBy(RowsWith(first, SECOND), OWNER)| == 2
  {
    var first := RowsWith(map[], FIRST);
    assert OwnedBy(first, OWNER) == {FIRST.uri};
    assert OwnedBy(RowsWith(map[], SECOND), OWNER) == {SECOND.uri};
    assert OwnedBy(RowsWith(first, SECOND), OWNER) == {FIRST.uri, SECOND.uri};
  }

  // Both are recounted before either is committed: the owner has two
  // repositories and a count of one.
  lemma OwnerRecountIsLost() returns (s: System)
    ensures Reachable(s) && s.txs == map[] && Live(s.profiles, OWNER)
    ensures |OwnedBy(s.rows, OWNER)| == 2 && Count(s.owned, OWNER) == 1 && !ExactOwned(s)
  {
    CountsOfTwo();
    s := Join();
    s := WriteAndRecount(s, 1, FIRST);
    s := WriteAndRecount(s, 2, SECOND);
    s := CommitNow(s, 1);
    s := CommitNow(s, 2);
    assert s.txs == map[];
  }
}
