// The worker that purges deleted repositories once their retention is over,
// page by page in the order of (purge_after, id).
module PurgeWorker {
  import opened Options

  datatype Key = Key(purgeAfter: int, id: int)

  predicate Before(a: Key, b: Key) { a.purgeAfter < b.purgeAfter || (a.purgeAfter == b.purgeAfter && a.id < b.id) }

  datatype Deletion = Deletion(repository: int, restored: bool, purged: bool)

  type Table = map<Key, Deletion>

  predicate IsDue(table: Table, now: int, k: Key) {
    k in table && !table[k].restored && !table[k].purged && k.purgeAfter <= now
  }

  predicate Past(after: Option<Key>, k: Key) { after.Some? ==> Before(after.value, k) }

  ghost predicate Increasing(keys: seq<Key>) { forall i, j | 0 <= i < j < |keys| :: Before(keys[i], keys[j]) }

  // The first due deletions past the cursor, in order.
  ghost predicate IsPage(table: Table, now: int, after: Option<Key>, limit: nat, page: seq<Key>) {
    && |page| <= limit && Increasing(page)
    && (forall k | k in page :: IsDue(table, now, k) && Past(after, k))
    && (forall k | IsDue(table, now, k) && Past(after, k) && k !in page :: |page| == limit && forall p | p in page :: Before(p, k))
  }

  method FindLeast(keys: set<Key>) returns (least: Key)
    requires keys != {}
    ensures least in keys && forall k | k in keys && k != least :: Before(least, k)
  {
    least :| least in keys;
    var rest := keys - {least};
    while rest != {}
      invariant least in keys && rest <= keys
      invariant forall k | k in keys && k !in rest && k != least :: Before(least, k)
      decreases |rest|
    {
      var k :| k in rest;
      if Before(k, least) {
        least := k;
      }
      rest := rest - {k};
    }
  }

  // SELECT ... ORDER BY purge_after, id LIMIT.
  method ListDueDeletions(table: Table, now: int, after: Option<Key>, limit: nat) returns (page: seq<Key>)
    ensures IsPage(table, now, after, limit, page)
  {
    page := [];
    var rest := set k | k in table && IsDue(table, now, k) && Past(after, k);
    while rest != {} && |page| < limit
      invariant |page| <= limit && Increasing(page)
      invariant forall k | k in page :: IsDue(table, now, k) && Past(after, k)
      invariant forall k :: k in rest <==> IsDue(table, now, k) && Past(after, k) && k !in page
      invariant forall p, k | p in page && k in rest :: Before(p, k)
      decreases |rest|
    {
      var least := FindLeast(rest);
      page := page + [least];
      rest := rest - {least};
    }
  }

  datatype Step = Purged(repository: int) | Marked(key: Key)

  // MarkPurged.
  function Mark(table: Table, k: Key): Table {
    if k in table && !table[k].restored && !table[k].purged then table[k := table[k].(purged := true)] else table
  }

  function MarkAll(table: Table, done: seq<Key>): Table {
    if done == [] then table else Mark(MarkAll(table, done[..|done| - 1]), done[|done| - 1])
  }

  // Each repository is purged, then its deletion is marked.
  function Steps(table: Table, done: seq<Key>): seq<Step>
    requires forall k | k in done :: k in table
  {
    if done == [] then []
    else
      var last := done[|done| - 1];
      Steps(table, done[..|done| - 1]) + [Purged(table[last].repository), Marked(last)]
  }

  lemma {:induction false} StepsAre(table: Table, done: seq<Key>, base: seq<Step>)
    requires forall k | k in done :: k in table
    ensures
      var log := base + Steps(table, done);
      && |log| == |base| + 2 * |done|
      && forall n | 0 <= n < |done| ::
           log[|base| + 2 * n] == Purged(table[done[n]].repository) && log[|base| + 2 * n + 1] == Marked(done[n])
  {
    if done != [] {
      var before, last := done[..|done| - 1], done[|done| - 1];
      StepsAre(table, before, base);
      assert base + Steps(table, done) == (base + Steps(table, before)) + [Purged(table[last].repository), Marked(last)];
    }
  }

  lemma {:induction false} MarkAllIs(table: Table, done: seq<Key>)
    ensures MarkAll(table, done).Keys == table.Keys
    ensures forall k | k in table ::
              MarkAll(table, done)[k] == if k in done && !table[k].restored then table[k].(purged := true) else table[k]
  {
    if done != [] {
      MarkAllIs(table, done[..|done| - 1]);
      assert done == done[..|done| - 1] + [done[|done| - 1]];
    }
  }

  class Worker {
    var table: Table
    var log: seq<Step>

    constructor (table: Table)
      ensures this.table == table && log == []
    {
      this.table, log := table, [];
    }

    // Purges one page, in order; a repository whose data cannot be removed ends
    // the pass.
    method PurgePage(page: seq<Key>, broken: set<int>) returns (count: nat)
      requires forall k | k in page :: k in table
      modifies this
      ensures count <= |page| && (count < |page| ==> table == MarkAll(old(table), page[..count]) && old(table)[page[count]].repository in broken)
      ensures forall k | k in page[..count] :: old(table)[k].repository !in broken
      ensures table == MarkAll(old(table), page[..count]) && log == old(log) + Steps(old(table), page[..count])
    {
      count := 0;
      while count < |page|
        invariant 0 <= count <= |page|
        invariant forall k | k in page[..count] :: old(table)[k].repository !in broken
        invariant table == MarkAll(old(table), page[..count]) && log == old(log) + Steps(old(table), page[..count])
      {
        var k := page[count];
        MarkAllIs(old(table), page[..count]);
        if table[k].repository in broken {
          return;
        }
        assert page[..count + 1][..count] == page[..count];
        assert page[..count + 1] == page[..count] + [k];
        log := log + [Purged(table[k].repository)];
        table := Mark(table, k);
        log := log + [Marked(k)];
        count := count + 1;
      }
    }

    // The next page of a pass that began with the table `first`.
    method PurgeNext(now: int, after: Option<Key>, broken: set<int>, ghost first: Table, ghost start: int, ghost done: seq<Key>,
                     ghost base: seq<Step>)
      returns (page: seq<Key>, count: nat)
      requires PassInv(first, start, done, after) && start <= now && table == MarkAll(first, done) && log == base + Steps(first, done)
      modifies this
      ensures IsPage(MarkAll(first, done), now, after, 100, page) && count <= |page|
      ensures Increasing(done + page[..count]) && AllOpen(first, done + page[..count])
      ensures table == MarkAll(first, done + page[..count])
      ensures log == base + Steps(first, done + page[..count])
      ensures count < |page| ==> page[count] in first && first[page[count]].repository in broken && page[count] !in done + page[..count]
    {
      page := ListDueDeletions(table, now, after, 100);
      PassAdvances(first, start, now, done, after, page);
      MarkAllIs(first, done);
      count := PurgePage(page, broken);
      StepsConcat(first, done, page[..count]);
      if count < |page| {
        BrokenIsNotDone(done, page, count);
      } else {
        assert page[..count] == page;
      }
    }

    // The same within a pass that has purged full pages so far.
    method PurgeOnePage(clock: nat -> int, pages: nat, after: Option<Key>, broken: set<int>, ghost first: Table, ghost done: seq<Key>,
                        ghost base: seq<Step>)
      returns (page: seq<Key>, count: nat)
      requires clock(0) <= clock(pages) && PassInv(first, clock(0), done, after) && |done| == 100 * pages && WereDue(clock, done)
      requires table == MarkAll(first, done) && log == base + Steps(first, done)
      modifies this
      ensures count <= |page| <= 100 && Increasing(done + page[..count]) && AllOpen(first, done + page[..count])
      ensures WereDue(clock, done + page[..count])
      ensures table == MarkAll(first, done + page[..count]) && log == base + Steps(first, done + page[..count])
      ensures count < |page| ==> exists k | k in first :: first[k].repository in broken && k !in done + page[..count]
      ensures count == |page| < 100 ==> forall k | IsDue(first, clock(0), k) :: k in done + page[..count]
      ensures count == |page| == 100 ==> PassInv(first, clock(0), done + page[..count], Some(page[99]))
    {
      page, count := PurgeNext(clock(pages), after, broken, first, clock(0), done, base);
      PassAdvances(first, clock(0), clock(pages), done, after, page);
      DueWhenListed(clock, done, pages, page, count);
      if count == |page| {
        assert page[..count] == page;
      }
    }

    // One pass. The clock is read again for every page.
    method Purge(clock: nat -> int, broken: set<int>) returns (ok: bool, ghost done: seq<Key>)
      requires forall m: nat, n: nat | m <= n :: clock(m) <= clock(n)
      modifies this
      ensures Increasing(done) && AllOpen(old(table), done)
      ensures table == MarkAll(old(table), done) && log == old(log) + Steps(old(table), done)
      ensures forall i, j | 0 <= i < j < |done| ::
                done[i].purgeAfter < done[j].purgeAfter || (done[i].purgeAfter == done[j].purgeAfter && done[i].id < done[j].id)
      ensures table.Keys == old(table).Keys
      ensures forall k | k in table :: table[k] == if k in done then old(table)[k].(purged := true) else old(table)[k]
      ensures |log| == |old(log)| + 2 * |done|
      ensures forall n | 0 <= n < |done| ::
                && log[|old(log)| + 2 * n] == Purged(old(table)[done[n]].repository)
                && log[|old(log)| + 2 * n + 1] == Marked(done[n])
      ensures WereDue(clock, done)
      ensures
        var open := (k: Key) => k in old(table) && !old(table)[k].restored && !old(table)[k].purged;
        && (ok ==> forall k | open(k) && k.purgeAfter <= clock(0) :: k in done)
        && (ok && (forall n :: clock(n) == clock(0)) ==> forall k :: k in done <==> open(k) && k.purgeAfter <= clock(0))
      ensures !ok ==> exists k | k in old(table) :: old(table)[k].repository in broken && k !in done
    {
      var after: Option<Key> := None;
      var pages: nat := 0;
      done := [];
      while true
        invariant clock(0) <= clock(pages) && PassInv(old(table), clock(0), done, after)
        invariant |done| == 100 * pages && WereDue(clock, done)
        invariant table == MarkAll(old(table), done) && log == old(log) + Steps(old(table), done)
        decreases |old(table).Keys| - |done|
      {
        var page, count := PurgeOnePage(clock, pages, after, broken, old(table), done, old(log));
        done := done + page[..count];
        MarkAllIs(old(table), done);
        StepsAre(old(table), done, old(log));
        if count < |page| {
          return false, done;
        }
        if |page| < 100 {
          StillClockPurgesDue(old(table), clock, done);
          return true, done;
        }
        IncreasingIsDistinct(done, old(table).Keys);
        after := Some(page[99]);
        pages := pages + 1;
      }
    }
  }

  // Deletions that were neither purged nor restored.
  ghost predicate AllOpen(table: Table, keys: seq<Key>) {
    forall k | k in keys :: k in table && !table[k].purged && !table[k].restored
  }

  // A pass that has come as far as `after` has done all that was due at its
  // start up to there.
  ghost predicate PassInv(table: Table, start: int, done: seq<Key>, after: Option<Key>) {
    && Increasing(done) && AllOpen(table, done)
    && (after.Some? ==> forall k | k in done :: k == after.value || Before(k, after.value))
    && (after.None? ==> done == [])
    && (forall k | IsDue(table, start, k) && !Past(after, k) :: k in done)
  }

  lemma PassAdvances(table: Table, start: int, now: int, done: seq<Key>, after: Option<Key>, page: seq<Key>)
    requires PassInv(table, start, done, after) && start <= now && IsPage(MarkAll(table, done), now, after, 100, page)
    ensures Increasing(done + page) && AllOpen(table, done + page)
    ensures |page| < 100 ==> forall k | IsDue(table, start, k) :: k in done + page
    ensures |page| == 100 ==> PassInv(table, start, done + page, Some(page[99]))
  {
    PageIsNew(table, done, now, after, page);
    PageExtends(done, after, page);
    forall k | IsDue(table, start, k) && k !in done + page ensures |page| == 100 && Before(page[99], k) {
      assert IsDue(table, now, k) && Past(after, k);
    }
    if |page| == 100 {
      var all := done + page;
      forall k | k in all ensures k == page[99] || Before(k, page[99]) {
        var n :| 0 <= n < |all| && all[n] == k;
        assert all[|all| - 1] == page[99];
      }
    }
  }

  // Each deletion was due when its page was listed; full pages hold 100.
  ghost predicate WereDue(clock: nat -> int, done: seq<Key>) {
    forall n | 0 <= n < |done| :: done[n].purgeAfter <= clock(n / 100)
  }

  lemma DueWhenListed(clock: nat -> int, done: seq<Key>, pages: nat, page: seq<Key>, count: nat)
    requires |done| == 100 * pages && WereDue(clock, done)
    requires count <= |page| <= 100 && forall k | k in page :: k.purgeAfter <= clock(pages)
    ensures WereDue(clock, done + page[..count])
  {
    forall n | |done| <= n < |done| + count ensures (done + page[..count])[n].purgeAfter <= clock(n / 100) {
      assert n / 100 == pages;
      assert page[n - |done|] in page;
    }
  }

  // If the clock stands still, a pass that succeeds purges exactly the deletions
  // that were due.
  lemma StillClockPurgesDue(table: Table, clock: nat -> int, done: seq<Key>)
    requires AllOpen(table, done) && WereDue(clock, done) && forall k | IsDue(table, clock(0), k) :: k in done
    ensures (forall n :: clock(n) == clock(0)) ==> forall k :: k in done <==> IsDue(table, clock(0), k)
  {
    if forall n :: clock(n) == clock(0) {
      forall k | k in done ensures IsDue(table, clock(0), k) {
        var n :| 0 <= n < |done| && done[n] == k;
        assert clock(n / 100) == clock(0);
      }
    }
  }

  lemma PageExtends(done: seq<Key>, after: Option<Key>, more: seq<Key>)
    requires Increasing(done) && Increasing(more) && (forall k | k in more :: Past(after, k))
    requires (after.Some? ==> forall k | k in done :: k == after.value || Before(k, after.value)) && (after.None? ==> done == [])
    ensures Increasing(done + more)
  {
    forall i, j | 0 <= i < j < |done + more| ensures Before((done + more)[i], (done + more)[j]) {
      if i < |done| && j >= |done| {
        assert done[i] in done && more[j - |done|] in more;
      }
    }
  }

  lemma BrokenIsNotDone(done: seq<Key>, page: seq<Key>, count: nat)
    requires Increasing(done + page) && count < |page|
    ensures page[count] !in done + page[..count] && Increasing(done + page[..count])
  {
    var all := done + page;
    assert all[|done| + count] == page[count];
    assert done + page[..count] == all[..|done| + count];
    forall k | k in done + page[..count] ensures k != page[count] {
      var n :| 0 <= n < |done| + count && all[n] == k;
      assert Before(all[n], all[|done| + count]);
    }
  }

  lemma {:induction false} StepsConcat(table: Table, done: seq<Key>, more: seq<Key>)
    requires (forall k | k in done :: k in table) && forall k | k in more :: k in table
    ensures MarkAll(table, done).Keys == table.Keys
    ensures MarkAll(MarkAll(table, done), more) == MarkAll(table, done + more)
    ensures Steps(table, done + more) == Steps(table, done) + Steps(MarkAll(table, done), more)
  {
    MarkAllIs(table, done);
    if more == [] {
      assert done + more == done;
    } else {
      var last := |more| - 1;
      StepsConcat(table, done, more[..last]);
      assert (done + more)[..|done + more| - 1] == done + more[..last];
    }
  }

  lemma {:induction false} IncreasingIsDistinct(keys: seq<Key>, all: set<Key>)
    requires Increasing(keys) && forall k | k in keys :: k in all
    ensures |keys| <= |all|
  {
    if keys != [] {
      var last := keys[|keys| - 1];
      IncreasingIsDistinct(keys[..|keys| - 1], all - {last});
    }
  }

  // What one page adds.
  lemma PageIsNew(table: Table, done: seq<Key>, now: int, after: Option<Key>, page: seq<Key>)
    requires IsPage(MarkAll(table, done), now, after, 100, page)
    ensures forall k | k in page :: k in table && !table[k].purged && !table[k].restored
    ensures forall k | IsDue(table, now, k) && Past(after, k) && k !in done && k !in page ::
              |page| == 100 && Before(page[99], k)
  {
    MarkAllIs(table, done);
    forall k | IsDue(table, now, k) && Past(after, k) && k !in done && k !in page ensures |page| == 100 && Before(page[99], k) {
      assert IsDue(MarkAll(table, done), now, k);
    }
  }
}
