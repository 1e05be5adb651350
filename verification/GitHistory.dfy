// A bare repository with concurrent merges and fork synchronisations. Objects
// are only ever added, and a branch moves only by compare-and-swap.
module GitHistory {
  import opened Options
  import opened MergeMessage

  type Sha = string

  datatype Commit = Commit(parents: seq<Sha>, message: string, tree: string)

  type Objects = map<Sha, Commit>

  // Every parent of a stored commit is stored.
  predicate Closed(objects: Objects) {
    forall c | c in objects :: forall p | p in objects[c].parents :: p in objects
  }

  // --- Reachability ----------------------------------------------------------------

  // Each commit of the path is a parent of the one before it.
  ghost predicate IsPath(objects: Objects, path: seq<Sha>) {
    && path != []
    && (forall c | c in path :: c in objects)
    && (forall n | 0 <= n < |path| - 1 :: path[n + 1] in objects[path[n]].parents)
  }

  ghost predicate Joins(objects: Objects, path: seq<Sha>, tip: Sha, ancestor: Sha) {
    IsPath(objects, path) && path[0] == tip && path[|path| - 1] == ancestor
  }

  ghost predicate Reaches(objects: Objects, tip: Sha, ancestor: Sha) {
    exists path :: Joins(objects, path, tip, ancestor)
  }

  lemma ReachesSelf(objects: Objects, c: Sha)
    requires c in objects
    ensures Reaches(objects, c, c)
  {
    assert Joins(objects, [c], c, c);
  }

  lemma ReachesParent(objects: Objects, c: Sha, p: Sha)
    requires Closed(objects) && c in objects && p in objects[c].parents
    ensures Reaches(objects, c, p)
  {
    assert Joins(objects, [c, p], c, p);
  }

  lemma ReachesOn(objects: Objects, a: Sha, b: Sha, c: Sha)
    requires Reaches(objects, a, b) && Reaches(objects, b, c)
    ensures Reaches(objects, a, c)
  {
    var p :| Joins(objects, p, a, b);
    var q :| Joins(objects, q, b, c);
    var path := p + q[1..];
    assert forall x | x in path :: x in p || x in q;
    forall n | 0 <= n < |path| - 1 ensures path[n + 1] in objects[path[n]].parents {
      if n >= |p| - 1 {
        assert path[n] == q[n - |p| + 1] && path[n + 1] == q[n - |p| + 2];
      }
    }
    assert Joins(objects, path, a, c);
  }

  // Objects are never changed or removed.
  predicate Grows(objects: Objects, objects': Objects) {
    forall c | c in objects :: c in objects' && objects'[c] == objects[c]
  }

  lemma ReachesStays(objects: Objects, objects': Objects, a: Sha, b: Sha)
    requires Reaches(objects, a, b) && Grows(objects, objects')
    ensures Reaches(objects', a, b)
  {
    var p :| Joins(objects, p, a, b);
    assert Joins(objects', p, a, b);
  }

  // --- Calls -----------------------------------------------------------------------

  datatype Call =
    | Merge(branch: string, expected: Sha, head: Sha, strategy: Strategy, message: string)
    | SyncFork(branch: string)

  datatype Failure = RefConflict | MergeConflict | NotFound | Diverged | LostRace

  datatype Progress =
    | Started
    | Resolved                                    // a merge whose target is at the expected commit
    | Built(newTip: Sha)                            // a merge whose commit is written
    | Fetched(after: Sha)                         // a sync that has the upstream branch
    | Read(before: Option<Sha>, after: Sha)       // a sync that has read its own branch
    | Compared(before: Option<Sha>, after: Sha)   // a sync that may fast-forward
    | Unchanged
    | Updated(oldTip: Option<Sha>, newTip: Sha)
    | Failed(failure: Failure)

  predicate IsFinal(p: Progress) { p.Unchanged? || p.Updated? || p.Failed? }

  datatype Repo = Repo(objects: Objects, refs: map<string, Sha>, calls: map<nat, (Call, Progress)>)

  function Tip(refs: map<string, Sha>, branch: string): Option<Sha> { if branch in refs then Some(refs[branch]) else None }

  // git commit-tree leaves out a parent that is given twice.
  function MergeParents(expected: Sha, head: Sha, s: Strategy): seq<Sha> {
    if s == MergeCommit && head != expected then [expected, head] else [expected]
  }

  function Continue(r: Repo, i: nat, p: Progress): Repo
    requires i in r.calls
  {
    r.(calls := r.calls[i := (r.calls[i].0, p)])
  }

  // git update-ref branch new old.
  function Swap(r: Repo, i: nat, branch: string, oldTip: Option<Sha>, newTip: Sha, lost: Failure): Repo
    requires i in r.calls
  {
    if Tip(r.refs, branch) == oldTip
    then Continue(r, i, Updated(oldTip, newTip)).(refs := r.refs[branch := newTip])
    else Continue(r, i, Failed(lost))
  }

  datatype Outcome = Clean(tree: string, sha: Sha) | Conflicting

  ghost predicate Begins(r: Repo, i: nat, call: Call, r': Repo) {
    i !in r.calls && r' == r.(calls := r.calls[i := (call, Started)])
  }

  // The next step of a merge. Whether the trees merge cleanly, and into what,
  // is up to Git.
  ghost predicate MergeStep(r: Repo, i: nat, call: Call, p: Progress, r': Repo)
    requires i in r.calls && call.Merge?
  {
    match p
    case Started =>
      if call.branch !in r.refs || call.head !in r.objects then r' == Continue(r, i, Failed(NotFound))
      else if r.refs[call.branch] != call.expected then r' == Continue(r, i, Failed(RefConflict))
      else r' == Continue(r, i, Resolved)
    case Resolved =>
      r' == Continue(r, i, Failed(MergeConflict)) || exists tree, sha :: Builds(r, i, call, tree, sha, r')
    case Built(sha) => r' == Swap(r, i, call.branch, Some(call.expected), sha, RefConflict)
    case _ => false
  }

  // Writing a commit: its name stands for its content.
  ghost predicate Builds(r: Repo, i: nat, call: Call, tree: string, sha: Sha, r': Repo)
    requires i in r.calls && call.Merge?
  {
    var commit := Commit(MergeParents(call.expected, call.head, call.strategy), call.message, tree);
    && (sha in r.objects ==> r.objects[sha] == commit)
    && r' == Continue(r, i, Built(sha)).(objects := r.objects[sha := commit])
  }

  ghost predicate SyncStep(r: Repo, i: nat, call: Call, p: Progress, r': Repo)
    requires i in r.calls && call.SyncFork?
  {
    match p
    case Started => exists objects, after :: Fetches(r, i, objects, after, r')
    case Fetched(after) => r' == Continue(r, i, Read(Tip(r.refs, call.branch), after))
    case Read(before, after) =>
      r' == Continue(r, i,
                     if before == Some(after) then Unchanged
                     else if before.Some? && !Reaches(r.objects, after, before.value) then Failed(Diverged)
                     else Compared(before, after))
    case Compared(before, after) => r' == Swap(r, i, call.branch, before, after, LostRace)
    case _ => false
  }

  // A fetch brings whole histories.
  ghost predicate Fetches(r: Repo, i: nat, objects: Objects, after: Sha, r': Repo)
    requires i in r.calls
  {
    Grows(r.objects, objects) && Closed(objects) && after in objects
    && r' == Continue(r, i, Fetched(after)).(objects := objects)
  }

  ghost predicate Next(r: Repo, i: nat, r': Repo) {
    || (exists call :: Begins(r, i, call, r'))
    || (i in r.calls && r.calls[i].0.Merge? && MergeStep(r, i, r.calls[i].0, r.calls[i].1, r'))
    || (i in r.calls && r.calls[i].0.SyncFork? && SyncStep(r, i, r.calls[i].0, r.calls[i].1, r'))
  }

  // --- What every step keeps ---------------------------------------------------------

  ghost predicate Sound(objects: Objects, call: Call, p: Progress) {
    match p
    case Resolved => call.Merge? && call.expected in objects && call.head in objects
    case Built(sha) =>
      call.Merge? && sha in objects && objects[sha].parents == MergeParents(call.expected, call.head, call.strategy)
    case Fetched(after) => after in objects
    case Read(_, after) => after in objects
    case Compared(before, after) => after in objects && (before.Some? ==> Reaches(objects, after, before.value))
    case Updated(oldTip, newTip) =>
      && newTip in objects && (oldTip.Some? ==> Reaches(objects, newTip, oldTip.value))
      && (call.Merge? ==> oldTip == Some(call.expected) && objects[newTip].parents == MergeParents(call.expected, call.head, call.strategy))
    case _ => true
  }

  ghost predicate Inv(r: Repo) {
    && Closed(r.objects)
    && (forall b | b in r.refs :: r.refs[b] in r.objects)
    && (forall i | i in r.calls :: Sound(r.objects, r.calls[i].0, r.calls[i].1))
  }

  lemma SoundStays(objects: Objects, objects': Objects, call: Call, p: Progress)
    requires Sound(objects, call, p) && Grows(objects, objects')
    ensures Sound(objects', call, p)
  {
    match p {
      case Compared(before, after) =>
        if before.Some? { ReachesStays(objects, objects', after, before.value); }
      case Updated(oldTip, newTip) =>
        if oldTip.Some? { ReachesStays(objects, objects', newTip, oldTip.value); }
      case _ =>
    }
  }

  // Adding objects keeps all that is known of the other calls.
  lemma InvGrows(r: Repo, i: nat, objects: Objects, p: Progress)
    requires Inv(r) && i in r.calls && Grows(r.objects, objects) && Closed(objects) && Sound(objects, r.calls[i].0, p)
    ensures Inv(Continue(r, i, p).(objects := objects))
  {
    forall j | j in r.calls ensures Sound(objects, r.calls[j].0, r.calls[j].1) {
      SoundStays(r.objects, objects, r.calls[j].0, r.calls[j].1);
    }
  }

  lemma InvMergeStep(r: Repo, i: nat, r': Repo)
    requires Inv(r) && i in r.calls && r.calls[i].0.Merge? && MergeStep(r, i, r.calls[i].0, r.calls[i].1, r')
    ensures Inv(r') && Grows(r.objects, r'.objects)
  {
    var call := r.calls[i].0;
    match r.calls[i].1 {
      case Started =>
      case Resolved =>
        if tree, sha :| Builds(r, i, call, tree, sha, r') {
          InvGrows(r, i, r'.objects, Built(sha));
        }
      case Built(sha) =>
        ReachesParent(r.objects, sha, call.expected);
    }
  }

  lemma InvSyncStep(r: Repo, i: nat, r': Repo)
    requires Inv(r) && i in r.calls && r.calls[i].0.SyncFork? && SyncStep(r, i, r.calls[i].0, r.calls[i].1, r')
    ensures Inv(r') && Grows(r.objects, r'.objects)
  {
    match r.calls[i].1 {
      case Started =>
        var objects, after :| Fetches(r, i, objects, after, r');
        InvGrows(r, i, objects, Fetched(after));
      case _ =>
    }
  }

  lemma InvNext(r: Repo, i: nat, r': Repo)
    requires Inv(r) && Next(r, i, r')
    ensures Inv(r') && Grows(r.objects, r'.objects)
  {
    if i in r.calls && r.calls[i].0.Merge? && MergeStep(r, i, r.calls[i].0, r.calls[i].1, r') {
      InvMergeStep(r, i, r');
    } else if i in r.calls && r.calls[i].0.SyncFork? && SyncStep(r, i, r.calls[i].0, r.calls[i].1, r') {
      InvSyncStep(r, i, r');
    }
  }

  // The refs after a swap that succeeded.
  predicate MovedBy(r: Repo, r': Repo, call: Call, p: Progress) {
    p.Updated? && r'.refs == r.refs[call.branch := p.newTip] && Tip(r.refs, call.branch) == p.oldTip
  }

  lemma RefsMoveBySwap(r: Repo, i: nat, r': Repo)
    requires Next(r, i, r')
    ensures r'.refs == r.refs || (i in r'.calls && MovedBy(r, r', r'.calls[i].0, r'.calls[i].1))
  {
    if i in r.calls && r.calls[i].0.Merge? && MergeStep(r, i, r.calls[i].0, r.calls[i].1, r') {
      MergeMovesBySwap(r, i, r');
    } else if i in r.calls && r.calls[i].0.SyncFork? && SyncStep(r, i, r.calls[i].0, r.calls[i].1, r') {
      SyncMovesBySwap(r, i, r');
    }
  }

  lemma MergeMovesBySwap(r: Repo, i: nat, r': Repo)
    requires i in r.calls && r.calls[i].0.Merge? && MergeStep(r, i, r.calls[i].0, r.calls[i].1, r')
    ensures r'.refs == r.refs || (i in r'.calls && MovedBy(r, r', r'.calls[i].0, r'.calls[i].1))
  {
  }

  lemma SyncMovesBySwap(r: Repo, i: nat, r': Repo)
    requires i in r.calls && r.calls[i].0.SyncFork? && SyncStep(r, i, r.calls[i].0, r.calls[i].1, r')
    ensures r'.refs == r.refs || (i in r'.calls && MovedBy(r, r', r'.calls[i].0, r'.calls[i].1))
  {
  }

  // A step that moves a branch moves it to a descendant, and ends its call with
  // that update.
  lemma StepFastForwards(r: Repo, i: nat, r': Repo, branch: string)
    requires Inv(r) && Inv(r') && Grows(r.objects, r'.objects)
    requires r'.refs == r.refs || (i in r'.calls && MovedBy(r, r', r'.calls[i].0, r'.calls[i].1))
    ensures branch in r.refs ==> branch in r'.refs && Reaches(r'.objects, r'.refs[branch], r.refs[branch])
    ensures r'.refs != r.refs ==> i in r'.calls && r'.calls[i].1.Updated?
  {
    if branch in r.refs {
      ReachesSelf(r'.objects, r.refs[branch]);
    }
    if i in r'.calls {
      assert Sound(r'.objects, r'.calls[i].0, r'.calls[i].1);
    }
  }

  // --- Runs --------------------------------------------------------------------------

  ghost predicate IsRun(states: seq<Repo>, steps: seq<nat>) {
    && |states| == |steps| + 1 && Inv(states[0]) && states[0].calls == map[]
    && forall n | 0 <= n < |steps| :: Next(states[n], steps[n], states[n + 1])
  }

  lemma {:induction false} RunKeepsInv(states: seq<Repo>, steps: seq<nat>, n: nat)
    requires IsRun(states, steps) && n <= |steps|
    ensures Inv(states[n])
  {
    if n > 0 {
      RunKeepsInv(states, steps, n - 1);
      InvNext(states[n - 1], steps[n - 1], states[n]);
    }
  }

  // Whatever was the tip of a branch stays reachable from its tip for ever.
  lemma {:induction false} FormerTipsStayReachable(states: seq<Repo>, steps: seq<nat>, m: nat, n: nat, branch: string)
    requires IsRun(states, steps) && m <= n <= |steps| && branch in states[m].refs
    ensures branch in states[n].refs && Reaches(states[n].objects, states[n].refs[branch], states[m].refs[branch])
  {
    RunKeepsInv(states, steps, m);
    if m == n {
      ReachesSelf(states[m].objects, states[m].refs[branch]);
    } else {
      FormerTipsStayReachable(states, steps, m, n - 1, branch);
      RunKeepsInv(states, steps, n - 1);
      InvNext(states[n - 1], steps[n - 1], states[n]);
      RefsMoveBySwap(states[n - 1], steps[n - 1], states[n]);
      StepFastForwards(states[n - 1], steps[n - 1], states[n], branch);
      ReachesStays(states[n - 1].objects, states[n].objects, states[n - 1].refs[branch], states[m].refs[branch]);
      ReachesOn(states[n].objects, states[n].refs[branch], states[n - 1].refs[branch], states[m].refs[branch]);
    }
  }

  // A finished call takes no further step, and no call changes another's progress.
  lemma StepMovesOneCall(r: Repo, i: nat, r': Repo, j: nat)
    requires Next(r, i, r') && j in r.calls
    ensures j in r'.calls && (j != i ==> r'.calls[j] == r.calls[j])
    ensures j == i ==> !IsFinal(r.calls[j].1)
  {
  }

  // A call that conflicts, diverges or loses its race, or finds nothing to do,
  // has left every branch alone.
  lemma {:induction false} FailedCallsMoveNothing(states: seq<Repo>, steps: seq<nat>, n: nat, i: nat, m: nat)
    requires IsRun(states, steps) && n <= |steps| && i in states[n].calls
    requires states[n].calls[i].1.Failed? || states[n].calls[i].1.Unchanged?
    requires m < n && steps[m] == i
    ensures states[m + 1].refs == states[m].refs
  {
    if states[m + 1].refs != states[m].refs {
      RefsMoveBySwap(states[m], i, states[m + 1]);
      UpdatedStays(states, steps, m + 1, n, i);
      assert false;
    }
  }

  lemma {:induction false} UpdatedStays(states: seq<Repo>, steps: seq<nat>, m: nat, n: nat, i: nat)
    requires IsRun(states, steps) && m <= n <= |steps| && i in states[m].calls && states[m].calls[i].1.Updated?
    ensures i in states[n].calls && states[n].calls[i] == states[m].calls[i]
  {
    if m < n {
      UpdatedStays(states, steps, m, n - 1, i);
      StepMovesOneCall(states[n - 1], steps[n - 1], states[n], i);
    }
  }

  // A merge that reports success has its reported old tip as first parent and,
  // unless that is the head itself, the head as second.
  lemma MergeResultIsHonest(states: seq<Repo>, steps: seq<nat>, n: nat, i: nat)
    requires IsRun(states, steps) && n <= |steps| && i in states[n].calls
    requires states[n].calls[i].0.Merge? && states[n].calls[i].1.Updated?
    ensures
      var call, result := states[n].calls[i].0, states[n].calls[i].1;
      && result.oldTip == Some(call.expected) && result.newTip in states[n].objects
      && |states[n].objects[result.newTip].parents| > 0 && states[n].objects[result.newTip].parents[0] == call.expected
      && (call.strategy == MergeCommit ==> call.head in states[n].objects[result.newTip].parents)
      && (call.strategy == Squash ==> states[n].objects[result.newTip].parents == [call.expected])
  {
    RunKeepsInv(states, steps, n);
  }

  // --- What a call achieves by itself ----------------------------------------------------

  ghost predicate Leads(first: Repo, last: Repo) {
    exists states: seq<Repo>, steps: seq<nat> ::
      && |states| == |steps| + 1 && states[0] == first && states[|steps|] == last
      && forall n | 0 <= n < |steps| :: Next(states[n], steps[n], states[n + 1])
  }

  lemma LeadsNowhere(r: Repo)
    ensures Leads(r, r)
  {
    var states, steps: seq<nat> := [r], [];
    assert states[0] == r && states[|steps|] == r;
  }

  lemma LeadsOn(first: Repo, r: Repo, i: nat, r': Repo)
    requires Leads(first, r) && Next(r, i, r')
    ensures Leads(first, r')
  {
    var states: seq<Repo>, steps: seq<nat> :|
      && |states| == |steps| + 1 && states[0] == first && states[|steps|] == r
      && forall n | 0 <= n < |steps| :: Next(states[n], steps[n], states[n + 1]);
    var states', steps' := states + [r'], steps + [i];
    assert states'[0] == first && states'[|steps'|] == r';
  }

  // A fork that is behind its upstream, or has no such branch yet, is moved to
  // the upstream tip; one that is there already is left alone, and one that has
  // commits of its own is refused.
  function SyncResult(before: Option<Sha>, after: Sha, isAncestor: bool): Progress {
    if before == Some(after) then Unchanged
    else if before.Some? && !isAncestor then Failed(Diverged)
    else Updated(before, after)
  }

  lemma SyncReads(r: Repo, i: nat, branch: string, objects: Objects, after: Sha) returns (r': Repo)
    requires i !in r.calls && Grows(r.objects, objects) && Closed(objects) && after in objects
    ensures Leads(r, r') && r' == r.(objects := objects, calls := r.calls[i := (SyncFork(branch), Read(Tip(r.refs, branch), after))])
  {
    LeadsNowhere(r);
    var r1 := r.(calls := r.calls[i := (SyncFork(branch), Started)]);
    assert Begins(r, i, SyncFork(branch), r1);
    LeadsOn(r, r, i, r1);
    var r2 := Continue(r1, i, Fetched(after)).(objects := objects);
    assert Fetches(r1, i, objects, after, r2);
    LeadsOn(r, r1, i, r2);
    r' := Continue(r2, i, Read(Tip(r.refs, branch), after));
    LeadsOn(r, r2, i, r');
  }

  lemma SyncAlone(r: Repo, i: nat, branch: string, objects: Objects, after: Sha) returns (r': Repo)
    requires i !in r.calls && Grows(r.objects, objects) && Closed(objects) && after in objects
    ensures
      var before := Tip(r.refs, branch);
      var result := SyncResult(before, after, before.Some? && Reaches(objects, after, before.value));
      && Leads(r, r') && i in r'.calls && r'.calls[i] == (SyncFork(branch), result)
      && r'.refs == if result.Updated? then r.refs[branch := after] else r.refs
  {
    var before := Tip(r.refs, branch);
    var r3 := SyncReads(r, i, branch, objects, after);
    if before == Some(after) {
      r' := Continue(r3, i, Unchanged);
      LeadsOn(r, r3, i, r');
    } else if before.Some? && !Reaches(objects, after, before.value) {
      r' := Continue(r3, i, Failed(Diverged));
      LeadsOn(r, r3, i, r');
    } else {
      var r4 := Continue(r3, i, Compared(before, after));
      LeadsOn(r, r3, i, r4);
      r' := Swap(r4, i, branch, before, after, LostRace);
      LeadsOn(r, r4, i, r');
    }
  }

  // A merge into the expected tip that is clean moves the branch to its commit.
  lemma MergeAlone(r: Repo, i: nat, call: Call, tree: string, sha: Sha) returns (r': Repo)
    requires i !in r.calls && call.Merge? && call.branch in r.refs && call.head in r.objects
    requires r.refs[call.branch] == call.expected && sha !in r.objects
    ensures Leads(r, r') && r'.refs == r.refs[call.branch := sha] && i in r'.calls
    ensures r'.calls[i] == (call, Updated(Some(call.expected), sha)) && sha in r'.objects
    ensures
      r'.objects[sha] ==
      Commit(if call.strategy == Squash || call.head == call.expected then [call.expected] else [call.expected, call.head], call.message, tree)
  {
    LeadsNowhere(r);
    var r1 := r.(calls := r.calls[i := (call, Started)]);
    assert Begins(r, i, call, r1);
    LeadsOn(r, r, i, r1);
    var r2 := Continue(r1, i, Resolved);
    LeadsOn(r, r1, i, r2);
    var commit := Commit(MergeParents(call.expected, call.head, call.strategy), call.message, tree);
    var r3 := Continue(r2, i, Built(sha)).(objects := r.objects[sha := commit]);
    assert Builds(r2, i, call, tree, sha, r3);
    LeadsOn(r, r2, i, r3);
    r' := Swap(r3, i, call.branch, Some(call.expected), sha, RefConflict);
    LeadsOn(r, r3, i, r');
  }

  // One into another tip is refused.
  lemma StaleMergeIsRefused(r: Repo, i: nat, r': Repo)
    requires i in r.calls && r.calls[i].0.Merge? && r.calls[i].1 == Started && Next(r, i, r')
    requires r.calls[i].0.branch in r.refs && r.calls[i].0.head in r.objects && r.refs[r.calls[i].0.branch] != r.calls[i].0.expected
    ensures r' == Continue(r, i, Failed(RefConflict))
  {
  }
}
