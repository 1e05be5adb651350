// Check runs: their lifecycle, concurrent updates by version, and replays.
module CheckRuns {
  import opened Options

  datatype Status = Queued | InProgress | Completed

  datatype Conclusion = Success | Failure | Neutral | Cancelled | Skipped | TimedOut | ActionRequired | Unsupported(text: string)

  // Everything an update carries besides its lifecycle.
  datatype Output = Output(url: Option<string>, title: string, summary: string)

  datatype Error = Validation | Conflict | NotFound

  // Times are in nanoseconds.
  datatype Update = Update(
    expectedVersion: int, status: Status, conclusion: Option<Conclusion>, output: Output,
    startedAt: Option<int>, completedAt: Option<int>)

  datatype Run = Run(
    version: int, creator: string, status: Status, conclusion: Option<Conclusion>, output: Output,
    startedAt: Option<int>, completedAt: Option<int>)

  // The database keeps microseconds.
  const UNIT := 1000

  function Stored(t: int): int { t - t % UNIT }

  function StoredTime(t: Option<int>): Option<int> { if t.Some? then Some(Stored(t.value)) else None }

  lemma StoredOrder(a: int, b: int)
    ensures Stored(Stored(a)) == Stored(a) <= a < Stored(a) + 1000 && Stored(a) % 1000 == 0
    ensures a <= b ==> Stored(a) <= Stored(b)
  {
    assert Stored(a) == (a / UNIT) * UNIT;
    if a <= b {
      assert a / UNIT <= b / UNIT;
    }
  }

  function Rank(s: Status): nat {
    match s
    case Queued => 0
    case InProgress => 1
    case Completed => 2
  }

  predicate ValidTransition(from: Status, to: Status) {
    from == to || (from == Queued && (to == InProgress || to == Completed)) || (from == InProgress && to == Completed)
  }

  predicate Supported(c: Conclusion) { !c.Unsupported? }

  // The first of two optional times.
  function OrElse(a: Option<int>, b: Option<int>): Option<int> { if a.Some? then a else b }

  function NormalizeLifecycle(
    status: Status, conclusion: Option<Conclusion>, startedAt: Option<int>, completedAt: Option<int>, prior: Option<int>, now: int)
    : Result<(Option<int>, Option<int>), Error>
  {
    match status
    case Queued =>
      if conclusion.Some? || startedAt.Some? || completedAt.Some? then Err(Validation) else Ok((None, None))
    case InProgress =>
      if conclusion.Some? || completedAt.Some? then Err(Validation)
      else Ok((OrElse(OrElse(startedAt, prior), Some(now)), None))
    case Completed =>
      if conclusion.None? || !Supported(conclusion.value) then Err(Validation)
      else
        var started, completed := OrElse(OrElse(startedAt, prior), Some(now)), OrElse(completedAt, Some(now));
        if completed.value < started.value then Err(Validation) else Ok((started, completed))
  }

  // The shape that a row's lifecycle has.
  predicate Shaped(status: Status, conclusion: Option<Conclusion>, startedAt: Option<int>, completedAt: Option<int>) {
    match status
    case Queued => conclusion.None? && startedAt.None? && completedAt.None?
    case InProgress => conclusion.None? && startedAt.Some? && completedAt.None?
    case Completed =>
      conclusion.Some? && Supported(conclusion.value) && startedAt.Some? && completedAt.Some? && startedAt.value <= completedAt.value
  }

  // Normalisation yields exactly the accepted shapes, and still does once the
  // times are cut to stored precision.
  lemma NormalizedIsShaped(
    status: Status, conclusion: Option<Conclusion>, startedAt: Option<int>, completedAt: Option<int>, prior: Option<int>, now: int)
    requires NormalizeLifecycle(status, conclusion, startedAt, completedAt, prior, now).Ok?
    ensures
      var times := NormalizeLifecycle(status, conclusion, startedAt, completedAt, prior, now).value;
      Shaped(status, conclusion, times.0, times.1) && Shaped(status, conclusion, StoredTime(times.0), StoredTime(times.1))
  {
    var times := NormalizeLifecycle(status, conclusion, startedAt, completedAt, prior, now).value;
    if status == Completed {
      StoredOrder(times.0.value, times.1.value);
    }
  }

  // Explicit times of an accepted shape are taken as they are.
  lemma ShapedIsNormal(
    status: Status, conclusion: Option<Conclusion>, startedAt: Option<int>, completedAt: Option<int>, prior: Option<int>, now: int)
    requires Shaped(status, conclusion, startedAt, completedAt)
    ensures NormalizeLifecycle(status, conclusion, startedAt, completedAt, prior, now) == Ok((startedAt, completedAt))
  {
  }

  predicate ValidOutput(o: Output) { |o.title| <= 255 && |o.summary| <= 65535 }

  function Normalize(current: Run, u: Update, now: int): Result<Update, Error> {
    if u.expectedVersion < 1 || !ValidOutput(u.output) then Err(Validation)
    else if !ValidTransition(current.status, u.status) then Err(Conflict)
    else match NormalizeLifecycle(u.status, u.conclusion, u.startedAt, u.completedAt, current.startedAt, now)
      case Err(error) => Err(error)
      case Ok(times) => Ok(u.(startedAt := times.0, completedAt := times.1))
  }

  predicate Matches(current: Run, u: Update) {
    && current.status == u.status && current.conclusion == u.conclusion && current.output == u.output
    && current.startedAt == u.startedAt && current.completedAt == u.completedAt
  }

  function Applied(current: Run, u: Update): Run {
    Run(current.version + 1, current.creator, u.status, u.conclusion, u.output, StoredTime(u.startedAt), StoredTime(u.completedAt))
  }

  // What an update decides from the row it read.
  datatype Decision = Unchanged | Write(update: Update) | Refused(error: Error)

  function Decide(current: Run, creator: string, u: Update, now: int): Decision {
    if current.creator != creator then Refused(NotFound)
    else match Normalize(current, u, now)
      case Err(error) => Refused(error)
      case Ok(n) =>
        if Matches(current, n) then Unchanged
        else if current.version != n.expectedVersion then Refused(Conflict)
        else Write(n)
  }

  // --- What an update does, in terms of the row and the request ------------------------

  function OrNow(given: Option<int>, now: int): int { if given.Some? then given.value else now }

  // A run starts when the request says, else when it has started already, else now.
  function StartOf(current: Run, u: Update, now: int): int {
    if u.startedAt.Some? then u.startedAt.value else OrNow(current.startedAt, now)
  }

  function StartAfter(current: Run, u: Update, now: int): Option<int> { if u.status == Queued then None else Some(StartOf(current, u, now)) }
  function EndAfter(u: Update, now: int): Option<int> { if u.status == Completed then Some(OrNow(u.completedAt, now)) else None }

  predicate IsAcceptable(current: Run, u: Update, now: int) {
    && (u.conclusion.Some? <==> u.status == Completed) && (u.conclusion.Some? ==> !u.conclusion.value.Unsupported?)
    && (u.startedAt.Some? ==> u.status != Queued) && (u.completedAt.Some? ==> u.status == Completed)
    && (u.status == Completed ==> StartOf(current, u, now) <= OrNow(u.completedAt, now))
  }

  // The row says already what the request asks for.
  predicate SaysAlready(current: Run, u: Update, now: int) {
    && current.status == u.status && current.conclusion == u.conclusion && current.output == u.output
    && current.startedAt == StartAfter(current, u, now) && current.completedAt == EndAfter(u, now)
  }

  // An update of one's own run is accepted if and only if it is well-formed, does
  // not take the run back, and its lifecycle fits; it is then unchanged if the
  // row says so already, and written if it names the row's version.
  lemma UpdateIff(current: Run, creator: string, u: Update, now: int)
    ensures
      var accepted :=
        && u.expectedVersion >= 1 && |u.output.title| <= 255 && |u.output.summary| <= 65535
        && Rank(current.status) <= Rank(u.status) && IsAcceptable(current, u, now);
      var decision := Decide(current, creator, u, now);
      && (decision == Refused(NotFound) <==> current.creator != creator)
      && (decision == Unchanged <==> current.creator == creator && accepted && SaysAlready(current, u, now))
      && (decision.Write? <==>
            current.creator == creator && accepted && !SaysAlready(current, u, now) && u.expectedVersion == current.version)
  {
  }

  // What is written: the next version, with the times that the request gives or
  // implies, in stored precision.
  lemma WrittenRow(current: Run, creator: string, u: Update, now: int)
    requires Decide(current, creator, u, now).Write?
    ensures Applied(current, Decide(current, creator, u, now).update) ==
            Run(current.version + 1, creator, u.status, u.conclusion, u.output,
                StoredTime(StartAfter(current, u, now)), StoredTime(EndAfter(u, now)))
  {
  }

  class Store {
    var row: Run

    constructor (initial: Run)
      ensures row == initial
    {
      row := initial;
    }

    // UPDATE ... WHERE version = expected_version.
    method Swap(n: Update) returns (swapped: bool)
      modifies this
      ensures swapped == (old(row.version) == n.expectedVersion)
      ensures row == if swapped then Applied(old(row), n) else old(row)
    {
      swapped := row.version == n.expectedVersion;
      if swapped {
        row := Applied(row, n);
      }
    }

    // Another update may be applied between the read and the write.
    method UpdateCheckRun(creator: string, u: Update, now: int, meanwhile: Option<Run>) returns (result: Result<bool, Error>)
      modifies this
      ensures
        var seen := if meanwhile.Some? then meanwhile.value else old(row);
        match Decide(old(row), creator, u, now)
        case Unchanged => result == Ok(false) && row == seen
        case Refused(error) => result == Err(error) && row == seen
        case Write(n) =>
          if seen.version == old(row.version) then result == Ok(true) && row == Applied(seen, n)
          else result == Err(Conflict) && row == seen
    {
      var current := row;
      if meanwhile.Some? {
        row := meanwhile.value;
      }
      if current.creator != creator {
        return Err(NotFound);
      }
      var normalized := Normalize(current, u, now);
      if normalized.Err? {
        return Err(normalized.error);
      }
      if Matches(current, normalized.value) {
        return Ok(false);
      }
      if current.version != normalized.value.expectedVersion {
        return Err(Conflict);
      }
      var swapped := Swap(normalized.value);
      result := if swapped then Ok(true) else Err(Conflict);
    }
  }

  // --- Concurrent updates ----------------------------------------------------------

  datatype Updater = Ready(update: Update, creator: string) | Done(result: Result<bool, Error>)

  // All versions of one row, the n-th under index n - 1.
  datatype World = World(versions: seq<Run>, updaters: map<nat, Updater>)

  function AfterRead(current: Run, creator: string, u: Update, now: int): Updater {
    match Decide(current, creator, u, now)
    case Unchanged => Done(Ok(false))
    case Refused(error) => Done(Err(error))
    case Write(n) => Ready(n, creator)
  }

  ghost predicate Next(w: World, i: nat, w': World) {
    w.versions != [] &&
    var current := w.versions[|w.versions| - 1];
    if i !in w.updaters then
      exists creator, u, now :: w' == w.(updaters := w.updaters[i := AfterRead(current, creator, u, now)])
    else match w.updaters[i]
      case Ready(n, _) =>
        if current.version == n.expectedVersion
        then w' == World(w.versions + [Applied(current, n)], w.updaters[i := Done(Ok(true))])
        else w' == w.(updaters := w.updaters[i := Done(Err(Conflict))])
      case Done(_) => false
  }

  predicate ShapedRun(r: Run) { Shaped(r.status, r.conclusion, r.startedAt, r.completedAt) }

  predicate Decides(current: Run, creator: string, u: Update, now: int, n: Update) {
    Decide(current, creator, u, now) == Write(n)
  }

  // Some request of this creator led from the row to this update.
  ghost predicate MadeFrom(current: Run, creator: string, n: Update) {
    exists u, now :: Decides(current, creator, u, now, n)
  }

  // The update was made from the version it expects.
  ghost predicate Prepared(versions: seq<Run>, n: Update, creator: string) {
    1 <= n.expectedVersion <= |versions| && MadeFrom(versions[n.expectedVersion - 1], creator, n)
  }

  ghost predicate Inv(w: World) {
    && w.versions != []
    && (forall v | 0 <= v < |w.versions| :: w.versions[v].version == v + 1 && ShapedRun(w.versions[v]))
    && (forall v | 0 <= v < |w.versions| - 1 ::
          Rank(w.versions[v].status) <= Rank(w.versions[v + 1].status) && w.versions[v].creator == w.versions[v + 1].creator)
    && (forall i | i in w.updaters && w.updaters[i].Ready? :: Prepared(w.versions, w.updaters[i].update, w.updaters[i].creator))
  }

  lemma DecisionFits(current: Run, creator: string, u: Update, now: int, n: Update)
    requires Decide(current, creator, u, now) == Write(n)
    ensures n.expectedVersion == current.version && current.creator == creator
    ensures ShapedRun(Applied(current, n)) && Rank(current.status) <= Rank(n.status)
  {
    NormalizedIsShaped(u.status, u.conclusion, u.startedAt, u.completedAt, current.startedAt, now);
  }

  lemma MadeFromFits(current: Run, creator: string, n: Update)
    requires MadeFrom(current, creator, n)
    ensures n.expectedVersion == current.version && current.creator == creator
    ensures current.version >= 1 && ShapedRun(current) ==> ShapedRun(Applied(current, n)) && Rank(current.status) <= Rank(n.status)
  {
    var u, now :| Decides(current, creator, u, now, n);
    DecisionFits(current, creator, u, now, n);
  }

  lemma ReadIsPrepared(versions: seq<Run>, creator: string, u: Update, now: int)
    requires versions != [] && versions[|versions| - 1].version == |versions|
    ensures
      var updater := AfterRead(versions[|versions| - 1], creator, u, now);
      updater.Ready? ==> Prepared(versions, updater.update, updater.creator)
  {
    var current := versions[|versions| - 1];
    var updater := AfterRead(current, creator, u, now);
    if updater.Ready? {
      DecisionFits(current, creator, u, now, updater.update);
      assert Decides(current, creator, u, now, updater.update);
    }
  }

  lemma PreparedStays(versions: seq<Run>, next: Run, n: Update, creator: string)
    requires Prepared(versions, n, creator)
    ensures Prepared(versions + [next], n, creator)
  {
  }

  lemma InvNext(w: World, i: nat, w': World)
    requires Inv(w) && Next(w, i, w')
    ensures Inv(w')
  {
    if i in w.updaters {
      InvWrite(w, i, w');
    } else {
      var creator, u, now :| w' == w.(updaters := w.updaters[i := AfterRead(w.versions[|w.versions| - 1], creator, u, now)]);
      ReadIsPrepared(w.versions, creator, u, now);
    }
  }

  lemma InvWrite(w: World, i: nat, w': World)
    requires Inv(w) && Next(w, i, w') && i in w.updaters
    ensures Inv(w')
  {
    if w'.versions != w.versions {
      InvAppend(w, i, w');
    } else {
      forall j | j in w'.updaters && w'.updaters[j].Ready?
        ensures Prepared(w'.versions, w'.updaters[j].update, w'.updaters[j].creator)
      {
        assert w'.updaters[j] == w.updaters[j];
      }
    }
  }

  lemma InvAppend(w: World, i: nat, w': World)
    requires Inv(w) && Next(w, i, w') && i in w.updaters && w'.versions != w.versions
    ensures Inv(w')
  {
    var n, creator := w.updaters[i].update, w.updaters[i].creator;
    MadeFromFits(w.versions[n.expectedVersion - 1], creator, n);
    forall j | j in w'.updaters && w'.updaters[j].Ready?
      ensures Prepared(w'.versions, w'.updaters[j].update, w'.updaters[j].creator)
    {
      PreparedStays(w.versions, w'.versions[|w.versions|], w.updaters[j].update, w.updaters[j].creator);
    }
  }

  ghost predicate IsRun(states: seq<World>, steps: seq<nat>) {
    && |states| == |steps| + 1
    && |states[0].versions| == 1 && states[0].versions[0].version == 1 && ShapedRun(states[0].versions[0]) && states[0].updaters == map[]
    && forall n | 0 <= n < |steps| :: Next(states[n], steps[n], states[n + 1])
  }

  // In every run, every stored version has the shape of its status, and no
  // status goes back.
  lemma {:induction false} VersionsAreShaped(states: seq<World>, steps: seq<nat>, n: nat)
    requires IsRun(states, steps) && n <= |steps|
    ensures Inv(states[n])
  {
    if n > 0 {
      VersionsAreShaped(states, steps, n - 1);
      InvNext(states[n - 1], steps[n - 1], states[n]);
    }
  }

  // An applied update was made from the very version that it replaces.
  lemma AppliedUpdateSawLatest(states: seq<World>, steps: seq<nat>, n: nat)
    requires IsRun(states, steps) && n < |steps| && states[n + 1].versions != states[n].versions
    ensures
      var w, i := states[n], steps[n];
      && w.versions != [] && i in w.updaters && w.updaters[i].Ready?
      && MadeFrom(w.versions[|w.versions| - 1], w.updaters[i].creator, w.updaters[i].update)
  {
    VersionsAreShaped(states, steps, n);
    var w, i := states[n], steps[n];
    assert Prepared(w.versions, w.updaters[i].update, w.updaters[i].creator);
    assert w.updaters[i].update.expectedVersion == |w.versions|;
  }

  // An acceptable update of the latest version is written, if nothing comes in
  // between.
  lemma CurrentUpdateIsWritten(w: World, i: nat, creator: string, u: Update, now: int) returns (w1: World, w2: World)
    requires w.versions != [] && i !in w.updaters
    requires
      var current := w.versions[|w.versions| - 1];
      && current.creator == creator && u.expectedVersion == current.version >= 1
      && |u.output.title| <= 255 && |u.output.summary| <= 65535
      && Rank(current.status) <= Rank(u.status) && IsAcceptable(current, u, now) && !SaysAlready(current, u, now)
    ensures Next(w, i, w1) && Next(w1, i, w2) && i in w2.updaters && w2.updaters[i] == Done(Ok(true))
    ensures
      var current := w.versions[|w.versions| - 1];
      w2.versions == w.versions +
        [Run(current.version + 1, creator, u.status, u.conclusion, u.output,
             StoredTime(StartAfter(current, u, now)), StoredTime(EndAfter(u, now)))]
  {
    var current := w.versions[|w.versions| - 1];
    UpdateIff(current, creator, u, now);
    WrittenRow(current, creator, u, now);
    w1 := w.(updaters := w.updaters[i := AfterRead(current, creator, u, now)]);
    w2 := World(w.versions + [Applied(current, w1.updaters[i].update)], w1.updaters[i := Done(Ok(true))]);
  }

  // --- Replays ---------------------------------------------------------------------------

  // The time is absent or survives storage.
  predicate Whole(t: Option<int>) { t.Some? ==> t.value == Stored(t.value) }

  // The same update, sent again after it was applied, is accepted as unchanged
  // exactly when its times are whole microseconds and, for a completed run, its
  // completion time was given (or the clock shows the stored one).
  lemma ReplayIff(before: Run, creator: string, u: Update, now: int, n: Update, later: int)
    requires Decide(before, creator, u, now) == Write(n)
    ensures
      var row := Applied(before, n);
      Decide(row, creator, u, later) == Unchanged <==>
        && Whole(u.startedAt) && Whole(u.completedAt)
        && (u.status == Completed && u.completedAt.None? ==> row.completedAt == Some(later))
  {
    var row := Applied(before, n);
    NormalizedIsShaped(u.status, u.conclusion, u.startedAt, u.completedAt, before.startedAt, now);
    StoredOrder(now, now);
    if before.startedAt.Some? {
      StoredOrder(before.startedAt.value, before.startedAt.value);
    }
  }

  // In any other case it is refused, so the row never changes.
  lemma ReplayNeverWrites(before: Run, creator: string, u: Update, now: int, n: Update, later: int)
    requires Decide(before, creator, u, now) == Write(n)
    ensures !Decide(Applied(before, n), creator, u, later).Write?
  {
  }

  // --- The combined status of a commit -----------------------------------------------------

  datatype State = PendingState | SuccessState | FailureState | ErrorState

  function Priority(s: State): nat {
    match s
    case SuccessState => 0
    case PendingState => 1
    case FailureState => 2
    case ErrorState => 3
  }

  method Combined(states: seq<State>) returns (result: State)
    ensures states == [] ==> result == PendingState
    ensures states != [] ==> result in states && forall s | s in states :: Priority(s) <= Priority(result)
    ensures result == ErrorState <==> ErrorState in states
    ensures result == FailureState <==> FailureState in states && ErrorState !in states
    ensures result == SuccessState <==> states != [] && forall s | s in states :: s == SuccessState
  {
    result := PendingState;
    if |states| > 0 {
      result := SuccessState;
    }
    for n := 0 to |states|
      invariant n == 0 ==> result == if |states| > 0 then SuccessState else PendingState
      invariant n > 0 ==> result in states[..n]
      invariant forall s | s in states[..n] :: Priority(s) <= Priority(result)
    {
      assert states[..n + 1] == states[..n] + [states[n]];
      if Priority(states[n]) > Priority(result) {
        result := states[n];
      }
    }
    assert states[..|states|] == states;
  }
}
