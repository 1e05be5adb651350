// The status of an issue or of a pull request: one record in the repository of
// its author, under a key derived from the subject. Writers read it, compare,
// and replace it only if it is still what they read.
module StatusSlot {
  import opened Options

  datatype Ref = Ref(uri: string, cid: string)

  datatype State = Open | Closed | Merged(commit: string)

  // Times are in nanoseconds.
  datatype Record = Record(subject: Ref, repository: Ref, state: State, createdAt: int, updatedAt: int)

  // Stored times are in milliseconds.
  const UNIT := 1_000_000

  function Truncated(t: int): int { t - t % UNIT }

  // StatusRecord.Validate, as far as it concerns time.
  predicate Valid(r: Record) { r.createdAt <= r.updatedAt }

  // What the slot holds after `r` was written.
  function Canonical(r: Record): Record { r.(createdAt := Truncated(r.createdAt), updatedAt := Truncated(r.updatedAt)) }

  // Records are compared as they would be stored.
  predicate Same(a: Record, b: Record) { Canonical(a) == Canonical(b) }

  lemma TruncatedOrder(a: int, b: int)
    ensures Truncated(a) <= a < Truncated(a) + 1_000_000 && Truncated(a) % 1_000_000 == 0
    ensures Truncated(Truncated(a)) == Truncated(a)
    ensures a <= b ==> Truncated(a) <= Truncated(b)
  {
    TruncatedTwice(a);
    if a <= b {
      assert a / UNIT <= b / UNIT;
    }
  }

  lemma TruncatedTwice(a: int)
    ensures Truncated(Truncated(a)) == Truncated(a)
  {
    assert Truncated(a) == (a / UNIT) * UNIT;
  }

  datatype Error = Conflict

  // --- One writer ------------------------------------------------------------------

  datatype Decision = Keep(current: Record) | Refuse | Replace(expected: Option<Record>, record: Record)

  // What a writer makes of the slot it read.
  function Decide(slot: Option<Record>, record: Record): Decision {
    match slot
    case None => Replace(None, record)
    case Some(current) =>
      if current.subject.uri != record.subject.uri || current.repository.uri != record.repository.uri then Refuse
      else
        var mine := record.(createdAt := current.createdAt);
        if Same(current, mine) then Keep(current)
        else if mine.updatedAt <= current.updatedAt then Refuse
        else Replace(Some(current), mine)
  }

  // What a writer makes of the slot after it lost the swap.
  function Reconsider(slot: Option<Record>, record: Record): Result<Record, Error> {
    if slot.Some? && Same(slot.value, record) then Ok(slot.value) else Err(Conflict)
  }

  // A slot, as one writer and whoever writes between its read and its swap see it.
  function Put(slot: Option<Record>, record: Record, meanwhile: Option<Record>): (Option<Record>, Result<Record, Error>) {
    var later := if meanwhile.Some? then meanwhile else slot;
    match Decide(slot, record)
    case Keep(current) => (later, Ok(current))
    case Refuse => (later, Err(Conflict))
    case Replace(expected, mine) =>
      if later == expected then (Some(Canonical(mine)), Ok(Canonical(mine))) else (later, Reconsider(later, mine))
  }

  predicate Names(a: Record, b: Record) { a.subject.uri == b.subject.uri && a.repository.uri == b.repository.uri }

  lemma CanonicalIsSame(r: Record)
    ensures Canonical(Canonical(r)) == Canonical(r)
    ensures Same(r, r.(createdAt := Truncated(r.createdAt)))
  {
    TruncatedTwice(r.createdAt);
    TruncatedTwice(r.updatedAt);
  }

  // A success returns what the writer wanted to store, up to the creation time
  // and the stored precision.
  lemma ResultIsOwn(slot: Option<Record>, record: Record, meanwhile: Option<Record>)
    ensures
      var result := Put(slot, record, meanwhile).1;
      result.Ok? ==> Same(result.value, record.(createdAt := result.value.createdAt))
  {
    var mine := if slot.Some? then record.(createdAt := slot.value.createdAt) else record;
    CanonicalIsSame(mine);
    TruncatedTwice(mine.createdAt);
  }

  class Slot {
    var record: Option<Record>

    constructor (initial: Option<Record>)
      ensures record == initial
    {
      record := initial;
    }

    // putRecord with swapRecord. The CID of a record stands for its content.
    method Swap(expected: Option<Record>, r: Record) returns (swapped: bool)
      modifies this
      ensures swapped == (old(record) == expected)
      ensures record == if swapped then Some(Canonical(r)) else old(record)
    {
      swapped := record == expected;
      if swapped {
        record := Some(Canonical(r));
      }
    }

    // Another writer may replace the record between the read and the swap.
    method PutStatus(input: Record, meanwhile: Option<Record>) returns (result: Result<Record, Error>)
      modifies this
      ensures (record, result) == Put(old(record), input, meanwhile)
      ensures result.Ok? ==> record == Some(result.value) || (meanwhile.Some? && old(record) == Some(result.value))
      ensures result.Ok? ==> Same(result.value, input.(createdAt := result.value.createdAt))
      ensures
        var found, seen := old(record), if meanwhile.Some? then meanwhile else old(record);
        var mine := if found.Some? then input.(createdAt := found.value.createdAt) else input;
        var kept := found.Some? && Names(found.value, input) && Same(found.value, mine);
        var newer := found.Some? ==> Names(found.value, input) && mine.updatedAt > found.value.updatedAt;
        && (result.Ok? <==> kept || (newer && (seen == found || (seen.Some? && Same(seen.value, mine)))))
        && record == if newer && !kept && seen == found then Some(Canonical(mine)) else seen
    {
      ResultIsOwn(record, input, meanwhile);
      var found := record;
      if meanwhile.Some? {
        record := meanwhile;
      }
      var mine := input;
      if found.Some? {
        var current := found.value;
        if current.subject.uri != mine.subject.uri || current.repository.uri != mine.repository.uri {
          return Err(Conflict);
        }
        mine := mine.(createdAt := current.createdAt);
        if Same(current, mine) {
          return Ok(current);
        }
        if mine.updatedAt <= current.updatedAt {
          return Err(Conflict);
        }
      }
      var swapped := Swap(found, mine);
      if !swapped {
        if record.Some? && Same(record.value, mine) {
          return Ok(record.value);
        }
        return Err(Conflict);
      }
      return Ok(Canonical(mine));
    }
  }

  // --- Records that are only created --------------------------------------------------

  // Issues, pull requests and reviews are created under a key of their own and
  // never replaced: a swap of nothing.
  function Create<R(==)>(slot: Option<R>, record: R, canonical: R -> R): (Option<R>, Result<R, Error>) {
    match slot
    case None => (Some(canonical(record)), Ok(canonical(record)))
    case Some(existing) => (slot, if canonical(existing) == canonical(record) then Ok(existing) else Err(Conflict))
  }

  // A creation that is sent again, or raced by the same one, finds its record;
  // whatever came first stays.
  lemma CreateIsIdempotent<R>(slot: Option<R>, record: R, other: R, canonical: R -> R)
    requires forall r :: canonical(canonical(r)) == canonical(r)
    ensures
      var (after, result) := Create(slot, record, canonical);
      && (slot.Some? ==> after == slot)
      && (result.Ok? <==> slot.Some? ==> canonical(slot.value) == canonical(record))
      && (result.Ok? ==> after == Some(result.value) && canonical(result.value) == canonical(record))
      && (result.Ok? ==> Create(after, record, canonical) == (after, result))
      && (slot.None? ==> Create(after, other, canonical).0 == after)
      && (slot.None? ==> (Create(after, other, canonical).1.Ok? <==> canonical(other) == canonical(record)))
  {
  }

  // --- Any number of writers ---------------------------------------------------------

  // A writer remembers how many versions there were when it read the slot.
  datatype Writer =
    | Begun(record: Record)
    | Ready(record: Record, read: nat)
    | Lost(record: Record)
    | Done(result: Result<Record, Error>)

  // All versions the slot has had.
  datatype World = World(versions: seq<Record>, writers: map<nat, Writer>)

  function Latest(versions: seq<Record>): Option<Record> { if versions == [] then None else Some(versions[|versions| - 1]) }

  function AfterRead(versions: seq<Record>, record: Record): Writer {
    match Decide(Latest(versions), record)
    case Keep(current) => Done(Ok(current))
    case Refuse => Done(Err(Conflict))
    case Replace(_, mine) => Ready(mine, |versions|)
  }

  ghost predicate Next(w: World, i: nat, w': World) {
    if i !in w.writers then exists record :: Valid(record) && w' == w.(writers := w.writers[i := Begun(record)])
    else match w.writers[i]
      case Begun(record) => w' == w.(writers := w.writers[i := AfterRead(w.versions, record)])
      case Ready(record, read) =>
        if read <= |w.versions| && Latest(w.versions) == Latest(w.versions[..read])
        then w' == World(w.versions + [Canonical(record)], w.writers[i := Done(Ok(Canonical(record)))])
        else w' == w.(writers := w.writers[i := Lost(record)])
      case Lost(record) => w' == w.(writers := w.writers[i := Done(Reconsider(Latest(w.versions), record))])
      case Done(_) => false
  }

  // Successive versions of one slot.
  predicate Follows(a: Record, b: Record) {
    && a.subject.uri == b.subject.uri && a.repository.uri == b.repository.uri
    && a.createdAt == b.createdAt && a.updatedAt <= b.updatedAt
  }

  predicate Proper(r: Record) { r == Canonical(r) && Valid(r) }

  ghost predicate Inv(w: World) {
    && (forall n | 0 <= n < |w.versions| :: Proper(w.versions[n]))
    && (forall m, n | 0 <= m <= n < |w.versions| :: Follows(w.versions[m], w.versions[n]))
    && (forall n | 0 < n < |w.versions| :: w.versions[n - 1] != w.versions[n])
    && (forall i | i in w.writers :: WriterInv(w.versions, w.writers[i]))
  }

  ghost predicate WriterInv(versions: seq<Record>, writer: Writer) {
    match writer
    case Begun(record) => Valid(record)
    case Ready(record, read) =>
      && read <= |versions| && Valid(record)
      && (read > 0 ==> Follows(versions[read - 1], record) && versions[read - 1].updatedAt < record.updatedAt
                       && Canonical(record) != versions[read - 1])
    case _ => true
  }

  lemma CanonicalFollows(a: Record, b: Record)
    requires Proper(a) && Follows(a, b) && Valid(b)
    ensures Proper(Canonical(b)) && Follows(a, Canonical(b))
  {
    TruncatedOrder(b.createdAt, b.updatedAt);
    TruncatedOrder(a.updatedAt, b.updatedAt);
    TruncatedTwice(b.updatedAt);
    assert Truncated(a.createdAt) == a.createdAt && Truncated(a.updatedAt) == a.updatedAt;
  }

  lemma CanonicalIsProper(r: Record)
    requires Valid(r)
    ensures Proper(Canonical(r))
  {
    TruncatedOrder(r.createdAt, r.updatedAt);
    TruncatedTwice(r.updatedAt);
  }

  lemma FollowsOn(a: Record, b: Record, c: Record)
    requires Follows(a, b) && Follows(b, c)
    ensures Follows(a, c)
  {
  }

  lemma InvWrite(w: World, i: nat, w': World)
    requires Inv(w) && i in w.writers && w.writers[i].Ready? && Next(w, i, w') && w'.versions != w.versions
    ensures Inv(w')
  {
    var record, read := w.writers[i].record, w.writers[i].read;
    assert WriterInv(w.versions, w.writers[i]);
    var n := |w.versions|;
    assert w'.versions == w.versions + [Canonical(record)];
    if n == 0 {
      CanonicalIsProper(record);
    } else {
      assert read > 0 && w.versions[..read][read - 1] == w.versions[n - 1];
      CanonicalFollows(w.versions[n - 1], record);
      forall m | 0 <= m < n ensures Follows(w.versions[m], Canonical(record)) {
        FollowsOn(w.versions[m], w.versions[n - 1], Canonical(record));
      }
    }
    forall j | j in w'.writers && j != i ensures WriterInv(w'.versions, w'.writers[j]) {
      assert WriterInv(w.versions, w.writers[j]);
    }
  }

  lemma InvNext(w: World, i: nat, w': World)
    requires Inv(w) && Next(w, i, w')
    ensures Inv(w')
  {
    if w'.versions != w.versions {
      InvWrite(w, i, w');
    } else {
      assert i in w.writers ==> WriterInv(w.versions, w.writers[i]);
      forall j | j in w'.writers && j != i ensures WriterInv(w'.versions, w'.writers[j]) {
        assert WriterInv(w.versions, w.writers[j]);
      }
    }
  }

  // The slot starts empty or with a version that decodes.
  ghost predicate IsRun(states: seq<World>, steps: seq<nat>) {
    && |states| == |steps| + 1 && |states[0].versions| <= 1 && (forall r | r in states[0].versions :: Proper(r))
    && states[0].writers == map[]
    && forall n | 0 <= n < |steps| :: Next(states[n], steps[n], states[n + 1])
  }

  // In every run: the URIs and the creation time of the first version stay, the
  // update time never goes back, and each version is in stored precision with
  // its update not before its creation.
  lemma {:induction false} VersionsFollow(states: seq<World>, steps: seq<nat>, n: nat)
    requires IsRun(states, steps) && n <= |steps|
    ensures Inv(states[n])
  {
    if n > 0 {
      VersionsFollow(states, steps, n - 1);
      InvNext(states[n - 1], steps[n - 1], states[n]);
    }
  }

  // Sending a stored record again writes nothing, whatever its creation time.
  lemma RepeatWritesNothing(slot: Record, record: Record, createdAt: int)
    requires Proper(slot) && slot == Canonical(record)
    ensures Decide(Some(slot), record.(createdAt := createdAt)) == Keep(slot)
  {
    TruncatedTwice(record.updatedAt);
    TruncatedTwice(record.createdAt);
  }

  // In every run: a writer is refused when it reads the slot, if and only if it
  // names another subject or repository than the first version did, or some
  // version so far is not older than its record and the record is not the
  // latest version again.
  lemma StaleIsRefused(states: seq<World>, steps: seq<nat>, n: nat)
    requires IsRun(states, steps) && n < |steps| && states[n].versions != []
    requires steps[n] in states[n].writers && states[n].writers[steps[n]].Begun?
    ensures
      var versions, record := states[n].versions, states[n].writers[steps[n]].record;
      states[n + 1].writers[steps[n]] == Done(Err(Conflict)) <==>
        || record.subject.uri != versions[0].subject.uri || record.repository.uri != versions[0].repository.uri
        || ((exists m | 0 <= m < |versions| :: record.updatedAt <= versions[m].updatedAt)
            && Canonical(record.(createdAt := versions[0].createdAt)) != versions[|versions| - 1])
  {
    VersionsFollow(states, steps, n);
    var versions := states[n].versions;
    var last := versions[|versions| - 1];
    assert Follows(versions[0], last) && Proper(last);
    assert forall m | 0 <= m < |versions| :: Follows(versions[m], last);
    assert Next(states[n], steps[n], states[n + 1]);
  }

  // --- What a writer is told ---------------------------------------------------------------

  // What has become of the record that a writer began with.
  predicate Carries(versions: seq<Record>, writer: Writer, record: Record) {
    match writer
    case Begun(mine) => mine == record
    case Ready(mine, _) => mine == record.(createdAt := mine.createdAt)
    case Lost(mine) => mine == record.(createdAt := mine.createdAt)
    case Done(result) => result.Ok? ==> result.value in versions && Same(result.value, record.(createdAt := result.value.createdAt))
  }

  lemma CarriesNext(w: World, j: nat, w': World, i: nat, record: Record)
    requires Next(w, j, w') && i in w.writers && Carries(w.versions, w.writers[i], record)
    ensures w.versions <= w'.versions && i in w'.writers && Carries(w'.versions, w'.writers[i], record)
  {
    if i == j {
      match w.writers[i] {
        case Begun(_) =>
        case Ready(mine, _) =>
          CanonicalIsSame(mine);
          TruncatedTwice(mine.createdAt);
        case Lost(mine) =>
      }
    }
  }

  lemma {:induction false} RecordIsCarried(states: seq<World>, steps: seq<nat>, m: nat, n: nat, i: nat, record: Record)
    requires IsRun(states, steps) && m <= n <= |steps| && i in states[m].writers && states[m].writers[i] == Begun(record)
    ensures i in states[n].writers && Carries(states[n].versions, states[n].writers[i], record)
  {
    if m < n {
      RecordIsCarried(states, steps, m, n - 1, i, record);
      CarriesNext(states[n - 1], steps[n - 1], states[n], i, record);
    }
  }

  // In every run: a writer that ends with a record finds it among the versions,
  // and it is the record that the writer began with, up to the creation time and
  // the stored precision.
  lemma SuccessIsStored(states: seq<World>, steps: seq<nat>, m: nat, n: nat, i: nat, record: Record, result: Record)
    requires IsRun(states, steps) && m <= n <= |steps| && i in states[m].writers && states[m].writers[i] == Begun(record)
    requires i in states[n].writers && states[n].writers[i] == Done(Ok(result))
    ensures result in states[n].versions && Canonical(result) == Canonical(record.(createdAt := result.createdAt))
  {
    RecordIsCarried(states, steps, m, n, i, record);
  }

  // A writer that has lost the swap is told of a conflict, if and only if the
  // latest version differs from its own record in stored precision.
  lemma LostWriterIff(states: seq<World>, steps: seq<nat>, n: nat)
    requires IsRun(states, steps) && n < |steps| && steps[n] in states[n].writers && states[n].writers[steps[n]].Lost?
    ensures
      var versions, record := states[n].versions, states[n].writers[steps[n]].record;
      states[n + 1].writers[steps[n]] == Done(Err(Conflict)) <==>
      versions == [] || Canonical(versions[|versions| - 1]) != Canonical(record)
  {
    assert Next(states[n], steps[n], states[n + 1]);
  }

  // --- Late writes -----------------------------------------------------------------------

  // A write that goes through although other versions came in between its
  // writer's read and itself.
  predicate IsLate(w: World, i: nat, w': World) {
    i in w.writers && w.writers[i].Ready? && w'.versions != w.versions && w.writers[i].read < |w.versions|
  }

  ghost predicate HasLate(states: seq<World>, steps: seq<nat>)
    requires |states| == |steps| + 1
  {
    exists n | 0 <= n < |steps| :: IsLate(states[n], steps[n], states[n + 1])
  }

  // Some run ends in `w`; with a late write, if `late`.
  ghost predicate Reaches(w: World, late: bool) {
    exists states, steps :: IsRun(states, steps) && states[|steps|] == w && (late ==> HasLate(states, steps))
  }

  // Some run leaves exactly these versions behind.
  ghost predicate HasRun(versions: seq<Record>, late: bool) {
    exists w :: Reaches(w, late) && w.versions == versions
  }

  // The histories of a slot, in terms of the versions alone.
  ghost predicate IsHistory(versions: seq<Record>) {
    && (forall n | 0 <= n < |versions| :: Proper(versions[n]))
    && (forall n | 0 < n < |versions| :: Follows(versions[n - 1], versions[n]) && versions[n - 1] != versions[n])
  }

  // A content comes back at a later version, and that version is replaced.
  ghost predicate Recurs(versions: seq<Record>) {
    exists a, b | 0 <= a < b < |versions| - 1 :: versions[a] == versions[b]
  }

  lemma {:induction false} VersionsGrow(states: seq<World>, steps: seq<nat>, m: nat, n: nat)
    requires IsRun(states, steps) && m <= n <= |steps|
    ensures states[m].versions <= states[n].versions
  {
    if m < n {
      VersionsGrow(states, steps, m, n - 1);
      assert Next(states[n - 1], steps[n - 1], states[n]);
    }
  }

  // A late write replaces the content that its writer read, which has come back.
  lemma LateWriteRecurs(states: seq<World>, steps: seq<nat>, n: nat)
    requires IsRun(states, steps) && n < |steps| && IsLate(states[n], steps[n], states[n + 1])
    ensures Recurs(states[|steps|].versions)
  {
    var w, i := states[n], steps[n];
    assert Next(w, i, states[n + 1]);
    VersionsGrow(states, steps, n + 1, |steps|);
    var read, last, final := w.writers[i].read, |w.versions| - 1, states[|steps|].versions;
    assert Latest(w.versions) == Latest(w.versions[..read]);
    assert read > 0 && w.versions[..read][read - 1] == w.versions[last];
    assert final[read - 1] == states[n + 1].versions[read - 1] && final[last] == states[n + 1].versions[last];
  }

  lemma Extend(w: World, i: nat, w': World, late: bool)
    requires Reaches(w, late) && Next(w, i, w')
    ensures Reaches(w', late) && (IsLate(w, i, w') ==> Reaches(w', true))
  {
    var states, steps :| IsRun(states, steps) && states[|steps|] == w && (late ==> HasLate(states, steps));
    var states', steps' := states + [w'], steps + [i];
    assert IsRun(states', steps') && states'[|steps'|] == w';
    if late {
      var n :| 0 <= n < |steps| && IsLate(states[n], steps[n], states[n + 1]);
      assert IsLate(states'[n], steps'[n], states'[n + 1]);
    }
    if IsLate(w, i, w') {
      assert IsLate(states'[|steps|], steps'[|steps|], states'[|steps| + 1]);
    }
  }

  // A writer begins and reads.
  lemma Arrive(w: World, i: nat, record: Record, late: bool) returns (w': World)
    requires Reaches(w, late) && i !in w.writers && Valid(record)
    ensures Reaches(w', late) && w' == w.(writers := w.writers[i := AfterRead(w.versions, record)])
  {
    var begun := w.(writers := w.writers[i := Begun(record)]);
    Extend(w, i, begun, late);
    w' := w.(writers := w.writers[i := AfterRead(w.versions, record)]);
    Extend(begun, i, w', late);
  }

  lemma Finish(w: World, i: nat, late: bool) returns (w': World)
    requires Reaches(w, late) && i in w.writers && w.writers[i].Ready? && w.writers[i].read <= |w.versions|
    requires Latest(w.versions) == Latest(w.versions[..w.writers[i].read])
    ensures Reaches(w', late) && Next(w, i, w') && w'.versions == w.versions + [Canonical(w.writers[i].record)]
    ensures w'.writers == w.writers[i := Done(Ok(Canonical(w.writers[i].record)))]
    ensures w.writers[i].read < |w.versions| ==> IsLate(w, i, w') && Reaches(w', true)
  {
    var record := w.writers[i].record;
    w' := World(w.versions + [Canonical(record)], w.writers[i := Done(Ok(Canonical(record)))]);
    Extend(w, i, w', late);
  }

  // A record that makes `b` out of `a`: of the same millisecond, if need be.
  function Update(a: Record, b: Record): Record {
    if a.updatedAt < b.updatedAt then b else b.(updatedAt := b.updatedAt + 1)
  }

  lemma UpdateReplaces(a: Record, b: Record)
    requires Proper(a) && Proper(b) && Follows(a, b) && a != b
    ensures Valid(Update(a, b)) && Canonical(Update(a, b)) == b
    ensures Decide(Some(a), Update(a, b)) == Replace(Some(a), Update(a, b))
  {
    assert b.updatedAt % UNIT == 0;
    assert (b.updatedAt + 1) % UNIT == 1;
  }

  lemma FreshWriter(writers: map<nat, Writer>) returns (i: nat)
    ensures forall j | j in writers :: j < i
    decreases |writers|
  {
    if writers == map[] {
      i := 0;
    } else {
      var j :| j in writers;
      var k := FreshWriter(writers - {j});
      i := if j < k then k else j + 1;
      assert forall x | x in writers && x != j :: x in writers - {j};
    }
  }

  // The next version, written in time by a new writer.
  lemma WriteNext(w: World, versions: seq<Record>, late: bool) returns (w': World)
    requires Reaches(w, late) && IsHistory(versions) && |w.versions| < |versions| && w.versions == versions[..|w.versions|] && w.versions != []
    ensures Reaches(w', late) && w'.versions == versions[..|w.versions| + 1]
    ensures forall i | i in w.writers :: i in w'.writers && w'.writers[i] == w.writers[i]
  {
    var n := |w.versions|;
    var a, b := versions[n - 1], versions[n];
    UpdateReplaces(a, b);
    var i := FreshWriter(w.writers);
    var w1 := Arrive(w, i, Update(a, b), late);
    assert w1.writers[i] == Ready(Update(a, b), n);
    assert w1.versions[..n] == w1.versions;
    w' := Finish(w1, i, late);
  }

  lemma {:induction false} WriteUpTo(w: World, versions: seq<Record>, n: nat, late: bool) returns (w': World)
    requires Reaches(w, late) && IsHistory(versions) && |w.versions| <= n <= |versions| && w.versions == versions[..|w.versions|] && w.versions != []
    ensures Reaches(w', late) && w'.versions == versions[..n]
    ensures forall i | i in w.writers :: i in w'.writers && w'.writers[i] == w.writers[i]
    decreases n - |w.versions|
  {
    if |w.versions| == n {
      w' := w;
    } else {
      var next := WriteNext(w, versions, late);
      w' := WriteUpTo(next, versions, n, late);
    }
  }

  lemma Begins(versions: seq<Record>) returns (w: World)
    requires IsHistory(versions)
    ensures Reaches(w, false) && w.versions == if versions == [] then [] else versions[..1]
  {
    w := World(if versions == [] then [] else versions[..1], map[]);
    var states, steps: seq<nat> := [w], [];
    assert IsRun(states, steps) && states[|steps|] == w;
  }

  // The versions that runs leave behind are exactly the histories.
  lemma HistoryIff(versions: seq<Record>)
    ensures HasRun(versions, false) <==> IsHistory(versions)
  {
    if HasRun(versions, false) {
      RunLeavesHistory(versions, false);
    }
    if IsHistory(versions) {
      var w := Begins(versions);
      if versions != [] {
        w := WriteUpTo(w, versions, |versions|, false);
      }
    }
  }

  lemma RunLeavesHistory(versions: seq<Record>, late: bool)
    requires HasRun(versions, late)
    ensures IsHistory(versions) && (late ==> Recurs(versions))
  {
    var w :| Reaches(w, late) && w.versions == versions;
    var states, steps :| IsRun(states, steps) && states[|steps|] == w && (late ==> HasLate(states, steps));
    VersionsFollow(states, steps, |steps|);
    if late {
      var n :| 0 <= n < |steps| && IsLate(states[n], steps[n], states[n + 1]);
      LateWriteRecurs(states, steps, n);
    }
  }

  // A new writer reads the version whose content will come back.
  lemma ReadEarly(w: World, versions: seq<Record>, a: nat, b: nat) returns (w': World, i: nat)
    requires Reaches(w, false) && IsHistory(versions) && a < b < |versions| - 1 && versions[a] == versions[b]
    requires w.versions == versions[..a + 1]
    ensures Reaches(w', false) && w'.versions == w.versions && i in w'.writers
    ensures w'.writers[i] == Ready(Update(versions[b], versions[b + 1]), a + 1)
  {
    UpdateReplaces(versions[b], versions[b + 1]);
    i := FreshWriter(w.writers);
    w' := Arrive(w, i, Update(versions[b], versions[b + 1]), false);
  }

  lemma ContentIsBack(versions: seq<Record>, a: nat, b: nat)
    requires a < b < |versions| && versions[a] == versions[b]
    ensures Latest(versions[..b + 1]) == Latest(versions[..b + 1][..a + 1])
  {
  }

  // It writes after the version that has the same content.
  lemma WriteLate(versions: seq<Record>, a: nat, b: nat) returns (w: World)
    requires IsHistory(versions) && a < b < |versions| - 1 && versions[a] == versions[b]
    ensures Reaches(w, true) && w.versions == versions[..b + 2]
  {
    var w0 := Begins(versions);
    var w1 := WriteUpTo(w0, versions, a + 1, false);
    var w2, i := ReadEarly(w1, versions, a, b);
    var w3 := WriteUpTo(w2, versions, b + 1, false);
    ContentIsBack(versions, a, b);
    UpdateReplaces(versions[b], versions[b + 1]);
    w := Finish(w3, i, false);
    assert w.versions == versions[..b + 1] + [versions[b + 1]];
  }

  // A history admits a late write if and only if some content comes back at a
  // later version and is then replaced.
  lemma LateWriteIff(versions: seq<Record>)
    ensures HasRun(versions, true) <==> IsHistory(versions) && Recurs(versions)
  {
    if HasRun(versions, true) {
      RunLeavesHistory(versions, true);
    }
    if IsHistory(versions) && Recurs(versions) {
      var a: nat, b: nat :| 0 <= a < b < |versions| - 1 && versions[a] == versions[b];
      var w := WriteLate(versions, a, b);
      w := WriteUpTo(w, versions, |versions|, true);
    }
  }

  // With update times that differ in stored precision no write is late.
  lemma DistinctTimesExcludeLateWrites(states: seq<World>, steps: seq<nat>)
    requires IsRun(states, steps)
    requires
      var versions := states[|steps|].versions;
      forall n | 0 < n < |versions| :: versions[n - 1].updatedAt < versions[n].updatedAt
    ensures !HasLate(states, steps)
  {
    if n :| 0 <= n < |steps| && IsLate(states[n], steps[n], states[n + 1]) {
      LateWriteRecurs(states, steps, n);
      var versions := states[|steps|].versions;
      var a, b :| 0 <= a < b < |versions| - 1 && versions[a] == versions[b];
      TimesIncrease(versions, a, b);
    }
  }

  lemma {:induction false} TimesIncrease(versions: seq<Record>, a: nat, b: nat)
    requires a < b < |versions| && forall n | 0 < n < |versions| :: versions[n - 1].updatedAt < versions[n].updatedAt
    ensures versions[a].updatedAt < versions[b].updatedAt
  {
    if a < b - 1 {
      TimesIncrease(versions, a, b - 1);
    }
  }

  // A write replaces a version with the very content that its writer read; if
  // that is not the same version, then all versions in between were written
  // within one unit of stored time.
  lemma WritesReplaceWhatWasRead(states: seq<World>, steps: seq<nat>, n: nat)
    requires IsRun(states, steps) && n < |steps| && states[n + 1].versions != states[n].versions
    ensures
      var w, i := states[n], steps[n];
      && i in w.writers && w.writers[i].Ready? && w.writers[i].read <= |w.versions|
      && Latest(w.versions) == Latest(w.versions[..w.writers[i].read])
      && forall m | w.writers[i].read <= m < |w.versions| && m > 0 :: w.versions[m].updatedAt == w.versions[m - 1].updatedAt
  {
    VersionsFollow(states, steps, n);
    var w, i := states[n], steps[n];
    var read, last := w.writers[i].read, |w.versions| - 1;
    forall m | read <= m <= last && m > 0 ensures w.versions[m].updatedAt == w.versions[m - 1].updatedAt {
      if read > 0 {
        assert w.versions[..read][read - 1] == w.versions[last];
        assert Follows(w.versions[read - 1], w.versions[m - 1]) && Follows(w.versions[m - 1], w.versions[m]);
        assert Follows(w.versions[m], w.versions[last]);
      }
    }
  }

  // Within one millisecond a slot can return to what a writer read; its write
  // then goes through although two versions came in between.
  lemma SlotCanReturn() returns (w: World, w': World)
    ensures Reaches(w, false) && 0 in w.writers && w.writers[0].Ready? && w.writers[0].read + 2 == |w.versions|
    ensures Next(w, 0, w') && IsLate(w, 0, w') && Reaches(w', true) && |w'.versions| == |w.versions| + 1
  {
    var closed := Record(Ref("s", ""), Ref("r", ""), Closed, 0, 0);
    var start := World([closed], map[]);
    var states, steps: seq<nat> := [start], [];
    assert IsRun(states, steps) && states[|steps|] == start;
    var w1 := Arrive(start, 0, closed.(state := Merged("c"), updatedAt := 3), false);
    var w2 := Arrive(w1, 1, closed.(state := Open, updatedAt := 1), false);
    assert Latest(w2.versions[..1]) == Latest(w2.versions);
    var w3 := Finish(w2, 1, false);
    assert w3.versions == [closed, closed.(state := Open)];
    var w4 := Arrive(w3, 2, closed.(updatedAt := 2), false);
    assert Latest(w4.versions[..2]) == Latest(w4.versions);
    w := Finish(w4, 2, false);
    assert w.versions == [closed, closed.(state := Open), closed];
    assert w.writers[0] == Ready(closed.(state := Merged("c"), updatedAt := 3), 1);
    assert Latest(w.versions[..1]) == Latest(w.versions);
    w' := Finish(w, 0, false);
  }
}
