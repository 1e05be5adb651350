// Uploads, asset deletions, release deletions and release updates, interleaved
// step by step. Deleting a blob always succeeds, and no call stops half-way.
module ReleaseRaces {
  import opened Options
  import opened ReleaseAssets

  datatype Call =
    // UploadAsset
    | Uploading(asset: Asset)                     // its release was there
    | Put(id: nat, asset: Asset)                  // the blob is stored
    | Cleaning(id: nat)                           // no row, the blob must go
    // DeleteAsset
    | Removing(release: nat, id: nat)             // the row was there
    | Removed(release: nat, id: nat)              // the blob is gone
    // Delete
    | Marked(release: nat)                        // the release is being deleted
    | Clearing(release: nat, rest: seq<nat>)      // these assets are left
    | ClearingOne(release: nat, rest: seq<nat>)   // the blob of the first is gone
    // Update
    | Updating(release: nat, draft: bool)         // it read a release not being deleted
    | Finished

  datatype World = World(rows: Rows, blobs: set<nat>, nextId: nat, calls: map<nat, Call>)

  function Become(w: World, i: nat, call: Call): World { w.(calls := w.calls[i := call]) }

  function WithoutAsset(rows: Rows, id: nat): Rows { rows.(assets := rows.assets - {id}) }

  // Deleting a release row deletes the rows of its assets with it.
  function WithoutRelease(rows: Rows, r: nat): Rows {
    Rows(rows.releases - {r}, map id | id in rows.assets && rows.assets[id].release != r :: rows.assets[id])
  }

  datatype Start =
    | Create(draft: bool)
    | Upload(asset: Asset)
    | DeleteAsset(release: nat, id: nat)
    | Delete(release: nat)
    | Update(release: nat, draft: bool)

  // The first step of a call, up to its first write.
  function Begin(w: World, i: nat, start: Start, l: Limits): World {
    match start
    case Create(draft) =>
      Become(w, i, Finished).(nextId := w.nextId + 1,
                              rows := w.rows.(releases := w.rows.releases[w.nextId := if draft then Draft else Published]))
    case Upload(a) =>
      if a.size < 0 || a.size > l.assetBytes || a.release !in w.rows.releases || w.rows.releases[a.release] == Deleting
      then Become(w, i, Finished) else Become(w, i, Uploading(a))
    case DeleteAsset(r, id) =>
      if id in w.rows.assets && w.rows.assets[id].release == r then Become(w, i, Removing(r, id)) else Become(w, i, Finished)
    case Delete(r) =>
      if r !in w.rows.releases then Become(w, i, Finished)
      else Become(w, i, Marked(r)).(rows := w.rows.(releases := w.rows.releases[r := Deleting]))
    case Update(r, draft) =>
      if r in w.rows.releases && w.rows.releases[r] != Deleting then Become(w, i, Updating(r, draft)) else Become(w, i, Finished)
  }

  ghost function Step(w: World, i: nat, l: Limits): World
    requires i in w.calls
  {
    match w.calls[i]
    case Uploading(a) => Become(w, i, Put(w.nextId, a)).(nextId := w.nextId + 1, blobs := w.blobs + {w.nextId})
    case Put(id, a) =>
      (match Created(w.rows, id, a, l)
       case Ok(rows) => Become(w, i, Finished).(rows := rows)
       case Err(_) => Become(w, i, Cleaning(id)))
    case Cleaning(id) => Become(w, i, Finished).(blobs := w.blobs - {id})
    case Removing(r, id) => Become(w, i, Removed(r, id)).(blobs := w.blobs - {id})
    case Removed(_, id) => Become(w, i, Finished).(rows := WithoutAsset(w.rows, id))
    case Marked(r) => Become(w, i, Clearing(r, Listing(w.rows, r)))
    case Clearing(r, rest) =>
      if rest == [] then Become(w, i, Finished).(rows := WithoutRelease(w.rows, r))
      else if rest[0] !in w.rows.assets then Become(w, i, Finished)
      else Become(w, i, ClearingOne(r, rest)).(blobs := w.blobs - {rest[0]})
    case ClearingOne(r, rest) =>
      if rest == [] then w
      else if rest[0] !in w.rows.assets then Become(w, i, Finished)
      else Become(w, i, Clearing(r, rest[1..])).(rows := WithoutAsset(w.rows, rest[0]))
    case Updating(r, draft) => Become(w, i, Finished).(rows := Overwritten(w.rows, r, if draft then Draft else Published))
    case Finished => w
  }

  // UPDATE ... WHERE id = ..., whatever the state has become.
  function Overwritten(rows: Rows, r: nat, state: ReleaseState): Rows {
    if r in rows.releases then rows.(releases := rows.releases[r := state]) else rows
  }

  // Some enumeration of the release's assets.
  ghost function Listing(rows: Rows, r: nat): (ids: seq<nat>)
    ensures forall id :: id in ids <==> id in rows.assets && rows.assets[id].release == r
    ensures |ids| == |OfRelease(rows.assets, r).Keys| && Distinct(ids)
  {
    Enumeration(OfRelease(rows.assets, r).Keys)
  }

  predicate Distinct(ids: seq<nat>) { forall m, n | 0 <= m < n < |ids| :: ids[m] != ids[n] }

  ghost function Enumeration(ids: set<nat>): (all: seq<nat>)
    ensures forall id :: id in all <==> id in ids
    ensures |all| == |ids| && Distinct(all)
  {
    if ids == {} then [] else var id :| id in ids; [id] + Enumeration(ids - {id})
  }

  ghost predicate Next(w: World, i: nat, l: Limits, w': World) {
    || (i !in w.calls && exists start :: w' == Begin(w, i, start, l))
    || (i in w.calls && w' == Step(w, i, l))
  }

  // --- What every run keeps ----------------------------------------------------------------

  // The upload that stored the blob of `id` has not ended.
  predicate InFlight(call: Call, id: nat) { (call.Put? || call.Cleaning?) && call.id == id }

  // The asset of `id` is being deleted and its blob is already gone.
  predicate BlobGone(call: Call, id: nat) {
    (call.Removed? && call.id == id) || (call.ClearingOne? && call.rest != [] && call.rest[0] == id)
  }

  ghost predicate SomeInFlight(calls: map<nat, Call>, id: nat) { exists i | i in calls :: InFlight(calls[i], id) }
  ghost predicate SomeBlobGone(calls: map<nat, Call>, id: nat) { exists i | i in calls :: BlobGone(calls[i], id) }

  ghost predicate BlobsAccounted(w: World) {
    forall id | id in w.blobs :: id in w.rows.assets || SomeInFlight(w.calls, id)
  }

  ghost predicate RowsAccounted(w: World) {
    forall id | id in w.rows.assets :: id in w.blobs || SomeBlobGone(w.calls, id)
  }

  ghost predicate Accounted(w: World) { BlobsAccounted(w) && RowsAccounted(w) }

  ghost predicate CallInv(w: World, call: Call) {
    match call
    case Put(id, a) => id in w.blobs && id < w.nextId && id !in w.rows.assets
    case Cleaning(id) => id < w.nextId && id !in w.rows.assets
    case Removing(_, id) => id < w.nextId
    case Removed(_, id) => id < w.nextId && id !in w.blobs
    case Clearing(_, rest) => forall id | id in rest :: id < w.nextId
    case ClearingOne(_, rest) => (forall id | id in rest :: id < w.nextId) && rest != [] && rest[0] !in w.blobs
    case _ => true
  }

  // Each id is used once: no upload in flight holds another's id.
  ghost predicate OwnIds(w: World) {
    forall i, j, id | i in w.calls && j in w.calls && InFlight(w.calls[i], id) && InFlight(w.calls[j], id) :: i == j
  }

  ghost predicate NoStrangers(w: World) {
    forall i, j, id | i in w.calls && j in w.calls && InFlight(w.calls[i], id) :: !Touches(w.calls[j], id)
  }

  // Calls that work on the asset of `id`.
  predicate Touches(call: Call, id: nat) {
    || ((call.Removing? || call.Removed?) && call.id == id)
    || ((call.Clearing? || call.ClearingOne?) && id in call.rest)
  }

  // Every id in the world has been given out.
  ghost predicate KnownIds(w: World) {
    forall id | id in w.rows.assets || id in w.rows.releases || id in w.blobs :: id < w.nextId
  }

  ghost predicate Inv(w: World) {
    && KnownIds(w) && OwnIds(w) && NoStrangers(w)
    && (forall i | i in w.calls :: CallInv(w, w.calls[i]))
  }

  // --- Each step ---------------------------------------------------------------------------

  function CallOf(w: World, i: nat): Call { if i in w.calls then w.calls[i] else Finished }

  // What one step of call `i` may do to the rows and blobs that other calls
  // rely on.
  ghost predicate Tame(w: World, i: nat, w': World) {
    && i in w'.calls && w'.calls == w.calls[i := w'.calls[i]] && w.nextId <= w'.nextId
    && (forall id | id in w'.rows.assets && id in w.rows.assets :: w'.rows.assets[id] == w.rows.assets[id])
    && (forall id | id in w'.rows.assets && id !in w.rows.assets :: InFlight(CallOf(w, i), id))
    && (forall id | id in w.blobs && id !in w'.blobs :: InFlight(CallOf(w, i), id) || Touches(CallOf(w, i), id))
    && (forall id | id in w'.blobs && id !in w.blobs :: id >= w.nextId)
    && (forall id | InFlight(w'.calls[i], id) :: InFlight(CallOf(w, i), id) || id == w.nextId < w'.nextId)
    && (forall id | Touches(w'.calls[i], id) :: Touches(CallOf(w, i), id) || id in w.rows.assets)
  }

  lemma IdsKept(w: World, i: nat, w': World)
    requires Inv(w) && Tame(w, i, w')
    ensures OwnIds(w') && NoStrangers(w')
  {
    forall j, id: nat | j in w.calls && InFlight(w.calls[j], id) ensures id < w.nextId && id !in w.rows.assets {
      assert CallInv(w, w.calls[j]);
    }
    forall j, id: nat | j in w.calls && Touches(w.calls[j], id) ensures id < w.nextId {
      assert CallInv(w, w.calls[j]);
    }
  }

  lemma OtherKept(w: World, i: nat, w': World, j: nat)
    requires Inv(w) && Tame(w, i, w') && j in w.calls && j != i
    ensures CallInv(w', w.calls[j])
  {
    assert CallInv(w, w.calls[j]);
    if w.calls[j].ClearingOne? {
      assert w.calls[j].rest[0] in w.calls[j].rest;
    }
  }

  lemma InvKept(w: World, i: nat, w': World)
    requires Inv(w) && Tame(w, i, w')
    requires KnownIds(w') && CallInv(w', w'.calls[i])
    ensures Inv(w')
  {
    IdsKept(w, i, w');
    forall j | j in w'.calls ensures CallInv(w', w'.calls[j]) {
      if j != i {
        OtherKept(w, i, w', j);
      }
    }
  }

  lemma BeginIsTame(w: World, i: nat, start: Start, l: Limits)
    requires Inv(w) && i !in w.calls
    ensures
      var w' := Begin(w, i, start, l);
      Tame(w, i, w') && KnownIds(w') && CallInv(w', w'.calls[i])
  {
  }

  lemma UploadIsTame(w: World, i: nat, l: Limits)
    requires Inv(w) && i in w.calls && (w.calls[i].Uploading? || w.calls[i].Put? || w.calls[i].Cleaning?)
    ensures
      var w' := Step(w, i, l);
      Tame(w, i, w') && KnownIds(w') && CallInv(w', w'.calls[i])
  {
    assert CallInv(w, w.calls[i]);
  }

  lemma DeletionIsTame(w: World, i: nat, l: Limits)
    requires Inv(w) && i in w.calls && (w.calls[i].Marked? || w.calls[i].Clearing?)
    ensures
      var w' := Step(w, i, l);
      Tame(w, i, w') && KnownIds(w') && CallInv(w', w'.calls[i])
  {
    assert CallInv(w, w.calls[i]);
  }

  lemma ClearingOneIsTame(w: World, i: nat, l: Limits)
    requires Inv(w) && i in w.calls && w.calls[i].ClearingOne?
    ensures
      var w' := Step(w, i, l);
      Tame(w, i, w') && KnownIds(w') && CallInv(w', w'.calls[i])
  {
    assert CallInv(w, w.calls[i]);
    assert forall id | id in w.calls[i].rest[1..] :: id in w.calls[i].rest;
  }

  lemma OtherIsTame(w: World, i: nat, l: Limits)
    requires Inv(w) && i in w.calls
    requires w.calls[i].Removing? || w.calls[i].Removed? || w.calls[i].Updating? || w.calls[i].Finished?
    ensures
      var w' := Step(w, i, l);
      Tame(w, i, w') && KnownIds(w') && CallInv(w', w'.calls[i])
  {
    assert CallInv(w, w.calls[i]);
  }

  lemma NextIsTame(w: World, i: nat, l: Limits, w': World)
    requires Inv(w) && Next(w, i, l, w')
    ensures Tame(w, i, w') && Inv(w')
  {
    if i !in w.calls {
      var start :| w' == Begin(w, i, start, l);
      BeginIsTame(w, i, start, l);
    } else {
      match w.calls[i] {
        case Uploading(_) => UploadIsTame(w, i, l);
        case Put(_, _) => UploadIsTame(w, i, l);
        case Cleaning(_) => UploadIsTame(w, i, l);
        case Marked(_) => DeletionIsTame(w, i, l);
        case Clearing(_, _) => DeletionIsTame(w, i, l);
        case ClearingOne(_, _) => ClearingOneIsTame(w, i, l);
        case _ => OtherIsTame(w, i, l);
      }
    }
    InvKept(w, i, w');
  }

  // --- The statement that can leave a blob behind --------------------------------------------

  // The step does not delete a release together with rows whose blobs are
  // still there.
  predicate TakesNoBlob(w: World, i: nat) {
    i in w.calls && w.calls[i].Clearing? && w.calls[i].rest == [] ==>
      forall id | id in w.rows.assets && w.rows.assets[id].release == w.calls[i].release :: id !in w.blobs
  }

  // The step accounts for what it does to blobs and rows.
  ghost predicate Accounts(w: World, i: nat, w': World)
    requires i in w'.calls
  {
    var call, call' := CallOf(w, i), w'.calls[i];
    && (forall id | id in w'.blobs && (id !in w.blobs || InFlight(call, id) || (id in w.rows.assets && id !in w'.rows.assets)) ::
          id in w'.rows.assets || InFlight(call', id))
    && (forall id | id in w'.rows.assets && (id !in w.rows.assets || (id in w.blobs && id !in w'.blobs) || BlobGone(call, id)) ::
          id in w'.blobs || BlobGone(call', id))
  }

  lemma StillInFlight(calls: map<nat, Call>, i: nat, call: Call, id: nat)
    requires SomeInFlight(calls, id) && (i in calls && InFlight(calls[i], id) ==> InFlight(call, id))
    ensures SomeInFlight(calls[i := call], id)
  {
    var j :| j in calls && InFlight(calls[j], id);
    assert InFlight(calls[i := call][j], id);
  }

  lemma StillGone(calls: map<nat, Call>, i: nat, call: Call, id: nat)
    requires SomeBlobGone(calls, id) && (i in calls && BlobGone(calls[i], id) ==> BlobGone(call, id))
    ensures SomeBlobGone(calls[i := call], id)
  {
    var j :| j in calls && BlobGone(calls[j], id);
    assert BlobGone(calls[i := call][j], id);
  }

  lemma AccountsKept(w: World, i: nat, w': World)
    requires Accounted(w) && Tame(w, i, w') && Accounts(w, i, w')
    ensures Accounted(w')
  {
    forall id | id in w'.blobs && id !in w'.rows.assets ensures SomeInFlight(w'.calls, id) {
      if InFlight(w'.calls[i], id) {
      } else {
        StillInFlight(w.calls, i, w'.calls[i], id);
      }
    }
    forall id | id in w'.rows.assets && id !in w'.blobs ensures SomeBlobGone(w'.calls, id) {
      if BlobGone(w'.calls[i], id) {
      } else {
        StillGone(w.calls, i, w'.calls[i], id);
      }
    }
  }

  // A blob that lost its row in the last statement of a deletion has no upload
  // in flight either.
  lemma TakenBlobIsLost(w: World, i: nat, l: Limits, id: nat)
    requires Inv(w) && i in w.calls && w.calls[i].Clearing? && w.calls[i].rest == []
    requires id in w.rows.assets && w.rows.assets[id].release == w.calls[i].release && id in w.blobs
    ensures !BlobsAccounted(Step(w, i, l))
  {
    var w' := Step(w, i, l);
    assert id in w'.blobs && id !in w'.rows.assets;
    forall j | j in w'.calls ensures !InFlight(w'.calls[j], id) {
      assert CallInv(w, w.calls[j]);
    }
  }

  lemma NextAccounts(w: World, i: nat, l: Limits, w': World)
    requires Inv(w) && Next(w, i, l, w') && i in w'.calls && TakesNoBlob(w, i)
    ensures Accounts(w, i, w')
  {
    assert i in w.calls ==> CallInv(w, w.calls[i]);
  }

  lemma NextIsAccountedIff(w: World, i: nat, l: Limits, w': World)
    requires Inv(w) && Accounted(w) && Next(w, i, l, w')
    ensures Accounted(w') <==> TakesNoBlob(w, i)
  {
    NextIsTame(w, i, l, w');
    if TakesNoBlob(w, i) {
      NextAccounts(w, i, l, w');
      AccountsKept(w, i, w');
    } else {
      var id :| id in w.rows.assets && w.rows.assets[id].release == w.calls[i].release && id in w.blobs;
      TakenBlobIsLost(w, i, l, id);
    }
  }

  // --- Runs ------------------------------------------------------------------------------------

  const START := World(Rows(map[], map[]), {}, 0, map[])

  ghost predicate IsRun(states: seq<World>, steps: seq<nat>, l: Limits) {
    && |states| == |steps| + 1 && states[0] == START && ValidLimits(l)
    && forall n | 0 <= n < |steps| :: Next(states[n], steps[n], l, states[n + 1])
  }

  lemma {:induction false} RunKeepsInv(states: seq<World>, steps: seq<nat>, l: Limits, n: nat)
    requires IsRun(states, steps, l) && n <= |steps|
    ensures Inv(states[n])
  {
    if n > 0 {
      RunKeepsInv(states, steps, l, n - 1);
      NextIsTame(states[n - 1], steps[n - 1], l, states[n]);
    }
  }

  // In every run: each blob belongs to a row or to an upload in flight, and each
  // row has its blob unless it is being deleted, if and only if no deletion
  // ends with rows whose blobs are still there.
  lemma {:induction false} BlobsAndRowsMatchIff(states: seq<World>, steps: seq<nat>, l: Limits, n: nat)
    requires IsRun(states, steps, l) && n <= |steps|
    ensures (forall m | 0 <= m <= n :: Accounted(states[m])) <==> (forall m | 0 <= m < n :: TakesNoBlob(states[m], steps[m]))
  {
    if n > 0 {
      BlobsAndRowsMatchIff(states, steps, l, n - 1);
      RunKeepsInv(states, steps, l, n - 1);
      if Accounted(states[n - 1]) {
        NextIsAccountedIff(states[n - 1], steps[n - 1], l, states[n]);
      }
    }
  }

  // --- Runs in which no update reopens a release ------------------------------------------------

  // The step is not an update that was overtaken by a deletion of its release.
  predicate Polite(w: World, i: nat) {
    i in w.calls && w.calls[i].Updating? && w.calls[i].release in w.rows.releases ==>
      w.rows.releases[w.calls[i].release] != Deleting
  }

  ghost predicate IsPolite(states: seq<World>, steps: seq<nat>)
    requires |states| == |steps| + 1
  {
    forall n | 0 <= n < |steps| :: Polite(states[n], steps[n])
  }

  // The release takes assets.
  predicate Open(rows: Rows, r: nat) { r in rows.releases && rows.releases[r] != Deleting }

  // The release takes no more assets.
  predicate Closing(w: World, r: nat) {
    r < w.nextId && !Open(w.rows, r)
  }

  // The release has no assets but these.
  ghost predicate LeftOver(w: World, r: nat, rest: seq<nat>) {
    && (forall id | id in w.rows.assets && w.rows.assets[id].release == r :: id in rest)
    && (forall id | id in rest :: id < w.nextId && (id in w.rows.assets ==> w.rows.assets[id].release == r))
  }

  // What a deletion relies on.
  ghost predicate DeletionInv(w: World, call: Call) {
    match call
    case Marked(r) => Closing(w, r)
    case Clearing(r, rest) => Closing(w, r) && LeftOver(w, r, rest)
    case ClearingOne(r, rest) => Closing(w, r) && LeftOver(w, r, rest)
    case _ => true
  }

  ghost predicate PoliteInv(w: World) {
    Inv(w) && forall i | i in w.calls :: DeletionInv(w, w.calls[i])
  }

  // A closed release stays closed and gains no asset.
  lemma ClosedStays(w: World, i: nat, l: Limits, w': World, r: nat)
    requires PoliteInv(w) && Next(w, i, l, w') && Polite(w, i) && Closing(w, r)
    ensures Closing(w', r) && OfRelease(w'.rows.assets, r).Keys <= OfRelease(w.rows.assets, r).Keys
  {
    NextIsTame(w, i, l, w');
  }

  lemma OtherDeletionKept(w: World, i: nat, l: Limits, w': World, j: nat)
    requires PoliteInv(w) && Next(w, i, l, w') && Polite(w, i) && j in w.calls && j != i
    ensures DeletionInv(w', w.calls[j])
  {
    NextIsTame(w, i, l, w');
    assert DeletionInv(w, w.calls[j]) && CallInv(w, w.calls[j]);
    if w.calls[j].Marked? || w.calls[j].Clearing? || w.calls[j].ClearingOne? {
      var r := w.calls[j].release;
      ClosedStays(w, i, l, w', r);
      forall id | id in w'.rows.assets && w'.rows.assets[id].release == r ensures id in w.rows.assets && w.rows.assets[id].release == r {
        assert id in OfRelease(w'.rows.assets, r);
      }
    }
  }

  lemma OwnDeletionKept(w: World, i: nat, l: Limits, w': World)
    requires PoliteInv(w) && Next(w, i, l, w') && Polite(w, i)
    ensures i in w'.calls && DeletionInv(w', w'.calls[i])
  {
    if i in w.calls {
      StepKeepsDeletion(w, i, l);
    }
  }

  lemma StepKeepsDeletion(w: World, i: nat, l: Limits)
    requires PoliteInv(w) && i in w.calls
    ensures i in Step(w, i, l).calls && DeletionInv(Step(w, i, l), Step(w, i, l).calls[i])
  {
    assert DeletionInv(w, w.calls[i]) && CallInv(w, w.calls[i]);
    if w.calls[i].ClearingOne? {
      assert w.calls[i].rest == [w.calls[i].rest[0]] + w.calls[i].rest[1..];
    }
  }

  lemma PoliteNext(w: World, i: nat, l: Limits, w': World)
    requires PoliteInv(w) && Next(w, i, l, w') && Polite(w, i)
    ensures PoliteInv(w')
  {
    NextIsTame(w, i, l, w');
    OwnDeletionKept(w, i, l, w');
    forall j | j in w'.calls ensures DeletionInv(w', w'.calls[j]) {
      if j != i {
        OtherDeletionKept(w, i, l, w', j);
      }
    }
  }

  lemma {:induction false} RunKeepsPoliteInv(states: seq<World>, steps: seq<nat>, l: Limits, n: nat)
    requires IsRun(states, steps, l) && IsPolite(states, steps) && n <= |steps|
    ensures PoliteInv(states[n])
  {
    if n > 0 {
      RunKeepsPoliteInv(states, steps, l, n - 1);
      PoliteNext(states[n - 1], steps[n - 1], l, states[n]);
    }
  }

  // Without an update overtaken by a deletion: every blob belongs to a row or to
  // an upload in flight, and every row has its blob unless it is being deleted.
  lemma BlobsAndRowsMatch(states: seq<World>, steps: seq<nat>, l: Limits, n: nat)
    requires IsRun(states, steps, l) && IsPolite(states, steps) && n <= |steps|
    ensures BlobsAccounted(states[n]) && RowsAccounted(states[n]) && Inv(states[n])
  {
    forall m | 0 <= m < n ensures TakesNoBlob(states[m], steps[m]) {
      RunKeepsPoliteInv(states, steps, l, m);
      assert steps[m] in states[m].calls ==> DeletionInv(states[m], states[m].calls[steps[m]]);
    }
    BlobsAndRowsMatchIff(states, steps, l, n);
    RunKeepsInv(states, steps, l, n);
  }

  ghost predicate ClosedWithin(w: World, r: nat, ids: set<nat>) {
    Closing(w, r) && OfRelease(w.rows.assets, r).Keys <= ids
  }

  lemma ClosedStaysInRun(states: seq<World>, steps: seq<nat>, l: Limits, n: nat, r: nat, ids: set<nat>)
    requires IsRun(states, steps, l) && IsPolite(states, steps) && n < |steps| && ClosedWithin(states[n], r, ids)
    ensures ClosedWithin(states[n + 1], r, ids)
  {
    RunKeepsPoliteInv(states, steps, l, n);
    ClosedStays(states[n], steps[n], l, states[n + 1], r);
  }

  // Without such an update: from the moment a release is marked or gone, it
  // gains no asset.
  lemma {:induction false} NoAssetAfterMark(states: seq<World>, steps: seq<nat>, l: Limits, m: nat, n: nat, r: nat, ids: set<nat>)
    requires IsRun(states, steps, l) && IsPolite(states, steps) && m <= n <= |steps| && ClosedWithin(states[m], r, ids)
    ensures ClosedWithin(states[n], r, ids)
  {
    if m < n {
      NoAssetAfterMark(states, steps, l, m, n - 1, r, ids);
      ClosedStaysInRun(states, steps, l, n - 1, r, ids);
    }
  }

  // Without such an update: when a deletion succeeds, the release has no row and
  // no asset left, and the last statement took no asset row.
  lemma DeletionLeavesNothing(states: seq<World>, steps: seq<nat>, l: Limits, n: nat)
    requires IsRun(states, steps, l) && IsPolite(states, steps) && n < |steps|
    requires steps[n] in states[n].calls && states[n].calls[steps[n]].Clearing? && states[n].calls[steps[n]].rest == []
    ensures
      var r := states[n].calls[steps[n]].release;
      && r !in states[n + 1].rows.releases && OfRelease(states[n + 1].rows.assets, r) == map[]
      && states[n + 1].rows.assets == states[n].rows.assets
  {
    RunKeepsPoliteInv(states, steps, l, n);
    assert DeletionInv(states[n], states[n].calls[steps[n]]);
  }

  // --- Quotas, in every run ------------------------------------------------------------------

  lemma EmptyIsWithinQuota(l: Limits)
    requires ValidLimits(l)
    ensures WithinQuota(START.rows, l)
  {
    forall r ensures ReleaseTotal(map[], r) <= l.releaseBytes {
      assert OfRelease(map[], r) == map[];
    }
  }

  // Marking or overwriting a release leaves its assets.
  lemma SameAssets(rows: Rows, rows': Rows, l: Limits)
    requires WithinQuota(rows, l) && rows'.assets == rows.assets && rows.releases.Keys <= rows'.releases.Keys
    ensures WithinQuota(rows', l)
  {
  }

  ghost predicate QuotaInv(w: World, l: Limits) {
    && WithinQuota(w.rows, l)
    && (forall i | i in w.calls :: SizedCall(w.calls[i]))
  }

  lemma {:induction false} TotalOfSome(assets: map<nat, Asset>, some: map<nat, Asset>)
    requires Sized(assets) && some.Keys <= assets.Keys && forall id | id in some :: some[id] == assets[id]
    ensures Total(some) <= Total(assets)
    decreases |assets|
  {
    if assets == map[] {
      assert some == map[];
    } else {
      var id :| id in assets;
      TotalWithout(assets, id);
      if id in some {
        TotalWithout(some, id);
        TotalOfSome(assets - {id}, some - {id});
      } else {
        TotalOfSome(assets - {id}, some);
      }
    }
  }

  lemma ReleaseDeletionStaysWithinQuota(rows: Rows, r: nat, l: Limits)
    requires WithinQuota(rows, l)
    ensures WithinQuota(WithoutRelease(rows, r), l)
  {
    var rows' := WithoutRelease(rows, r);
    TotalOfSome(rows.assets, rows'.assets);
    forall q ensures ReleaseTotal(rows'.assets, q) <= l.releaseBytes {
      assert ReleaseTotal(rows.assets, q) <= l.releaseBytes;
      TotalOfSome(OfRelease(rows.assets, q), OfRelease(rows'.assets, q));
    }
  }

  lemma RowsStayWithinQuota(w: World, i: nat, l: Limits)
    requires QuotaInv(w, l) && i in w.calls
    ensures WithinQuota(Step(w, i, l).rows, l)
  {
    match w.calls[i] {
      case Put(id, a) =>
        if Created(w.rows, id, a, l).Ok? { CreatedStaysWithinQuota(w.rows, id, a, l); }
      case Removed(_, id) => DeletionStaysWithinQuota(w.rows, id, l);
      case Clearing(r, _) => ReleaseDeletionStaysWithinQuota(w.rows, r, l);
      case ClearingOne(_, rest) =>
        if rest != [] { DeletionStaysWithinQuota(w.rows, rest[0], l); }
      case Updating(_, _) => SameAssets(w.rows, Step(w, i, l).rows, l);
      case _ =>
    }
  }

  predicate SizedCall(call: Call) { call.Uploading? || call.Put? ==> call.asset.size >= 0 }

  lemma StepIsSized(w: World, i: nat, l: Limits)
    requires i in w.calls && SizedCall(w.calls[i])
    ensures Step(w, i, l).calls.Keys == w.calls.Keys && SizedCall(Step(w, i, l).calls[i])
    ensures forall j | j in w.calls && j != i :: Step(w, i, l).calls[j] == w.calls[j]
  {
  }

  lemma QuotaNext(w: World, i: nat, l: Limits, w': World)
    requires QuotaInv(w, l) && Next(w, i, l, w')
    ensures QuotaInv(w', l)
  {
    if i in w.calls {
      RowsStayWithinQuota(w, i, l);
      StepIsSized(w, i, l);
    } else {
      var start :| w' == Begin(w, i, start, l);
      QuotaBegin(w, i, start, l);
    }
  }

  lemma QuotaBegin(w: World, i: nat, start: Start, l: Limits)
    requires QuotaInv(w, l) && i !in w.calls
    ensures QuotaInv(Begin(w, i, start, l), l)
  {
    SameAssets(w.rows, Begin(w, i, start, l).rows, l);
  }

  // Summed sizes stay within both limits in every state of every run.
  lemma {:induction false} QuotasHold(states: seq<World>, steps: seq<nat>, l: Limits, n: nat)
    requires IsRun(states, steps, l) && n <= |steps|
    ensures QuotaInv(states[n], l)
  {
    if n == 0 {
      EmptyIsWithinQuota(l);
    } else {
      QuotasHold(states, steps, l, n - 1);
      QuotaNext(states[n - 1], steps[n - 1], l, states[n]);
    }
  }

  // --- What a call achieves by itself -----------------------------------------------------------

  ghost function Steps(w: World, i: nat, l: Limits, n: nat): World
    requires i in w.calls
    ensures i in Steps(w, i, l, n).calls
    decreases n
  {
    if n == 0 then w else Steps(Step(w, i, l), i, l, n - 1)
  }

  // The asset fits, and its release takes assets of that name.
  ghost predicate Fits(w: World, a: Asset, l: Limits) {
    && 0 <= a.size <= l.assetBytes && a.release in w.rows.releases && w.rows.releases[a.release] != Deleting
    && ReleaseTotal(w.rows.assets, a.release) + a.size <= l.releaseBytes && Total(w.rows.assets) + a.size <= l.repositoryBytes
    && forall id | id in w.rows.assets && w.rows.assets[id].release == a.release :: w.rows.assets[id].name != a.name
  }

  // An upload that fits stores its blob and its row; any other leaves both
  // stores as they were.
  lemma UploadAlone(w: World, i: nat, a: Asset, l: Limits)
    requires Inv(w) && i !in w.calls
    ensures
      var end := Steps(Begin(w, i, Upload(a), l), i, l, 3);
      && end.calls[i] == Finished
      && end.rows == (if Fits(w, a, l) then w.rows.(assets := w.rows.assets[w.nextId := a]) else w.rows)
      && end.blobs == (if Fits(w, a, l) then w.blobs + {w.nextId} else w.blobs)
  {
    assert w.nextId !in w.blobs && w.nextId !in w.rows.assets;
    var w0 := Begin(w, i, Upload(a), l);
    var w1 := Step(w0, i, l);
    var w2 := Step(w1, i, l);
    assert Steps(w0, i, l, 3) == Step(w2, i, l) by {
      assert Steps(w2, i, l, 1) == Step(w2, i, l);
      assert Steps(w1, i, l, 2) == Steps(w2, i, l, 1);
    }
    assert NameTaken(w.rows.assets, a) <==>
           exists id | id in w.rows.assets :: w.rows.assets[id].release == a.release && w.rows.assets[id].name == a.name;
  }

  // A deletion of an asset takes its blob and its row.
  lemma DeletionAlone(w: World, i: nat, r: nat, id: nat, l: Limits)
    requires i !in w.calls
    ensures
      var end := Steps(Begin(w, i, DeleteAsset(r, id), l), i, l, 2);
      var found := id in w.rows.assets && w.rows.assets[id].release == r;
      && end.calls[i] == Finished
      && end.rows == (if found then WithoutAsset(w.rows, id) else w.rows) && end.blobs == (if found then w.blobs - {id} else w.blobs)
  {
    var w0 := Begin(w, i, DeleteAsset(r, id), l);
    var w1 := Step(w0, i, l);
    assert Steps(w0, i, l, 2) == Step(w1, i, l) by {
      assert Steps(w1, i, l, 1) == Step(w1, i, l);
    }
  }

  // Two steps of a deletion: the first asset's blob, then its row.
  lemma ClearOne(w: World, i: nat, l: Limits)
    requires i in w.calls && w.calls[i].Clearing? && w.calls[i].rest != [] && w.calls[i].rest[0] in w.rows.assets
    ensures
      var r, rest := w.calls[i].release, w.calls[i].rest;
      Step(Step(w, i, l), i, l) ==
      World(WithoutAsset(w.rows, rest[0]), w.blobs - {rest[0]}, w.nextId, w.calls[i := Clearing(r, rest[1..])])
  {
  }

  lemma TwoSteps(w: World, i: nat, l: Limits, n: nat)
    requires i in w.calls
    ensures i in Step(w, i, l).calls && Steps(w, i, l, n + 2) == Steps(Step(Step(w, i, l), i, l), i, l, n)
  {
    assert Steps(w, i, l, n + 2) == Steps(Step(w, i, l), i, l, n + 1);
  }

  function LeftBy(assets: map<nat, Asset>, rest: seq<nat>, r: nat): map<nat, Asset> {
    map id | id in assets && id !in rest && assets[id].release != r :: assets[id]
  }

  lemma LeftByRest(assets: map<nat, Asset>, blobs: set<nat>, rest: seq<nat>, r: nat)
    requires rest != [] && Distinct(rest) && forall id | id in rest :: id in assets
    ensures Distinct(rest[1..]) && forall id | id in rest[1..] :: id in assets - {rest[0]}
    ensures LeftBy(assets - {rest[0]}, rest[1..], r) == LeftBy(assets, rest, r)
    ensures blobs - {rest[0]} - (set id | id in rest[1..]) == blobs - set id | id in rest
  {
    assert rest == [rest[0]] + rest[1..];
  }

  lemma ClearLast(w: World, i: nat, l: Limits)
    requires i in w.calls && w.calls[i].Clearing? && w.calls[i].rest == []
    ensures Steps(w, i, l, 1) == Become(w, i, Finished).(rows := WithoutRelease(w.rows, w.calls[i].release))
  {
    assert Steps(w, i, l, 1) == Step(w, i, l);
  }

  lemma {:induction false} ClearingAlone(w: World, i: nat, l: Limits)
    requires i in w.calls && w.calls[i].Clearing? && Distinct(w.calls[i].rest)
    requires forall id | id in w.calls[i].rest :: id in w.rows.assets
    ensures
      var r, rest := w.calls[i].release, w.calls[i].rest;
      var end := Steps(w, i, l, 2 * |rest| + 1);
      && end.calls[i] == Finished && end.blobs == w.blobs - (set id | id in rest)
      && end.rows == Rows(w.rows.releases - {r}, LeftBy(w.rows.assets, rest, r))
    decreases |w.calls[i].rest|
  {
    var r, rest := w.calls[i].release, w.calls[i].rest;
    if rest == [] {
      ClearLast(w, i, l);
      assert w.blobs - (set id | id in rest) == w.blobs;
      assert LeftBy(w.rows.assets, rest, r) == WithoutRelease(w.rows, r).assets;
    } else {
      ClearOne(w, i, l);
      TwoSteps(w, i, l, 2 * |rest[1..]| + 1);
      LeftByRest(w.rows.assets, w.blobs, rest, r);
      ClearingAlone(World(WithoutAsset(w.rows, rest[0]), w.blobs - {rest[0]}, w.nextId, w.calls[i := Clearing(r, rest[1..])]), i, l);
    }
  }

  // A deletion of a release takes the release, its assets and their blobs, and
  // nothing else.
  lemma ReleaseDeletionAlone(w: World, i: nat, r: nat, l: Limits)
    requires i !in w.calls && r in w.rows.releases
    ensures
      var own := OfRelease(w.rows.assets, r).Keys;
      var end := Steps(Begin(w, i, Delete(r), l), i, l, 2 * |own| + 2);
      && end.calls[i] == Finished && end.blobs == w.blobs - own
      && end.rows.releases == w.rows.releases - {r} && end.rows.assets == w.rows.assets - own
  {
    var own := OfRelease(w.rows.assets, r).Keys;
    var w1 := DeletionStarts(w, i, r, l);
    ClearingAlone(w1, i, l);
    assert Steps(Begin(w, i, Delete(r), l), i, l, 2 * |own| + 2) == Steps(w1, i, l, 2 * |own| + 1);
    RowsWithout(w.rows.assets, w1.calls[i].rest, r);
  }

  lemma RowsWithout(assets: map<nat, Asset>, rest: seq<nat>, r: nat)
    requires forall id :: id in rest <==> id in OfRelease(assets, r)
    ensures (set id | id in rest) == OfRelease(assets, r).Keys
    ensures LeftBy(assets, rest, r) == assets - OfRelease(assets, r).Keys
  {
  }

  lemma DeletionStarts(w: World, i: nat, r: nat, l: Limits) returns (w1: World)
    requires i !in w.calls && r in w.rows.releases
    ensures i in Begin(w, i, Delete(r), l).calls && w1 == Step(Begin(w, i, Delete(r), l), i, l) && i in w1.calls
    ensures w1.calls[i].Clearing? && w1.calls[i].release == r && Distinct(w1.calls[i].rest)
    ensures |w1.calls[i].rest| == |OfRelease(w.rows.assets, r).Keys|
    ensures forall id :: id in w1.calls[i].rest <==> id in OfRelease(w.rows.assets, r)
    ensures w1.blobs == w.blobs && w1.rows.assets == w.rows.assets && w1.rows.releases - {r} == w.rows.releases - {r}
  {
    w1 := Step(Begin(w, i, Delete(r), l), i, l);
    assert w.rows.releases[r := Deleting] - {r} == w.rows.releases - {r};
  }

  // --- The overtaken update ---------------------------------------------------------------------

  ghost predicate Reachable(w: World, l: Limits) {
    exists states, steps :: IsRun(states, steps, l) && states[|steps|] == w
  }

  lemma Extend(w: World, i: nat, l: Limits, w': World)
    requires Reachable(w, l) && Next(w, i, l, w')
    ensures Reachable(w', l)
  {
    var states, steps :| IsRun(states, steps, l) && states[|steps|] == w;
    var states', steps' := states + [w'], steps + [i];
    assert IsRun(states', steps', l) && states'[|steps'|] == w';
  }

  lemma StartIsReachable(l: Limits)
    requires ValidLimits(l)
    ensures Reachable(START, l)
  {
    var states, steps: seq<nat> := [START], [];
    assert IsRun(states, steps, l) && states[|steps|] == START;
  }

  lemma EmptyListing(rows: Rows, r: nat)
    requires rows.assets == map[]
    ensures Listing(rows, r) == []
  {
    assert OfRelease(rows.assets, r) == map[];
  }

  // A release is found empty while an update is about to bring it back.
  lemma EmptyReleaseIsBroughtBack(l: Limits) returns (w: World)
    requires ValidLimits(l)
    ensures Reachable(w, l)
    ensures w == World(Rows(map[0 := Published], map[]), {}, 1, map[0 := Finished, 1 := Finished, 2 := Clearing(0, [])])
  {
    StartIsReachable(l);
    var s1 := Begin(START, 0, Create(false), l);
    Extend(START, 0, l, s1);
    var s2 := Begin(s1, 1, Update(0, false), l);
    Extend(s1, 1, l, s2);
    var s3 := Begin(s2, 2, Delete(0), l);
    Extend(s2, 2, l, s3);
    EmptyListing(s3.rows, 0);
    var s4 := Step(s3, 2, l);
    Extend(s3, 2, l, s4);
    w := Step(s4, 1, l);
    Extend(s4, 1, l, w);
  }

  // An upload then adds an asset, and the deletion takes that row with the
  // release. Its blob stays behind.
  lemma OvertakenUpdateOrphansBlob(l: Limits) returns (w: World)
    requires ValidLimits(l)
    ensures Reachable(w, l) && w.rows.assets == map[] && w.blobs == {1} && !BlobsAccounted(w)
  {
    var a := Asset(0, "a", 0);
    var s5 := EmptyReleaseIsBroughtBack(l);
    var s6 := Begin(s5, 3, Upload(a), l);
    Extend(s5, 3, l, s6);
    var s7 := Step(s6, 3, l);
    Extend(s6, 3, l, s7);
    assert OfRelease(map[], 0) == map[];
    assert Created(s7.rows, 1, a, l) == Ok(s7.rows.(assets := map[1 := a]));
    var s8 := Step(s7, 3, l);
    Extend(s7, 3, l, s8);
    w := Step(s8, 2, l);
    Extend(s8, 2, l, w);
    assert w.rows.assets == map[];
    assert w.blobs == {1};
    assert w.calls == map[0 := Finished, 1 := Finished, 2 := Finished, 3 := Finished];
    assert !SomeInFlight(w.calls, 1);
  }
}
