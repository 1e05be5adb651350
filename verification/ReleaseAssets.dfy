// Releases of one repository and their assets: rows in the database, bytes in
// the blob store. An asset's storage key is made from its id, so the id stands
// for both.
module ReleaseAssets {
  import opened Options

  datatype ReleaseState = Draft | Published | Deleting

  datatype Asset = Asset(release: nat, name: string, size: int)

  datatype Limits = Limits(assetBytes: int, releaseBytes: int, repositoryBytes: int)

  datatype Error = NotFound | Conflict | QuotaExceeded

  const INT64_MAX := 0x7FFF_FFFF_FFFF_FFFF

  // The result of an operation on 64-bit integers.
  function Int64(x: int): int { (x + INT64_MAX + 1) % (2 * (INT64_MAX + 1)) - INT64_MAX - 1 }

  // Limits.Validate, on 64-bit limits.
  predicate ValidLimits(l: Limits) { 0 < l.assetBytes <= l.releaseBytes <= l.repositoryBytes <= INT64_MAX }

  function Exceeds(current: int, additional: int, maximum: int): bool { current > Int64(maximum - additional) }

  // The test neither overflows nor rounds. The sum that it avoids can overflow,
  // and compares wrongly then.
  lemma ExceedsIsExact(current: int, additional: int, maximum: int)
    requires 0 <= current <= INT64_MAX && 0 <= additional && 0 <= maximum <= INT64_MAX && additional <= INT64_MAX
    ensures Int64(maximum - additional) == maximum - additional
    ensures Exceeds(current, additional, maximum) <==> current + additional > maximum
    ensures Int64(current + additional) > maximum <==> current + additional > maximum && current + additional <= INT64_MAX
  {
    if current + additional > INT64_MAX {
      assert Int64(current + additional) == current + additional - 2 * (INT64_MAX + 1);
    }
  }

  // --- Sizes -----------------------------------------------------------------------

  ghost function Total(assets: map<nat, Asset>): int
    decreases |assets|
  {
    if assets == map[] then 0
    else
      var id :| id in assets;
      assets[id].size + Total(assets - {id})
  }

  lemma {:induction false} TotalWithout(assets: map<nat, Asset>, id: nat)
    requires id in assets
    ensures Total(assets) == assets[id].size + Total(assets - {id})
    decreases |assets|
  {
    var first :| first in assets && Total(assets) == assets[first].size + Total(assets - {first});
    if first != id {
      TotalWithout(assets - {first}, id);
      TotalWithout(assets - {id}, first);
      assert assets - {first} - {id} == assets - {id} - {first};
    }
  }

  lemma TotalWith(assets: map<nat, Asset>, id: nat, a: Asset)
    requires id !in assets
    ensures Total(assets[id := a]) == Total(assets) + a.size
  {
    TotalWithout(assets[id := a], id);
    assert assets[id := a] - {id} == assets;
  }

  function OfRelease(assets: map<nat, Asset>, r: nat): map<nat, Asset> {
    map id | id in assets && assets[id].release == r :: assets[id]
  }

  ghost function ReleaseTotal(assets: map<nat, Asset>, r: nat): int { Total(OfRelease(assets, r)) }

  lemma OfReleaseWith(assets: map<nat, Asset>, id: nat, a: Asset, r: nat)
    requires id !in assets
    ensures ReleaseTotal(assets[id := a], r) == ReleaseTotal(assets, r) + if a.release == r then a.size else 0
  {
    if a.release == r {
      TotalWith(OfRelease(assets, r), id, a);
      assert OfRelease(assets[id := a], r) == OfRelease(assets, r)[id := a];
    } else {
      assert OfRelease(assets[id := a], r) == OfRelease(assets, r);
    }
  }

  lemma OfReleaseWithout(assets: map<nat, Asset>, id: nat, r: nat)
    requires id in assets && assets[id].size >= 0
    ensures ReleaseTotal(assets - {id}, r) <= ReleaseTotal(assets, r)
  {
    if assets[id].release == r {
      TotalWithout(OfRelease(assets, r), id);
      assert OfRelease(assets - {id}, r) == OfRelease(assets, r) - {id};
    } else {
      assert OfRelease(assets - {id}, r) == OfRelease(assets, r);
    }
  }

  ghost predicate Sized(assets: map<nat, Asset>) { forall id | id in assets :: assets[id].size >= 0 }

  lemma TotalIsNatural(assets: map<nat, Asset>)
    requires Sized(assets)
    ensures Total(assets) >= 0
    decreases |assets|
  {
    if assets != map[] {
      var id :| id in assets && Total(assets) == assets[id].size + Total(assets - {id});
      TotalIsNatural(assets - {id});
    }
  }

  // --- Rows --------------------------------------------------------------------------

  datatype Rows = Rows(releases: map<nat, ReleaseState>, assets: map<nat, Asset>)

  ghost predicate WithinQuota(rows: Rows, l: Limits) {
    && Sized(rows.assets) && Total(rows.assets) <= l.repositoryBytes
    && (forall r :: ReleaseTotal(rows.assets, r) <= l.releaseBytes)
    && (forall id | id in rows.assets :: rows.assets[id].release in rows.releases)
  }

  predicate NameTaken(assets: map<nat, Asset>, a: Asset) {
    exists id | id in assets :: assets[id].release == a.release && assets[id].name == a.name
  }

  // CreateAsset, one transaction under the quota lock.
  ghost function Created(rows: Rows, id: nat, a: Asset, l: Limits): Result<Rows, Error> {
    if a.release !in rows.releases || rows.releases[a.release] == Deleting then Err(NotFound)
    else if ReleaseTotal(rows.assets, a.release) + a.size > l.releaseBytes || Total(rows.assets) + a.size > l.repositoryBytes
    then Err(QuotaExceeded)
    else if id in rows.assets || NameTaken(rows.assets, a) then Err(Conflict)
    else Ok(rows.(assets := rows.assets[id := a]))
  }

  lemma CreatedStaysWithinQuota(rows: Rows, id: nat, a: Asset, l: Limits)
    requires WithinQuota(rows, l) && a.size >= 0 && Created(rows, id, a, l).Ok?
    ensures WithinQuota(Created(rows, id, a, l).value, l)
  {
    TotalWith(rows.assets, id, a);
    var after := rows.assets[id := a];
    forall r ensures ReleaseTotal(after, r) <= l.releaseBytes {
      OfReleaseWith(rows.assets, id, a, r);
    }
  }

  lemma DeletionStaysWithinQuota(rows: Rows, id: nat, l: Limits)
    requires WithinQuota(rows, l)
    ensures WithinQuota(rows.(assets := rows.assets - {id}), l)
  {
    if id in rows.assets {
      TotalWithout(rows.assets, id);
      forall r ensures ReleaseTotal(rows.assets - {id}, r) <= l.releaseBytes {
        OfReleaseWithout(rows.assets, id, r);
      }
    } else {
      assert rows.assets - {id} == rows.assets;
    }
  }

  // SELECT sum(size_bytes).
  method SumSizes(assets: map<nat, Asset>) returns (sum: int)
    ensures sum == Total(assets)
  {
    sum := 0;
    var rest := assets;
    while rest != map[]
      invariant sum + Total(rest) == Total(assets)
      decreases |rest|
    {
      var id :| id in rest;
      TotalWithout(rest, id);
      sum := sum + rest[id].size;
      rest := rest - {id};
    }
  }

  // --- The service, one call at a time -------------------------------------------------

  class Service {
    var rows: Rows
    var blobs: set<nat>
    var nextId: nat
    const limits: Limits

    constructor (limits: Limits)
      requires ValidLimits(limits)
      ensures Valid() && rows == Rows(map[], map[]) && blobs == {} && this.limits == limits
    {
      rows, blobs, nextId := Rows(map[], map[]), {}, 0;
      this.limits := limits;
      new;
      assert forall r :: OfRelease(map[], r) == map[];
    }

    // Every row has its blob, every blob its row, and the quotas hold.
    ghost predicate Valid()
      reads this
    {
      && ValidLimits(limits) && WithinQuota(rows, limits) && blobs == rows.assets.Keys
      && (forall id | id in rows.assets || id in rows.releases :: id < nextId)
    }

    method CreateRelease(draft: bool) returns (id: nat)
      requires Valid()
      modifies this
      ensures Valid() && id !in old(rows.releases)
      ensures rows == old(rows).(releases := old(rows.releases)[id := if draft then Draft else Published])
      ensures blobs == old(blobs)
    {
      id := nextId;
      nextId := nextId + 1;
      rows := rows.(releases := rows.releases[id := if draft then Draft else Published]);
    }

    method CreateAsset(id: nat, a: Asset) returns (result: Result<nat, Error>)
      requires ValidLimits(limits) && WithinQuota(rows, limits) && 0 <= a.size <= limits.assetBytes
      modifies this`rows
      ensures WithinQuota(rows, limits)
      ensures
        match Created(old(rows), id, a, limits)
        case Ok(after) => rows == after && result == Ok(id)
        case Err(error) => rows == old(rows) && result == Err(error)
    {
      TotalIsNatural(rows.assets);
      TotalIsNatural(OfRelease(rows.assets, a.release));
      var repositoryBytes := SumSizes(rows.assets);
      var releaseBytes := SumSizes(OfRelease(rows.assets, a.release));
      assert releaseBytes == ReleaseTotal(rows.assets, a.release) <= limits.releaseBytes;
      if a.release !in rows.releases || rows.releases[a.release] == Deleting {
        return Err(NotFound);
      }
      ExceedsIsExact(releaseBytes, a.size, limits.releaseBytes);
      ExceedsIsExact(repositoryBytes, a.size, limits.repositoryBytes);
      if Exceeds(releaseBytes, a.size, limits.releaseBytes) || Exceeds(repositoryBytes, a.size, limits.repositoryBytes) {
        return Err(QuotaExceeded);
      }
      if id in rows.assets || NameTaken(rows.assets, a) {
        return Err(Conflict);
      }
      ghost var before := rows;
      rows := rows.(assets := rows.assets[id := a]);
      CreatedStaysWithinQuota(before, id, a, limits);
      result := Ok(id);
    }

    method UploadAsset(a: Asset) returns (result: Result<nat, Error>)
      requires Valid()
      modifies this
      ensures Valid() && rows.releases == old(rows.releases)
      ensures result.Err? ==> rows == old(rows) && blobs == old(blobs)
      ensures result.Ok? ==> result.value !in old(rows.assets) && rows.assets == old(rows.assets)[result.value := a]
      ensures result.Ok? <==>
              && 0 <= a.size <= limits.assetBytes && a.release in old(rows.releases) && old(rows.releases[a.release]) != Deleting
              && ReleaseTotal(old(rows.assets), a.release) + a.size <= limits.releaseBytes
              && Total(old(rows.assets)) + a.size <= limits.repositoryBytes
              && forall x | x in old(rows.assets) && old(rows.assets[x].release) == a.release :: old(rows.assets[x].name) != a.name
      ensures result == Err(NotFound) <==>
              0 <= a.size <= limits.assetBytes && (a.release !in old(rows.releases) || old(rows.releases[a.release]) == Deleting)
      ensures result == Err(Conflict) ==>
                exists x | x in old(rows.assets) :: old(rows.assets[x].release) == a.release && old(rows.assets[x].name) == a.name
    {
      if a.size < 0 || a.size > limits.assetBytes {
        return Err(QuotaExceeded);
      }
      if a.release !in rows.releases || rows.releases[a.release] == Deleting {
        return Err(NotFound);
      }
      var id := nextId;
      nextId := nextId + 1;
      blobs := blobs + {id};
      result := CreateAsset(id, a);
      if result.Err? {
        blobs := blobs - {id};
      }
    }

    method DeleteAsset(release: nat, id: nat) returns (result: Result<(), Error>)
      requires Valid()
      modifies this
      ensures Valid() && rows.releases == old(rows.releases)
      ensures result.Ok? <==> id in old(rows.assets) && old(rows.assets[id].release) == release
      ensures rows.assets == if result.Ok? then old(rows.assets) - {id} else old(rows.assets)
      ensures blobs == if result.Ok? then old(blobs) - {id} else old(blobs)
    {
      if id !in rows.assets || rows.assets[id].release != release {
        return Err(NotFound);
      }
      blobs := blobs - {id};
      DeletionStaysWithinQuota(rows, id, limits);
      rows := rows.(assets := rows.assets - {id});
      result := Ok(());
    }

    method DeleteListed(release: nat, listed: set<nat>)
      requires Valid() && release in rows.releases && listed <= OfRelease(rows.assets, release).Keys
      modifies this
      ensures Valid() && rows.releases == old(rows.releases)
      ensures rows.assets == old(rows.assets) - listed
    {
      var rest := listed;
      assert old(rows.assets) - {} == old(rows.assets) && listed - rest == {};
      while rest != {}
        invariant Valid() && rest <= listed
        invariant rows.releases == old(rows.releases)
        invariant rows.assets == old(rows.assets) - (listed - rest)
        decreases |rest|
      {
        var id :| id in rest;
        ghost var before := rows.assets;
        var deleted := DeleteAsset(release, id);
        MinusMore(old(rows.assets), listed, rest, id);
        rest := rest - {id};
      }
      assert listed - rest == listed;
    }

    // Marks the release, deletes what it lists, then the release itself.
    method Delete(release: nat) returns (result: Result<(), Error>)
      requires Valid()
      modifies this
      ensures Valid()
      ensures result.Ok? <==> release in old(rows.releases)
      ensures result.Ok? ==> rows.releases == old(rows.releases) - {release}
      ensures result.Ok? ==> rows.assets == old(rows.assets) - OfRelease(old(rows.assets), release).Keys
      ensures result.Err? ==> rows == old(rows)
    {
      if release !in rows.releases {
        return Err(NotFound);
      }
      rows := rows.(releases := rows.releases[release := Deleting]);
      DeleteListed(release, OfRelease(rows.assets, release).Keys);
      rows := rows.(releases := rows.releases - {release});
      result := Ok(());
    }
  }

  lemma MinusMore(assets: map<nat, Asset>, listed: set<nat>, rest: set<nat>, id: nat)
    requires id in rest && rest <= listed
    ensures assets - (listed - rest) - {id} == assets - (listed - (rest - {id}))
  {
    assert listed - (rest - {id}) == listed - rest + {id};
  }
}
