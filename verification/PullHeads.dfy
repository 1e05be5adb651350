// Fetching the head of a pull request: into a quarantine ref first, then onto
// its own ref by compare-and-swap.
module PullHeads {
  import opened Options

  type Sha = string

  type Refs = map<string, Sha>

  datatype Error = FetchFailed | HeadMismatch | RefConflict

  function Tip(refs: Refs, ref: string): Option<Sha> { if ref in refs then Some(refs[ref]) else None }

  // The refs of a repository, as one call and all others change them. Other
  // calls may change any ref but the quarantine ref, whose name is random.
  class Repository {
    var refs: Refs
    var objects: set<Sha>

    constructor (refs: Refs, objects: set<Sha>)
      ensures this.refs == refs && this.objects == objects
    {
      this.refs, this.objects := refs, objects;
    }

    // git fetch +branch:quarantine. Other calls may run meanwhile.
    method Fetch(quarantine: string, remote: Option<Sha>, meanwhile: Refs) returns (ok: bool)
      modifies this
      ensures ok == remote.Some?
      ensures refs == if ok then (old(refs) + meanwhile)[quarantine := remote.value] else old(refs) + meanwhile
      ensures objects == if ok then old(objects) + {remote.value} else old(objects)
    {
      refs := refs + meanwhile;
      ok := remote.Some?;
      if ok {
        objects := objects + {remote.value};
        refs := refs[quarantine := remote.value];
      }
    }

    // git update-ref ref new old.
    method UpdateRef(ref: string, newTip: Sha, oldTip: Option<Sha>) returns (swapped: bool)
      modifies this`refs
      ensures swapped == (Tip(old(refs), ref) == oldTip)
      ensures refs == if swapped then old(refs)[ref := newTip] else old(refs)
    {
      swapped := Tip(refs, ref) == oldTip;
      if swapped {
        refs := refs[ref := newTip];
      }
    }

    // The quarantine ref is gone on every path, the destination moves only to
    // the expected head and only from the prior one, and nothing else moves.
    method FetchRemote(
      destination: string, expected: Sha, prior: Option<Sha>, quarantine: string, remote: Option<Sha>, meanwhile: Refs)
      returns (result: Result<(), Error>)
      requires quarantine !in refs && quarantine !in meanwhile && quarantine != destination
      modifies this
      ensures var seen := old(refs) + meanwhile;
              && (result.Ok? <==> remote == Some(expected) && Tip(seen, destination) == prior)
              && (result.Ok? ==> refs == seen[destination := expected] && expected in objects)
              && (result.Err? ==> refs == seen)
              && (result == Err(RefConflict) <==> remote == Some(expected) && Tip(seen, destination) != prior)
      ensures quarantine !in refs && old(objects) <= objects
    {
      var fetched := Fetch(quarantine, remote, meanwhile);
      if !fetched {
        refs := refs - {quarantine};
        assert refs == old(refs) + meanwhile;
        return Err(FetchFailed);
      }
      if refs[quarantine] != expected {
        refs := refs - {quarantine};
        assert refs == old(refs) + meanwhile;
        return Err(HeadMismatch);
      }
      var swapped := UpdateRef(destination, refs[quarantine], prior);
      refs := refs - {quarantine};
      if !swapped {
        assert refs == old(refs) + meanwhile;
        return Err(RefConflict);
      }
      assert refs == (old(refs) + meanwhile)[destination := expected];
      return Ok(());
    }

    // The part of Refresh that brings the pull request's head to its ref.
    method RefreshHead(destination: string, head: Sha, quarantine: string, remote: Option<Sha>, meanwhile: Refs)
      returns (result: Result<(), Error>)
      requires quarantine !in refs && quarantine !in meanwhile && quarantine != destination
      modifies this
      ensures quarantine !in refs
      ensures result.Ok? ==> Tip(refs, destination) == Some(head)
      ensures
        var prior, seen := Tip(old(refs), destination), old(refs) + meanwhile;
        result.Ok? <==>
          || prior == Some(head)
          || (remote == Some(head) && (Tip(seen, destination) == prior || Tip(seen, destination) == Some(head)))
      ensures Tip(old(refs), destination) == Some(head) ==> refs == old(refs)
      ensures result.Err? ==> refs == old(refs) + meanwhile
      ensures forall ref | ref != destination && Tip(old(refs), destination) != Some(head) :: Tip(refs, ref) == Tip(old(refs) + meanwhile, ref)
    {
      var prior := Tip(refs, destination);
      if prior == Some(head) {
        return Ok(());
      }
      result := FetchHead(destination, head, prior, quarantine, remote, meanwhile);
    }

    // What it does after it has read the prior head, which is another one.
    method FetchHead(destination: string, head: Sha, prior: Option<Sha>, quarantine: string, remote: Option<Sha>, meanwhile: Refs)
      returns (result: Result<(), Error>)
      requires quarantine !in refs && quarantine !in meanwhile && quarantine != destination
      modifies this
      ensures
        var seen := old(refs) + meanwhile;
        && (result.Ok? <==> remote == Some(head) && (Tip(seen, destination) == prior || Tip(seen, destination) == Some(head)))
        && refs == if result.Ok? then seen[destination := head] else seen
      ensures quarantine !in refs
    {
      var fetched := FetchRemote(destination, head, prior, quarantine, remote, meanwhile);
      if fetched.Ok? {
        return Ok(());
      }
      if fetched.error == RefConflict && Tip(refs, destination) == Some(head) {
        assert refs == refs[destination := head];
        return Ok(());
      }
      return Err(fetched.error);
    }

    // Two refreshes on the same refs: the second one reads the prior head, the
    // first one runs to its end, and the second one goes on. The first one's head
    // stays; the second one succeeds exactly if it wanted that head as well.
    method SecondRefreshKeepsFirst(
      destination: string, first: Sha, firstRemote: Option<Sha>, second: Sha, secondRemote: Option<Sha>, quarantine: string)
      returns (firstResult: Result<(), Error>, secondResult: Result<(), Error>)
      requires quarantine !in refs && quarantine != destination
      requires Tip(refs, destination) != Some(first) && Tip(refs, destination) != Some(second)
      modifies this
      ensures firstResult.Ok? <==> firstRemote == Some(first)
      ensures firstResult.Ok? ==> Tip(refs, destination) == Some(first)
      ensures firstResult.Ok? ==> (secondResult.Ok? <==> secondRemote == Some(second) && first == second)
      ensures firstResult.Err? ==> (secondResult.Ok? <==> secondRemote == Some(second))
      ensures forall ref | ref != destination :: Tip(refs, ref) == Tip(old(refs), ref)
    {
      var prior := Tip(refs, destination);
      assert refs + map[] == refs;
      firstResult := RefreshHead(destination, first, quarantine, firstRemote, map[]);
      secondResult := FetchHead(destination, second, prior, quarantine, secondRemote, map[]);
    }
  }
}
