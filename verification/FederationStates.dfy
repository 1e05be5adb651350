// What a stored issue or pull request state means, in terms of the status rows:
// it is the newest word of the repository's owner about its current version.
module FederationStates {
  import opened Options
  import opened FederationTables
  import opened FederationCounts
  import opened FederationExactness
  import opened FederationRuns

  type Statuses = map<Uri, Row<StatusValue>>

  // Row `s` is a live status that the owner of `r` wrote about the subject and
  // about the version `cid` of `r`; for pull requests, also about one version of
  // the subject.
  predicate Speaks(statuses: Statuses, s: Uri, subject: Uri, version: Option<string>, r: Uri, cid: string) {
    && s in statuses && statuses[s].live && s.did == r.did
    && statuses[s].value.subject == subject && (version.Some? ==> statuses[s].value.subjectCid == version.value)
    && statuses[s].value.repository == r && statuses[s].value.repositoryCid == cid
  }

  // `state` is what the newest of these rows says; open if there is none.
  ghost predicate IsOwnersWord(statuses: Statuses, subject: Uri, version: Option<string>, r: Uri, cid: string, state: State) {
    if exists s :: Speaks(statuses, s, subject, version, r, cid)
    then
      exists s :: Speaks(statuses, s, subject, version, r, cid) && state == statuses[s].value.state
                  && IsLastWord(statuses, s, subject, version, r, cid)
    else state == Open
  }

  ghost predicate IsLastWord(statuses: Statuses, s: Uri, subject: Uri, version: Option<string>, r: Uri, cid: string)
    requires s in statuses
  {
    forall o | Speaks(statuses, o, subject, version, r, cid) :: statuses[o].eventId <= statuses[s].eventId
  }

  ghost predicate IsIssueWord(t: Tables, i: Uri, state: State)
    requires i in t.issues && t.issues[i].value in t.repositories
  {
    var r := t.issues[i].value;
    IsOwnersWord(t.issueStatuses, i, None, r, t.repositories[r].value.cid, state)
  }

  ghost predicate IsPullWord(t: Tables, p: Uri, state: State)
    requires p in t.pulls && t.pulls[p].value.target in t.repositories
  {
    var r := t.pulls[p].value.target;
    IsOwnersWord(t.pullStatuses, p, Some(t.pulls[p].value.cid), r, t.repositories[r].value.cid, state)
  }

  lemma {:induction false} SomeIsNewest(candidates: Statuses)
    requires candidates != map[]
    ensures exists s :: IsNewest(candidates, s)
    decreases candidates.Keys
  {
    var s :| s in candidates;
    if !IsNewest(candidates, s) {
      var later := map c | c in candidates && candidates[c].eventId > candidates[s].eventId :: candidates[c];
      var c :| c in candidates && candidates[c].eventId > candidates[s].eventId;
      assert c in later && s !in later;
      assert later.Keys < candidates.Keys;
      SomeIsNewest(later);
      var n :| IsNewest(later, n);
      forall o | o in candidates ensures candidates[o].eventId <= candidates[n].eventId {
        assert o in later || candidates[o].eventId <= candidates[s].eventId;
      }
      assert n in candidates && IsNewest(candidates, n);
    }
  }

  lemma NewestIsWord(candidates: Statuses, statuses: Statuses, subject: Uri, version: Option<string>, r: Uri, cid: string)
    requires forall s :: s in candidates <==> Speaks(statuses, s, subject, version, r, cid)
    requires forall s | s in candidates :: s in statuses && candidates[s] == statuses[s]
    ensures IsOwnersWord(statuses, subject, version, r, cid, NewestState(candidates))
  {
    if candidates != map[] {
      SomeIsNewest(candidates);
      assert forall n | IsNewest(candidates, n) :: Speaks(statuses, n, subject, version, r, cid) && IsLastWord(statuses, n, subject, version, r, cid);
    } else {
      assert !exists s :: IsNewest(candidates, s);
    }
  }

  // The recomputed state of an issue of a live repository is the owner's word.
  lemma IssueStateIsOwnersWord(t: Tables, i: Uri)
    requires i in t.issues && Live(t.repositories, t.issues[i].value)
    ensures IsIssueWord(t, i, IssueStateNow(t, i))
  {
    var r := t.issues[i].value;
    var cid := t.repositories[r].value.cid;
    NewestIsWord(Authoritative(t.issueStatuses, i, r, cid), t.issueStatuses, i, None, r, cid);
  }

  lemma PullStateIsOwnersWord(t: Tables, p: Uri)
    requires Live(t.pulls, p) && Live(t.repositories, t.pulls[p].value.target)
    ensures IsPullWord(t, p, PullStateNow(t, p))
  {
    var r, version := t.pulls[p].value.target, t.pulls[p].value.cid;
    var cid := t.repositories[r].value.cid;
    NewestIsWord(OfVersion(Authoritative(t.pullStatuses, p, r, cid), version), t.pullStatuses, p, Some(version), r, cid);
  }

  // So in every run the stored state of each live pull request of a live
  // repository is the owner's word; that of an issue is, wherever issue states
  // are current.
  lemma EveryRunShowsOwnersWord(deliveries: seq<Delivery>, key: Uri -> Uri)
    requires WellFormed(deliveries, key)
    ensures
      var s := Run(INITIAL, deliveries);
      && (forall p | Live(s.tables.pulls, p) && Live(s.tables.repositories, s.tables.pulls[p].value.target) ::
            IsPullWord(s.tables, p, StateOf(s.columns.pullStates, p)))
      && (HoldsCurrentStates(s) ==>
            forall i | Live(s.tables.issues, i) && Live(s.tables.repositories, s.tables.issues[i].value) ::
              IsIssueWord(s.tables, i, StateOf(s.columns.issueStates, i)))
  {
    EveryRunIsSound(deliveries, key);
    var s := Run(INITIAL, deliveries);
    forall p | Live(s.tables.pulls, p) && Live(s.tables.repositories, s.tables.pulls[p].value.target)
      ensures IsPullWord(s.tables, p, StateOf(s.columns.pullStates, p))
    {
      PullStateIsOwnersWord(s.tables, p);
    }
    if HoldsCurrentStates(s) {
      forall i | Live(s.tables.issues, i) && Live(s.tables.repositories, s.tables.issues[i].value)
        ensures IsIssueWord(s.tables, i, StateOf(s.columns.issueStates, i))
      {
        IssueStateIsOwnersWord(s.tables, i);
      }
    }
  }

  // --- Strangers -------------------------------------------------------------------

  predicate IsStatusEvent(e: Event) {
    e.uri.collection == IssueStatusCollection || e.uri.collection == PullRequestStatusCollection
  }

  lemma StatusTouches(t: Tables, e: Event)
    requires Valid(e) && IsStatusEvent(e)
    ensures RepositoriesAfter(t, e) == t.repositories && IssuesAfter(t, e) == t.issues && PullsAfter(t, e) == t.pulls
    ensures TouchedPullStates(t, e) == TouchedByPullStatus(t, e) && TouchedIssueStates(t, e) == TouchedByIssueStatus(t, e)
  {
  }

  lemma RefreshedState(states: map<Uri, State>, recounts: map<Uri, State>, keys: set<Uri>, u: Uri)
    requires u in recounts
    ensures StateOf(Refreshed(states, recounts, keys), u) == if u in keys then recounts[u] else StateOf(states, u)
  {
  }

  lemma PullStateAfterStatus(t: Tables, c: Columns, e: Event, p: Uri)
    requires Valid(e) && IsStatusEvent(e) && p in t.pulls && t.pulls[p].value.target in t.repositories
    ensures p in Apply(t, e).pulls
    ensures StateOf(Project(t, c, e).pullStates, p) ==
            if p in TouchedByPullStatus(t, e) then PullStateNow(Apply(t, e), p) else StateOf(c.pullStates, p)
  {
    ProjectKeepsStates(t, c, e);
    StatusTouches(t, e);
    var now := PullStatesNow(Apply(t, e));
    assert p in now && now[p] == PullStateNow(Apply(t, e), p);
    RefreshedState(c.pullStates, now, TouchedPullStates(t, e), p);
  }

  lemma IssueStateAfterStatus(t: Tables, c: Columns, e: Event, i: Uri)
    requires Valid(e) && IsStatusEvent(e) && i in t.issues && t.issues[i].value in t.repositories
    ensures i in Apply(t, e).issues
    ensures StateOf(Project(t, c, e).issueStates, i) ==
            if i in TouchedByIssueStatus(t, e) then IssueStateNow(Apply(t, e), i) else StateOf(c.issueStates, i)
  {
    ProjectKeepsStates(t, c, e);
    StatusTouches(t, e);
    var now := IssueStatesNow(Apply(t, e));
    assert i in now && now[i] == IssueStateNow(Apply(t, e), i);
    RefreshedState(c.issueStates, now, TouchedIssueStates(t, e), i);
  }

  lemma StrangersAreNotHeardOnPulls(t: Tables, e: Event, subject: Uri, r: Uri, cid: string)
    requires Valid(e) && e.uri.did != r.did
    ensures Authoritative(PullStatusesAfter(t, e), subject, r, cid) == Authoritative(t.pullStatuses, subject, r, cid)
  {
  }

  lemma StrangersAreNotHeardOnIssues(t: Tables, e: Event, subject: Uri, r: Uri, cid: string)
    requires Valid(e) && e.uri.did != r.did
    ensures Authoritative(IssueStatusesAfter(t, e), subject, r, cid) == Authoritative(t.issueStatuses, subject, r, cid)
  {
  }

  // A status event by somebody else than the owner of a pull request's target
  // changes nothing about that pull request.
  lemma StrangerMovesNoPull(t: Tables, c: Columns, e: Event, p: Uri)
    requires Valid(e) && IsStatusEvent(e) && PullStatesCurrent(t, c.pullStates)
    requires Live(t.pulls, p) && Live(t.repositories, t.pulls[p].value.target) && e.uri.did != t.pulls[p].value.target.did
    ensures StateOf(Project(t, c, e).pullStates, p) == StateOf(c.pullStates, p)
  {
    var r := t.pulls[p].value.target;
    PullStateAfterStatus(t, c, e, p);
    StatusTouches(t, e);
    StrangersAreNotHeardOnPulls(t, e, p, r, t.repositories[r].value.cid);
  }

  // Nor about an issue, if and only if that issue's stored state was current or
  // the event does not recompute it: a stranger's status still sets right a state
  // that a repository version has left behind.
  lemma StrangerMovesNoIssueIff(t: Tables, c: Columns, e: Event, i: Uri)
    requires Valid(e) && IsStatusEvent(e)
    requires i in t.issues && Live(t.repositories, t.issues[i].value) && e.uri.did != t.issues[i].value.did
    ensures StateOf(Project(t, c, e).issueStates, i) == StateOf(c.issueStates, i) <==>
            (i in TouchedByIssueStatus(t, e) ==> StateOf(c.issueStates, i) == IssueStateNow(t, i))
  {
    var r := t.issues[i].value;
    IssueStateAfterStatus(t, c, e, i);
    StatusTouches(t, e);
    StrangersAreNotHeardOnIssues(t, e, i, r, t.repositories[r].value.cid);
  }

  // A current state stays as it is.
  lemma StrangerMovesNoIssue(t: Tables, c: Columns, e: Event, i: Uri)
    requires Valid(e) && IsStatusEvent(e) && IssueStatesCurrent(t, c.issueStates)
    requires Live(t.issues, i) && Live(t.repositories, t.issues[i].value) && e.uri.did != t.issues[i].value.did
    ensures StateOf(Project(t, c, e).issueStates, i) == StateOf(c.issueStates, i)
  {
    StrangerMovesNoIssueIff(t, c, e, i);
  }

  // The owner's word counts: it decides, if it is newer than all before.
  lemma LastWordDecides(before: Statuses, s: Uri, status: StatusValue, id: int, version: Option<string>, state: State)
    requires s.did == status.repository.did && (version.Some? ==> status.subjectCid == version.value)
    requires forall o | o in before :: before[o].eventId < id
    requires IsOwnersWord(before[s := Row(status, true, id)], status.subject, version, status.repository, status.repositoryCid, state)
    ensures state == status.state
  {
    assert Speaks(before[s := Row(status, true, id)], s, status.subject, version, status.repository, status.repositoryCid);
  }

  lemma PutStatusRow(t: Tables, e: Event, status: StatusValue)
    requires e.change.Put?
    ensures e.change.payload == PullRequestStatus(status) && ReplacesPullStatus(t, e, status) ==>
              PullStatusesAfter(t, e) == t.pullStatuses[e.uri := Row(status, true, e.id)] && status.subject in TouchedByPullStatus(t, e)
    ensures e.change.payload == IssueStatus(status) && Replaces(t, t.issueStatuses, e) ==>
              IssueStatusesAfter(t, e) == t.issueStatuses[e.uri := Row(status, true, e.id)] && status.subject in TouchedByIssueStatus(t, e)
  {
  }

  lemma OwnerDecidesPull(t: Tables, c: Columns, e: Event, status: StatusValue)
    requires Valid(e) && e.change.Put? && e.change.payload == PullRequestStatus(status) && ReplacesPullStatus(t, e, status)
    requires Live(t.pulls, status.subject) && t.pulls[status.subject].value.target == status.repository
    requires Live(t.repositories, status.repository) && e.uri.did == status.repository.did
    requires status.repositoryCid == t.repositories[status.repository].value.cid && status.subjectCid == t.pulls[status.subject].value.cid
    requires forall s | s in t.pullStatuses :: t.pullStatuses[s].eventId < e.id
    ensures StateOf(Project(t, c, e).pullStates, status.subject) == status.state
  {
    PullStateAfterStatus(t, c, e, status.subject);
    StatusTouches(t, e);
    PutStatusRow(t, e, status);
    PullStateIsOwnersWord(Apply(t, e), status.subject);
    LastWordDecides(t.pullStatuses, e.uri, status, e.id, Some(status.subjectCid), PullStateNow(Apply(t, e), status.subject));
  }

  lemma OwnerDecidesIssue(t: Tables, c: Columns, e: Event, status: StatusValue)
    requires Valid(e) && e.change.Put? && e.change.payload == IssueStatus(status) && Replaces(t, t.issueStatuses, e)
    requires status.subject in t.issues && t.issues[status.subject].value == status.repository
    requires Live(t.repositories, status.repository) && e.uri.did == status.repository.did
    requires status.repositoryCid == t.repositories[status.repository].value.cid
    requires forall s | s in t.issueStatuses :: t.issueStatuses[s].eventId < e.id
    ensures StateOf(Project(t, c, e).issueStates, status.subject) == status.state
  {
    IssueStateAfterStatus(t, c, e, status.subject);
    StatusTouches(t, e);
    PutStatusRow(t, e, status);
    IssueStateIsOwnersWord(Apply(t, e), status.subject);
    LastWordDecides(t.issueStatuses, e.uri, status, e.id, None, IssueStateNow(Apply(t, e), status.subject));
  }

  // --- Without a status ------------------------------------------------------------------

  // A subject that no status row names, live or not, is open.
  ghost predicate UnnamedAreOpen(statuses: Statuses, states: map<Uri, State>) {
    forall u | (forall s | s in statuses :: statuses[s].value.subject != u) :: StateOf(states, u) == Open
  }

  lemma NobodySpeaks(statuses: Statuses, subject: Uri, r: Uri, cid: string)
    requires forall s | s in statuses :: statuses[s].value.subject != subject
    ensures Authoritative(statuses, subject, r, cid) == map[] && NewestState(map[]) == Open
  {
    assert !exists s :: IsNewest(map[], s);
  }

  lemma UnnamedIssueNow(t: Tables, i: Uri)
    requires i in t.issues && forall s | s in t.issueStatuses :: t.issueStatuses[s].value.subject != i
    ensures IssueStateNow(t, i) == Open
  {
    var r := t.issues[i].value;
    if Live(t.repositories, r) {
      NobodySpeaks(t.issueStatuses, i, r, t.repositories[r].value.cid);
    }
  }

  lemma UnnamedPullNow(t: Tables, p: Uri)
    requires p in t.pulls && forall s | s in t.pullStatuses :: t.pullStatuses[s].value.subject != p
    ensures PullStateNow(t, p) == Open
  {
    var r := t.pulls[p].value.target;
    if Live(t.pulls, p) && Live(t.repositories, r) {
      NobodySpeaks(t.pullStatuses, p, r, t.repositories[r].value.cid);
      assert OfVersion(map[], t.pulls[p].value.cid) == map[];
    }
  }

  // A status row keeps its subject.
  lemma NamedStayNamed(t: Tables, e: Event, key: Uri -> Uri, s: Uri)
    requires Valid(e) && KeyedEvent(e, key) && KeyedStatuses(t.issueStatuses, key)
    ensures s in t.issueStatuses ==> s in IssueStatusesAfter(t, e) && IssueStatusesAfter(t, e)[s].value.subject == t.issueStatuses[s].value.subject
    ensures s in t.pullStatuses ==> s in PullStatusesAfter(t, e) && PullStatusesAfter(t, e)[s].value.subject == t.pullStatuses[s].value.subject
  {
  }

  lemma UnnamedStayOpen(t: Tables, c: Columns, e: Event, key: Uri -> Uri)
    requires Valid(e) && KeyedEvent(e, key) && KeyedStatuses(t.issueStatuses, key)
    requires UnnamedAreOpen(t.issueStatuses, c.issueStates) && UnnamedAreOpen(t.pullStatuses, c.pullStates)
    ensures UnnamedAreOpen(IssueStatusesAfter(t, e), Project(t, c, e).issueStates)
    ensures UnnamedAreOpen(PullStatusesAfter(t, e), Project(t, c, e).pullStates)
  {
    ProjectKeepsStates(t, c, e);
    var issueStatuses, pullStatuses := IssueStatusesAfter(t, e), PullStatusesAfter(t, e);
    forall s
      ensures s in t.issueStatuses ==> s in issueStatuses && issueStatuses[s].value.subject == t.issueStatuses[s].value.subject
      ensures s in t.pullStatuses ==> s in pullStatuses && pullStatuses[s].value.subject == t.pullStatuses[s].value.subject
    {
      NamedStayNamed(t, e, key, s);
    }
    UnnamedIssuesStayOpen(Apply(t, e), t.issueStatuses, c.issueStates, TouchedIssueStates(t, e));
    UnnamedPullsStayOpen(Apply(t, e), t.pullStatuses, c.pullStates, TouchedPullStates(t, e));
  }

  lemma UnnamedIssuesStayOpen(after: Tables, before: Statuses, states: map<Uri, State>, keys: set<Uri>)
    requires UnnamedAreOpen(before, states)
    requires forall s | s in before :: s in after.issueStatuses && after.issueStatuses[s].value.subject == before[s].value.subject
    ensures UnnamedAreOpen(after.issueStatuses, Refreshed(states, IssueStatesNow(after), keys))
  {
    forall u | forall s | s in after.issueStatuses :: after.issueStatuses[s].value.subject != u
      ensures StateOf(Refreshed(states, IssueStatesNow(after), keys), u) == Open
    {
      assert forall s | s in before :: before[s].value.subject != u;
      assert StateOf(states, u) == Open;
      if u in IssueStatesNow(after) {
        UnnamedIssueNow(after, u);
      }
    }
  }

  lemma UnnamedPullsStayOpen(after: Tables, before: Statuses, states: map<Uri, State>, keys: set<Uri>)
    requires UnnamedAreOpen(before, states)
    requires forall s | s in before :: s in after.pullStatuses && after.pullStatuses[s].value.subject == before[s].value.subject
    ensures UnnamedAreOpen(after.pullStatuses, Refreshed(states, PullStatesNow(after), keys))
  {
    forall u | forall s | s in after.pullStatuses :: after.pullStatuses[s].value.subject != u
      ensures StateOf(Refreshed(states, PullStatesNow(after), keys), u) == Open
    {
      assert forall s | s in before :: before[s].value.subject != u;
      assert StateOf(states, u) == Open;
      if u in PullStatesNow(after) {
        UnnamedPullNow(after, u);
      }
    }
  }

  // In every run an issue or a pull request that no status names is open, also
  // before its repository is known.
  lemma {:induction false} EveryRunKeepsUnnamedOpen(deliveries: seq<Delivery>, key: Uri -> Uri)
    requires WellFormed(deliveries, key)
    ensures
      var s := Run(INITIAL, deliveries);
      UnnamedAreOpen(s.tables.issueStatuses, s.columns.issueStates) && UnnamedAreOpen(s.tables.pullStatuses, s.columns.pullStates)
  {
    if deliveries != [] {
      var last := |deliveries| - 1;
      EveryRunKeepsUnnamedOpen(deliveries[..last], key);
      EveryRunIsSound(deliveries[..last], key);
      assert deliveries[last] in deliveries;
      var s, d := Run(INITIAL, deliveries[..last]), deliveries[last];
      if Projects(s.receipts, d) {
        UnnamedStayOpen(s.tables, s.columns, d.message.event, key);
      }
    }
  }
}
