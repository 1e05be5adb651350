// The network tables that the federation projection writes, and the effect of
// one event on them.
//
// Every row carries the event that wrote it, and a write applies only when its
// event is newer. A URI names its author and its collection, so neither is
// stored again in a row. Repository transfers are not part of this model: each
// repository is its own lineage and its own canonical repository.
module FederationTables {
  import opened Options

  datatype Collection =
    | ProfileCollection
    | OrganizationCollection
    | RepositoryCollection
    | StarCollection
    | IssueCollection
    | CommentCollection
    | IssueStatusCollection
    | PullRequestCollection
    | PullRequestStatusCollection
    | OtherCollection(nsid: string)

  datatype Uri = Uri(did: string, collection: Collection, rkey: string)

  datatype State = Open | Closed | Merged

  // The decoded record of a create or update event. A strong reference keeps
  // its CID only where a query compares it.
  datatype Payload =
    | Profile
    | Organization
    | Repository(forkedFrom: Option<Uri>)
    | Star(starred: Uri)
    | Issue(repository: Uri)
    | Comment(issue: Uri, parent: Option<Uri>)
    | IssueStatus(status: StatusValue)
    | PullRequest(target: Uri, origin: Origin)
    | PullRequestStatus(status: StatusValue)
    | Other(nsid: string)

  datatype Origin = Origin(source: Uri, sourceBranch: string, targetBranch: string)

  datatype StatusValue = StatusValue(subject: Uri, subjectCid: string, repository: Uri, repositoryCid: string, state: State)

  datatype Change = Put(cid: string, payload: Payload) | Delete

  datatype Event = Event(id: int, uri: Uri, change: Change)

  function CollectionOf(payload: Payload): Collection {
    match payload
    case Profile => ProfileCollection
    case Organization => OrganizationCollection
    case Repository(_) => RepositoryCollection
    case Star(_) => StarCollection
    case Issue(_) => IssueCollection
    case Comment(_, _) => CommentCollection
    case IssueStatus(_) => IssueStatusCollection
    case PullRequest(_, _) => PullRequestCollection
    case PullRequestStatus(_) => PullRequestStatusCollection
    case Other(nsid) => OtherCollection(nsid)
  }

  // What decoding guarantees of an event: the payload belongs to the
  // collection in the URI, and neither a repository nor a comment names itself.
  predicate Valid(e: Event) {
    e.change.Put? ==>
      && CollectionOf(e.change.payload) == e.uri.collection
      && (e.change.payload.Repository? ==> e.change.payload.forkedFrom != Some(e.uri))
      && (e.change.payload.Comment? ==> e.change.payload.parent != Some(e.uri))
  }

  datatype Row<V> = Row(value: V, live: bool, eventId: int)

  datatype RepositoryValue = RepositoryValue(cid: string, forkedFrom: Option<Uri>)
  datatype CommentValue = CommentValue(issue: Uri, parent: Option<Uri>)
  datatype PullValue = PullValue(cid: string, target: Uri, origin: Origin)

  datatype Tables = Tables(
    records: map<Uri, Row<()>>,
    repositories: map<Uri, Row<RepositoryValue>>,
    stars: map<Uri, Row<Uri>>,
    issues: map<Uri, Row<Uri>>,
    comments: map<Uri, Row<CommentValue>>,
    issueStatuses: map<Uri, Row<StatusValue>>,
    pulls: map<Uri, Row<PullValue>>,
    pullStatuses: map<Uri, Row<StatusValue>>,
    profiles: map<string, Row<()>>
  )

  const EMPTY := Tables(map[], map[], map[], map[], map[], map[], map[], map[], map[])

  predicate Live<K, V>(rows: map<K, Row<V>>, k: K) {
    k in rows && rows[k].live
  }

  // The guard of every upsert: no row yet, or an older one.
  predicate Fresh<K, V>(rows: map<K, Row<V>>, k: K, id: int) {
    k in rows ==> rows[k].eventId < id
  }

  // INSERT ... ON CONFLICT DO UPDATE ... WHERE source_event_id < EXCLUDED.source_event_id.
  function Upsert<K, V>(rows: map<K, Row<V>>, k: K, value: V, id: int): map<K, Row<V>> {
    if Fresh(rows, k, id) then rows[k := Row(value, true, id)] else rows
  }

  // The tombstone that inserts a dead row when there is none.
  function Bury<K, V>(rows: map<K, Row<V>>, k: K, absent: V, id: int): map<K, Row<V>> {
    if !Fresh(rows, k, id) then rows
    else rows[k := Row(if k in rows then rows[k].value else absent, false, id)]
  }

  // The tombstone that only updates an existing row.
  function Kill<K, V>(rows: map<K, Row<V>>, k: K, id: int): map<K, Row<V>>
    requires k in rows
  {
    rows[k := Row(rows[k].value, false, id)]
  }

  // The raw records table: every event that is newer than the record wins.
  function RecordsAfter(records: map<Uri, Row<()>>, e: Event): map<Uri, Row<()>> {
    if e.change.Put? then Upsert(records, e.uri, (), e.id) else Bury(records, e.uri, (), e.id)
  }

  // The raw record now in the table is this very event.
  predicate Current(records: map<Uri, Row<()>>, e: Event) {
    Names(RecordsAfter(records, e), e)
  }

  predicate Names(records: map<Uri, Row<()>>, e: Event) {
    e.uri in records && records[e.uri].eventId == e.id && records[e.uri].live == e.change.Put?
  }

  // Whether a guarded upsert returns a row, and whether a guarded tombstone
  // does: the record must be this event and the row must be older.
  predicate Replaces<V>(t: Tables, rows: map<Uri, Row<V>>, e: Event) {
    Current(t.records, e) && Fresh(rows, e.uri, e.id)
  }

  predicate Removes<V>(t: Tables, rows: map<Uri, Row<V>>, e: Event) {
    Current(t.records, e) && e.uri in rows && rows[e.uri].eventId < e.id
  }

  // A comment keeps the issue and the parent of its first version.
  predicate ReplacesComment(t: Tables, e: Event, value: CommentValue) {
    Replaces(t, t.comments, e) && (e.uri in t.comments ==> t.comments[e.uri].value == value)
  }

  // A pull request keeps its target repository, source and branches.
  predicate ReplacesPull(t: Tables, e: Event, target: Uri, origin: Origin) {
    Replaces(t, t.pulls, e) &&
    (e.uri in t.pulls ==> t.pulls[e.uri].value.target == target && t.pulls[e.uri].value.origin == origin)
  }

  // A pull request status keeps its subject and its repository.
  predicate ReplacesPullStatus(t: Tables, e: Event, status: StatusValue) {
    Replaces(t, t.pullStatuses, e) &&
    (e.uri in t.pullStatuses ==>
      && t.pullStatuses[e.uri].value.subject == status.subject
      && t.pullStatuses[e.uri].value.repository == status.repository)
  }

  // --- One table at a time ---------------------------------------------------

  function ProfilesAfter(t: Tables, e: Event): map<string, Row<()>> {
    if e.uri.collection != ProfileCollection then t.profiles
    else if e.change.Put? then Upsert(t.profiles, e.uri.did, (), e.id)
    else Bury(t.profiles, e.uri.did, (), e.id)
  }

  function RepositoriesAfter(t: Tables, e: Event): map<Uri, Row<RepositoryValue>> {
    match e.change
    case Put(cid, Repository(forkedFrom)) => Upsert(t.repositories, e.uri, RepositoryValue(cid, forkedFrom), e.id)
    case Put(_, _) => t.repositories
    case Delete =>
      if e.uri.collection != RepositoryCollection then t.repositories
      else Bury(t.repositories, e.uri, RepositoryValue("", None), e.id)
  }

  function StarsAfter(t: Tables, e: Event): map<Uri, Row<Uri>> {
    match e.change
    case Put(_, Star(starred)) =>
      if Replaces(t, t.stars, e) then t.stars[e.uri := Row(starred, true, e.id)] else t.stars
    case Put(_, _) => t.stars
    case Delete =>
      if e.uri.collection == StarCollection && Removes(t, t.stars, e) then Kill(t.stars, e.uri, e.id) else t.stars
  }

  function IssuesAfter(t: Tables, e: Event): map<Uri, Row<Uri>> {
    match e.change
    case Put(_, Issue(repository)) =>
      if Replaces(t, t.issues, e) then t.issues[e.uri := Row(repository, true, e.id)] else t.issues
    case Put(_, _) => t.issues
    case Delete =>
      if e.uri.collection == IssueCollection && Removes(t, t.issues, e) then Kill(t.issues, e.uri, e.id) else t.issues
  }

  function CommentsAfter(t: Tables, e: Event): map<Uri, Row<CommentValue>> {
    match e.change
    case Put(_, Comment(issue, parent)) =>
      if ReplacesComment(t, e, CommentValue(issue, parent))
      then t.comments[e.uri := Row(CommentValue(issue, parent), true, e.id)] else t.comments
    case Put(_, _) => t.comments
    case Delete =>
      if e.uri.collection == CommentCollection && Removes(t, t.comments, e)
      then Kill(t.comments, e.uri, e.id) else t.comments
  }

  function IssueStatusesAfter(t: Tables, e: Event): map<Uri, Row<StatusValue>> {
    match e.change
    case Put(_, IssueStatus(status)) =>
      if Replaces(t, t.issueStatuses, e) then t.issueStatuses[e.uri := Row(status, true, e.id)] else t.issueStatuses
    case Put(_, _) => t.issueStatuses
    case Delete =>
      if e.uri.collection == IssueStatusCollection && Removes(t, t.issueStatuses, e)
      then Kill(t.issueStatuses, e.uri, e.id) else t.issueStatuses
  }

  function PullsAfter(t: Tables, e: Event): map<Uri, Row<PullValue>> {
    match e.change
    case Put(cid, PullRequest(target, origin)) =>
      if ReplacesPull(t, e, target, origin)
      then t.pulls[e.uri := Row(PullValue(cid, target, origin), true, e.id)] else t.pulls
    case Put(_, _) => t.pulls
    case Delete =>
      if e.uri.collection == PullRequestCollection && Removes(t, t.pulls, e) then Kill(t.pulls, e.uri, e.id) else t.pulls
  }

  function PullStatusesAfter(t: Tables, e: Event): map<Uri, Row<StatusValue>> {
    match e.change
    case Put(_, PullRequestStatus(status)) =>
      if ReplacesPullStatus(t, e, status) then t.pullStatuses[e.uri := Row(status, true, e.id)] else t.pullStatuses
    case Put(_, _) => t.pullStatuses
    case Delete =>
      if e.uri.collection == PullRequestStatusCollection && Removes(t, t.pullStatuses, e)
      then Kill(t.pullStatuses, e.uri, e.id) else t.pullStatuses
  }

  // The tables after one record event.
  function Apply(t: Tables, e: Event): Tables {
    Tables(RecordsAfter(t.records, e), RepositoriesAfter(t, e), StarsAfter(t, e), IssuesAfter(t, e), CommentsAfter(t, e),
           IssueStatusesAfter(t, e), PullsAfter(t, e), PullStatusesAfter(t, e), ProfilesAfter(t, e))
  }
}
