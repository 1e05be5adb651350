// The locks a projection takes, and in which order.
//
// Locks are taken while the projection is still finding out which ones it
// needs, and other transactions may commit between any two of its queries: the
// k-th query of a step reads its own snapshot of the tables.
module FederationLocks {
  import opened Options
  import opened FederationTables
  import opened FederationCounts
  import Splitting = Texts

  datatype LockClass =
    | IssueComments
    | RepositoryIssues
    | PullRequests
    | RepositoryPullRequests
    | RepositoryStars
    | RepositoryForks
    | Lineages

  datatype Lock = Lock(kind: LockClass, name: string)

  function Rank(c: LockClass): nat {
    match c
    case IssueComments => 0
    case RepositoryIssues => 1
    case PullRequests => 2
    case RepositoryPullRequests => 3
    case RepositoryStars => 4
    case RepositoryForks => 5
    case Lineages => 6
  }

  // --- Orders ----------------------------------------------------------------

  // The order of sort.Strings.
  predicate Less(a: string, b: string) {
    b != "" && (a == "" || a[0] < b[0] || (a[0] == b[0] && Less(a[1..], b[1..])))
  }

  lemma {:induction false} LessIsTransitive(a: string, b: string, c: string)
    requires Less(a, b) && Less(b, c)
    ensures Less(a, c)
  {
    if a != "" && a[0] == b[0] && b[0] == c[0] {
      LessIsTransitive(a[1..], b[1..], c[1..]);
    }
  }

  lemma {:induction false} LessIsIrreflexive(a: string)
    ensures !Less(a, a)
  {
    if a != "" {
      LessIsIrreflexive(a[1..]);
    }
  }

  lemma {:induction false} LessIsTotal(a: string, b: string)
    ensures a == b || Less(a, b) || Less(b, a)
  {
    if a != "" && b != "" && a[0] == b[0] {
      LessIsTotal(a[1..], b[1..]);
      assert a == [a[0]] + a[1..] && b == [b[0]] + b[1..];
    }
  }

  // At the first difference `a` has ended or has the smaller character.
  predicate IsSmallerAt(a: string, b: string, n: nat) {
    n <= |a| && n < |b| && a[..n] == b[..n] && (n == |a| || a[n] < b[n])
  }

  lemma SameStart(a: string, b: string, n: nat)
    requires IsSmallerAt(a, b, n) && n > 0
    ensures a[0] == b[0]
  {
    assert a[..n][0] == b[..n][0];
  }

  lemma {:induction false} LessIff(a: string, b: string)
    ensures Less(a, b) <==> exists n: nat :: IsSmallerAt(a, b, n)
  {
    if a == "" || b == "" || a[0] != b[0] {
      if b != "" && (a == "" || a[0] < b[0]) {
        assert IsSmallerAt(a, b, 0);
      }
      forall n: nat | IsSmallerAt(a, b, n) ensures n == 0 {
        if n > 0 {
          SameStart(a, b, n);
        }
      }
    } else {
      LessIff(a[1..], b[1..]);
      if n: nat :| IsSmallerAt(a[1..], b[1..], n) {
        assert a[..n + 1] == [a[0]] + a[1..][..n] && b[..n + 1] == [b[0]] + b[1..][..n];
        assert IsSmallerAt(a, b, n + 1);
      }
      if n: nat :| IsSmallerAt(a, b, n) {
        assert n > 0;
        assert a[1..][..n - 1] == a[..n][1..] && b[1..][..n - 1] == b[..n][1..];
        assert IsSmallerAt(a[1..], b[1..], n - 1);
      }
    }
  }

  predicate Before(a: Lock, b: Lock) {
    Rank(a.kind) < Rank(b.kind) || (a.kind == b.kind && Less(a.name, b.name))
  }

  lemma BeforeIsStrictOrder(a: Lock, b: Lock, c: Lock)
    ensures !Before(a, a)
    ensures Before(a, b) && Before(b, c) ==> Before(a, c)
    ensures a == b || Before(a, b) || Before(b, a)
  {
    LessIsIrreflexive(a.name);
    LessIsTotal(a.name, b.name);
    if Less(a.name, b.name) && Less(b.name, c.name) {
      LessIsTransitive(a.name, b.name, c.name);
    }
  }

  ghost predicate Increasing(locks: seq<Lock>) {
    forall i, j | 0 <= i < j < |locks| :: Before(locks[i], locks[j])
  }

  ghost predicate Ascending(keys: seq<string>) {
    forall i, j | 0 <= i < j < |keys| :: Less(keys[i], keys[j])
  }

  ghost predicate IsSorted(keys: seq<string>, values: set<string>) {
    Ascending(keys) && forall x :: x in keys <==> x in values
  }

  // --- Sorted keys -------------------------------------------------------------

  // The order of iteration over the set is arbitrary, as it is over a Go map.
  method SortedKeys(values: set<string>) returns (keys: seq<string>)
    ensures IsSorted(keys, values)
    ensures keys == Sorted(values)
  {
    keys := [];
    var rest := values;
    while rest != {}
      invariant rest <= values
      invariant IsSorted(keys, values - rest)
      decreases |rest|
    {
      var x :| x in rest;
      keys := Insert(keys, x);
      rest := rest - {x};
    }
    SortedIsUnique(keys, Sorted(values), values);
  }

  method Insert(keys: seq<string>, x: string) returns (r: seq<string>)
    requires Ascending(keys) && x !in keys
    ensures Ascending(r) && forall y :: y in r <==> y in keys || y == x
  {
    var i := 0;
    while i < |keys| && Less(keys[i], x)
      invariant 0 <= i <= |keys|
      invariant forall j | 0 <= j < i :: Less(keys[j], x)
    {
      i := i + 1;
    }
    r := keys[..i] + [x] + keys[i..];
    AboveTheRest(keys, i, x);
    assert forall y :: y in keys <==> y in keys[..i] || y in keys[i..] by { assert keys == keys[..i] + keys[i..]; }
  }

  lemma AboveTheRest(keys: seq<string>, i: nat, x: string)
    requires Ascending(keys) && i <= |keys| && x !in keys
    requires i < |keys| ==> !Less(keys[i], x)
    ensures forall j | i <= j < |keys| :: Less(x, keys[j])
  {
    forall j | i <= j < |keys| ensures Less(x, keys[j]) {
      LessIsTotal(keys[i], x);
      if i < j {
        LessIsTransitive(x, keys[i], keys[j]);
      }
    }
  }

  lemma LeastExists(values: set<string>) returns (least: string)
    requires values != {}
    ensures least in values && forall x | x in values && x != least :: Less(least, x)
  {
    var y :| y in values;
    if values == {y} {
      least := y;
    } else {
      var m := LeastExists(values - {y});
      LessIsTotal(y, m);
      least := if Less(y, m) then y else m;
      forall x | x in values && x != least ensures Less(least, x) {
        if least == y && x != m {
          LessIsTransitive(y, m, x);
        }
      }
    }
  }

  // The elements of a set in increasing order.
  ghost function Sorted(values: set<string>): (keys: seq<string>)
    ensures IsSorted(keys, values)
    decreases |values|
  {
    if values == {} then []
    else
      assert exists m :: m in values && forall x | x in values && x != m :: Less(m, x) by {
        var m := LeastExists(values);
      }
      var m :| m in values && forall x | x in values && x != m :: Less(m, x);
      var rest := Sorted(values - {m});
      LeastComesFirst(m, rest, values);
      [m] + rest
  }

  lemma LeastComesFirst(m: string, rest: seq<string>, values: set<string>)
    requires m in values && (forall x | x in values && x != m :: Less(m, x)) && IsSorted(rest, values - {m})
    ensures IsSorted([m] + rest, values)
  {
    assert forall j | 0 <= j < |rest| :: rest[j] in rest;
  }

  lemma {:induction false} SortedIsUnique(a: seq<string>, b: seq<string>, values: set<string>)
    requires IsSorted(a, values) && IsSorted(b, values)
    ensures a == b
  {
    if a == [] {
      HasElement(b);
    } else {
      assert a[0] in values && a[0] in b;
      var i :| 0 <= i < |b| && b[i] == a[0];
      assert b[0] in values && b[0] in a;
      var j :| 0 <= j < |a| && a[j] == b[0];
      if i > 0 && j > 0 {
        LessIsTransitive(a[0], b[0], a[0]);
        LessIsIrreflexive(a[0]);
      }
      assert a[0] == b[0];
      TailIsSorted(a, values);
      TailIsSorted(b, values);
      SortedIsUnique(a[1..], b[1..], values - {a[0]});
    }
  }

  lemma TailIsSorted(keys: seq<string>, values: set<string>)
    requires IsSorted(keys, values) && keys != []
    ensures IsSorted(keys[1..], values - {keys[0]})
  {
    LessIsIrreflexive(keys[0]);
    assert keys == [keys[0]] + keys[1..];
    assert forall j | 0 <= j < |keys[1..]| :: keys[1..][j] == keys[j + 1] && Less(keys[0], keys[j + 1]);
  }

  lemma HasElement(keys: seq<string>)
    ensures keys != [] ==> keys[0] in keys
  {
  }

  // --- What each step locks ------------------------------------------------------

  function Nsid(c: Collection): string {
    match c
    case ProfileCollection => "dev.adenosine.profile"
    case OrganizationCollection => "dev.adenosine.organization"
    case RepositoryCollection => "dev.adenosine.repo"
    case StarCollection => "dev.adenosine.star"
    case IssueCollection => "dev.adenosine.issue"
    case CommentCollection => "dev.adenosine.issueComment"
    case IssueStatusCollection => "dev.adenosine.issueStatus"
    case PullRequestCollection => "dev.adenosine.pullRequest"
    case PullRequestStatusCollection => "dev.adenosine.pullRequestStatus"
    case OtherCollection(nsid) => nsid
  }

  function Text(u: Uri): string { "at://" + u.did + "/" + Nsid(u.collection) + "/" + u.rkey }

  function Texts(uris: set<Uri>): set<string> { set u | u in uris :: Text(u) }

  // Records of different URIs have different locks: neither a DID nor the name
  // of a collection holds a slash.
  lemma TextIsInjective(a: Uri, b: Uri)
    requires '/' !in a.did && '/' !in b.did && '/' !in Nsid(a.collection) && '/' !in Nsid(b.collection)
    requires Text(a) == Text(b)
    ensures a.did == b.did && Nsid(a.collection) == Nsid(b.collection) && a.rkey == b.rkey
  {
    TextIs(a);
    TextIs(b);
    var x, y := Nsid(a.collection) + ['/'] + a.rkey, Nsid(b.collection) + ['/'] + b.rkey;
    assert a.did + ['/'] + x == ("at://" + (a.did + ['/'] + x))[5..];
    assert b.did + ['/'] + y == ("at://" + (b.did + ['/'] + y))[5..];
    Splitting.FirstSplit(a.did, x, b.did, y, '/');
    Splitting.FirstSplit(Nsid(a.collection), a.rkey, Nsid(b.collection), b.rkey, '/');
  }

  lemma TextIs(u: Uri)
    ensures Text(u) == "at://" + (u.did + ['/'] + (Nsid(u.collection) + ['/'] + u.rkey))
  {
    var head := "at://" + u.did;
    assert head + "/" + Nsid(u.collection) + "/" + u.rkey == head + ("/" + (Nsid(u.collection) + "/" + u.rkey));
    assert u.did + ['/'] + (Nsid(u.collection) + ['/'] + u.rkey) == u.did + ("/" + (Nsid(u.collection) + "/" + u.rkey));
  }

  // The state that each query of one step sees.
  type Snapshots = nat -> Tables

  function IssueRepository(t: Tables, i: Uri): set<Uri> { if i in t.issues then {t.issues[i].value} else {} }
  function PullTarget(t: Tables, p: Uri): set<Uri> { if p in t.pulls then {t.pulls[p].value.target} else {} }

  function RepositoriesOfIssueText(t: Tables, text: string): set<string> {
    set i | i in t.issues && Text(i) == text :: Text(t.issues[i].value)
  }

  function TargetsOfPullText(t: Tables, text: string): set<string> {
    set p | p in t.pulls && Text(p) == text :: Text(t.pulls[p].value.target)
  }

  function IssueKeys(see: Snapshots, e: Event): set<Uri> {
    (match e.change
     case Put(_, Issue(_)) => {e.uri}
     case Put(_, IssueStatus(status)) => {status.subject}
     case Put(_, Comment(issue, _)) => {issue}
     case _ => {})
    + (if e.uri.collection != CommentCollection then {}
       else (if e.uri in see(2).comments then {see(2).comments[e.uri].value.issue} else {}) + ChildIssues(see(3).comments, e.uri))
  }

  function IssueRepositoryKeys(see: Snapshots, e: Event): set<Uri> {
    (match e.change
     case Put(_, Issue(repository)) => {repository}
     case Put(_, IssueStatus(status)) => {status.repository} + IssueRepository(see(1), status.subject)
     case _ => {})
    + (if e.uri.collection == RepositoryCollection then {e.uri}
       else if e.uri.collection == IssueCollection then IssueRepository(see(0), e.uri)
       else if e.uri.collection == IssueStatusCollection && e.uri in see(4).issueStatuses then
         {see(4).issueStatuses[e.uri].value.repository} + IssueRepository(see(5), see(4).issueStatuses[e.uri].value.subject)
       else {})
  }

  // What the queries after each of the first `n` locks add.
  function FoundRepositories(see: Snapshots, issues: seq<string>, n: nat): set<string>
    requires n <= |issues|
  {
    if n == 0 then {} else FoundRepositories(see, issues, n - 1) + RepositoriesOfIssueText(see(5 + n), issues[n - 1])
  }

  function LocksOf(c: LockClass, keys: seq<string>): seq<Lock> { seq(|keys|, i requires 0 <= i < |keys| => Lock(c, keys[i])) }

  lemma LocksOfGrows(c: LockClass, keys: seq<string>, n: nat)
    requires n < |keys|
    ensures LocksOf(c, keys[..n + 1]) == LocksOf(c, keys[..n]) + [Lock(c, keys[n])]
  {
  }

  ghost function IssueLocksOf(see: Snapshots, issues: set<string>, repositories: set<string>): seq<Lock> {
    var ordered := Sorted(issues);
    LocksOf(IssueComments, ordered)
    + LocksOf(RepositoryIssues, Sorted(repositories + FoundRepositories(see, ordered, |ordered|)))
  }

  ghost function IssueLocks(see: Snapshots, e: Event): seq<Lock> {
    IssueLocksOf(see, Texts(IssueKeys(see, e)), Texts(IssueRepositoryKeys(see, e)))
  }

  function PullKeys(see: Snapshots, e: Event): set<Uri> {
    (match e.change
     case Put(_, PullRequest(_, _)) => {e.uri}
     case Put(_, PullRequestStatus(status)) => {status.subject}
     case _ => {})
    + (if e.uri.collection == RepositoryCollection then set p | p in see(0).pulls && see(0).pulls[p].value.target == e.uri
       else if e.uri.collection == PullRequestCollection && e.uri in see(1).pulls then {e.uri}
       else if e.uri.collection == PullRequestStatusCollection && e.uri in see(2).pullStatuses
       then {see(2).pullStatuses[e.uri].value.subject}
       else {})
  }

  function PullRepositoryKeys(see: Snapshots, e: Event): set<Uri> {
    (match e.change
     case Put(_, PullRequest(target, _)) => {target}
     case Put(_, PullRequestStatus(status)) => {status.repository}
     case _ => {})
    + (if e.uri.collection == RepositoryCollection then {e.uri}
       else if e.uri.collection == PullRequestCollection then PullTarget(see(1), e.uri)
       else if e.uri.collection == PullRequestStatusCollection && e.uri in see(2).pullStatuses
       then {see(2).pullStatuses[e.uri].value.repository}
       else {})
  }

  function FoundTargets(see: Snapshots, pulls: seq<string>, n: nat): set<string>
    requires n <= |pulls|
  {
    if n == 0 then {} else FoundTargets(see, pulls, n - 1) + TargetsOfPullText(see(2 + n), pulls[n - 1])
  }

  ghost function PullLocksOf(see: Snapshots, pulls: set<string>, repositories: set<string>): seq<Lock> {
    var ordered := Sorted(pulls);
    LocksOf(PullRequests, ordered)
    + LocksOf(RepositoryPullRequests, Sorted(repositories + FoundTargets(see, ordered, |ordered|)))
  }

  ghost function PullLocks(see: Snapshots, e: Event): seq<Lock> {
    PullLocksOf(see, Texts(PullKeys(see, e)), Texts(PullRepositoryKeys(see, e)))
  }

  // At most one lock on stars.
  function StarKey(t: Tables, e: Event): Option<Uri> {
    if e.uri.collection == RepositoryCollection then Some(e.uri)
    else if e.change.Put? && e.change.payload.Star? then Some(e.change.payload.starred)
    else if e.uri.collection == StarCollection && e.uri in t.stars then Some(t.stars[e.uri].value)
    else None
  }

  function StarLocks(t: Tables, e: Event): seq<Lock> {
    LocksOf(RepositoryStars, if StarKey(t, e).Some? then [Text(StarKey(t, e).value)] else [])
  }

  function ForkKeys(t: Tables, e: Event): set<Uri> {
    if e.uri.collection != RepositoryCollection then {}
    else {e.uri} + Elements(ForkSource(t.repositories, e.uri))
         + (if e.change.Put? && e.change.payload.Repository? then Elements(e.change.payload.forkedFrom) else {})
  }

  ghost function ForkLocks(t: Tables, e: Event): seq<Lock> { LocksOf(RepositoryForks, Sorted(Texts(ForkKeys(t, e)))) }

  function LineageLocks(e: Event): seq<Lock> { if RecountsLineages(e) then [Lock(Lineages, "")] else [] }

  // --- The same, as the source computes it ---------------------------------------

  method ResolveIssueKeys(see: Snapshots, e: Event) returns (issues: set<Uri>, repositories: set<Uri>)
    ensures issues == IssueKeys(see, e) && repositories == IssueRepositoryKeys(see, e)
  {
    issues, repositories := {}, {};
    if e.uri.collection == RepositoryCollection {
      repositories := repositories + {e.uri};
    }
    match e.change {
      case Put(_, Issue(repository)) =>
        repositories := repositories + {repository};
        issues := issues + {e.uri};
      case Put(_, IssueStatus(status)) =>
        issues := issues + {status.subject};
        repositories := repositories + {status.repository} + IssueRepository(see(1), status.subject);
      case Put(_, Comment(issue, _)) =>
        issues := issues + {issue};
      case _ =>
    }
    if e.uri.collection == IssueCollection {
      repositories := repositories + IssueRepository(see(0), e.uri);
    } else if e.uri.collection == CommentCollection {
      if e.uri in see(2).comments {
        issues := issues + {see(2).comments[e.uri].value.issue};
      }
      issues := issues + ChildIssues(see(3).comments, e.uri);
    } else if e.uri.collection == IssueStatusCollection && e.uri in see(4).issueStatuses {
      var target := see(4).issueStatuses[e.uri].value;
      repositories := repositories + {target.repository} + IssueRepository(see(5), target.subject);
    }
  }

  method LockIssueProjection(see: Snapshots, e: Event) returns (acquired: seq<Lock>)
    ensures acquired == IssueLocks(see, e)
  {
    var issues, repositories := ResolveIssueKeys(see, e);
    acquired := LockIssueKeys(see, Texts(issues), Texts(repositories));
  }

  method LockIssueKeys(see: Snapshots, issues: set<string>, known: set<string>) returns (acquired: seq<Lock>)
    ensures acquired == IssueLocksOf(see, issues, known)
  {
    var ordered := SortedKeys(issues);
    var repositories := known;
    acquired := [];
    for n := 0 to |ordered|
      invariant acquired == LocksOf(IssueComments, ordered[..n])
      invariant repositories == known + FoundRepositories(see, ordered, n)
    {
      acquired := acquired + [Lock(IssueComments, ordered[n])];
      repositories := repositories + RepositoriesOfIssueText(see(6 + n), ordered[n]);
      LocksOfGrows(IssueComments, ordered, n);
    }
    assert ordered[..|ordered|] == ordered;
    var keys := SortedKeys(repositories);
    var locks := AcquireAll(RepositoryIssues, keys);
    acquired := acquired + locks;
  }

  method ResolvePullRequestKeys(see: Snapshots, e: Event) returns (pulls: set<Uri>, repositories: set<Uri>)
    ensures pulls == PullKeys(see, e) && repositories == PullRepositoryKeys(see, e)
  {
    pulls, repositories := {}, {};
    if e.uri.collection == RepositoryCollection {
      repositories := repositories + {e.uri};
      pulls := pulls + set p | p in see(0).pulls && see(0).pulls[p].value.target == e.uri;
    }
    match e.change {
      case Put(_, PullRequest(target, _)) =>
        pulls := pulls + {e.uri};
        repositories := repositories + {target};
      case Put(_, PullRequestStatus(status)) =>
        pulls := pulls + {status.subject};
        repositories := repositories + {status.repository};
      case _ =>
    }
    if e.uri.collection == PullRequestCollection && e.uri in see(1).pulls {
      pulls := pulls + {e.uri};
      repositories := repositories + {see(1).pulls[e.uri].value.target};
    } else if e.uri.collection == PullRequestStatusCollection && e.uri in see(2).pullStatuses {
      var target := see(2).pullStatuses[e.uri].value;
      pulls := pulls + {target.subject};
      repositories := repositories + {target.repository};
    }
  }

  method LockPullRequestProjection(see: Snapshots, e: Event) returns (acquired: seq<Lock>)
    ensures acquired == PullLocks(see, e)
  {
    var pulls, repositories := ResolvePullRequestKeys(see, e);
    acquired := LockPullRequestKeys(see, Texts(pulls), Texts(repositories));
  }

  method LockPullRequestKeys(see: Snapshots, pulls: set<string>, known: set<string>) returns (acquired: seq<Lock>)
    ensures acquired == PullLocksOf(see, pulls, known)
  {
    var ordered := SortedKeys(pulls);
    var repositories := known;
    acquired := [];
    for n := 0 to |ordered|
      invariant acquired == LocksOf(PullRequests, ordered[..n])
      invariant repositories == known + FoundTargets(see, ordered, n)
    {
      acquired := acquired + [Lock(PullRequests, ordered[n])];
      repositories := repositories + TargetsOfPullText(see(3 + n), ordered[n]);
      LocksOfGrows(PullRequests, ordered, n);
    }
    assert ordered[..|ordered|] == ordered;
    var keys := SortedKeys(repositories);
    var locks := AcquireAll(RepositoryPullRequests, keys);
    acquired := acquired + locks;
  }

  method LockForkProjection(t: Tables, e: Event) returns (acquired: seq<Lock>)
    ensures acquired == ForkLocks(t, e)
  {
    var keys := SortedKeys(Texts(ForkKeys(t, e)));
    acquired := AcquireAll(RepositoryForks, keys);
  }

  method AcquireAll(c: LockClass, keys: seq<string>) returns (acquired: seq<Lock>)
    ensures acquired == LocksOf(c, keys)
  {
    acquired := [];
    for n := 0 to |keys|
      invariant acquired == LocksOf(c, keys[..n])
    {
      acquired := acquired + [Lock(c, keys[n])];
      LocksOfGrows(c, keys, n);
    }
    assert keys[..|keys|] == keys;
  }

  // --- The order of acquisition ----------------------------------------------------

  // What the four locking steps of one transaction see.
  datatype Views = Views(issue: Snapshots, pull: Snapshots, star: Tables, fork: Tables)

  ghost function TransactionLocks(v: Views, e: Event): seq<Lock> {
    IssueLocks(v.issue, e) + PullLocks(v.pull, e) + StarLocks(v.star, e) + ForkLocks(v.fork, e) + LineageLocks(e)
  }

  ghost predicate Ranked(locks: seq<Lock>, low: nat, high: nat) {
    Increasing(locks) && forall l | l in locks :: low <= Rank(l.kind) <= high
  }

  lemma RankedConcat(a: seq<Lock>, b: seq<Lock>, low: nat, mid: nat, high: nat)
    requires Ranked(a, low, mid) && Ranked(b, mid + 1, high) && low <= mid < high
    ensures Ranked(a + b, low, high)
  {
    forall i, j | 0 <= i < j < |a + b| ensures Before((a + b)[i], (a + b)[j]) {
      if i < |a| && j >= |a| {
        assert a[i] in a && b[j - |a|] in b;
      }
    }
  }

  lemma LocksOfRanked(c: LockClass, keys: seq<string>)
    requires Ascending(keys)
    ensures Ranked(LocksOf(c, keys), Rank(c), Rank(c))
  {
  }

  lemma IssueLocksRanked(see: Snapshots, issues: set<string>, repositories: set<string>)
    ensures Ranked(IssueLocksOf(see, issues, repositories), 0, 1)
  {
    var ordered := Sorted(issues);
    var keys := Sorted(repositories + FoundRepositories(see, ordered, |ordered|));
    LocksOfRanked(IssueComments, ordered);
    LocksOfRanked(RepositoryIssues, keys);
    RankedConcat(LocksOf(IssueComments, ordered), LocksOf(RepositoryIssues, keys), 0, 0, 1);
  }

  lemma PullLocksRanked(see: Snapshots, pulls: set<string>, repositories: set<string>)
    ensures Ranked(PullLocksOf(see, pulls, repositories), 2, 3)
  {
    var ordered := Sorted(pulls);
    var keys := Sorted(repositories + FoundTargets(see, ordered, |ordered|));
    LocksOfRanked(PullRequests, ordered);
    LocksOfRanked(RepositoryPullRequests, keys);
    RankedConcat(LocksOf(PullRequests, ordered), LocksOf(RepositoryPullRequests, keys), 2, 2, 3);
  }

  lemma FourRanked(a: seq<Lock>, b: seq<Lock>, c: seq<Lock>, d: seq<Lock>, f: seq<Lock>)
    requires Ranked(a, 0, 1) && Ranked(b, 2, 3) && Ranked(c, 4, 4) && Ranked(d, 5, 5) && Ranked(f, 6, 6)
    ensures Increasing(a + b + c + d + f)
  {
    RankedConcat(a, b, 0, 1, 3);
    RankedConcat(a + b, c, 0, 3, 4);
    RankedConcat(a + b + c, d, 0, 4, 5);
    RankedConcat(a + b + c + d, f, 0, 5, 6);
  }

  // Every transaction takes its locks in strictly increasing order, whatever
  // other transactions commit meanwhile.
  lemma LocksIncrease(v: Views, e: Event)
    ensures Increasing(TransactionLocks(v, e))
  {
    IssueLocksRanked(v.issue, Texts(IssueKeys(v.issue, e)), Texts(IssueRepositoryKeys(v.issue, e)));
    PullLocksRanked(v.pull, Texts(PullKeys(v.pull, e)), Texts(PullRepositoryKeys(v.pull, e)));
    StarAndForkLocksRanked(v.star, v.fork, e);
    FourRanked(IssueLocks(v.issue, e), PullLocks(v.pull, e), StarLocks(v.star, e), ForkLocks(v.fork, e), LineageLocks(e));
  }

  lemma StarAndForkLocksRanked(star: Tables, fork: Tables, e: Event)
    ensures Ranked(StarLocks(star, e), 4, 4) && Ranked(ForkLocks(fork, e), 5, 5)
  {
    LocksOfRanked(RepositoryStars, if StarKey(star, e).Some? then [Text(StarKey(star, e).value)] else []);
    LocksOfRanked(RepositoryForks, Sorted(Texts(ForkKeys(fork, e))));
  }

  lemma InLocksOf(c: LockClass, keys: seq<string>, key: string)
    ensures Lock(c, key) in LocksOf(c, keys) <==> key in keys
  {
    if key in keys {
      var i :| 0 <= i < |keys| && keys[i] == key;
      assert LocksOf(c, keys)[i] == Lock(c, key);
    }
  }
}
