# Adenosine: a verified model of its stateful core

Adenosine is a federated Git forge. Repositories live on one server, while
stars, issues, comments, pull requests and their statuses are records on their
authors' own servers; a stream of numbered events brings them in, in any order
and more than once. This project models the parts of the program whose
correctness depends on state, order or concurrency, and proves what the program
relies on.

- **Federation** (`Federation*`, `NewestWins`, `ForkRecountRace`,
  `IssueCountRace`). The tables of the network index and the effect of one event
  on them (`FederationTables`), the derived counts and states and which of them
  one event refreshes (`FederationCounts`), the store as a class whose methods
  run the statements of the source in order (`FederationStore`, through
  `FederationSteps` and `FederationQuiet`). Proved: derived columns equal full
  recounts in every run (`FederationExactness`, `FederationRuns`), what the
  stored states and counts mean in terms of the rows and how each event moves
  them (`FederationStates`, `FederationCountLaws`, `FederationCommentLaws`),
  replicas agree whatever the order of delivery (`NewestWins`,
  `FederationConvergence`, `FederationReplicas`), locks are taken in one order
  (`FederationLocks`), exactly when they cover what is refreshed
  (`FederationLockCoverage`), and with transactions interleaved statement by
  statement there is no deadlock (`FederationConcurrency`), and exactly when the
  fork counts (`FederationConcurrency`), the issue counts
  (`FederationIssueCounts`) and the repository counts of owners
  (`FederationOwnerCounts`) stay exact.
- **Merging pull requests** (`MergeMessage`, `GitHistory`, `MergeProtocol`,
  `PullHeads`). An append-only commit graph whose branches move by
  compare-and-swap, and a merge protocol that survives a stop after any step.
- **Status records** (`StatusSlot`). Several writers of one remote slot, with a
  comparison in full precision and storage in milliseconds.
- **Local state machines** (`ReleaseAssets`, `ReleaseRaces`, `TeamHierarchy`,
  `CheckRuns`). Quotas and two stores, re-parenting a forest, and a lifecycle
  with versions.
- **Parsers, streams and walks** (`DiffOutput`, `SshCommand`, `Streams`,
  `PurgeWorker`, `Base64Url`, `DiscoveryCursor`, `Discovery`).

Conventions. SQL tables are maps from keys to rows; a statement sees committed
rows and its own transaction's writes. Where the source changes fields step by
step the model is a class, and its methods are proved equal to a function on
values; the theorems over runs and interleavings are about that function, or
about a transition relation built from it. A call between whose read and write
another writer may act takes that writer's effect as the parameter `meanwhile`.
Clocks, generated ids and random names are parameters. Integers are unbounded
except where the width matters (`ReleaseAssets`, `DiffOutput`).

## What does not hold

The model keeps the code as it is. Where a property that one would expect is
not met, there is a concrete input or run, and the exact condition under which
it is.

- A new repository version does not refresh the states of its issues, although
  it refreshes those of its pull requests: `RepublishedRepositoryLeavesStaleState`,
  exact condition in `IssueStatesCurrentIff`. The condition is on the incoming
  event: it puts a newer repository version, and the stored state of one of that
  repository's issues is not what the statuses naming the new version say. A
  third party's status then sets such a state right, though it does not count
  itself: `StrangerMovesStaleIssue`, exact condition in `StrangerMovesNoIssueIff`.
- The recount of all lineages counts replies that the recount of one repository
  leaves out: `OrganizationEventCountsStrayReply`, exact condition in
  `CommentsExactIff`. It takes no fork lock either: `RecountLosesFork`, exact
  condition in `ForkCountsExactIff`.
- Deleting an issue that moves at the same time recounts the new repository
  without its lock, and a wrong issue count can be left behind:
  `MovedIssueEscapesItsLock`, `MovedIssueLosesCount`; exactly when an event
  refreshes only what it has locked is in `CountsAreLockedIff`, and exactly when
  issue counts stay exact in `IssueCountsExactIff`.
- The repository count of an owner has no lock at all, so that two repositories
  created at once can leave a wrong one: `OwnerRecountIsLost`, exact condition in
  `OwnedCountsExactIff`.
- The rows of comments, pull requests and pull request statuses keep some fields
  of the first version that arrives: `CommentVersionsDiverge`, exact conditions
  in `CommentOrderIff`, `PullOrderIff` and `PullStatusOrderIff`.
- A merge whose head is already the tip of the branch is not recognised by a
  retry, because Git drops the repeated parent: `HeadAtTipMergesTwice`, exact
  condition in `MergesAtMostOnceIff`.
- A status slot can return to an earlier content within one millisecond, so that
  a compare-and-swap by content succeeds: `SlotCanReturn`, exact condition in
  `LateWriteIff`.
- An update of a release may bring it back from its deletion, since the statement
  has no guard on the state: `OvertakenUpdateOrphansBlob`, exact condition in
  `BlobsAndRowsMatchIff`. Quotas hold even then.
- Two team moves checked at the same time can close a cycle: `TwoMovesCloseCycle`,
  exact condition in `TwoMovesIff`.
- A resent check run update is a conflict, not a repetition, when its times are
  finer than the database stores: exact condition in `ReplayIff`.

## Model

| member | source | states |
|---|---|---|
| FederationRuns.EveryRunIsSound | internal/federation/postgres.go:25-69 | After every sequence of deliveries, with duplicates and rejections anywhere: each live row's star, issue, open issue, fork, pull request, open pull request, issue comment and owner repository count equals a full recount of the tables; each live pull request of a live repository has the state its newest authoritative status gives it; the cursor is the greatest id with a receipt |
| FederationRuns.StoredIsSound | internal/federation/postgres.go:44-68 | One delivery keeps all of that, whether it is projected, rejected, a duplicate or fails |
| FederationRuns.CursorStaysAhead | internal/database/queries/federation.sql:10-18 | The cursor never falls behind a receipt, although events arrive out of order |
| FederationRuns.FirstDeliveryDecides | internal/federation/postgres.go:33-46 | In every run the first delivery with an id decides its receipt: applied, or rejected with the reason that decoding gave; later ones with that id change nothing about it |
| FederationRuns.IssueStatesCurrentIff | internal/federation/postgres.go:677-721 | Stored issue states are current in every state of a run if and only if no repository version arrives that disagrees with the stored states of its issues; the repository branch refreshes pull request states but no issue states |
| FederationRuns.CommentsExactIff | internal/database/queries/federation.sql:338-383 | Repository comment counts are exact in every state of a run if and only if no lineage recount happens while a live reply has a live parent on another issue |
| FederationExactness.ProjectKeepsCountsExact | internal/federation/postgres.go:117-734 | One event, which refreshes only the keys it believes changed, keeps every count but the repository comment count equal to a full recount |
| FederationExactness.RefreshStars | internal/federation/postgres.go:168-182 | Star counts stay exact when a star is put, deleted, comes from an author who starred twice, or its repository arrives later |
| FederationExactness.RefreshIssues | internal/federation/postgres.go:431-470 | Issue counts stay exact, also when an issue moves to another repository |
| FederationExactness.RefreshOpenIssues | internal/federation/postgres.go:966-981 | Open issue counts agree with the stored states after every event |
| FederationExactness.RefreshComments | internal/federation/postgres.go:940-964 | Repository comment counts stay exact under everything but the lineage recount: moving an issue, deleting a parent comment, replies that arrive before their parent |
| FederationExactness.RefreshIssueComments | internal/database/queries/federation.sql:743-764 | The same for the comment counts of issues |
| FederationExactness.RefreshForks | internal/federation/postgres.go:677-689 | Fork counts stay exact when a repository appears, disappears or changes its source |
| FederationExactness.RefreshPulls | internal/federation/postgres.go:232-246 | Pull request counts stay exact |
| FederationExactness.RefreshOpenPulls | internal/federation/postgres.go:983-998 | Open pull request counts agree with the stored states after every event |
| FederationExactness.RefreshOwned | internal/database/queries/federation.sql:426-431 | Repository counts of owners stay exact, whether the profile or the repository comes first |
| FederationExactness.PullStatesStayCurrent | internal/database/queries/federation.sql:1364-1396 | Every event keeps pull request states equal to what the newest authoritative status says, including a new repository or pull request version |
| FederationExactness.IssueStatesStayCurrentIff | internal/database/queries/federation.sql:643-677 | An event keeps issue states current if and only if it does not put a repository version with which a stored issue state disagrees |
| FederationExactness.LineageRecountIsExact | internal/database/queries/federation.sql:338-383 | Whatever the columns held before, the lineage recount leaves every live repository with exact star, issue, open issue, fork and pull request counts, and with the number of all live replies as its comment count |
| FederationExactness.LineageRecountCommentsIff | internal/database/queries/federation.sql:338-383 | That comment count is exact for every live repository if and only if no stray reply is live, a reply to a comment of another issue |
| FederationExactness.ProjectKeepsCommentsExactIff | internal/federation/postgres.go:723-734 | One event keeps repository comment counts exact if and only if it does not recount lineages while a stray reply is live |
| FederationStates.IssueStateIsOwnersWord | internal/database/queries/federation.sql:643-677 | The recomputed state of an issue of a live repository is the state of a live status by the repository's owner, naming that issue, that repository and its current version, of which none is newer; open if there is none |
| FederationStates.PullStateIsOwnersWord | internal/database/queries/federation.sql:1364-1396 | The same for a pull request, whose status must also name its current version |
| FederationStates.EveryRunShowsOwnersWord | internal/federation/postgres.go:25-69 | So in every run the stored state of each live pull request of a live repository is the owner's word, and that of an issue is wherever issue states are current |
| FederationStates.EveryRunKeepsUnnamedOpen | internal/database/queries/federation.sql:643-677 | In every run an issue or pull request that no status names is open, also before its repository is known |
| FederationStates.OwnerDecidesIssue | internal/federation/postgres.go:966-981 | A status by the owner about the current version that is newer than all others decides the stored state of its issue |
| FederationStates.OwnerDecidesPull | internal/federation/postgres.go:983-998 | The same for a pull request |
| FederationStates.StrangerMovesNoPull | internal/database/queries/federation.sql:1364-1396 | A status event under another DID than the target's owner changes the stored state of no live pull request of a live repository |
| FederationStates.StrangerMovesNoIssue | internal/database/queries/federation.sql:643-677 | Nor that of a live issue, where issue states are current |
| FederationStates.StrangerMovesNoIssueIff | internal/database/queries/federation.sql:643-677 | In general it leaves an issue's stored state alone if and only if it does not recompute that issue or the stored state is what the owner's statuses say |
| FederationCountLaws.StarAddsOne | internal/database/queries/federation.sql:478-490 | A new star adds one to the count of its repository if its author had no live star there, under whatever keys, and else nothing; no other count moves |
| FederationCountLaws.StarTakesOne | internal/database/queries/federation.sql:478-490 | Deleting a live star takes one away if it was its author's only live one there, and else nothing |
| FederationCountLaws.RunStarsAddOne | internal/federation/postgres.go:168-182 | The same for the delivery that follows any run |
| FederationCountLaws.RunStarsTakeOne | internal/federation/postgres.go:168-182 | The same for the deletion that follows any run |
| FederationCountLaws.IssueMovesOne | internal/database/queries/federation.sql:679-692 | A version of an issue adds one to the repository that it names and takes one from the repository that counted it before; a deletion only takes one |
| FederationCountLaws.OpenIssueMovesOne | internal/database/queries/federation.sql:679-692 | A version or a status of an issue moves the open count of a repository by that issue alone: as it is open there after the event and was before it |
| FederationCountLaws.PullMovesOne | internal/database/queries/federation.sql:1407-1420 | A pull request adds one to its target when it appears and takes one when it is deleted |
| FederationCountLaws.OpenPullMovesOne | internal/database/queries/federation.sql:1407-1420 | The open count moves by the pull request of the event alone, by its state and liveness before and after |
| FederationCountLaws.ForkMovesOne | internal/database/queries/federation.sql:390-411 | A repository adds one to the source that it names and takes one from the source that it named before; a deletion only takes one |
| FederationCountLaws.OwnedMovesOne | internal/database/queries/federation.sql:426-431 | An owner's count rises by one when a repository appears and falls by one when one disappears |
| FederationCommentLaws.CommentAddsOne | internal/database/queries/federation.sql:743-764 | A new comment adds one to its issue if its parent is not a live comment of another issue, and takes from every other issue the replies to it |
| FederationCommentLaws.CommentTakesOne | internal/database/queries/federation.sql:743-764 | Deleting it does the reverse |
| FederationCommentLaws.RepositoryGainsComment | internal/database/queries/federation.sql:766-793 | The same for the count of a repository, over its live issues |
| FederationCommentLaws.RepositoryLosesComment | internal/database/queries/federation.sql:766-793 | And for the deletion |
| FederationCommentLaws.IssueCarriesComments | internal/federation/postgres.go:431-470 | An issue that moves takes its stored comment count from one repository to the other, and one that is deleted takes it away |
| FederationCommentLaws.LineageEventCountsAll | internal/database/queries/federation.sql:338-383 | After an organization event or a deleted repository, each live repository's comment count is the number of all live comments on its live issues, whatever was stored before |
| FederationFailures.RepublishedRepositoryLeavesStaleState | internal/federation/postgres.go:677-721 | Four deliveries from the empty database: issue states are current through the status that closes an issue, and not after the repository is published again; the issue stays closed though no status names the new version |
| FederationFailures.StrangerMovesStaleIssue | internal/database/queries/federation.sql:643-677 | A concrete input: in that state a status by a third party, which does not count, makes the issue open again |
| FederationFailures.OrganizationEventCountsStrayReply | internal/database/queries/federation.sql:338-383 | Six deliveries from the empty database: comment counts are exact through a reply to a comment of another issue, and not after an organization record |
| FederationFailures.CommentVersionsDiverge | internal/database/queries/federation.sql:711-718 | A concrete input: two versions of a comment on different issues, whose row depends on which arrives first |
| FederationConvergence.RunReplaysLog | internal/federation/postgres.go:33-46 | The tables of a run are the replay of the events it projected, and nothing else |
| FederationConvergence.LogIsAccepted | internal/federation/postgres.go:33-42 | Each accepted event is projected exactly once; duplicates and rejected events never are |
| FederationConvergence.ReplayIsGuarded | internal/database/queries/federation.sql:532-562 | Six tables change only through the guard that the raw record is this very event, over any log |
| FederationConvergence.ReplayIsOwn | internal/database/queries/federation.sql:102-149 | Repositories and profiles change only by their own event ids, over any log |
| NewestWins.CurrentIsNewest | internal/database/queries/federation.sql:20-47 | An event becomes the raw record exactly when it is newer than every event before it |
| NewestWins.OwnRowsAgree | internal/database/queries/federation.sql:416-424 | Two tables that reflect the same events agree on every key, live or buried |
| NewestWins.GuardedReplayReflects | internal/database/queries/federation.sql:694-741 | Over any log, a guarded row that is not fixed by a first version is live exactly when the newest event under its URI puts it, and then holds that event's value |
| NewestWins.GuardedRowsAgree | internal/database/queries/federation.sql:694-741 | Any two orders of the same events give the same live row under a URI whose versions agree on the fixed fields, or whose newest event is a deletion |
| NewestWins.UnsettledDiffers | internal/database/queries/federation.sql:714-718 | An order in which the newest version comes first and one in which a version with other fixed fields comes first end differently |
| FederationReplicas.ReplicasAgree | internal/federation/postgres.go:25-69 | Two replicas that received the same messages, in any order and with any repetitions, have the same receipts, cursor and raw records, and the same live repositories, profiles, stars, issues and issue statuses |
| FederationReplicas.CommentOrderIff | internal/database/queries/federation.sql:694-725 | The row of a comment is independent of the delivery order if and only if its newest event deletes it or all its versions name the same issue and parent |
| FederationReplicas.PullOrderIff | internal/database/queries/federation.sql:1229-1265 | The same for pull requests and their target, source and branches |
| FederationReplicas.PullStatusOrderIff | internal/database/queries/federation.sql:1278-1310 | The same for pull request statuses and their subject and repository; decoding derives the record key from the subject, so of the two only the repository can differ in the program |
| FederationReplicas.SettledReplicasAgree | internal/database/queries/federation.sql:694-725 | Replicas whose comments, pull requests and statuses are settled agree on those tables too |
| FederationReplicas.ReplicasCountAlike | internal/federation/postgres.go:25-69 | Replicas show the same star, issue and fork counts |
| FederationReplicas.SettledReplicasCountAlike | internal/federation/postgres.go:25-69 | Settled replicas show the same pull request, open pull request, issue comment and owner counts |
| FederationLocks.BeforeIsStrictOrder | internal/federation/postgres.go:833-840 | Lock class, then the byte order of the URI, is a strict total order on locks |
| FederationLocks.LessIff | internal/federation/postgres.go:833-840 | One text is before another if and only if it ends or has the smaller character at the first difference |
| FederationLocks.TextIsInjective | internal/database/queries/federation.sql:529-530 | Records with different URIs have different locks |
| FederationLocks.SortedKeys | internal/federation/postgres.go:833-840 | Whatever order a map is iterated in, the keys come out as the one strictly increasing enumeration of the set |
| FederationLocks.ResolveIssueKeys | internal/federation/postgres.go:842-909 | The issues and repositories that an event may change, found by queries of which each may see other commits |
| FederationLocks.LockIssueKeys | internal/federation/postgres.go:910-938 | Issue locks in order, then the locks of the repositories that were found while locking |
| FederationLocks.LockIssueProjection | internal/federation/postgres.go:842-938 | The issue comment and repository issue locks of an event, as one sequence |
| FederationLocks.ResolvePullRequestKeys | internal/federation/postgres.go:756-811 | The pull requests and repositories that an event may change |
| FederationLocks.LockPullRequestKeys | internal/federation/postgres.go:812-831 | Pull request locks in order, then the locks of their targets |
| FederationLocks.LockPullRequestProjection | internal/federation/postgres.go:756-831 | The pull request locks of an event, as one sequence |
| FederationLocks.LockForkProjection | internal/federation/postgres.go:736-754 | The fork locks of a repository, its previous source and its new source, without repetition and in order |
| FederationLocks.LocksIncrease | internal/federation/postgres.go:92-116 | Every transaction takes its locks in strictly increasing order, although keys are found while locking and other transactions commit in between |
| FederationLockCoverage.LockedIffNamed | internal/federation/postgres.go:812-831 | A lock is taken if and only if one of the queries, each with its own view of the tables, has named its URI |
| FederationLockCoverage.CountsAreLockedIff | internal/federation/postgres.go:842-938 | For any views of the queries and any tables at the write: every count and state that the event refreshes is under its lock if and only if the queries saw the rows that the write sees, spelled out row by row for each kind of event |
| FederationLockCoverage.LockedIssueStays | internal/federation/postgres.go:910-918 | No transaction without the comment lock of an issue changes the repository of that issue |
| FederationLockCoverage.PutsAreAlwaysLocked | internal/federation/postgres.go:910-918 | So putting an issue or an issue status refreshes nothing without its lock, whatever other transactions commit between the query after the issue lock and the write |
| FederationLockCoverage.AloneAllLocked | internal/federation/postgres.go:92-116 | If nothing commits between the first query and the write, every count and state that any event refreshes is under its lock |
| FederationLockCoverage.RemovalHolds | internal/federation/postgres.go:855-863 | The transaction of an issue's deletion holds no lock but that of the repository that its first query saw |
| FederationLockCoverage.OwnedCountIsNotLocked | internal/federation/postgres.go:336-350 | The repository count of an owner is refreshed under no lock |
| FederationLockCoverage.CreationsShareNoLock | internal/federation/postgres.go:92-116 | The transactions of two new repositories have no lock in common, also for one owner |
| FederationIssueCounts.IssueCountsExactIff | internal/federation/postgres.go:431-470 | In every run of interleaved transactions, whatever locks they take: after every commit each live repository's issue count equals the number of its live issues, if and only if every commit leaves the repositories it refreshes with as many issues as its recount saw, or as before the commit where the recount found no row to store its count in |
| FederationIssueCounts.CommitIsExactIff | internal/federation/postgres.go:183-200 | The same for one commit |
| FederationIssueCounts.LockedIssueCountsStayExact | internal/database/queries/federation.sql:529-530 | Hence issue counts stay exact in every run whose transactions hold the lock of each repository that they refresh, at the recount and until they are committed |
| FederationIssueCounts.AgreeingQueriesKeepCountsExact | internal/federation/postgres.go:842-938 | Hence also in every run in which each transaction holds the locks that its queries named and these saw the rows that its write sees |
| IssueCountRace.MovedIssueEscapesItsLock | internal/federation/postgres.go:855-863 | Deleting an issue takes no such lock: for any tables with the issue in one repository and any views of a deletion that looks it up before the issue moves, the deletion recounts the new repository without its lock, though both transactions take the lock of the old one |
| IssueCountRace.MovedIssueLosesCount | internal/federation/postgres.go:183-200 | A reachable state with a wrong issue count: an issue that arrives in the new repository and the deletion are recounted before either is committed |
| FederationOwnerCounts.OwnedCountsExactIff | internal/database/queries/federation.sql:426-431 | In every run of interleaved transactions: after every commit each live owner's repository count equals the number of their live repositories, if and only if every commit leaves its live owner with as many as its recount saw, or as before the commit where the recount found no profile to store its count in |
| FederationOwnerCounts.CommitIsExactIff | internal/federation/postgres.go:690-692 | The same for one commit |
| FederationOwnerCounts.OwnedCountsStayExact | internal/federation/postgres.go:336-350 | Hence the counts stay exact in every run in which no other commit for the same owner comes between a recount and its commit |
| FederationOwnerCounts.OwnerRecountIsLost | internal/federation/postgres.go:690-692 | A reachable state with a wrong count: an owner with two repositories, created at once, and a count of one |
| FederationSteps.StarSteps | internal/federation/postgres.go:168-182 | Deleting or putting a star, statement by statement, adds up to the star table of the event and a refresh of exactly the star counts it touches |
| FederationSteps.IssueDeleteSteps | internal/federation/postgres.go:183-200 | The same for deleting an issue |
| FederationSteps.IssuePutSteps | internal/federation/postgres.go:431-470 | The same for putting an issue, with the previous repository recounted only if it differs |
| FederationSteps.CommentDeleteSteps | internal/federation/postgres.go:201-219 | The same for deleting a comment, with the issues of its replies listed beforehand |
| FederationSteps.CommentPutSteps | internal/federation/postgres.go:471-506 | The same for putting a comment |
| FederationSteps.IssueStatusDeleteSteps | internal/federation/postgres.go:220-231 | The same for deleting an issue status |
| FederationSteps.IssueStatusPutSteps | internal/federation/postgres.go:507-523 | The same for putting an issue status |
| FederationSteps.PullDeleteSteps | internal/federation/postgres.go:232-246 | The same for deleting a pull request |
| FederationSteps.PullPutSteps | internal/federation/postgres.go:524-551 | The same for putting a pull request |
| FederationSteps.PullStatusDeleteSteps | internal/federation/postgres.go:247-258 | The same for deleting a pull request status |
| FederationSteps.PullStatusPutSteps | internal/federation/postgres.go:552-569 | The same for putting a pull request status |
| FederationSteps.RepositoryDeleteProjected | internal/federation/postgres.go:289-325 | The same for deleting a repository, including one whose tombstone is too old |
| FederationSteps.RepositoryPutProjected | internal/federation/postgres.go:627-721 | The same for putting a repository |
| FederationSteps.ProfilePutProjected | internal/federation/postgres.go:336-350 | The same for putting a profile |
| FederationSteps.ProfileDeleteProjected | internal/federation/postgres.go:124-131 | The same for deleting a profile |
| FederationStore.FindNewestState | internal/database/queries/federation.sql:643-677 | The state in the authoritative status with the newest event, open without one, found by a loop |
| FederationStore.Store.constructor | internal/federation/postgres.go:25-32 | An empty database |
| FederationStore.Store.RecomputeStarCount | internal/database/queries/federation.sql:478-490 | One star count becomes the number of distinct live authors; nothing else changes |
| FederationStore.Store.RecomputeIssueCounts | internal/database/queries/federation.sql:679-692 | One repository's issue and open issue counts become recounts |
| FederationStore.Store.RecomputeRepositoryCommentCount | internal/database/queries/federation.sql:766-793 | One repository's comment count becomes a recount |
| FederationStore.Store.RecomputeForkCount | internal/database/queries/federation.sql:390-411 | One fork count becomes a recount |
| FederationStore.Store.RecomputePullRequestCounts | internal/database/queries/federation.sql:1407-1420 | One repository's pull request and open pull request counts become recounts |
| FederationStore.Store.RecomputeIssueCommentCount | internal/database/queries/federation.sql:743-764 | One issue's comment count becomes a recount, 0 for a deleted issue |
| FederationStore.Store.RecomputeRepositoryCount | internal/database/queries/federation.sql:426-431 | One owner's repository count becomes a recount |
| FederationStore.Store.RecomputeIssueState | internal/database/queries/federation.sql:643-677 | One issue's state becomes the state of the newest live status by its repository's owner that names the repository's current version, open without one; nothing else changes |
| FederationStore.Store.RecomputePullRequestState | internal/database/queries/federation.sql:1364-1396 | One pull request's state becomes the state of the newest live status by its target's owner that names both current versions, open without one; nothing else changes |
| FederationStore.Store.RecomputeLineageCounts | internal/database/queries/federation.sql:338-383 | Afterwards every live repository has exact counts, except that its comment count is the number of all live replies, whatever was stored before; issue comment counts, owner counts and states stay |
| FederationStore.Store.RecomputeCommentCounts | internal/federation/postgres.go:940-955 | An issue's comment count and that of its repository, if the issue has a row |
| FederationStore.Store.RecomputeChildCommentCounts | internal/federation/postgres.go:957-964 | The same for the issues of a comment's replies, by a loop over a set |
| FederationStore.Store.RecomputeIssueStateAndCounts | internal/federation/postgres.go:966-981 | An issue's state, then its repository's counts |
| FederationStore.Store.RecomputePullRequestStateAndCounts | internal/federation/postgres.go:983-998 | A pull request's state, then its target's counts |
| FederationStore.Store.RecomputePullRequestStates | internal/federation/postgres.go:702-713 | The states of all pull requests aimed at a repository, by a loop |
| FederationStore.Store.DeleteStar | internal/federation/postgres.go:168-182 | The new tables and columns after deleting a star, with the early return if no row was tombstoned |
| FederationStore.Store.PutStar | internal/federation/postgres.go:413-430 | The same after putting a star |
| FederationStore.Store.DeleteIssue | internal/federation/postgres.go:183-200 | The same after deleting an issue |
| FederationStore.Store.PutIssue | internal/federation/postgres.go:431-470 | The same after putting an issue |
| FederationStore.Store.DeleteComment | internal/federation/postgres.go:201-219 | The same after deleting a comment |
| FederationStore.Store.PutComment | internal/federation/postgres.go:471-506 | The same after putting a comment |
| FederationStore.Store.DeleteIssueStatus | internal/federation/postgres.go:220-231 | The same after deleting an issue status |
| FederationStore.Store.PutIssueStatus | internal/federation/postgres.go:507-523 | The same after putting an issue status |
| FederationStore.Store.DeletePullRequest | internal/federation/postgres.go:232-246 | The same after deleting a pull request |
| FederationStore.Store.PutPullRequest | internal/federation/postgres.go:524-551 | The same after putting a pull request |
| FederationStore.Store.DeletePullRequestStatus | internal/federation/postgres.go:247-258 | The same after deleting a pull request status |
| FederationStore.Store.PutPullRequestStatus | internal/federation/postgres.go:552-569 | The same after putting a pull request status |
| FederationStore.Store.DeleteRepository | internal/federation/postgres.go:289-325 | The same after deleting a repository |
| FederationStore.Store.RecomputeForkCounts | internal/federation/postgres.go:677-689 | The fork counts of the previous source, the new source and the repository itself |
| FederationStore.Store.PutRepository | internal/federation/postgres.go:627-721 | The same after putting a repository |
| FederationStore.Store.PutProfile | internal/federation/postgres.go:336-350 | The same after putting a profile |
| FederationStore.Store.DeleteProfile | internal/federation/postgres.go:124-131 | Afterwards the profile is live exactly if it was live and its last event is not older than the deletion, and its event id is at least the deletion's; no other row changes |
| FederationStore.Store.ProjectRecord | internal/federation/postgres.go:117-721 | The branch of the record's collection changes tables and columns exactly as the event should |
| FederationStore.Store.ProjectEvent | internal/federation/postgres.go:92-721 | The statements of one event, up to and including the lineage recount, change tables and columns exactly as the event should, and take exactly its locks |
| FederationStore.Store.TakeLocks | internal/federation/postgres.go:92-116 | The lock statements of one event give its lock sequence |
| FederationStore.Store.Store | internal/federation/postgres.go:25-69 | One delivery changes tables, columns, receipts and cursor exactly as FederationRuns.Stored says, reports a duplicate exactly when a receipt exists, and leaves everything alone when it fails |
| FederationStore.StatusesStayDistinct | internal/federation/postgres.go:59-62 | No two status rows were written by one event, so the newest one is unique |
| FederationConcurrency.NoDeadlock | internal/federation/postgres.go:92-116 | In every state that keeps the lock invariant, if a transaction is unfinished then some transaction can take a step |
| FederationConcurrency.RunsNeverDeadlock | internal/federation/postgres.go:92-116 | The same in every state of every run, for any number of transactions and any interleaving |
| FederationConcurrency.LockInvNext | internal/federation/postgres.go:736-754 | Every step keeps locks with one owner each, taken in increasing order and held to the end |
| FederationConcurrency.EarlyLocksArePlanned | internal/federation/postgres.go:92-116 | The locks that the projection code computes are ones the interleaving model covers |
| FederationConcurrency.ForkCountsExactIff | internal/federation/postgres.go:647-734 | In every run of transactions interleaved statement by statement: after every commit each live repository's fork count equals the number of live repositories forked from it, if and only if no commit publishes a lineage recount in which a repository without a fork lock, live then and now, had another number of forks |
| FederationConcurrency.ForkCountsStayExact | internal/federation/postgres.go:647-689 | Hence fork counts stay exact in every run in which no commit that writes a repository comes between a lineage recount and its commit |
| FederationConcurrency.CommitIsExactIff | internal/federation/postgres.go:677-689 | The same for one commit: counts under fork locks are those of the rows after it, and the others are if and only if the recount saw as many forks |
| FederationConcurrency.OthersStable | internal/federation/postgres.go:289-309 | A commit never changes the previous source that another transaction has read, nor the counts it has stored under its fork locks, because of the per-repository locks |
| FederationConcurrency.InvNext | internal/federation/postgres.go:647-689 | Every step of every transaction keeps this |
| ForkRecountRace.RecountLosesFork | internal/federation/postgres.go:723-734 | A reachable state with a wrong fork count: a fork commits between another transaction's lineage recount, which takes no fork lock, and that transaction's commit |
| MergeMessage.MessageRoundTrip | internal/git/history.go:350-354 | The message of a stored commit is read back exactly, empty lines included |
| MergeMessage.OwnMessageIsRecognised | internal/pullrequest/service.go:411-443 | The message built from any title and body is recognised by its trailers after trimming white space |
| MergeMessage.StoredMessageIsRecognised | internal/pullrequest/service.go:431-434 | Also after it was stored and read back |
| MergeMessage.TitleAndBodyAreStored | internal/pullrequest/service.go:418-424 | In the stored message, what precedes the empty line, the trailers and the final newline is the title, if the body is not empty followed by an empty line and the body: both are recovered from it when the title has no line break |
| MergeMessage.TrailerLines | internal/pullrequest/service.go:411-416 | The trailers are four lines with the URI, the CID, the head and the strategy, each under its own name |
| MergeMessage.RecognitionIsUnambiguous | internal/pullrequest/service.go:411-434 | No message is recognised for two tuples of URI, CID, head and strategy whose fields hold no space and no line break |
| MergeMessage.SpacesMakeRecognitionAmbiguous | internal/pullrequest/service.go:411-434 | A concrete message that is recognised for two pull requests when a URI may hold a space |
| GitHistory.FormerTipsStayReachable | internal/git/merge.go:87-173 | Under any interleaving of merges and fork synchronisations, every commit that was once the tip of a branch stays reachable from its current tip |
| GitHistory.FailedCallsMoveNothing | internal/git/fork.go:66-98 | A call that conflicts, diverges, loses its race or finds nothing to do has moved no branch in any of its steps |
| GitHistory.MergeResultIsHonest | internal/git/merge.go:128-173 | A merge that reports success moved the branch from the expected tip, which is the first parent of the new one; a merge commit has the head among its parents, a squash has no other parent |
| GitHistory.StepFastForwards | internal/git/fork.go:66-98 | A step that moves a branch moves it to a descendant and ends its call |
| GitHistory.RefsMoveBySwap | internal/git/merge.go:150-173 | A branch changes in no other way than by the compare-and-swap of the call that takes the step |
| GitHistory.SyncAlone | internal/git/fork.go:66-98 | A synchronisation that nothing comes between moves a fork that is behind, or has no such branch, to the fetched tip; it leaves an equal one alone and refuses one that has diverged |
| GitHistory.MergeAlone | internal/git/merge.go:87-173 | A clean merge into the expected tip that nothing comes between moves the branch to a commit with the given message, the old tip as first parent and, for a merge commit, the head as second |
| GitHistory.StaleMergeIsRefused | internal/git/merge.go:87-173 | A merge that expects another tip is refused |
| MergeProtocol.OwnCommitIsRecognised | internal/pullrequest/service.go:431-443 | The commit an attempt writes is recognised later if and only if the strategy is a squash or the head is not the tip it was made on |
| MergeProtocol.MergesAtMostOnce | internal/pullrequest/service.go:369-409 | However many attempts run, stop after any step and start again: the branch moves at most once, there is at most one outbox event, and every event and published status names the tip, whose parents are the old commit of the event and, for a merge commit, the head |
| MergeProtocol.MergesAtMostOnceIff | internal/pullrequest/service.go:369-409 | From a given branch no run merges twice if and only if the strategy is a squash or the head is not already the tip |
| MergeProtocol.AttemptCompletes | internal/pullrequest/service.go:369-409 | After anything that happened before, one more attempt that is left alone ends with the tip recorded and published: the merge that is there already, without a move, or its own |
| MergeProtocol.HeadAtTipMergesTwice | internal/pullrequest/service.go:435-437 | With the head at the tip, a run in which the branch moves twice |
| PullHeads.Repository.Fetch | internal/git/remote.go:78-101 | The remote head arrives under the quarantine ref only, while other refs may move |
| PullHeads.Repository.UpdateRef | internal/git/remote.go:112-121 | A ref moves exactly if it still holds the expected old value |
| PullHeads.Repository.FetchRemote | internal/git/remote.go:47-124 | It succeeds exactly if the remote head is the expected one and the pull ref still holds the prior one; then that ref alone moves. On every path the quarantine ref is gone |
| PullHeads.Repository.RefreshHead | internal/pullrequest/service.go:460-484 | It succeeds exactly if the ref held the head already, or the remote offers it and the ref holds the prior or the wanted head; then the ref holds the head |
| PullHeads.Repository.FetchHead | internal/pullrequest/service.go:472-483 | After the prior head has been read: it succeeds exactly if the remote offers the wanted head and the ref still holds the prior head or already the wanted one, and then moves that ref alone |
| PullHeads.Repository.SecondRefreshKeepsFirst | internal/pullrequest/service.go:472-483 | Two refreshes on the same refs, where the second one has read the prior head, the first one runs to its end, and the second one goes on: the first keeps its head at the ref and the second succeeds exactly if it wanted the same head; no other ref moves |
| StatusSlot.Slot.Swap | internal/atproto/issue.go:203-226 | The slot is written exactly if it holds what the writer expects |
| StatusSlot.Slot.PutStatus | internal/atproto/pullrequest.go:162-240 | The slot and the result after a read, a write by somebody else and the swap: it succeeds exactly if the slot held or holds its record, up to the creation time and the stored precision, or its write went through; after a lost swap to any other record it is a conflict; a success returns a record that the slot held |
| StatusSlot.VersionsFollow | internal/atproto/issue.go:164-226 | In every run of any number of writers: the subject URI, the repository URI and the creation time of the first version stay, the update time never goes back, and every version is in stored precision with its update not before its creation |
| StatusSlot.SuccessIsStored | internal/atproto/pullrequest.go:212-240 | In every run, a writer that ends with a record finds it among the versions, and it is the record that the writer began with, up to the creation time and the stored precision |
| StatusSlot.LostWriterIff | internal/atproto/pullrequest.go:212-228 | In every run, a writer that lost the swap is told of a conflict if and only if the latest version differs from its own record in stored precision |
| StatusSlot.HistoryIff | internal/atproto/issue.go:164-226 | The sequences of versions that runs of any number of writers leave behind are exactly those whose versions are in stored precision, follow one another and differ from one to the next |
| StatusSlot.LateWriteIff | internal/atproto/pullrequest.go:178-238 | Such a sequence admits a write that goes through although other versions came after its writer's read, if and only if some content comes back at a later version and that version is replaced |
| StatusSlot.DistinctTimesExcludeLateWrites | internal/atproto/pullrequest.go:178-238 | If the stored update times strictly increase, no write replaces a version that its writer did not read |
| StatusSlot.WritesReplaceWhatWasRead | internal/atproto/pullrequest.go:178-238 | All versions between a late write and its writer's read were written within one unit of stored time |
| StatusSlot.SlotCanReturn | internal/atproto/pullrequest.go:178-238 | A run with a late write: two versions come between a writer's read and its successful write |
| StatusSlot.RepeatWritesNothing | internal/atproto/issue.go:178-202 | Sending a stored record again writes nothing |
| StatusSlot.StaleIsRefused | internal/atproto/issue.go:176-187 | In every run, a writer that reads a slot with versions is refused if and only if it names another subject or repository than the first version, or some version so far is not older than its record and its record is not the latest version again |
| StatusSlot.CreateIsIdempotent | internal/atproto/issue.go:83-123 | Creating again, or in a race, keeps what came first; it succeeds exactly for the same record, and then as before |
| StatusSlot.TruncatedOrder | internal/atproto/issue.go:332-342 | Stored precision keeps the order of times, so an update not before its creation stays so |
| ReleaseAssets.ExceedsIsExact | internal/release/postgres.go:221 | The subtraction never overflows and the test equals the exact comparison; the addition it avoids would compare wrongly exactly when it overflows |
| ReleaseAssets.SumSizes | internal/database/queries/releases.sql:83-88 | The usage of a repository or a release, by a loop over its assets |
| ReleaseAssets.CreatedStaysWithinQuota | internal/release/postgres.go:109-145 | A row is inserted only if the per-release and per-repository sums stay within their limits |
| ReleaseAssets.DeletionStaysWithinQuota | internal/release/postgres.go:183-192 | Deleting a row keeps them |
| ReleaseAssets.Service.constructor | internal/release/service.go:53-61 | A service with no release |
| ReleaseAssets.Service.CreateRelease | internal/release/service.go:63-96 | A new draft or published release, nothing else changes |
| ReleaseAssets.Service.CreateAsset | internal/release/postgres.go:109-145 | The insertion under the quota lock with its errors: no such release, a release being deleted, a taken name, a quota |
| ReleaseAssets.Service.UploadAsset | internal/release/service.go:170-203 | It succeeds exactly if the release is open, both quotas hold and no asset of the release has the name; on failure neither rows nor blobs change, and the error is not-found exactly if the release is gone or being deleted |
| ReleaseAssets.Service.DeleteAsset | internal/release/service.go:235-247 | It succeeds exactly for an asset of that release, and removes its row and its blob |
| ReleaseAssets.Service.DeleteListed | internal/release/service.go:155-166 | The deletion loop removes the listed assets and no others |
| ReleaseAssets.Service.Delete | internal/release/service.go:151-168 | It succeeds exactly if the release exists; then its row, its assets and their blobs are gone and all others are left |
| ReleaseRaces.BlobsAndRowsMatchIff | internal/release/service.go:151-203 | In every run of interleaved uploads, deletions and updates: each blob belongs to a row or to an upload in flight, and each row has its blob unless it is being deleted, if and only if no deletion of a release ends with asset rows whose blobs are still there |
| ReleaseRaces.NextIsAccountedIff | internal/release/service.go:155-168 | The same for one step |
| ReleaseRaces.BlobsAndRowsMatch | internal/release/service.go:151-203 | Hence it holds in every run in which no update overtakes a deletion of its release |
| ReleaseRaces.NoAssetAfterMark | internal/release/postgres.go:90-126 | In a run in which no update overtakes a deletion, a release that is marked or gone gains no asset |
| ReleaseRaces.DeletionLeavesNothing | internal/release/service.go:155-168 | In such a run, when a deletion succeeds, neither the release nor any asset of it is left, and the last statement took no asset row |
| ReleaseRaces.QuotasHold | internal/release/postgres.go:109-145 | In every state of every run, also with overtaken updates, the summed sizes are within both limits |
| ReleaseRaces.UploadAlone | internal/release/service.go:170-203 | In any state of a run, an upload that nothing comes between stores its blob and its row exactly if it fits, and else leaves both stores as they were |
| ReleaseRaces.DeletionAlone | internal/release/service.go:235-247 | A deletion of an asset that nothing comes between takes its row and its blob, of that release only |
| ReleaseRaces.ReleaseDeletionAlone | internal/release/service.go:151-168 | A deletion of a release that nothing comes between takes the release, its assets and their blobs, and nothing else |
| ReleaseRaces.NextIsTame | internal/release/service.go:151-203 | Every step keeps ids, in-flight uploads and half-done deletions apart, also an overtaken update |
| ReleaseRaces.EmptyReleaseIsBroughtBack | internal/database/queries/releases.sql:28-34 | A reachable state in which an update has reopened a release that a deletion found empty |
| ReleaseRaces.OvertakenUpdateOrphansBlob | internal/release/service.go:123-149 | A reachable state with a blob that no row and no call accounts for, after such an update |
| TeamHierarchy.Subtree | internal/database/queries/organizations.sql:406-419 | The recursive query, by a loop: the least set with the team that is closed under live children |
| TeamHierarchy.SubtreeIsBelow | internal/database/queries/organizations.sql:390-404 | In a forest that set is the team and exactly the teams from which a path leads up to it |
| TeamHierarchy.ForestHasNoCycle | internal/organization/team_service.go:146-201 | No team of a forest lies beneath itself |
| TeamHierarchy.NewTeamKeepsForest | internal/organization/team_service.go:112-144 | A created team keeps the forest and its rules: one organization, no secret parent or child |
| TeamHierarchy.MoveKeepsForest | internal/organization/team_service.go:162-186 | A move that passes the descendant check keeps them |
| TeamHierarchy.DeletionKeepsForest | internal/database/queries/organizations.sql:406-422 | Deleting a hierarchy leaves no live team with a deleted parent |
| TeamHierarchy.BeneathIsSubtree | internal/database/queries/organizations.sql:390-404 | Conversely the team and all beneath it are such a set, so there is exactly one |
| TeamHierarchy.Service.constructor | internal/organization/team_service.go:108-110 | No teams |
| TeamHierarchy.Service.Create | internal/organization/team_service.go:112-144 | It succeeds exactly for an owner and an allowed parent, and keeps the forest |
| TeamHierarchy.Service.Update | internal/organization/team_service.go:146-201 | It succeeds exactly if the actor maintains the team and a new parent, the parent is allowed and not beneath the team, and a team that becomes secret has no child; then the team has that parent and visibility and all others stay, otherwise nothing changes |
| TeamHierarchy.Service.Delete | internal/organization/team_service.go:203-218 | It succeeds exactly for a maintainer, and then exactly the team and all beneath it are gone, and as many are reported |
| TeamHierarchy.TwoMovesIff | internal/database/queries/organizations.sql:338-380 | Two allowed moves that are each checked before the other is visible leave a forest if and only if they do not cross: each new parent is the other team or beneath it |
| TeamHierarchy.TwoMovesCloseCycle | internal/database/queries/organizations.sql:338-380 | A concrete input: two roots moved beneath each other at once |
| CheckRuns.NormalizedIsShaped | internal/commitstatus/commitstatus.go:402-441 | Normalisation yields a row of the shape of its status, in full and in stored precision: queued without times, in progress with a start only, completed with a supported conclusion and a start not after its end |
| CheckRuns.ShapedIsNormal | internal/commitstatus/commitstatus.go:402-441 | Conversely every such shape is accepted unchanged |
| CheckRuns.UpdateIff | internal/commitstatus/commitstatus.go:288-320 | An update is written if and only if it is the creator's, well-formed, names the row's version, does not take the status back, has a lifecycle that fits its status and says something new; it is unchanged if the row says so already |
| CheckRuns.WrittenRow | internal/database/queries/commit_statuses.sql:75-91 | What is written is the next version with the requested status, conclusion and output, and the start and end that the request gives or implies, in stored precision |
| CheckRuns.Store.constructor | internal/commitstatus/commitstatus.go:220-256 | A stored row |
| CheckRuns.Store.Swap | internal/database/queries/commit_statuses.sql:75-91 | The row is replaced exactly if it has the expected version |
| CheckRuns.Store.UpdateCheckRun | internal/commitstatus/commitstatus.go:288-320 | The row and the result after a read, an update by somebody else and the write, on every path: unchanged, refused, applied, overtaken |
| CheckRuns.VersionsAreShaped | internal/commitstatus/commitstatus.go:380-448 | In every run of interleaved updates every version has the shape of its status, and no status goes back |
| CheckRuns.AppliedUpdateSawLatest | internal/commitstatus/commitstatus.go:288-320 | An applied update was made from the very version it replaces |
| CheckRuns.CurrentUpdateIsWritten | internal/commitstatus/commitstatus.go:288-320 | From any state of the interleaving, such an update is written if nothing comes in between |
| CheckRuns.ReplayIff | internal/commitstatus/commitstatus.go:513-516 | Sending an applied update again is accepted as unchanged if and only if its times are whole microseconds and, for a completed run, its end was given or the clock shows the stored one |
| CheckRuns.ReplayNeverWrites | internal/commitstatus/commitstatus.go:513-516 | In no case does it change the row |
| CheckRuns.Combined | internal/commitstatus/commitstatus.go:201-218 | The combined state is error if any state is, else failure if any is, success if there are states and all are, and else pending, by a loop |
| DiffOutput.ParseStatusRecords | internal/git/history.go:385-429 | The index loop over the fields of the status output computes the recursive reading |
| DiffOutput.ParseDiffStatus | internal/git/history.go:377-429 | The same from the raw output, with its terminator |
| DiffOutput.ParseDiffNumstat | internal/git/history.go:431-474 | The loop over the line counts computes the recursive reading |
| DiffOutput.Join | internal/git/history.go:192-209 | The join succeeds exactly if every file has a statistic and there are as many statistics as files; each file is then paired with the one under its key |
| DiffOutput.JoinIsBijection | internal/git/history.go:192-209 | With distinct status keys, that is exactly when the keys of the files are the keys of the statistics |
| DiffOutput.PathKeyIsInjective | internal/git/history.go:491-493 | Keys tell pairs of paths apart when the old paths hold no NUL |
| DiffOutput.StatusRoundTrip | internal/git/history.go:377-429 | Printing the statuses of any list of entries and reading them back gives the files, in order |
| DiffOutput.StatusAcceptedIff | internal/git/history.go:377-429 | A status output is accepted if and only if it is the printed form of a list of at most 10,000 entries |
| DiffOutput.StatisticsRoundTrip | internal/git/history.go:431-474 | Printing their line counts and reading those back gives each entry's counts under its key and nothing else |
| DiffOutput.CountsRoundTrip | internal/git/history.go:476-489 | Line counts up to the largest int64, or a pair of dashes for a binary file, are read back |
| DiffOutput.CountReadIff | internal/git/history.go:476-489 | A decimal count is read if and only if it is at most the largest int64, and a negative one if and only if it is zero |
| DiffOutput.DiffRoundTrip | internal/git/history.go:192-209 | The two outputs of one list of entries always join and give back each entry's file with its counts: an added file with only a new path, a deleted one with only an old path, a rename or copy with both |
| DiffOutput.ReadableIff | internal/git/history.go:431-474 | The line counts of a list of changes with distinct keys are readable if and only if no path outside a rename or copy has a tab, wherever it is in the list |
| DiffOutput.TabInPathIsRefused | internal/git/history.go:440-444 | Such a line of counts has too many fields |
| SshCommand.ParseIff | internal/gitssh/command.go:14-55 | A command line is accepted as a command if and only if that is a valid one and the line is its rendering with one or no leading slash |
| SshCommand.RenderIsParsed | internal/gitssh/command.go:14-55 | Both renderings of every valid command are accepted |
| SshCommand.EndpointParsesBack | internal/repository/endpoints.go:39-53 | The path printed for any valid owner and slug is parsed back to that owner and slug |
| Streams.LimitedBuffer.constructor | internal/git/runner.go:276-280 | An empty buffer |
| Streams.LimitedBuffer.Write | internal/git/runner.go:282-295 | After any writes the buffer holds exactly the first bytes up to the limit, and is marked truncated exactly if more were written; the writer is always told that all bytes were taken |
| Streams.RunBounded | internal/git/read.go:317-326 | The whole output, or an error exactly if it is over the limit, however it was cut into writes |
| Streams.ChecksumReader.constructor | internal/release/s3.go:270-276 | A reader at the start of its body |
| Streams.ChecksumReader.Read | internal/release/s3.go:278-301 | End of file is reported only if all bytes delivered so far hash to the expected digest, a mismatch only if they do not, and a verdict is final; before that the bytes and failures of the body are handed on |
| Streams.ReadAll | internal/release/s3.go:278-301 | The same over any sequence of reads and failures of the body: everything is handed on up to the end of the body, and then the verdict for ever |
| PurgeWorker.ListDueDeletions | internal/database/queries/repositories.sql:130-145 | A page: the first due deletions after the cursor, in order |
| PurgeWorker.MarkAllIs | internal/database/queries/repositories.sql:147-159 | Marking a list of deletions marks those and no others |
| PurgeWorker.Worker.constructor | internal/repository/purge_worker.go:27-29 | A worker that has purged nothing |
| PurgeWorker.Worker.PurgePage | internal/repository/purge_worker.go:56-64 | A page is purged and marked in order, up to the first repository whose data cannot be removed |
| PurgeWorker.Worker.PurgeNext | internal/repository/purge_worker.go:50-66 | The next page adds deletions that the pass has not met, after all that it has |
| PurgeWorker.Worker.PurgeOnePage | internal/repository/purge_worker.go:50-69 | The same within a pass: what it purges was due when the page was listed, and a page that is not full is the last |
| PurgeWorker.Worker.Purge | internal/repository/purge_worker.go:49-70 | A pass ends; it purges then marks each deletion it meets exactly once, in the order of due time and id, and only deletions that were due when their page was listed; if it succeeds, every deletion due at its start is among them, and those are all if the clock stands still; if not, one that is left could not be removed |
| Base64Url.Base64RoundTrip | internal/federation/discovery.go:122-133 | Every byte sequence comes back from its encoding |
| Base64Url.DecodingIsUnique | internal/federation/discovery.go:135-141 | Up to line breaks, no two texts decode to the same bytes |
| Base64Url.LetterIs | internal/federation/discovery.go:122-133 | The letters are those of the URL-safe alphabet, in its order |
| Base64Url.GroupIsOneNumber | internal/federation/discovery.go:122-133 | Four sextets are the digits of three bytes read as one number, most significant first |
| Base64Url.PackIsGrouped | internal/federation/discovery.go:122-133 | Bytes are packed three by three, and a partial group is filled with zero bits |
| DiscoveryCursor.CursorRoundTrip | internal/federation/discovery.go:122-155 | Every cursor that is issued decodes to the position it encodes |
| DiscoveryCursor.AcceptedIsEncoded | internal/federation/discovery.go:135-155 | Whatever is accepted is, up to line breaks, the encoding of the version, the printed time and the canonical URI that it decodes to |
| DiscoveryCursor.RefusedIff | internal/federation/discovery.go:122-133 | A cursor is refused exactly for the zero time, a URI that is not canonical, or a text that is too long |
| Discovery.AfterMember | internal/database/queries/federation.sql:795-835 | The rows after a listed repository are the rest of the listing |
| Discovery.PageSize | internal/federation/discovery.go:85-112 | Limits from 1 to 100 are accepted, 0 stands for 30; a page with a next cursor holds exactly as many repositories, a last one no more |
| Discovery.NewestFirst | internal/database/queries/federation.sql:795-835 | The listing is newest first, then by descending URI |
| Discovery.WalkFrom | internal/federation/discovery.go:85-120 | Following the cursors from any position lists the rest, once and in order |
| Discovery.WalkIsExact | internal/federation/discovery.go:85-120 | For any valid limit, following the cursors from the start lists every repository once in keyset order, as long as no cursor is too long |

## Left out

- Repository transfers: every repository is its own lineage and its own canonical repository, so the lineage reconciliation changes nothing and keeps only its place in the lock order; a repository event with transfer links is not modelled.
- The projected tables of identities, organizations, grants, memberships, revocations, reviews, labels, milestones and triage: such an event writes its raw record, and an organization event also recounts the lineages. Each of these tables is one more guarded row without derived counts, except the review count.
- Decoding of events: a delivery carries a decoded record or a reason to reject it. The record keys of stars and issue statuses are taken to be derived from the URI they name, as decoding demands; the theorems on pull request statuses do not use that their keys are derived likewise.
- FederationConcurrency.ForkCountsExactIff: exactness over all interleavings is decided for fork, issue and owner counts; star, comment and pull request counts have no system of their own, only the condition under which they are refreshed under their locks.
- FederationIssueCounts.IssueCountsExactIff: events that recount whole lineages do not occur in these runs, and the writes and recounts of one transaction are one step, after its locks and before its commit.
- FederationOwnerCounts.OwnedCountsExactIff: only repository and profile events occur in these runs, since no other event changes or recounts what they count.
- FederationConcurrency.NoDeadlock: only the advisory locks are modelled, without the row locks of PostgreSQL, under which a statement that waits for a row still stores what it counted before, and their 64-bit hash is taken to be injective.
- FederationReplicas.SettledReplicasCountAlike: no claim for open issue counts and repository comment counts, which depend on the order of delivery through the two exceptions listed above.
- FederationStore.Store.Store: database errors are not modelled beyond the rollback that they cause.
- MergeProtocol.MergesAtMostOnce: no other writer moves the branch, and the check of the projection before each attempt, which only stops attempts early, is not modelled.
- GitHistory.FormerTipsStayReachable: merge-tree and commit-tree are nondeterministic steps, and resolving a tree may fail at any time; native Git processes, locks and worktrees are not part of this model.
- PullHeads.Repository.FetchRemote: the checks of the remote URL, host and address, and the DNS and TLS settings of the fetch, are not modelled, and deleting the quarantine ref is taken to succeed.
- StatusSlot.VersionsFollow: JSON, AT-URI and session handling are not modelled, a record's CID is taken to stand for its content, and times that cannot be printed in canonical form are excluded.
- ReleaseRaces.BlobsAndRowsMatchIff: deleting a blob always succeeds and no call stops half-way; with either, a blob or a row can be left behind until the call is repeated.
- ReleaseAssets.Service.UploadAsset: the storage of a blob succeeds and reports the size it was given; a failing source, a wrong size and the validation of names are not modelled.
- TeamHierarchy.Service.Update: names, members, repository access and audit events of teams are not modelled; the actor's rights are parameters.
- CheckRuns.Store.UpdateCheckRun: texts and URLs of an update are opaque, their validation is not modelled.
- DiffOutput.DiffRoundTrip: the limit on the bytes of Git's output is not modelled, and paths are texts without an encoding.
- Streams.ChecksumReader.Read: the hash is any function of the bytes delivered, and digests are compared as values.
- PurgeWorker.Worker.Purge: nobody else changes the deletions during a pass, and a page larger than the one asked for is not considered.
- DiscoveryCursor.CursorRoundTrip: printing and parsing of times and the test for a canonical URI are parameters that are taken to agree with each other.
- Discovery.WalkIsExact: the listing does not change during a walk.
- The parsers of branches, tags and trees, and the other page queries: the same shapes as the ones modelled, with fewer cases.
- Creating a fork, listing commits, the HTTP and SSH servers, OAuth, sessions, tokens, webhooks, the command line and the web client.
