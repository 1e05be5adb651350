// What the stored comment counts count: how they move when a comment appears or
// disappears, which may hide or show its replies, and when an issue moves.
module FederationCommentLaws {
  import opened Options
  import opened FederationTables
  import opened FederationCounts
  import opened FederationExactness
  import opened FederationCountLaws

  type Comments = map<Uri, Row<CommentValue>>

  predicate IsComment(e: Event, value: CommentValue) { e.change.Put? && e.change.payload == Comment(value.issue, value.parent) }

  // The parent is not a live comment of another issue.
  predicate Belongs(comments: Comments, value: CommentValue) {
    value.parent.Some? && Live(comments, value.parent.value) ==> comments[value.parent.value].value.issue == value.issue
  }

  function RepliesTo(comments: Comments, u: Uri, i: Uri): set<Uri> {
    set c | c in comments && comments[c].live && comments[c].value.parent == Some(u) && comments[c].value.issue == i
  }

  // --- The comments of an issue --------------------------------------------------------

  // A comment that appears counts if it belongs, and hides its replies on other
  // issues.
  lemma AppearingComment(comments: Comments, u: Uri, value: CommentValue, id: int, i: Uri)
    requires !Live(comments, u) && value.parent != Some(u)
    ensures |CommentsOfIssue(comments[u := Row(value, true, id)], i)| ==
            |CommentsOfIssue(comments, i)|
            + One(i == value.issue && Belongs(comments, value)) - (if i == value.issue then 0 else |RepliesTo(comments, u, i)|)
  {
    var before, after, replies := CommentsOfIssue(comments, i), CommentsOfIssue(comments[u := Row(value, true, id)], i), RepliesTo(comments, u, i);
    if i == value.issue {
      OneElement(before, after, u);
    } else {
      assert after == before - replies && replies <= before;
    }
  }

  // One that disappears shows them again.
  lemma DisappearingComment(comments: Comments, u: Uri, id: int, i: Uri)
    requires Live(comments, u)
    ensures
      var value := comments[u].value;
      |CommentsOfIssue(comments[u := Row(value, false, id)], i)| ==
      |CommentsOfIssue(comments, i)|
      - One(i == value.issue && Belongs(comments, value)) + (if i == value.issue then 0 else |RepliesTo(comments, u, i)|)
  {
    var value := comments[u].value;
    var before, after, replies := CommentsOfIssue(comments, i), CommentsOfIssue(comments[u := Row(value, false, id)], i), RepliesTo(comments, u, i);
    if i == value.issue {
      OneElement(before, after, u);
    } else {
      assert after == before + replies && replies !! before;
    }
  }

  lemma CommentCountStored(t: Tables, c: Columns, i: Uri)
    requires IssueCommentsExact(t, c) && Live(t.issues, i)
    ensures Count(c.issueComments, i) == |CommentsOfIssue(t.comments, i)|
  {
    CountIs(t.issues, c.issueComments, IssueCommentRecounts(t), i);
  }

  lemma CommentLeavesIssues(t: Tables, e: Event)
    requires Valid(e) && e.uri.collection == CommentCollection
    ensures IssuesAfter(t, e) == t.issues
  {
  }

  lemma CommentCounts(t: Tables, c: Columns, e: Event, i: Uri)
    requires IssueCommentsExact(t, c) && Valid(e) && e.uri.collection == CommentCollection && Live(t.issues, i)
    ensures Count(c.issueComments, i) == |CommentsOfIssue(t.comments, i)|
    ensures Count(Project(t, c, e).issueComments, i) == |CommentsOfIssue(CommentsAfter(t, e), i)|
  {
    CommentCountStored(t, c, i);
    RefreshIssueComments(t, c, e);
    ProjectIsRefresh(t, c, e);
    CommentLeavesIssues(t, e);
    CommentCountStored(Apply(t, e), Refresh(t, c, e), i);
  }

  lemma CommentRowAfter(t: Tables, e: Event)
    requires e.uri.collection == CommentCollection && IsLatest(t, t.comments, e)
    ensures forall value | IsComment(e, value) && (e.uri in t.comments ==> t.comments[e.uri].value == value) ::
              CommentsAfter(t, e) == t.comments[e.uri := Row(value, true, e.id)]
    ensures e.change.Delete? && e.uri in t.comments ==>
              CommentsAfter(t, e) == t.comments[e.uri := Row(t.comments[e.uri].value, false, e.id)]
  {
  }

  lemma CommentAddsOne(t: Tables, c: Columns, e: Event, value: CommentValue, i: Uri)
    requires IssueCommentsExact(t, c) && Valid(e) && IsComment(e, value) && IsLatest(t, t.comments, e) && Live(t.issues, i)
    requires !Live(t.comments, e.uri) && (e.uri in t.comments ==> t.comments[e.uri].value == value)
    ensures Count(Project(t, c, e).issueComments, i) ==
            Count(c.issueComments, i)
            + One(i == value.issue && Belongs(t.comments, value)) - (if i == value.issue then 0 else |RepliesTo(t.comments, e.uri, i)|)
  {
    CommentCounts(t, c, e, i);
    CommentRowAfter(t, e);
    AppearingComment(t.comments, e.uri, value, e.id, i);
  }

  lemma CommentTakesOne(t: Tables, c: Columns, e: Event, i: Uri)
    requires IssueCommentsExact(t, c) && Valid(e) && IsDelete(e, CommentCollection) && IsLatest(t, t.comments, e)
    requires Live(t.comments, e.uri) && Live(t.issues, i)
    ensures
      var value := t.comments[e.uri].value;
      Count(Project(t, c, e).issueComments, i) ==
      Count(c.issueComments, i)
      - One(i == value.issue && Belongs(t.comments, value)) + (if i == value.issue then 0 else |RepliesTo(t.comments, e.uri, i)|)
  {
    CommentCounts(t, c, e, i);
    CommentRowAfter(t, e);
    DisappearingComment(t.comments, e.uri, e.id, i);
  }

  // --- The comments of a repository ------------------------------------------------------

  // Replies to `u` on live issues of the repository other than `issue`.
  function RepliesElsewhere(t: Tables, u: Uri, issue: Uri, r: Uri): set<Uri> {
    set c | c in t.comments && t.comments[c].live && t.comments[c].value.parent == Some(u)
            && t.comments[c].value.issue != issue && IsIn(t.issues, t.comments[c].value.issue, r)
  }

  lemma StillCounted(t: Tables, u: Uri, value: CommentValue, id: int, r: Uri, c: Uri)
    requires !Live(t.comments, u) && c != u
    ensures c in CommentsOf(t.comments[u := Row(value, true, id)], t.issues, r) <==>
            c in CommentsOf(t.comments, t.issues, r) && c !in RepliesElsewhere(t, u, value.issue, r)
  {
  }

  lemma AppearingInRepository(t: Tables, u: Uri, value: CommentValue, id: int, r: Uri)
    requires !Live(t.comments, u) && value.parent != Some(u)
    ensures |CommentsOf(t.comments[u := Row(value, true, id)], t.issues, r)| ==
            |CommentsOf(t.comments, t.issues, r)|
            + One(IsIn(t.issues, value.issue, r) && Belongs(t.comments, value)) - |RepliesElsewhere(t, u, value.issue, r)|
  {
    var before, after := CommentsOf(t.comments, t.issues, r), CommentsOf(t.comments[u := Row(value, true, id)], t.issues, r);
    var replies := RepliesElsewhere(t, u, value.issue, r);
    forall c | c != u ensures c in after <==> c in before - replies {
      StillCounted(t, u, value, id, r, c);
    }
    assert replies <= before && u !in before;
    assert u in after <==> IsIn(t.issues, value.issue, r) && Belongs(t.comments, value);
    OneElement(before - replies, after, u);
  }

  lemma DisappearingInRepository(t: Tables, u: Uri, id: int, r: Uri)
    requires Live(t.comments, u)
    ensures
      var value := t.comments[u].value;
      |CommentsOf(t.comments[u := Row(value, false, id)], t.issues, r)| ==
      |CommentsOf(t.comments, t.issues, r)|
      - One(IsIn(t.issues, value.issue, r) && Belongs(t.comments, value)) + |RepliesElsewhere(t, u, value.issue, r)|
  {
    var value := t.comments[u].value;
    var before, after := CommentsOf(t.comments, t.issues, r), CommentsOf(t.comments[u := Row(value, false, id)], t.issues, r);
    var replies := RepliesElsewhere(t, u, value.issue, r);
    assert replies !! before && replies <= after;
    OneElement(before, after - replies, u);
  }

  lemma RepositoryCommentStored(t: Tables, c: Columns, r: Uri)
    requires CommentsExact(t, c) && Live(t.repositories, r)
    ensures Count(c.comments, r) == |CommentsOf(t.comments, t.issues, r)|
  {
    CountIs(t.repositories, c.comments, CommentRecounts(t), r);
  }

  lemma RepositoryCommentCounts(t: Tables, c: Columns, e: Event, r: Uri)
    requires CommentsExact(t, c) && Valid(e) && Live(t.repositories, r)
    requires e.uri.collection == CommentCollection || e.uri.collection == IssueCollection
    ensures Count(c.comments, r) == |CommentsOf(t.comments, t.issues, r)|
    ensures Count(Project(t, c, e).comments, r) == |CommentsOf(CommentsAfter(t, e), IssuesAfter(t, e), r)|
  {
    RepositoryCommentStored(t, c, r);
    RefreshComments(t, c, e);
    ProjectIsRefresh(t, c, e);
    RepositoriesStay(t, e);
    RepositoryCommentStored(Apply(t, e), Refresh(t, c, e), r);
  }

  lemma RepositoryGainsComment(t: Tables, c: Columns, e: Event, value: CommentValue, r: Uri)
    requires CommentsExact(t, c) && Valid(e) && IsComment(e, value) && IsLatest(t, t.comments, e) && Live(t.repositories, r)
    requires !Live(t.comments, e.uri) && (e.uri in t.comments ==> t.comments[e.uri].value == value)
    ensures Count(Project(t, c, e).comments, r) ==
            Count(c.comments, r)
            + One(IsIn(t.issues, value.issue, r) && Belongs(t.comments, value)) - |RepliesElsewhere(t, e.uri, value.issue, r)|
  {
    RepositoryCommentCounts(t, c, e, r);
    CommentRowAfter(t, e);
    AppearingInRepository(t, e.uri, value, e.id, r);
  }

  lemma RepositoryLosesComment(t: Tables, c: Columns, e: Event, r: Uri)
    requires CommentsExact(t, c) && Valid(e) && IsDelete(e, CommentCollection) && IsLatest(t, t.comments, e)
    requires Live(t.comments, e.uri) && Live(t.repositories, r)
    ensures
      var value := t.comments[e.uri].value;
      Count(Project(t, c, e).comments, r) ==
      Count(c.comments, r)
      - One(IsIn(t.issues, value.issue, r) && Belongs(t.comments, value)) + |RepliesElsewhere(t, e.uri, value.issue, r)|
  {
    RepositoryCommentCounts(t, c, e, r);
    CommentRowAfter(t, e);
    DisappearingInRepository(t, e.uri, e.id, r);
  }

  // --- Issues take their comments along ----------------------------------------------------

  function OnOtherIssues(comments: Comments, issues: map<Uri, Row<Uri>>, i: Uri, r: Uri): set<Uri> {
    set c | c in comments && comments[c].live && comments[c].value.issue != i && IsIn(issues, comments[c].value.issue, r)
            && Belongs(comments, comments[c].value)
  }

  lemma CommentsSplit(comments: Comments, issues: map<Uri, Row<Uri>>, i: Uri, r: Uri)
    ensures |CommentsOf(comments, issues, r)| ==
            |OnOtherIssues(comments, issues, i, r)| + (if IsIn(issues, i, r) then |CommentsOfIssue(comments, i)| else 0)
  {
    var rest, own := OnOtherIssues(comments, issues, i, r), if IsIn(issues, i, r) then CommentsOfIssue(comments, i) else {};
    assert CommentsOf(comments, issues, r) == rest + own;
    assert rest !! own;
  }

  lemma MovedComments(comments: Comments, before: map<Uri, Row<Uri>>, after: map<Uri, Row<Uri>>, i: Uri, r: Uri)
    requires forall x | x != i :: IsIn(after, x, r) <==> IsIn(before, x, r)
    ensures |CommentsOf(comments, after, r)| ==
            |CommentsOf(comments, before, r)|
            + (if IsIn(after, i, r) then |CommentsOfIssue(comments, i)| else 0)
            - (if IsIn(before, i, r) then |CommentsOfIssue(comments, i)| else 0)
  {
    CommentsSplit(comments, before, i, r);
    CommentsSplit(comments, after, i, r);
    assert OnOtherIssues(comments, before, i, r) == OnOtherIssues(comments, after, i, r);
  }

  lemma IssueRowMovesComments(t: Tables, e: Event, r: Uri)
    requires Valid(e) && e.uri.collection == IssueCollection && IsLatest(t, t.issues, e)
    ensures CommentsAfter(t, e) == t.comments
    ensures |CommentsOf(t.comments, IssuesAfter(t, e), r)| ==
            |CommentsOf(t.comments, t.issues, r)|
            + (if IsIssueIn(e, r) then |CommentsOfIssue(t.comments, e.uri)| else 0)
            - (if IsIn(t.issues, e.uri, r) then |CommentsOfIssue(t.comments, e.uri)| else 0)
  {
    IssueRowAfter(t, e, r);
    MovedComments(t.comments, t.issues, IssuesAfter(t, e), e.uri, r);
  }

  // An issue that moves carries its stored comment count from one repository to
  // the other; one that is deleted takes it away.
  lemma IssueCarriesComments(t: Tables, c: Columns, e: Event, r: Uri)
    requires CommentsExact(t, c) && IssueCommentsExact(t, c) && Valid(e) && e.uri.collection == IssueCollection
    requires IsLatest(t, t.issues, e) && Live(t.issues, e.uri) && Live(t.repositories, r)
    ensures Count(Project(t, c, e).comments, r) ==
            Count(c.comments, r)
            + (if IsIssueIn(e, r) then Count(c.issueComments, e.uri) else 0)
            - (if t.issues[e.uri].value == r then Count(c.issueComments, e.uri) else 0)
  {
    RepositoryCommentCounts(t, c, e, r);
    CommentCountStored(t, c, e.uri);
    IssueRowMovesComments(t, e, r);
  }

  // --- The lineage recount -------------------------------------------------------------------

  // An organization event and a deleted repository leave every live repository
  // with the number of all live comments on its live issues, whether or not they
  // belong, and whatever was stored before.
  lemma LineageEventCountsAll(t: Tables, c: Columns, e: Event, q: Uri)
    requires e.uri.collection == OrganizationCollection || (e.change.Delete? && e.uri.collection == RepositoryCollection)
    requires Live(Apply(t, e).repositories, q)
    ensures
      var after := Apply(t, e);
      Count(Project(t, c, e).comments, q) ==
      |set x | x in after.comments && after.comments[x].live && IsIn(after.issues, after.comments[x].value.issue, q)|
  {
    var after := Apply(t, e);
    LineageRecountIsExact(after, Refresh(t, c, e));
    CountIs(after.repositories, Project(t, c, e).comments, ReplyRecounts(after), q);
    RepliesAre(after, q);
  }

  lemma RepliesAre(t: Tables, q: Uri)
    ensures RepliesOf(t.comments, t.issues, q) ==
            set x | x in t.comments && t.comments[x].live && IsIn(t.issues, t.comments[x].value.issue, q)
  {
  }
}
