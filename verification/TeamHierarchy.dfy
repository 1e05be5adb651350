// Teams of organizations, nested by a parent reference.
module TeamHierarchy {
  import opened Options

  datatype Team = Team(organization: nat, parent: Option<nat>, visible: bool, deleted: bool)

  type Teams = map<nat, Team>

  predicate Live(teams: Teams, id: nat) { id in teams && !teams[id].deleted }

  predicate LiveIn(teams: Teams, organization: nat, id: nat) { Live(teams, id) && teams[id].organization == organization }

  // --- Forests -----------------------------------------------------------------------

  // Every live team's parent is a live team of the same organization, and
  // neither of the two is secret.
  ghost predicate Nested(teams: Teams) {
    forall id | Live(teams, id) && teams[id].parent.Some? ::
      && LiveIn(teams, teams[id].organization, teams[id].parent.value)
      && teams[id].visible && teams[teams[id].parent.value].visible
  }

  // Walking up strictly lowers the rank.
  ghost predicate RankedBy(teams: Teams, rank: map<nat, nat>) {
    forall id | Live(teams, id) ::
      id in rank && (teams[id].parent.Some? ==> teams[id].parent.value in rank && rank[teams[id].parent.value] < rank[id])
  }

  ghost predicate Forest(teams: Teams) { Nested(teams) && exists rank :: RankedBy(teams, rank) }

  // Each team of the path is the parent of the one before it.
  ghost predicate IsPath(teams: Teams, path: seq<nat>) {
    && path != [] && (forall id | id in path :: Live(teams, id))
    && (forall n | 0 <= n < |path| - 1 :: Live(teams, path[n]) && teams[path[n]].parent == Some(path[n + 1]))
  }

  ghost predicate Leads(teams: Teams, path: seq<nat>, from: nat, to: nat) {
    IsPath(teams, path) && path[0] == from && path[|path| - 1] == to
  }

  // `id` lies beneath `top`, by one step or more.
  ghost predicate Below(teams: Teams, id: nat, top: nat) {
    exists path :: |path| > 1 && Leads(teams, path, id, top)
  }

  lemma {:induction false} PathsGoDown(teams: Teams, rank: map<nat, nat>, path: seq<nat>, n: nat)
    requires RankedBy(teams, rank) && IsPath(teams, path) && n < |path|
    ensures path[0] in rank && path[n] in rank && rank[path[n]] + n <= rank[path[0]]
  {
    assert path[0] in path && path[n] in path;
    if n > 0 {
      PathsGoDown(teams, rank, path, n - 1);
      assert path[n - 1] in path;
    }
  }

  // In a forest no team lies beneath itself, and no path upwards is longer than
  // the rank of its start allows.
  lemma ForestHasNoCycle(teams: Teams, id: nat)
    requires Forest(teams)
    ensures !Below(teams, id, id)
  {
    var rank :| RankedBy(teams, rank);
    if path :| |path| > 1 && Leads(teams, path, id, id) {
      PathsGoDown(teams, rank, path, |path| - 1);
      assert false;
    }
  }

  // --- Subtrees ----------------------------------------------------------------------

  ghost predicate HoldsChildren(teams: Teams, members: set<nat>) {
    forall id | Live(teams, id) && teams[id].parent.Some? && teams[id].parent.value in members :: id in members
  }

  // A set with `top` and with the children of its members, and nothing else.
  ghost predicate IsSubtree(teams: Teams, top: nat, members: set<nat>) {
    && top in members && (forall id | id in members :: Live(teams, id)) && HoldsChildren(teams, members)
    && (forall id | id in members && id != top :: teams[id].parent.Some? && teams[id].parent.value in members)
  }

  // Any path upwards that ends in a set closed under children starts in it.
  lemma {:induction false} PathStaysWithin(teams: Teams, members: set<nat>, path: seq<nat>)
    requires HoldsChildren(teams, members) && IsPath(teams, path) && path[|path| - 1] in members
    ensures path[0] in members
  {
    if |path| > 1 {
      assert path[0] in path && path[1] == path[1..][0] && forall id | id in path[1..] :: id in path;
      PathStaysWithin(teams, members, path[1..]);
    }
  }

  lemma MemberIsBelow(teams: Teams, rank: map<nat, nat>, top: nat, members: set<nat>, id: nat)
    requires Nested(teams) && RankedBy(teams, rank) && IsSubtree(teams, top, members) && id in members && id != top
    ensures Below(teams, id, top)
    decreases rank[id]
  {
    var p := teams[id].parent.value;
    if p == top {
      assert Leads(teams, [id, top], id, top);
    } else {
      MemberIsBelow(teams, rank, top, members, p);
      var path :| |path| > 1 && Leads(teams, path, p, top);
      assert Leads(teams, [id] + path, id, top);
    }
  }

  // The subtree of a team of a forest: the team and all that lies beneath it.
  lemma SubtreeIsBelow(teams: Teams, top: nat, members: set<nat>, id: nat)
    requires Forest(teams) && IsSubtree(teams, top, members)
    ensures id in members <==> id == top || Below(teams, id, top)
  {
    var rank :| RankedBy(teams, rank);
    if id in members && id != top {
      MemberIsBelow(teams, rank, top, members, id);
    } else if path :| |path| > 1 && Leads(teams, path, id, top) {
      PathStaysWithin(teams, members, path);
    }
  }

  function Children(teams: Teams, members: set<nat>): set<nat> {
    set id | id in teams && !teams[id].deleted && teams[id].parent.Some? && teams[id].parent.value in members
  }

  // The recursive query: children of children, until there are no more.
  method Subtree(teams: Teams, top: nat) returns (members: set<nat>)
    requires Live(teams, top)
    ensures IsSubtree(teams, top, members)
  {
    members := {top};
    var found := Children(teams, members) - members;
    while found != {}
      invariant top in members && (forall id | id in members :: Live(teams, id))
      invariant forall id | id in members && id != top :: teams[id].parent.Some? && teams[id].parent.value in members
      invariant found == Children(teams, members) - members
      invariant members <= teams.Keys
      decreases |teams.Keys - members|
    {
      FewerLeft(teams.Keys, members, found);
      members := members + found;
      found := Children(teams, members) - members;
    }
    forall id | Live(teams, id) && teams[id].parent.Some? && teams[id].parent.value in members ensures id in members {
      assert id in Children(teams, members);
    }
  }

  lemma FewerLeft(all: set<nat>, members: set<nat>, found: set<nat>)
    requires found != {} && found <= all && found !! members
    ensures |all - (members + found)| < |all - members|
  {
    var x :| x in found;
    assert all - (members + found) <= (all - members) - {x};
    Smaller(all - (members + found), (all - members) - {x});
  }

  lemma Smaller(a: set<nat>, b: set<nat>)
    requires a <= b
    ensures |a| <= |b|
  {
    assert b == a + (b - a);
  }

  // --- The three changes -----------------------------------------------------------------

  // Whether a team may stand beneath `parent`.
  predicate MayNest(teams: Teams, organization: nat, parent: Option<nat>, visible: bool) {
    parent.Some? ==> visible && LiveIn(teams, organization, parent.value) && teams[parent.value].visible
  }

  predicate HasChildren(teams: Teams, id: nat) { Children(teams, {id}) != {} }

  function Moved(teams: Teams, id: nat, parent: Option<nat>, visible: bool): Teams
    requires id in teams
  {
    teams[id := teams[id].(parent := parent, visible := visible)]
  }

  lemma NewTeamKeepsForest(teams: Teams, id: nat, team: Team)
    requires Forest(teams) && id !in teams && !team.deleted && MayNest(teams, team.organization, team.parent, team.visible)
    ensures Forest(teams[id := team])
  {
    var rank :| RankedBy(teams, rank);
    var rank' := rank[id := if team.parent.Some? then rank[team.parent.value] + 1 else 0];
    assert RankedBy(teams[id := team], rank');
  }

  // The ranks after `id` moved beneath `parent`: the whole subtree goes below it.
  ghost function MovedRank(rank: map<nat, nat>, members: set<nat>, depth: nat): map<nat, nat> {
    map id | id in rank :: if id in members then rank[id] + depth + 1 else rank[id]
  }

  lemma MoveKeepsForest(teams: Teams, id: nat, parent: Option<nat>, visible: bool, members: set<nat>)
    requires Forest(teams) && IsSubtree(teams, id, members)
    requires MayNest(teams, teams[id].organization, parent, visible)
    requires parent.Some? ==> parent.value !in members
    requires !visible ==> !HasChildren(teams, id)
    ensures Forest(Moved(teams, id, parent, visible))
  {
    var rank :| RankedBy(teams, rank);
    var teams' := Moved(teams, id, parent, visible);
    assert RankedBy(teams', MovedRank(rank, members, if parent.Some? then rank[parent.value] else 0));
    forall c: nat | Live(teams', c) && teams'[c].parent.Some?
      ensures teams'[c].visible && LiveIn(teams', teams'[c].organization, teams'[c].parent.value) && teams'[teams'[c].parent.value].visible
    {
      if c != id && teams[c].parent.value == id {
        assert c in Children(teams, {id});
      }
    }
  }

  function Deleted(teams: Teams, members: set<nat>): Teams {
    map id | id in teams :: if id in members then teams[id].(deleted := true) else teams[id]
  }

  lemma DeletionKeepsForest(teams: Teams, top: nat, members: set<nat>)
    requires Forest(teams) && IsSubtree(teams, top, members)
    ensures Forest(Deleted(teams, members))
  {
    var rank :| RankedBy(teams, rank);
    assert RankedBy(Deleted(teams, members), rank);
  }

  // --- The service -------------------------------------------------------------------------

  datatype Error = Validation | NotFound | Forbidden

  // What the service asks about the actor is a parameter: owner of the
  // organization, maintainer of the team, maintainer of the new parent.
  class Service {
    var teams: Teams

    constructor ()
      ensures teams == map[] && Forest(teams)
    {
      teams := map[];
      new;
      assert RankedBy(teams, map[]);
    }

    method Create(id: nat, organization: nat, parent: Option<nat>, visible: bool, isOwner: bool) returns (result: Result<nat, Error>)
      requires Forest(teams) && id !in teams
      modifies this
      ensures Forest(teams)
      ensures result.Ok? <==> isOwner && MayNest(old(teams), organization, parent, visible)
      ensures teams == if result.Ok? then old(teams)[id := Team(organization, parent, visible, false)] else old(teams)
      ensures result == Err(Forbidden) <==> !isOwner
      ensures isOwner && result == Err(NotFound) <==>
              isOwner && parent.Some? && !LiveIn(old(teams), organization, parent.value)
    {
      if !isOwner {
        return Err(Forbidden);
      }
      if parent.Some? {
        if !LiveIn(teams, organization, parent.value) {
          return Err(NotFound);
        }
        if !visible || !teams[parent.value].visible {
          return Err(Validation);
        }
      }
      NewTeamKeepsForest(teams, id, Team(organization, parent, visible, false));
      teams := teams[id := Team(organization, parent, visible, false)];
      result := Ok(id);
    }

    method Update(organization: nat, id: nat, parent: Option<nat>, visible: bool, maintains: bool, maintainsParent: bool)
      returns (result: Result<(), Error>)
      requires Forest(teams)
      modifies this
      ensures Forest(teams)
      ensures result.Ok? <==>
              && LiveIn(old(teams), organization, id) && maintains && parent != Some(id)
              && MayNest(old(teams), organization, parent, visible)
              && (parent.Some? ==> !Below(old(teams), parent.value, id))
              && (parent.Some? && old(teams)[id].parent != parent ==> maintainsParent)
              && (!visible ==> !HasChildren(old(teams), id))
      ensures result.Ok? ==> teams == Moved(old(teams), id, parent, visible)
      ensures result.Err? ==> teams == old(teams)
      ensures result.Ok? ==> teams.Keys == old(teams).Keys && teams[id] == Team(organization, parent, visible, false)
      ensures forall x | x in old(teams) && x != id :: teams[x] == old(teams)[x]
      ensures parent != Some(id) && !LiveIn(old(teams), organization, id) ==> result == Err(NotFound)
      ensures parent != Some(id) && LiveIn(old(teams), organization, id) && !maintains ==> result == Err(Forbidden)
    {
      if parent == Some(id) {
        return Err(Validation);
      }
      if !LiveIn(teams, organization, id) {
        return Err(NotFound);
      }
      if !maintains {
        return Err(Forbidden);
      }
      var members := Subtree(teams, id);
      if parent.Some? {
        if !LiveIn(teams, organization, parent.value) {
          return Err(NotFound);
        }
        if !visible || !teams[parent.value].visible {
          return Err(Validation);
        }
        SubtreeIsBelow(teams, id, members, parent.value);
        if parent.value in members {
          return Err(Validation);
        }
        if teams[id].parent != parent && !maintainsParent {
          return Err(Forbidden);
        }
      }
      if !visible && HasChildren(teams, id) {
        return Err(Validation);
      }
      MoveKeepsForest(teams, id, parent, visible, members);
      teams := Moved(teams, id, parent, visible);
      result := Ok(());
    }

    method Delete(organization: nat, id: nat, maintains: bool) returns (result: Result<nat, Error>)
      requires Forest(teams)
      modifies this
      ensures Forest(teams)
      ensures result.Ok? <==> LiveIn(old(teams), organization, id) && maintains
      ensures result.Err? ==> teams == old(teams)
      ensures result.Ok? ==> forall x :: Live(teams, x) <==> Live(old(teams), x) && x != id && !Below(old(teams), x, id)
      ensures result.Ok? ==> forall x | Live(teams, x) :: teams[x] == old(teams)[x]
      ensures result.Ok? ==> teams.Keys == old(teams).Keys && result.value == |set x | x in old(teams) && Live(old(teams), x) && !Live(teams, x)|
      ensures result == Err(NotFound) <==> !LiveIn(old(teams), organization, id)
    {
      if !LiveIn(teams, organization, id) {
        return Err(NotFound);
      }
      if !maintains {
        return Err(Forbidden);
      }
      var members := Subtree(teams, id);
      forall x ensures x in members <==> x == id || Below(teams, x, id) {
        SubtreeIsBelow(teams, id, members, x);
      }
      DeletionKeepsForest(teams, id, members);
      ghost var before := teams;
      teams := Deleted(teams, members);
      assert (set x | x in before && Live(before, x) && !Live(teams, x)) == members;
      result := Ok(|members|);
    }
  }

  // --- Two moves at once ---------------------------------------------------------------------

  // The guard of a move, as its one statement evaluates it.
  ghost predicate MayMove(teams: Teams, id: nat, parent: nat) {
    && Live(teams, id) && teams[id].visible && parent != id
    && MayNest(teams, teams[id].organization, Some(parent), true) && !Below(teams, parent, id)
  }

  lemma PathNeedsParent(teams: Teams, path: seq<nat>)
    ensures |path| > 1 && IsPath(teams, path) ==> Live(teams, path[0]) && teams[path[0]].parent.Some?
  {
    if |path| > 1 && IsPath(teams, path) {
      var n := 0;
      assert teams[path[n]].parent == Some(path[n + 1]);
    }
  }

  // The guard protects against one move at a time: two roots, each moved
  // beneath the other.
  lemma TwoMovesCloseCycle()
    ensures
      var teams: Teams := map[0 := Team(0, None, true, false), 1 := Team(0, None, true, false)];
      && Forest(teams) && MayMove(teams, 0, 1) && MayMove(teams, 1, 0)
      && !Forest(Moved(Moved(teams, 0, Some(1), true), 1, Some(0), true))
  {
    var teams: Teams := map[0 := Team(0, None, true, false), 1 := Team(0, None, true, false)];
    assert RankedBy(teams, map[0 := 0, 1 := 0]);
    forall path: seq<nat> ensures |path| > 1 ==> !IsPath(teams, path) {
      PathNeedsParent(teams, path);
    }
    var both := Moved(Moved(teams, 0, Some(1), true), 1, Some(0), true);
    assert Leads(both, [0, 1, 0], 0, 0);
    if Forest(both) {
      ForestHasNoCycle(both, 0);
      assert false;
    }
  }

  // `id` is `top` or lies beneath it.
  ghost predicate Under(teams: Teams, id: nat, top: nat) { id == top || Below(teams, id, top) }

  ghost function Beneath(teams: Teams, top: nat): set<nat> { set id | id in teams && Under(teams, id, top) }

  lemma BeneathIsSubtree(teams: Teams, top: nat)
    requires Nested(teams) && Live(teams, top)
    ensures IsSubtree(teams, top, Beneath(teams, top))
  {
    var members := Beneath(teams, top);
    forall id | id in members ensures Live(teams, id) && (id != top ==> teams[id].parent.Some? && teams[id].parent.value in members) {
      if id != top {
        var path :| |path| > 1 && Leads(teams, path, id, top);
        assert path[0] in path && path[1] in path && teams[path[0]].parent == Some(path[1]);
        if |path| > 2 {
          assert forall x | x in path[1..] :: x in path;
          assert Leads(teams, path[1..], path[1], top);
        }
      }
    }
    forall id: nat | Live(teams, id) && teams[id].parent.Some? && teams[id].parent.value in members ensures id in members {
      var p := teams[id].parent.value;
      if p == top {
        assert Leads(teams, [id, top], id, top);
      } else {
        var path :| |path| > 1 && Leads(teams, path, p, top);
        assert Leads(teams, [id] + path, id, top);
      }
    }
  }

  lemma PathPasses(teams: Teams, path: seq<nat>, n: nat)
    requires IsPath(teams, path) && n < |path|
    ensures Under(teams, path[0], path[n])
    ensures n < |path| - 1 ==> Below(teams, path[n], path[|path| - 1])
  {
    assert (forall id | id in path[n..] :: id in path) && forall id | id in path[..n + 1] :: id in path;
    assert Leads(teams, path[..n + 1], path[0], path[n]) && Leads(teams, path[n..], path[n], path[|path| - 1]);
  }

  // A path upwards meets nothing that its start does not lie beneath, and its
  // end only at the end.
  lemma PathAvoids(teams: Teams, path: seq<nat>, from: nat, to: nat, x: nat)
    requires Forest(teams) && Leads(teams, path, from, to) && (x == to || !Under(teams, from, x))
    ensures forall n | 0 <= n < |path| - 1 :: path[n] != x
  {
    ForestHasNoCycle(teams, to);
    forall n | 0 <= n < |path| - 1 ensures path[n] != x {
      PathPasses(teams, path, n);
    }
  }

  lemma PathTo(teams: Teams, id: nat, top: nat) returns (path: seq<nat>)
    requires Live(teams, id) && Under(teams, id, top)
    ensures Leads(teams, path, id, top)
  {
    if id == top {
      path := [id];
    } else {
      path :| |path| > 1 && Leads(teams, path, id, top);
    }
  }

  // Two moves that are both checked before either is visible to the other
  // leave a forest unless each team went beneath the other one.
  lemma TwoMovesIff(teams: Teams, a: nat, p: nat, b: nat, q: nat)
    requires Forest(teams) && MayMove(teams, a, p) && MayMove(teams, b, q)
    ensures Forest(Moved(Moved(teams, a, Some(p), true), b, Some(q), true)) <==>
            a == b || !Under(teams, q, a) || !Under(teams, p, b)
  {
    if a != b && Under(teams, q, a) && Under(teams, p, b) {
      CrossedMovesCloseCycle(teams, a, p, b, q);
    } else {
      OtherMovesKeepForest(teams, a, p, b, q);
    }
  }

  lemma CrossedMovesCloseCycle(teams: Teams, a: nat, p: nat, b: nat, q: nat)
    requires Forest(teams) && MayMove(teams, a, p) && MayMove(teams, b, q)
    requires a != b && Under(teams, q, a) && Under(teams, p, b)
    ensures !Forest(Moved(Moved(teams, a, Some(p), true), b, Some(q), true))
  {
    var both := Moved(Moved(teams, a, Some(p), true), b, Some(q), true);
    var up := PathTo(teams, q, a);
    var down := PathTo(teams, p, b);
    PathAvoids(teams, up, q, a, a);
    PathAvoids(teams, up, q, a, b);
    PathAvoids(teams, down, p, b, b);
    PathAvoids(teams, down, p, b, a);
    var cycle := up + down + [q];
    forall n | 0 <= n < |cycle| - 1 ensures Live(both, cycle[n]) && both[cycle[n]].parent == Some(cycle[n + 1]) {
      if n < |up| {
        assert up[n] in up;
      } else {
        assert down[n - |up|] in down;
      }
    }
    assert Leads(both, cycle, q, q);
    if Forest(both) {
      ForestHasNoCycle(both, q);
      assert false;
    }
  }

  // What is beneath `b` after the first move, or more.
  ghost function BeneathOnceMoved(teams: Teams, a: nat, p: nat, b: nat): set<nat> {
    if Under(teams, p, b) then Beneath(teams, a) + Beneath(teams, b) else Beneath(teams, b)
  }

  lemma BeneathHoldsChildren(teams: Teams, a: nat, p: nat, b: nat)
    requires Nested(teams) && Live(teams, a) && Live(teams, b) && Live(teams, p)
    ensures HoldsChildren(Moved(teams, a, Some(p), true), BeneathOnceMoved(teams, a, p, b))
  {
    BeneathIsSubtree(teams, a);
    BeneathIsSubtree(teams, b);
  }

  // After the first move, the new parent of the second one still is not
  // beneath its team.
  lemma StillNotBelow(teams: Teams, a: nat, p: nat, b: nat, q: nat)
    requires Forest(teams) && MayMove(teams, a, p) && MayMove(teams, b, q)
    requires a == b || !Under(teams, q, a) || !Under(teams, p, b)
    ensures !Below(Moved(teams, a, Some(p), true), q, b)
  {
    var once := Moved(teams, a, Some(p), true);
    BeneathHoldsChildren(teams, a, p, b);
    if path :| |path| > 1 && Leads(once, path, q, b) {
      PathStaysWithin(once, BeneathOnceMoved(teams, a, p, b), path);
      assert false;
    }
  }

  lemma MoveAlone(teams: Teams, id: nat, parent: nat)
    requires Forest(teams) && MayMove(teams, id, parent)
    ensures Forest(Moved(teams, id, Some(parent), true))
  {
    BeneathIsSubtree(teams, id);
    MoveKeepsForest(teams, id, Some(parent), true, Beneath(teams, id));
  }

  lemma OtherMovesKeepForest(teams: Teams, a: nat, p: nat, b: nat, q: nat)
    requires Forest(teams) && MayMove(teams, a, p) && MayMove(teams, b, q)
    requires a == b || !Under(teams, q, a) || !Under(teams, p, b)
    ensures Forest(Moved(Moved(teams, a, Some(p), true), b, Some(q), true))
  {
    MoveAlone(teams, a, p);
    StillNotBelow(teams, a, p, b, q);
    MoveAlone(Moved(teams, a, Some(p), true), b, q);
  }
}
