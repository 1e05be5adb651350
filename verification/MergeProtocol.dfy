// Merging one version of a pull request, attempted any number of times at once.
//
// An attempt reads the tip of the target branch, recognises an earlier merge or
// makes one, records an outbox event and publishes the merged status. It may
// stop after any step. Nothing else moves the branch.
module MergeProtocol {
  import opened Options
  import opened MergeMessage
  import opened GitHistory

  datatype Attempt =
    | Begun
    | Seen(tip: Sha)
    | Written(base: Sha, sha: Sha)
    | Merged(base: Sha, sha: Sha)
    | Recorded(base: Sha, sha: Sha)
    | Published(base: Sha, sha: Sha)

  // The outbox keeps, for each merge commit of this version, the old tip that
  // its event names. `moves` counts the updates of the branch.
  datatype Branch = Branch(
    objects: Objects,
    tip: Sha,
    moves: nat,
    attempts: map<nat, Attempt>,
    outbox: map<Sha, Sha>,
    published: set<Sha>)

  // recognizedMerge
  predicate Recognised(c: Commit, t: Target, s: Strategy) {
    && HasTrailers(c.message, Trailers(t, s))
    && c.parents != []
    && (s == MergeCommit ==> |c.parents| == 2 && c.parents[1] == t.head)
    && (s == Squash ==> |c.parents| == 1)
  }

  function MergeCommitOf(base: Sha, tree: string, t: Target, s: Strategy): Commit {
    Commit(MergeParents(base, t.head, s), Message(t, Trailers(t, s)), tree)
  }

  datatype Action =
    | Begin
    | ReadTip
    | Recognise
    | Write(tree: string, sha: Sha)
    | Advance
    | Record
    | Publish
    | Stop

  ghost predicate Next(b: Branch, i: nat, a: Action, b': Branch, t: Target, s: Strategy) {
    match a
    case Begin => i !in b.attempts && b' == b.(attempts := b.attempts[i := Begun])
    case Stop => i in b.attempts && b' == b.(attempts := b.attempts - {i})
    case ReadTip => i in b.attempts && b.attempts[i] == Begun && b' == b.(attempts := b.attempts[i := Seen(b.tip)])
    case _ => i in b.attempts && Works(b, i, b.attempts[i], a, b', t, s)
  }

  ghost predicate Works(b: Branch, i: nat, attempt: Attempt, a: Action, b': Branch, t: Target, s: Strategy)
    requires i in b.attempts
  {
    match (a, attempt)
    case (Recognise, Seen(tip)) =>
      && tip in b.objects && Recognised(b.objects[tip], t, s)
      && b' == b.(attempts := b.attempts[i := Merged(b.objects[tip].parents[0], tip)])
    case (Write(tree, sha), Seen(tip)) =>
      && tip in b.objects && t.head in b.objects && !Recognised(b.objects[tip], t, s)
      && (sha in b.objects ==> b.objects[sha] == MergeCommitOf(tip, tree, t, s))
      && b' == b.(objects := b.objects[sha := MergeCommitOf(tip, tree, t, s)], attempts := b.attempts[i := Written(tip, sha)])
    case (Advance, Written(base, sha)) =>
      if b.tip == base
      then b' == b.(tip := sha, moves := b.moves + 1, attempts := b.attempts[i := Merged(base, sha)])
      else b' == b.(attempts := b.attempts - {i})
    case (Record, Merged(base, sha)) =>
      b' == b.(outbox := if sha in b.outbox then b.outbox else b.outbox[sha := base], attempts := b.attempts[i := Recorded(base, sha)])
    case (Publish, Recorded(base, sha)) =>
      b' == b.(published := b.published + {sha}, attempts := b.attempts[i := Published(base, sha)])
    case _ => false
  }

  // No commit is its own parent.
  predicate NoLoops(objects: Objects) { forall c | c in objects :: c !in objects[c].parents }

  // A branch before any attempt.
  ghost predicate Initial(b: Branch) {
    && b.moves == 0 && b.attempts == map[] && b.outbox == map[] && b.published == {}
    && b.tip in b.objects && NoLoops(b.objects)
  }

  // --- At most one merge ---------------------------------------------------------------

  // The strategies for which a merge of `tip` is recognised afterwards: a merge
  // commit of a head that is the tip itself has one parent only.
  predicate Recognisable(tip: Sha, t: Target, s: Strategy) { s == Squash || t.head != tip }

  lemma OwnCommitIsRecognised(base: Sha, tree: string, t: Target, s: Strategy)
    ensures Recognised(MergeCommitOf(base, tree, t, s), t, s) <==> Recognisable(base, t, s)
  {
    OwnMessageIsRecognised(t, s);
  }

  // `start` is the first tip. Results name the current tip and its first parent.
  ghost predicate Inv(b: Branch, start: Sha, t: Target, s: Strategy) {
    && start in b.objects && b.tip in b.objects && NoLoops(b.objects)
    && b.moves <= 1
    && (b.moves == 0 <==> b.tip == start)
    && (b.moves == 1 ==> Recognised(b.objects[b.tip], t, s) && b.objects[b.tip].parents[0] == start && !Recognised(b.objects[start], t, s))
    && (forall i | i in b.attempts :: AttemptInv(b, start, b.attempts[i], t, s))
    && (forall sha | sha in b.outbox :: IsResult(b, b.outbox[sha], sha, t, s))
    && (forall sha | sha in b.published :: sha in b.outbox)
  }

  ghost predicate IsResult(b: Branch, base: Sha, sha: Sha, t: Target, s: Strategy)
    requires b.tip in b.objects
  {
    sha == b.tip && Recognised(b.objects[sha], t, s) && b.objects[sha].parents[0] == base
  }

  ghost predicate AttemptInv(b: Branch, start: Sha, attempt: Attempt, t: Target, s: Strategy)
    requires b.tip in b.objects && start in b.objects
  {
    match attempt
    case Begun => true
    case Seen(tip) => tip == start || tip == b.tip
    case Written(base, sha) =>
      && base == start && !Recognised(b.objects[start], t, s)
      && sha in b.objects && sha != start && Recognised(b.objects[sha], t, s) && b.objects[sha].parents[0] == start
    case Merged(base, sha) => IsResult(b, base, sha, t, s)
    case Recorded(base, sha) => IsResult(b, base, sha, t, s) && sha in b.outbox
    case Published(base, sha) => IsResult(b, base, sha, t, s) && sha in b.outbox && sha in b.published
  }

  // Writing a commit changes nothing that is known of another attempt.
  lemma WriteKeepsAttempt(b: Branch, b': Branch, start: Sha, attempt: Attempt, t: Target, s: Strategy)
    requires b.tip in b.objects && start in b.objects && AttemptInv(b, start, attempt, t, s)
    requires b' == b.(objects := b'.objects, attempts := b'.attempts) && Grows(b.objects, b'.objects)
    ensures AttemptInv(b', start, attempt, t, s)
  {
  }

  lemma NoOwnParent(objects: Objects, sha: Sha, c: Commit)
    requires (forall p | p in c.parents :: p in objects) && (sha in objects ==> objects[sha] == c)
    requires NoLoops(objects)
    ensures NoLoops(objects[sha := c])
  {
  }

  lemma InvWrite(b: Branch, start: Sha, i: nat, tree: string, sha: Sha, b': Branch, t: Target, s: Strategy)
    requires Inv(b, start, t, s) && Next(b, i, Write(tree, sha), b', t, s) && Recognisable(start, t, s)
    ensures Inv(b', start, t, s)
  {
    assert AttemptInv(b, start, b.attempts[i], t, s);
    var tip := b.attempts[i].tip;
    assert tip == start;
    OwnCommitIsRecognised(start, tree, t, s);
    NoOwnParent(b.objects, sha, MergeCommitOf(start, tree, t, s));
    forall j | j in b.attempts && j != i ensures AttemptInv(b', start, b.attempts[j], t, s) {
      WriteKeepsAttempt(b, b', start, b.attempts[j], t, s);
    }
    assert AttemptInv(b', start, Written(start, sha), t, s);
    forall x | x in b'.outbox ensures IsResult(b', b'.outbox[x], x, t, s) {
      assert IsResult(b, b.outbox[x], x, t, s);
    }
  }

  lemma InvAdvance(b: Branch, start: Sha, i: nat, b': Branch, t: Target, s: Strategy)
    requires Inv(b, start, t, s) && Next(b, i, Advance, b', t, s)
    ensures Inv(b', start, t, s)
  {
    assert AttemptInv(b, start, b.attempts[i], t, s);
    forall j | j in b.attempts && j != i ensures AttemptInv(b', start, b.attempts[j], t, s) {
      assert AttemptInv(b, start, b.attempts[j], t, s);
    }
  }

  // A step that leaves objects and tip alone.
  lemma InvLocal(b: Branch, start: Sha, b': Branch, t: Target, s: Strategy)
    requires Inv(b, start, t, s) && b'.objects == b.objects && b'.tip == b.tip && b'.moves == b.moves
    requires forall i | i in b'.attempts :: AttemptInv(b', start, b'.attempts[i], t, s)
    requires forall sha | sha in b'.outbox :: IsResult(b', b'.outbox[sha], sha, t, s)
    requires forall sha | sha in b'.published :: sha in b'.outbox
    ensures Inv(b', start, t, s)
  {
  }

  // Recording or publishing keeps what is known of the other attempts.
  lemma LocalKeepsAttempt(b: Branch, b': Branch, start: Sha, attempt: Attempt, t: Target, s: Strategy)
    requires b.tip in b.objects && start in b.objects && AttemptInv(b, start, attempt, t, s)
    requires b'.objects == b.objects && b'.tip == b.tip && b.outbox.Keys <= b'.outbox.Keys && b.published <= b'.published
    ensures AttemptInv(b', start, attempt, t, s)
  {
  }

  lemma OwnStep(b: Branch, start: Sha, i: nat, a: Action, b': Branch, t: Target, s: Strategy)
    requires Inv(b, start, t, s) && Next(b, i, a, b', t, s) && !a.Write? && !a.Advance?
    ensures b'.objects == b.objects && b'.tip == b.tip && b'.moves == b.moves
    ensures b.outbox.Keys <= b'.outbox.Keys && b.published <= b'.published
    ensures i in b'.attempts ==> AttemptInv(b', start, b'.attempts[i], t, s)
    ensures forall j | j in b'.attempts && j != i :: j in b.attempts && b'.attempts[j] == b.attempts[j]
    ensures forall sha | sha in b'.outbox :: IsResult(b', b'.outbox[sha], sha, t, s)
    ensures forall sha | sha in b'.published :: sha in b'.outbox
  {
    if i in b.attempts {
      assert AttemptInv(b, start, b.attempts[i], t, s);
    }
    forall sha | sha in b.outbox ensures IsResult(b', b.outbox[sha], sha, t, s) {
      assert IsResult(b, b.outbox[sha], sha, t, s);
    }
  }

  lemma InvNext(b: Branch, start: Sha, i: nat, a: Action, b': Branch, t: Target, s: Strategy)
    requires Inv(b, start, t, s) && Next(b, i, a, b', t, s) && Recognisable(start, t, s)
    ensures Inv(b', start, t, s)
  {
    match a {
      case Write(tree, sha) => InvWrite(b, start, i, tree, sha, b', t, s);
      case Advance => InvAdvance(b, start, i, b', t, s);
      case _ =>
        OwnStep(b, start, i, a, b', t, s);
        forall j | j in b'.attempts ensures AttemptInv(b', start, b'.attempts[j], t, s) {
          if j != i {
            LocalKeepsAttempt(b, b', start, b.attempts[j], t, s);
          }
        }
        InvLocal(b, start, b', t, s);
    }
  }

  ghost predicate IsRun(states: seq<Branch>, steps: seq<(nat, Action)>, t: Target, s: Strategy) {
    && |states| == |steps| + 1 && Initial(states[0])
    && forall n | 0 <= n < |steps| :: Next(states[n], steps[n].0, steps[n].1, states[n + 1], t, s)
  }

  lemma {:induction false} RunKeepsInv(states: seq<Branch>, steps: seq<(nat, Action)>, n: nat, t: Target, s: Strategy)
    requires IsRun(states, steps, t, s) && n <= |steps| && Recognisable(states[0].tip, t, s)
    ensures Inv(states[n], states[0].tip, t, s)
  {
    if n > 0 {
      RunKeepsInv(states, steps, n - 1, t, s);
      InvNext(states[n - 1], states[0].tip, steps[n - 1].0, steps[n - 1].1, states[n], t, s);
    }
  }

  // However many attempts run, stop and start again: the branch moves at most
  // once, there is at most one event, and every published status and every
  // event names the tip, with its first parent as the old tip.
  lemma MergesAtMostOnce(states: seq<Branch>, steps: seq<(nat, Action)>, n: nat, t: Target, s: Strategy)
    requires IsRun(states, steps, t, s) && n <= |steps| && Recognisable(states[0].tip, t, s)
    ensures
      var b := states[n];
      && b.moves <= 1 && |b.outbox| <= 1 && b.published <= b.outbox.Keys <= {b.tip} && b.tip in b.objects
      && (b.moves == 1 ==> b.objects[b.tip].parents != [] && b.objects[b.tip].parents[0] == states[0].tip)
      && (forall sha | sha in b.outbox :: b.objects[b.tip].parents != [] && b.outbox[sha] == b.objects[b.tip].parents[0])
      && (b.outbox != map[] ==>
            b.objects[b.tip].parents == if s == Squash then [b.outbox[b.tip]] else [b.outbox[b.tip], t.head])
  {
    RunKeepsInv(states, steps, n, t, s);
    var b := states[n];
    assert b.outbox.Keys <= {b.tip};
    Subset(b.outbox.Keys, b.tip);
    assert |b.outbox| == |b.outbox.Keys|;
  }

  lemma Subset(s: set<Sha>, x: Sha)
    requires s <= {x}
    ensures |s| <= 1
  {
    if x in s {
      assert s == {x};
    } else {
      assert s == {};
    }
  }

  // --- The one case in which it merges twice -----------------------------------------

  ghost predicate Leads(first: Branch, last: Branch, t: Target, s: Strategy) {
    exists states, steps :: IsRun(states, steps, t, s) && states[0] == first && states[|steps|] == last
  }

  lemma LeadsOn(first: Branch, b: Branch, i: nat, a: Action, b': Branch, t: Target, s: Strategy)
    requires Leads(first, b, t, s) && Next(b, i, a, b', t, s)
    ensures Leads(first, b', t, s)
  {
    var states, steps :| IsRun(states, steps, t, s) && states[0] == first && states[|steps|] == b;
    var states', steps' := states + [b'], steps + [(i, a)];
    assert IsRun(states', steps', t, s) && states'[0] == first && states'[|steps'|] == b';
  }

  lemma FreshName(names: set<Sha>) returns (name: Sha)
    ensures forall n | n in names :: |n| < |name|
  {
    if names == {} {
      name := "";
    } else {
      var n :| n in names;
      var longer := FreshName(names - {n});
      name := longer + n + "x";
    }
  }

  // A fresh attempt merges, if the tip is not recognised.
  lemma AttemptMerges(first: Branch, b: Branch, i: nat, t: Target, s: Strategy) returns (b': Branch)
    requires Leads(first, b, t, s) && i !in b.attempts && b.tip in b.objects && t.head in b.objects
    requires !Recognised(b.objects[b.tip], t, s)
    ensures Leads(first, b', t, s) && b'.moves == b.moves + 1 && b'.attempts.Keys == b.attempts.Keys + {i}
    ensures b'.tip !in b.objects && b'.objects == b.objects[b'.tip := MergeCommitOf(b.tip, "", t, s)]
    ensures b'.attempts[i] == Merged(b.tip, b'.tip)
  {
    var sha := FreshName(b.objects.Keys);
    var b1 := b.(attempts := b.attempts[i := Begun]);
    LeadsOn(first, b, i, Begin, b1, t, s);
    var b2 := b1.(attempts := b1.attempts[i := Seen(b.tip)]);
    LeadsOn(first, b1, i, ReadTip, b2, t, s);
    var b3 := b2.(objects := b2.objects[sha := MergeCommitOf(b.tip, "", t, s)], attempts := b2.attempts[i := Written(b.tip, sha)]);
    LeadsOn(first, b2, i, Write("", sha), b3, t, s);
    b' := b3.(tip := sha, moves := b3.moves + 1, attempts := b3.attempts[i := Merged(b.tip, sha)]);
    LeadsOn(first, b3, i, Advance, b', t, s);
  }

  // An attempt that has a result records and publishes it.
  lemma ResultIsPublished(first: Branch, b: Branch, i: nat, base: Sha, sha: Sha, t: Target, s: Strategy) returns (b': Branch)
    requires Leads(first, b, t, s) && i in b.attempts && b.attempts[i] == Merged(base, sha)
    ensures Leads(first, b', t, s) && b'.tip == b.tip && b'.moves == b.moves && b'.objects == b.objects
    ensures sha in b'.published && sha in b'.outbox && (sha !in b.outbox ==> b'.outbox[sha] == base)
    ensures i in b'.attempts && b'.attempts[i] == Published(base, sha)
  {
    var b1 := b.(outbox := if sha in b.outbox then b.outbox else b.outbox[sha := base], attempts := b.attempts[i := Recorded(base, sha)]);
    LeadsOn(first, b, i, Record, b1, t, s);
    b' := b1.(published := b1.published + {sha}, attempts := b1.attempts[i := Published(base, sha)]);
    LeadsOn(first, b1, i, Publish, b', t, s);
  }

  // So whatever happened before, one more attempt that is left alone ends with
  // the tip recorded and published: with the merge that is there already, or
  // with its own.
  lemma AttemptCompletes(first: Branch, b: Branch, i: nat, t: Target, s: Strategy) returns (b': Branch)
    requires Leads(first, b, t, s) && i !in b.attempts && b.tip in b.objects && t.head in b.objects
    ensures Leads(first, b', t, s) && b'.tip in b'.published && b'.tip in b'.outbox
    ensures Recognised(b.objects[b.tip], t, s) ==> b'.tip == b.tip && b'.moves == b.moves
    ensures !Recognised(b.objects[b.tip], t, s) ==>
              b'.moves == b.moves + 1 && b'.tip in b'.objects && b'.objects[b'.tip] == MergeCommitOf(b.tip, "", t, s)
  {
    if Recognised(b.objects[b.tip], t, s) {
      var b1 := b.(attempts := b.attempts[i := Begun]);
      LeadsOn(first, b, i, Begin, b1, t, s);
      var b2 := b1.(attempts := b1.attempts[i := Seen(b.tip)]);
      LeadsOn(first, b1, i, ReadTip, b2, t, s);
      var b3 := b2.(attempts := b2.attempts[i := Merged(b.objects[b.tip].parents[0], b.tip)]);
      LeadsOn(first, b2, i, Recognise, b3, t, s);
      b' := ResultIsPublished(first, b3, i, b.objects[b.tip].parents[0], b.tip, t, s);
    } else {
      var b1 := AttemptMerges(first, b, i, t, s);
      b' := ResultIsPublished(first, b1, i, b.tip, b1.tip, t, s);
    }
  }

  // When the head is the tip itself, a second attempt does not recognise the
  // first one's commit and merges again.
  lemma HeadAtTipMergesTwice(b: Branch, t: Target, s: Strategy)
    requires Initial(b) && t.head in b.objects && !Recognisable(b.tip, t, s)
    ensures exists b' :: Leads(b, b', t, s) && b'.moves == 2
  {
    var states, steps: seq<(nat, Action)> := [b], [];
    assert IsRun(states, steps, t, s) && states[0] == b && states[|steps|] == b;
    assert !Recognised(b.objects[b.tip], t, s);
    var b1 := AttemptMerges(b, b, 0, t, s);
    OwnCommitIsRecognised(b.tip, "", t, s);
    var b2 := AttemptMerges(b, b1, 1, t, s);
  }

  // From a given branch, no run merges twice exactly when the strategy is a
  // squash or the head is not the tip.
  lemma MergesAtMostOnceIff(b: Branch, t: Target, s: Strategy)
    requires Initial(b) && t.head in b.objects
    ensures (forall b' | Leads(b, b', t, s) :: b'.moves <= 1) <==> Recognisable(b.tip, t, s)
  {
    if Recognisable(b.tip, t, s) {
      forall b' | Leads(b, b', t, s) ensures b'.moves <= 1 {
        var states, steps :| IsRun(states, steps, t, s) && states[0] == b && states[|steps|] == b';
        MergesAtMostOnce(states, steps, |steps|, t, s);
      }
    } else {
      HeadAtTipMergesTwice(b, t, s);
    }
  }
}
