/**
  Pins, follows, arriving posts and eviction, statement by statement.

  `changeFollowState` changes a subscription, decides whether the author should be pinned, and applies the decision, in
  separate statements. `handlePost` inserts the post, decides, and tracks the row. `checkAndEvict` lists unpinned ids and
  then deletes objects and rows without looking at the pins again. No lock spans any of these, so here each statement is
  a step and a run is any sequence of steps of any number of them. Two questions are decided exactly: which pinned posts
  are safe, and how much overlap of decisions the pins survive.
 */
module PinRaces {
  import opened Wrappers
  import opened Sets
  import PinPolicy

  /** A follow change after its statement on the subscriptions; the decision, once it is taken. */
  datatype Change = Change(author: Blob, decision: Option<bool>)

  /** An inserted post whose row is not tracked yet. */
  datatype Receipt = Receipt(cid: Blob, author: Blob, decision: Option<bool>)

  /** What an eviction pass has listed: objects still to delete, and rows still to delete. */
  datatype Pass = Pass(objects: set<Blob>, rows: set<Blob>)

  datatype State = State(
    node: PinPolicy.Node, changes: map<nat, Change>, receipts: map<nat, Receipt>, passes: map<nat, Pass>)

  /** The statement on the subscriptions; the manager skips it when its own set says that nothing changes. */
  datatype Edit = Subscribe | Unsubscribe | Skip

  datatype Step =
    | Begin(j: nat, owner: Blob, target: Blob, edit: Edit)
    | BeginFails(owner: Blob, target: Blob, edit: Edit)    // the topic callback fails and ends the change
    | Decide(j: nat)
    | ApplyKey(j: nat, now: int)
    | ApplyPosts(j: nat, now: int)
    | Put(cid: Blob)
    | Insert(h: nat, cid: Blob, author: Blob)
    | DecidePost(h: nat)
    | Track(h: nat, now: int)
    | Access(cid: Blob, now: int)
    | Learn(author: Blob)
    | List(e: nat, victims: set<Blob>)
    | DeleteObject(e: nat, cid: Blob)
    | DeleteRow(e: nat, cid: Blob)

  // ---------------------------------------------------------------- steps

  function Edited(n: PinPolicy.Node, owner: Blob, target: Blob, edit: Edit): PinPolicy.Node {
    match edit
    case Subscribe => n.(subscriptions := n.subscriptions + {(owner, target)})
    case Unsubscribe => n.(subscriptions := PinPolicy.SubscriptionsWithout(n, owner, target))
    case Skip => n
  }

  function PinnedRows(n: PinPolicy.Node, cids: set<Blob>, pin: bool, now: int): PinPolicy.Node {
    n.(access := PinPolicy.PinSet(n.access, cids, pin, now))
  }

  predicate IsPost(cid: Blob, author: Blob) {
    |cid| == PinPolicy.CID_SIZE && |author| == PinPolicy.KEY_SIZE
  }

  ghost predicate Enabled(s: State, step: Step) {
    match step
    case Begin(j, _, target, _) => j !in s.changes && |target| == PinPolicy.KEY_SIZE
    case BeginFails(_, target, _) => |target| == PinPolicy.KEY_SIZE
    case Decide(j) => j in s.changes && s.changes[j].decision.None?
    case ApplyKey(j, _) => j in s.changes && s.changes[j].decision.Some?
    case ApplyPosts(j, _) => j in s.changes && s.changes[j].decision.Some?
    case Insert(h, cid, author) =>
      h !in s.receipts && cid !in s.node.posts && author in s.node.profiles && IsPost(cid, author)
    case DecidePost(h) => h in s.receipts && s.receipts[h].decision.None?
    case Track(h, _) => h in s.receipts && s.receipts[h].decision.Some?
    case List(e, victims) =>
      e !in s.passes && forall cid :: cid in victims ==> cid in s.node.access && !PinPolicy.IsPinned(s.node, cid)
    case DeleteObject(e, cid) => e in s.passes && cid in s.passes[e].objects
    case DeleteRow(e, cid) => e in s.passes && cid in s.passes[e].rows
    case _ => true
  }

  ghost function Next(s: State, step: Step): State
    requires Enabled(s, step)
  {
    var n := s.node;
    match step
    case Begin(j, owner, target, edit) =>
      s.(node := Edited(n, owner, target, edit), changes := s.changes[j := Change(target, None)])
    case BeginFails(owner, target, edit) => s.(node := Edited(n, owner, target, edit))
    case Decide(j) =>
      var a := s.changes[j].author;
      s.(changes := s.changes[j := Change(a, Some(PinPolicy.ShouldPinAuthor(n, a)))])
    case ApplyKey(j, now) => s.(node := PinnedRows(n, {s.changes[j].author}, s.changes[j].decision.value, now))
    case ApplyPosts(j, now) =>
      s.(node := PinnedRows(n, PinPolicy.PostsBy(n, s.changes[j].author), s.changes[j].decision.value, now),
         changes := s.changes - {j})
    case Put(cid) => s.(node := n.(cas := n.cas + {cid}))
    case Insert(h, cid, author) =>
      s.(node := n.(posts := n.posts[cid := author]), receipts := s.receipts[h := Receipt(cid, author, None)])
    case DecidePost(h) =>
      var r := s.receipts[h];
      s.(receipts := s.receipts[h := r.(decision := Some(PinPolicy.ShouldPinAuthor(n, r.author)))])
    case Track(h, now) =>
      var r := s.receipts[h];
      s.(node := n.(access := PinPolicy.Tracked(n.access, r.cid, r.decision.value, now)), receipts := s.receipts - {h})
    case Access(cid, now) =>
      s.(node := n.(cas := n.cas + {cid}, access := PinPolicy.Tracked(n.access, cid, false, now)))
    case Learn(author) => s.(node := n.(profiles := n.profiles + {author}, cas := n.cas + {author}))
    case List(e, victims) => s.(passes := s.passes[e := Pass(victims, {})])
    case DeleteObject(e, cid) =>
      var p := s.passes[e];
      s.(node := n.(cas := n.cas - {cid}), passes := s.passes[e := Pass(p.objects - {cid}, p.rows + {cid})])
    case DeleteRow(e, cid) =>
      var p := s.passes[e];
      s.(node := n.(access := n.access - {cid}), passes := s.passes[e := p.(rows := p.rows - {cid})])
  }

  /** A step that is not enabled does not happen. */
  ghost function Run(s: State, steps: seq<Step>): State {
    if steps == [] then s
    else
      var s' := Run(s, steps[..|steps| - 1]);
      var step := steps[|steps| - 1];
      if Enabled(s', step) then Next(s', step) else s'
  }

  function Start(identities: set<Blob>, profiles: set<Blob>): State {
    State(PinPolicy.Empty(identities, profiles), map[], map[], map[])
  }

  lemma {:induction false} RunSnoc(s: State, steps: seq<Step>, step: Step)
    ensures Run(s, steps + [step]) == if Enabled(Run(s, steps), step) then Next(Run(s, steps), step) else Run(s, steps)
  {
    hide Enabled, Next;
    assert (steps + [step])[..|steps + [step]| - 1] == steps;
  }

  lemma {:induction false} SameDecision(n: PinPolicy.Node, n': PinPolicy.Node, a: Blob)
    requires n'.identities == n.identities && n'.subscriptions == n.subscriptions
    ensures PinPolicy.ShouldPinAuthor(n', a) == PinPolicy.ShouldPinAuthor(n, a)
  {
  }

  /** An edit matters for its target only. */
  lemma {:induction false} EditedOthers(n: PinPolicy.Node, owner: Blob, target: Blob, edit: Edit, a: Blob)
    requires a != target
    ensures PinPolicy.ShouldPinAuthor(Edited(n, owner, target, edit), a) == PinPolicy.ShouldPinAuthor(n, a)
  {
    var n' := Edited(n, owner, target, edit);
    if s :| s in n.subscriptions && s.1 == a {
      assert s in n'.subscriptions;
    }
    if s :| s in n'.subscriptions && s.1 == a {
      assert s in n.subscriptions;
    }
  }

  lemma {:induction false} PinnedRowsReads(n: PinPolicy.Node, cids: set<Blob>, pin: bool, now: int, cid: Blob)
    ensures PinPolicy.IsPinned(PinnedRows(n, cids, pin, now), cid) == if cid in cids then pin else PinPolicy.IsPinned(n, cid)
    ensures cid in PinnedRows(n, cids, pin, now).access <==> cid in n.access || cid in cids
  {
    PinPolicy.PinSetReads(n.access, cids, pin, now, cid);
  }

  lemma {:induction false} TrackedReads(n: PinPolicy.Node, cid: Blob, pin: bool, now: int, other: Blob)
    ensures var n' := n.(access := PinPolicy.Tracked(n.access, cid, pin, now));
            && PinPolicy.IsPinned(n', other) == (PinPolicy.IsPinned(n, other) || (other == cid && pin))
            && (other in n'.access <==> other in n.access || other == cid)
  {
  }

  // ---------------------------------------------------------------- which posts are safe

  /** A stored post with its object, pinned. */
  predicate Kept(s: State, cid: Blob, author: Blob) {
    cid in s.node.posts && s.node.posts[cid] == author && cid in s.node.cas && PinPolicy.IsPinned(s.node, cid)
  }

  /** Some eviction pass will still delete the object or the row. */
  ghost predicate Listed(s: State, cid: Blob) {
    exists e :: e in s.passes && (cid in s.passes[e].objects || cid in s.passes[e].rows)
  }

  /** Some follow change has decided to unpin the author's posts and not done it yet. */
  ghost predicate UnpinPending(s: State, author: Blob) {
    exists j :: j in s.changes && s.changes[j] == Change(author, Some(false))
  }

  ghost predicate Safe(s: State, cid: Blob, author: Blob) {
    Kept(s, cid, author) && !Listed(s, cid) && !UnpinPending(s, author)
  }

  lemma {:induction false} PinnedRowsSafe(s: State, j: nat, now: int, cid: Blob, author: Blob)
    requires Safe(s, cid, author) && IsPost(cid, author) && j in s.changes && s.changes[j].decision.Some?
    requires |s.changes[j].author| == PinPolicy.KEY_SIZE
    ensures Enabled(s, ApplyKey(j, now)) && Safe(Next(s, ApplyKey(j, now)), cid, author)
    ensures Enabled(s, ApplyPosts(j, now)) && Safe(Next(s, ApplyPosts(j, now)), cid, author)
  {
    hide PinPolicy.IsPinned, PinPolicy.PinSet;
    var c := s.changes[j];
    PinnedRowsReads(s.node, {c.author}, c.decision.value, now, cid);
    PinnedRowsReads(s.node, PinPolicy.PostsBy(s.node, c.author), c.decision.value, now, cid);
    assert c.author == author ==> c.decision.value;
  }

  /** The targets of follow changes are public keys. */
  ghost predicate KeySized(s: State) {
    forall j :: j in s.changes ==> |s.changes[j].author| == PinPolicy.KEY_SIZE
  }

  lemma {:induction false} StepKeepsUnlisted(s: State, step: Step, cid: Blob)
    requires Enabled(s, step) && !Listed(s, cid) && PinPolicy.IsPinned(s.node, cid)
    ensures !Listed(Next(s, step), cid)
  {
    hide PinPolicy.ShouldPinAuthor, PinPolicy.PinSet, PinPolicy.Tracked, PinPolicy.PostsBy, PinPolicy.IsPinned, Edited;
    var s' := Next(s, step);
    forall e | e in s'.passes ensures cid !in s'.passes[e].objects && cid !in s'.passes[e].rows {
      if e in s.passes {
        assert cid !in s.passes[e].objects && cid !in s.passes[e].rows;
      }
    }
  }

  /** While the author is followed, every new decision is to pin. */
  lemma {:induction false} StepKeepsNoUnpin(s: State, step: Step, author: Blob)
    requires Enabled(s, step) && !UnpinPending(s, author) && PinPolicy.ShouldPinAuthor(s.node, author)
    ensures !UnpinPending(Next(s, step), author)
  {
    hide PinPolicy.ShouldPinAuthor, PinPolicy.PinSet, PinPolicy.Tracked, PinPolicy.PostsBy, PinPolicy.IsPinned, Edited;
    var s' := Next(s, step);
    forall j | j in s'.changes ensures s'.changes[j] != Change(author, Some(false)) {
      if j in s.changes { assert s.changes[j] != Change(author, Some(false)); }
    }
  }

  lemma {:induction false} StepKeepsKept(s: State, step: Step, cid: Blob, author: Blob)
    requires Enabled(s, step) && Safe(s, cid, author) && IsPost(cid, author) && KeySized(s)
    ensures Kept(Next(s, step), cid, author)
  {
    hide PinPolicy.ShouldPinAuthor, PinPolicy.PinSet, PinPolicy.Tracked, PinPolicy.IsPinned, Edited;
    var s' := Next(s, step);
    match step {
      case ApplyKey(j, now) => PinnedRowsSafe(s, j, now, cid, author);
      case ApplyPosts(j, now) => PinnedRowsSafe(s, j, now, cid, author);
      case Track(h, now) => TrackedReads(s.node, s.receipts[h].cid, s.receipts[h].decision.value, now, cid);
      case Access(c, now) =>
        TrackedReads(s.node, c, false, now, cid);
        SamePin(s.node.(access := PinPolicy.Tracked(s.node.access, c, false, now)), s'.node, cid);
      case DeleteRow(e, c) => OtherRow(s.node, c, cid);
      case Begin(j, owner, target, edit) =>
        EditedRest(s.node, owner, target, edit);
        SamePin(s.node, s'.node, cid);
      case BeginFails(owner, target, edit) =>
        EditedRest(s.node, owner, target, edit);
        SamePin(s.node, s'.node, cid);
      case _ => SamePin(s.node, s'.node, cid);
    }
  }

  lemma {:induction false} OtherRow(n: PinPolicy.Node, c: Blob, cid: Blob)
    requires c != cid
    ensures PinPolicy.IsPinned(n.(access := n.access - {c}), cid) == PinPolicy.IsPinned(n, cid)
  {
  }

  lemma {:induction false} StepKeepsSafe(s: State, step: Step, cid: Blob, author: Blob)
    requires Enabled(s, step) && Safe(s, cid, author) && IsPost(cid, author) && KeySized(s)
    requires PinPolicy.ShouldPinAuthor(s.node, author)
    ensures Safe(Next(s, step), cid, author) && KeySized(Next(s, step))
  {
    hide Next, Enabled, Listed, UnpinPending, KeySized, PinPolicy.ShouldPinAuthor, PinPolicy.IsPinned;
    StepKeepsKeys(s, step);
    StepKeepsKept(s, step, cid, author);
    StepKeepsUnlisted(s, step, cid);
    StepKeepsNoUnpin(s, step, author);
  }

  /** The author is local or followed at every moment of the run. */
  ghost predicate FollowedThroughout(s: State, steps: seq<Step>, author: Blob) {
    forall k :: 0 <= k <= |steps| ==> PinPolicy.ShouldPinAuthor(Run(s, steps[..k]).node, author)
  }

  lemma {:induction false} FollowedPrefix(s: State, steps: seq<Step>, author: Blob, n: nat)
    requires FollowedThroughout(s, steps, author) && n <= |steps|
    ensures FollowedThroughout(s, steps[..n], author) && PinPolicy.ShouldPinAuthor(Run(s, steps[..n]).node, author)
  {
    hide Run, PinPolicy.ShouldPinAuthor;
    forall k | 0 <= k <= n ensures PinPolicy.ShouldPinAuthor(Run(s, steps[..n][..k]).node, author) {
      assert steps[..n][..k] == steps[..k];
    }
  }

  /** In every interleaving: a safe post stays safe for as long as its author is followed. */
  lemma {:induction false} SafeWhileFollowed(s: State, steps: seq<Step>, cid: Blob, author: Blob)
    requires Safe(s, cid, author) && IsPost(cid, author) && KeySized(s) && FollowedThroughout(s, steps, author)
    ensures Safe(Run(s, steps), cid, author) && KeySized(Run(s, steps))
    decreases |steps|
  {
    hide Safe, KeySized, Enabled, Next, PinPolicy.ShouldPinAuthor, FollowedThroughout, IsPost;
    if steps != [] {
      var n := |steps| - 1;
      FollowedPrefix(s, steps, author, n);
      SafeWhileFollowed(s, steps[..n], cid, author);
      var s' := Run(s, steps[..n]);
      if Enabled(s', steps[n]) { StepKeepsSafe(s', steps[n], cid, author); }
    }
  }

  ghost predicate AlwaysKept(s: State, cid: Blob, author: Blob) {
    forall steps :: FollowedThroughout(s, steps, author) ==> Kept(Run(s, steps), cid, author)
  }

  ghost predicate AlwaysStored(s: State, cid: Blob, author: Blob) {
    forall steps :: FollowedThroughout(s, steps, author) ==> cid in Run(s, steps).node.cas
  }

  // ---------------------------------------------------------------- runs that lose a post

  predicate LeavesSubscriptions(step: Step) {
    !step.Begin? && !step.BeginFails?
  }

  lemma {:induction false} StepLeaves(s: State, step: Step)
    requires Enabled(s, step) && LeavesSubscriptions(step)
    ensures Next(s, step).node.identities == s.node.identities && Next(s, step).node.subscriptions == s.node.subscriptions
  {
  }

  lemma {:induction false} RunLeaves(s: State, steps: seq<Step>)
    requires forall i :: 0 <= i < |steps| ==> LeavesSubscriptions(steps[i])
    ensures Run(s, steps).node.identities == s.node.identities && Run(s, steps).node.subscriptions == s.node.subscriptions
    decreases |steps|
  {
    hide Enabled, Next, LeavesSubscriptions;
    if steps != [] {
      var n := |steps| - 1;
      RunLeaves(s, steps[..n]);
      if Enabled(Run(s, steps[..n]), steps[n]) { StepLeaves(Run(s, steps[..n]), steps[n]); }
    }
  }

  lemma {:induction false} StaysFollowed(s: State, steps: seq<Step>, author: Blob)
    requires PinPolicy.ShouldPinAuthor(s.node, author)
    requires forall i :: 0 <= i < |steps| ==> LeavesSubscriptions(steps[i])
    ensures FollowedThroughout(s, steps, author)
  {
    hide Run, PinPolicy.ShouldPinAuthor;
    forall k | 0 <= k <= |steps| ensures PinPolicy.ShouldPinAuthor(Run(s, steps[..k]).node, author) {
      RunLeaves(s, steps[..k]);
      SameDecision(s.node, Run(s, steps[..k]).node, author);
    }
  }

  lemma {:induction false} FreshPass(passes: set<nat>) returns (e: nat)
    ensures e !in passes
  {
    e := Bound(passes);
  }

  lemma {:induction false} Bound(s: set<nat>) returns (b: nat)
    ensures forall x :: x in s ==> x < b
    decreases s
  {
    if s == {} {
      b := 0;
    } else {
      var x :| x in s;
      var c := Bound(s - {x});
      b := if x < c then c else x + 1;
      forall y | y in s ensures y < b { if y != x { assert y in s - {x}; } }
    }
  }

  /** An unpinned row can be listed and its object deleted. */
  lemma {:induction false} UnpinnedLost(s: State, steps: seq<Step>, cid: Blob) returns (more: seq<Step>)
    requires var t := Run(s, steps); cid in t.node.access && !PinPolicy.IsPinned(t.node, cid)
    requires forall i :: 0 <= i < |steps| ==> LeavesSubscriptions(steps[i])
    ensures forall i :: 0 <= i < |more| ==> LeavesSubscriptions(more[i])
    ensures cid !in Run(s, more).node.cas
  {
    hide Run, PinPolicy.IsPinned;
    var t := Run(s, steps);
    var e := FreshPass(t.passes.Keys);
    var l, d := List(e, {cid}), DeleteObject(e, cid);
    RunSnoc(s, steps, l);
    RunSnoc(s, steps + [l], d);
    more := steps + [l] + [d];
  }

  /** A pending unpin takes effect, and the post is up for eviction. */
  lemma {:induction false} UnpinLoses(s: State, j: nat, cid: Blob, author: Blob) returns (steps: seq<Step>)
    requires Kept(s, cid, author) && j in s.changes && s.changes[j] == Change(author, Some(false))
    ensures forall i :: 0 <= i < |steps| ==> LeavesSubscriptions(steps[i])
    ensures cid !in Run(s, steps).node.cas
  {
    hide PinPolicy.IsPinned, PinPolicy.PinSet;
    var a := ApplyPosts(j, 0);
    RunSnoc(s, [], a);
    assert [] + [a] == [a];
    PinnedRowsReads(s.node, PinPolicy.PostsBy(s.node, author), false, 0, cid);
    hide Run;
    steps := UnpinnedLost(s, [a], cid);
  }

  /** A pass that has deleted the object once and not the row yet removes the pin; the next access brings back an unpinned row. */
  lemma {:induction false} RowLoses(s: State, e: nat, cid: Blob) returns (steps: seq<Step>)
    requires e in s.passes && cid in s.passes[e].rows
    ensures forall i :: 0 <= i < |steps| ==> LeavesSubscriptions(steps[i])
    ensures cid !in Run(s, steps).node.cas
  {
    var d, a := DeleteRow(e, cid), Access(cid, 0);
    RunSnoc(s, [], d);
    RunSnoc(s, [d], a);
    assert [] + [d] == [d] && [d] + [a] == [d, a];
    hide Run;
    steps := UnpinnedLost(s, [d, a], cid);
  }

  lemma {:induction false} ObjectLoses(s: State, e: nat, cid: Blob)
    requires e in s.passes && cid in s.passes[e].objects
    ensures cid !in Run(s, [DeleteObject(e, cid)]).node.cas
  {
    RunSnoc(s, [], DeleteObject(e, cid));
    assert [] + [DeleteObject(e, cid)] == [DeleteObject(e, cid)];
  }

  lemma {:induction false} UnsafeLoses(s: State, cid: Blob, author: Blob) returns (steps: seq<Step>)
    requires Kept(s, cid, author) && (Listed(s, cid) || UnpinPending(s, author))
    ensures forall i :: 0 <= i < |steps| ==> LeavesSubscriptions(steps[i])
    ensures cid !in Run(s, steps).node.cas
  {
    hide Run, Kept;
    if UnpinPending(s, author) {
      var j :| j in s.changes && s.changes[j] == Change(author, Some(false));
      steps := UnpinLoses(s, j, cid, author);
    } else {
      var e :| e in s.passes && (cid in s.passes[e].objects || cid in s.passes[e].rows);
      if cid in s.passes[e].objects {
        ObjectLoses(s, e, cid);
        steps := [DeleteObject(e, cid)];
      } else {
        steps := RowLoses(s, e, cid);
      }
    }
  }

  /**
    A pinned post of a followed author keeps its object, and its pin, in every run in which the author stays followed if
    and only if no eviction pass has it on its list and no follow change holds a decision to unpin the author.
   */
  lemma {:induction false} SafeIff(s: State, cid: Blob, author: Blob)
    requires Kept(s, cid, author) && IsPost(cid, author) && KeySized(s) && PinPolicy.ShouldPinAuthor(s.node, author)
    ensures AlwaysStored(s, cid, author) <==> !Listed(s, cid) && !UnpinPending(s, author)
    ensures AlwaysKept(s, cid, author) <==> !Listed(s, cid) && !UnpinPending(s, author)
  {
    hide PinPolicy.ShouldPinAuthor, FollowedThroughout, Run, Listed, UnpinPending, KeySized, IsPost;
    if !Listed(s, cid) && !UnpinPending(s, author) {
      forall steps | FollowedThroughout(s, steps, author)
        ensures Kept(Run(s, steps), cid, author) && cid in Run(s, steps).node.cas
      {
        SafeWhileFollowed(s, steps, cid, author);
      }
    } else {
      var steps := UnsafeLoses(s, cid, author);
      StaysFollowed(s, steps, author);
      assert !Kept(Run(s, steps), cid, author);
    }
  }

  lemma {:induction false} ReachableKeySized(identities: set<Blob>, profiles: set<Blob>, steps: seq<Step>)
    ensures KeySized(Run(Start(identities, profiles), steps))
    decreases |steps|
  {
    hide KeySized, Enabled, Next;
    if steps == [] {
      NoChanges(identities, profiles);
    } else {
      var s := Run(Start(identities, profiles), steps[..|steps| - 1]);
      ReachableKeySized(identities, profiles, steps[..|steps| - 1]);
      if Enabled(s, steps[|steps| - 1]) { StepKeepsKeys(s, steps[|steps| - 1]); }
    }
  }

  lemma {:induction false} NoChanges(identities: set<Blob>, profiles: set<Blob>)
    ensures KeySized(Start(identities, profiles))
  {
  }

  /** Deleting a row keeps the pins right if and only if the row is not a pinned post's at that moment. */
  lemma {:induction false} DeleteRowKeepsPinsIff(s: State, e: nat, cid: Blob)
    requires Enabled(s, DeleteRow(e, cid)) && PinPolicy.PinsRight(s.node)
    ensures PinPolicy.PinsRight(Next(s, DeleteRow(e, cid)).node)
       <==> !(cid in s.node.posts && PinPolicy.IsPinned(s.node, cid))
  {
    hide PinPolicy.ShouldPinAuthor;
    var n, n' := s.node, Next(s, DeleteRow(e, cid)).node;
    forall a ensures PinPolicy.ShouldPinAuthor(n', a) == PinPolicy.ShouldPinAuthor(n, a) { SameDecision(n, n', a); }
    if cid in n.posts && PinPolicy.IsPinned(n, cid) {
      assert !PinPolicy.IsPinned(n', cid) && PinPolicy.ShouldPinAuthor(n', n'.posts[cid]);
    }
  }

  // ---------------------------------------------------------------- two runs that lose a followed author's post

  /** One stored post, tracked, and nothing else in the tables but subscriptions. */
  predicate OnePost(s: State, cid: Blob, author: Blob, pinned: bool, followers: set<(Blob, Blob)>) {
    && s.node.posts == map[cid := author] && s.node.cas == {cid} && cid in s.node.access
    && s.node.access[cid].pinned == pinned && s.node.subscriptions == followers && s.node.identities == {}
  }

  function Arrival(cid: Blob, author: Blob): seq<Step> {
    [Put(cid), Insert(1, cid, author), DecidePost(1), Track(1, 0)]
  }

  lemma {:induction false} Inserted(cid: Blob, author: Blob)
    requires IsPost(cid, author)
    ensures var s0 := Start({}, {author});
            var s := Run(s0, Arrival(cid, author)[..2]);
            && s.node == s0.node.(posts := map[cid := author], cas := {cid})
            && s.changes == map[] && s.receipts == map[1 := Receipt(cid, author, None)] && s.passes == map[]
            && AtMost(s0, Arrival(cid, author)[..2], 2)
  {
    hide Run, AtMost, Calm;
    var s := Start({}, {author});
    var a, b := Put(cid), Insert(1, cid, author);
    NothingRun(s, 2);
    RunSnoc(s, [], a);
    RunSnoc(s, [] + [a], b);
    assert [] + [a] + [b] == Arrival(cid, author)[..2];
    assert {} + {cid} == {cid};
    FewReceipts(Run(s, [] + [a]));
    FewReceipts(Run(s, [] + [a] + [b]));
    AtMostSnoc(s, [], a, 2);
    AtMostSnoc(s, [] + [a], b, 2);
  }

  lemma {:induction false} Arrived(cid: Blob, author: Blob)
    requires IsPost(cid, author)
    ensures var s := Run(Start({}, {author}), Arrival(cid, author));
            && OnePost(s, cid, author, false, {}) && s.changes == map[] && s.receipts == map[] && s.passes == map[]
            && AtMost(Start({}, {author}), Arrival(cid, author), 2)
  {
    hide Run, AtMost, Calm;
    var s := Start({}, {author});
    var steps, c, d := Arrival(cid, author)[..2], DecidePost(1), Track(1, 0);
    Inserted(cid, author);
    RunSnoc(s, steps, c);
    RunSnoc(s, steps + [c], d);
    assert steps + [c] + [d] == Arrival(cid, author);
    assert !PinPolicy.ShouldPinAuthor(Run(s, steps).node, author);
    FewReceipts(Run(s, steps + [c]));
    FewReceipts(Run(s, Arrival(cid, author)));
    AtMostSnoc(s, steps, c, 2);
    AtMostSnoc(s, steps + [c], d, 2);
  }

  /** An unfollow that has nothing to remove decides, and a follow begins, decides and applies. */
  function FollowOvertakes(owner: Blob, author: Blob): seq<Step> {
    [Begin(1, owner, author, Skip), Decide(1), Begin(2, owner, author, Subscribe), Decide(2), ApplyPosts(2, 1)]
  }

  lemma {:induction false} BothDecided(s: State, steps: seq<Step>, cid: Blob, owner: Blob, author: Blob)
    requires IsPost(cid, author) && AtMost(s, steps, 2)
    requires var t := Run(s, steps); OnePost(t, cid, author, false, {}) && t.changes == map[] && t.receipts == map[] && t.passes == map[]
    ensures var t := Run(s, steps + FollowOvertakes(owner, author)[..4]);
            && OnePost(t, cid, author, false, {(owner, author)}) && t.receipts == map[] && t.passes == map[]
            && t.changes == map[1 := Change(author, Some(false)), 2 := Change(author, Some(true))]
            && AtMost(s, steps + FollowOvertakes(owner, author)[..4], 2)
  {
    hide Run, AtMost, Calm;
    var a, b, c, d := Begin(1, owner, author, Skip), Decide(1), Begin(2, owner, author, Subscribe), Decide(2);
    RunSnoc(s, steps, a);
    RunSnoc(s, steps + [a], b);
    RunSnoc(s, steps + [a] + [b], c);
    RunSnoc(s, steps + [a] + [b] + [c], d);
    var t2, t3 := Run(s, steps + [a] + [b]), Run(s, steps + [a] + [b] + [c]);
    assert !PinPolicy.ShouldPinAuthor(Run(s, steps + [a]).node, author);
    assert (owner, author) in t3.node.subscriptions && (owner, author).1 == author;
    assert PinPolicy.ShouldPinAuthor(t3.node, author);
    assert steps + [a] + [b] + [c] + [d] == steps + FollowOvertakes(owner, author)[..4];
    FewChanges(Run(s, steps + [a]));
    FewChanges(t2);
    FewChanges(t3);
    FewChanges(Run(s, steps + [a] + [b] + [c] + [d]));
    AtMostSnoc(s, steps, a, 2);
    AtMostSnoc(s, steps + [a], b, 2);
    AtMostSnoc(s, steps + [a] + [b], c, 2);
    AtMostSnoc(s, steps + [a] + [b] + [c], d, 2);
  }

  function Overtaking(cid: Blob, owner: Blob, author: Blob): seq<Step> {
    Arrival(cid, author) + FollowOvertakes(owner, author)
  }

  /** After the follow the post is pinned and on no list, yet a decision to unpin is pending. */
  lemma {:induction false} Overtaken(cid: Blob, owner: Blob, author: Blob)
    requires IsPost(cid, author)
    ensures var s := Run(Start({}, {author}), Overtaking(cid, owner, author));
            && OnePost(s, cid, author, true, {(owner, author)}) && s.changes == map[1 := Change(author, Some(false))]
            && s.receipts == map[] && s.passes == map[] && PinPolicy.ShouldPinAuthor(s.node, author)
            && AtMost(Start({}, {author}), Overtaking(cid, owner, author), 2)
  {
    hide Run, AtMost, Calm, PinPolicy.PinSet;
    var s := Start({}, {author});
    var steps := Arrival(cid, author);
    Arrived(cid, author);
    BothDecided(s, steps, cid, owner, author);
    var before := steps + FollowOvertakes(owner, author)[..4];
    RunSnoc(s, before, ApplyPosts(2, 1));
    assert before + [ApplyPosts(2, 1)] == Overtaking(cid, owner, author);
    var t := Run(s, before);
    PinnedRowsReads(t.node, PinPolicy.PostsBy(t.node, author), true, 1, cid);
    var t' := Run(s, Overtaking(cid, owner, author));
    assert (owner, author) in t'.node.subscriptions && (owner, author).1 == author;
    FewChanges(t');
    AtMostSnoc(s, before, ApplyPosts(2, 1), 2);
  }

  /** The old decision is applied: nothing is under way, the author is followed, and the post is unpinned. */
  lemma {:induction false} StaleDecisionUnpins(cid: Blob, owner: Blob, author: Blob)
    requires IsPost(cid, author)
    ensures var steps := Overtaking(cid, owner, author) + [ApplyPosts(1, 2)];
            var s := Run(Start({}, {author}), steps);
            && OnePost(s, cid, author, false, {(owner, author)}) && s.changes == map[] && s.receipts == map[] && s.passes == map[]
            && PinPolicy.ShouldPinAuthor(s.node, author) && AtMost(Start({}, {author}), steps, 2)
  {
    hide Run, AtMost, Calm, PinPolicy.PinSet;
    var s := Start({}, {author});
    var steps := Overtaking(cid, owner, author);
    Overtaken(cid, owner, author);
    RunSnoc(s, steps, ApplyPosts(1, 2));
    var t := Run(s, steps);
    PinnedRowsReads(t.node, PinPolicy.PostsBy(t.node, author), false, 2, cid);
    var t' := Run(s, steps + [ApplyPosts(1, 2)]);
    SameDecision(t.node, t'.node, author);
    FewChanges(t');
    AtMostSnoc(s, steps, ApplyPosts(1, 2), 2);
  }

  /** Then an eviction pass deletes the post of a followed author. */
  lemma {:induction false} StaleDecisionLoses(cid: Blob, owner: Blob, author: Blob)
    requires IsPost(cid, author)
    ensures var steps := Overtaking(cid, owner, author) + [ApplyPosts(1, 2)] + [List(0, {cid})] + [DeleteObject(0, cid)];
            var s := Run(Start({}, {author}), steps);
            && s.node.posts == map[cid := author] && PinPolicy.ShouldPinAuthor(s.node, author)
            && cid !in s.node.cas && !PinPolicy.IsPinned(s.node, cid)
  {
    hide Run, AtMost;
    var s := Start({}, {author});
    StaleDecisionUnpins(cid, owner, author);
    var steps := Overtaking(cid, owner, author) + [ApplyPosts(1, 2)];
    RunSnoc(s, steps, List(0, {cid}));
    RunSnoc(s, steps + [List(0, {cid})], DeleteObject(0, cid));
    SameDecision(Run(s, steps).node, Run(s, steps + [List(0, {cid})] + [DeleteObject(0, cid)]).node, author);
  }

  lemma {:induction false} ListedThenFollowed(cid: Blob, owner: Blob, author: Blob)
    requires IsPost(cid, author)
    ensures var steps := Arrival(cid, author) + [List(0, {cid})] + [Begin(1, owner, author, Subscribe)] + [Decide(1)];
            var s := Run(Start({}, {author}), steps);
            && OnePost(s, cid, author, false, {(owner, author)}) && PinPolicy.ShouldPinAuthor(s.node, author)
            && s.changes == map[1 := Change(author, Some(true))] && s.passes == map[0 := Pass({cid}, {})]
  {
    hide Run, AtMost;
    var s := Start({}, {author});
    var steps := Arrival(cid, author);
    Arrived(cid, author);
    var l, b, d := List(0, {cid}), Begin(1, owner, author, Subscribe), Decide(1);
    RunSnoc(s, steps, l);
    RunSnoc(s, steps + [l], b);
    RunSnoc(s, steps + [l] + [b], d);
    var t := Run(s, steps + [l] + [b]);
    assert (owner, author) in t.node.subscriptions && (owner, author).1 == author;
    assert PinPolicy.ShouldPinAuthor(t.node, author);
  }

  /** A post that is listed before its author is followed is deleted afterwards, pinned as it is. */
  lemma {:induction false} FollowAfterListLoses(cid: Blob, owner: Blob, author: Blob)
    requires IsPost(cid, author)
    ensures var steps := Arrival(cid, author) + [List(0, {cid})] + [Begin(1, owner, author, Subscribe)] + [Decide(1)]
                           + [ApplyPosts(1, 1)] + [DeleteObject(0, cid)];
            var s := Run(Start({}, {author}), steps);
            && s.node.posts == map[cid := author] && PinPolicy.ShouldPinAuthor(s.node, author)
            && PinPolicy.IsPinned(s.node, cid) && cid !in s.node.cas
  {
    hide Run, PinPolicy.PinSet, PinPolicy.ShouldPinAuthor;
    var s := Start({}, {author});
    var steps := Arrival(cid, author) + [List(0, {cid})] + [Begin(1, owner, author, Subscribe)] + [Decide(1)];
    ListedThenFollowed(cid, owner, author);
    RunSnoc(s, steps, ApplyPosts(1, 1));
    RunSnoc(s, steps + [ApplyPosts(1, 1)], DeleteObject(0, cid));
    var t, t' := Run(s, steps), Run(s, steps + [ApplyPosts(1, 1)] + [DeleteObject(0, cid)]);
    PinnedRowsReads(t.node, PinPolicy.PostsBy(t.node, author), true, 1, cid);
    SameDecision(t.node, t'.node, author);
  }

  // ---------------------------------------------------------------- how much overlap the pins survive

  function DecidedChanges(s: State, a: Blob): set<nat> {
    set j | j in s.changes && s.changes[j].author == a && s.changes[j].decision.Some?
  }

  function DecidedReceipts(s: State, a: Blob): set<nat> {
    set h | h in s.receipts && s.receipts[h].author == a && s.receipts[h].decision.Some?
  }

  /** Decisions about an author that are taken and not carried out yet. */
  function InFlight(s: State, a: Blob): nat {
    |DecidedChanges(s, a)| + |DecidedReceipts(s, a)|
  }

  ghost predicate Calm(s: State, k: nat) {
    forall a :: InFlight(s, a) <= k
  }

  /** At no moment of the run are more than `k` decisions about one author in flight. */
  ghost predicate AtMost(s: State, steps: seq<Step>, k: nat) {
    forall i :: 0 <= i <= |steps| ==> Calm(Run(s, steps[..i]), k)
  }

  lemma {:induction false} NothingRun(s: State, k: nat)
    requires s.changes == map[] && s.receipts == map[]
    ensures Run(s, []) == s && AtMost(s, [], k)
  {
    forall a ensures InFlight(s, a) == 0 {
      assert DecidedChanges(s, a) == {} && DecidedReceipts(s, a) == {};
    }
    var none: seq<Step> := [];
    assert none[..0] == none;
  }

  lemma {:induction false} AtMostSnoc(s: State, steps: seq<Step>, step: Step, k: nat)
    requires AtMost(s, steps, k) && Calm(Run(s, steps + [step]), k)
    ensures AtMost(s, steps + [step], k)
  {
    hide Run, Calm;
    var all := steps + [step];
    forall i | 0 <= i <= |all| ensures Calm(Run(s, all[..i]), k) {
      if i <= |steps| { assert all[..i] == steps[..i]; } else { assert all[..i] == all; }
    }
  }

  lemma {:induction false} AtMostPrefix(s: State, steps: seq<Step>, k: nat, n: nat)
    requires AtMost(s, steps, k) && n <= |steps|
    ensures AtMost(s, steps[..n], k) && Calm(Run(s, steps[..n]), k)
  {
    hide Run, Calm;
    forall i | 0 <= i <= n ensures Calm(Run(s, steps[..n][..i]), k) {
      assert steps[..n][..i] == steps[..i];
    }
  }

  lemma {:induction false} FewChanges(s: State)
    requires s.receipts == map[] && s.changes.Keys <= {1, 2}
    ensures Calm(s, 2)
  {
    forall a ensures InFlight(s, a) <= 2 {
      assert DecidedReceipts(s, a) == {};
      SubsetSize(DecidedChanges(s, a), {1, 2});
    }
  }

  lemma {:induction false} FewReceipts(s: State)
    requires s.changes == map[] && s.receipts.Keys <= {1}
    ensures Calm(s, 2)
  {
    forall a ensures InFlight(s, a) <= 2 {
      assert DecidedChanges(s, a) == {};
      SubsetSize(DecidedReceipts(s, a), {1});
    }
  }

  /** No callback fails and no eviction pass lists anything. */
  predicate Undisturbed(steps: seq<Step>) {
    forall i :: 0 <= i < |steps| ==> !steps[i].BeginFails? && !steps[i].List?
  }

  ghost predicate Open(s: State, a: Blob) {
    exists j :: j in s.changes && s.changes[j].author == a
  }

  ghost predicate Undecided(s: State, a: Blob) {
    exists j :: j in s.changes && s.changes[j] == Change(a, None)
  }

  ghost predicate HasReceipt(s: State, cid: Blob) {
    exists h :: h in s.receipts && s.receipts[h].cid == cid
  }

  /** A decision in hand is still the right one, or a later change will decide again. */
  ghost predicate DecisionOk(s: State, a: Blob, v: bool) {
    v == PinPolicy.ShouldPinAuthor(s.node, a) || Undecided(s, a)
  }

  /** A post's pin is right, or a follow change is under way, or the post is not tracked yet and not pinned. */
  ghost predicate PostOk(s: State, cid: Blob, a: Blob) {
    || Open(s, a)
    || (PinPolicy.IsPinned(s.node, cid) <==> PinPolicy.ShouldPinAuthor(s.node, a))
    || (!PinPolicy.IsPinned(s.node, cid) && HasReceipt(s, cid))
  }

  ghost predicate DecisionsOk(s: State) {
    && (forall j :: j in s.changes && s.changes[j].decision.Some? ==> DecisionOk(s, s.changes[j].author, s.changes[j].decision.value))
    && (forall h :: h in s.receipts && s.receipts[h].decision.Some? ==> DecisionOk(s, s.receipts[h].author, s.receipts[h].decision.value))
  }

  ghost predicate PostsOk(s: State) {
    forall cid :: cid in s.node.posts ==> PostOk(s, cid, s.node.posts[cid])
  }

  /** Only posts have pinned rows, apart from rows under public keys. */
  ghost predicate PinsShaped(s: State) {
    && (forall cid :: cid in s.node.posts ==> IsPost(cid, s.node.posts[cid]))
    && (forall cid :: PinPolicy.IsPinned(s.node, cid) && |cid| == PinPolicy.CID_SIZE ==> cid in s.node.posts)
  }

  /** Each receipt is for a stored post of its own. */
  ghost predicate ReceiptsShaped(s: State) {
    && (forall h :: h in s.receipts ==> s.receipts[h].cid in s.node.posts && s.node.posts[s.receipts[h].cid] == s.receipts[h].author)
    && (forall g, h :: g in s.receipts && h in s.receipts && s.receipts[g].cid == s.receipts[h].cid ==> g == h)
  }

  ghost predicate Shaped(s: State) {
    KeySized(s) && s.passes == map[] && PinsShaped(s) && ReceiptsShaped(s)
  }

  lemma {:induction false} StepKeepsReceipts(s: State, step: Step)
    requires Enabled(s, step) && ReceiptsShaped(s)
    ensures ReceiptsShaped(Next(s, step))
  {
    hide PinPolicy.ShouldPinAuthor, PinPolicy.PinSet, PinPolicy.Tracked, PinPolicy.IsPinned, PinPolicy.PostsBy, Edited;
    if step.Begin? { EditedRest(s.node, step.owner, step.target, step.edit); }
    if step.BeginFails? { EditedRest(s.node, step.owner, step.target, step.edit); }
  }

  lemma {:induction false} SamePins(s: State, s': State)
    requires PinsShaped(s) && s'.node.access == s.node.access && s'.node.posts == s.node.posts
    ensures PinsShaped(s')
  {
  }

  lemma {:induction false} StepKeepsPinShape(s: State, step: Step)
    requires Enabled(s, step) && KeySized(s) && PinsShaped(s) && ReceiptsShaped(s) && s.passes == map[]
    ensures PinsShaped(Next(s, step))
  {
    hide PinPolicy.ShouldPinAuthor, PinPolicy.PinSet, PinPolicy.Tracked, PinPolicy.IsPinned, Edited, ReceiptsShaped;
    var s' := Next(s, step);
    match step {
      case ApplyKey(j, now) =>
        forall cid ensures PinPolicy.IsPinned(s'.node, cid) && |cid| == PinPolicy.CID_SIZE ==> cid in s'.node.posts {
          PinnedRowsReads(s.node, {s.changes[j].author}, s.changes[j].decision.value, now, cid);
        }
      case ApplyPosts(j, now) =>
        forall cid ensures PinPolicy.IsPinned(s'.node, cid) && |cid| == PinPolicy.CID_SIZE ==> cid in s'.node.posts {
          PinnedRowsReads(s.node, PinPolicy.PostsBy(s.node, s.changes[j].author), s.changes[j].decision.value, now, cid);
        }
      case Track(h, now) =>
        ReceiptStored(s, h);
        forall cid ensures PinPolicy.IsPinned(s'.node, cid) && |cid| == PinPolicy.CID_SIZE ==> cid in s'.node.posts {
          TrackedReads(s.node, s.receipts[h].cid, s.receipts[h].decision.value, now, cid);
        }
      case Access(c, now) =>
        forall cid ensures PinPolicy.IsPinned(s'.node, cid) && |cid| == PinPolicy.CID_SIZE ==> cid in s'.node.posts {
          TrackedReads(s.node, c, false, now, cid);
          SamePin(s.node.(access := PinPolicy.Tracked(s.node.access, c, false, now)), s'.node, cid);
        }
      case Insert(h, c, author) =>
        forall cid ensures PinPolicy.IsPinned(s'.node, cid) == PinPolicy.IsPinned(s.node, cid) { SamePin(s.node, s'.node, cid); }
      case Begin(j, owner, target, edit) =>
        EditedRest(s.node, owner, target, edit);
        SamePins(s, s');
      case BeginFails(owner, target, edit) =>
        EditedRest(s.node, owner, target, edit);
        SamePins(s, s');
      case _ => SamePins(s, s');
    }
  }

  lemma {:induction false} ReceiptStored(s: State, h: nat)
    requires ReceiptsShaped(s) && h in s.receipts
    ensures s.receipts[h].cid in s.node.posts
  {
  }

  lemma {:induction false} StepKeepsKeys(s: State, step: Step)
    requires Enabled(s, step) && KeySized(s)
    ensures KeySized(Next(s, step))
  {
    hide PinPolicy.ShouldPinAuthor, PinPolicy.PinSet, PinPolicy.Tracked, PinPolicy.IsPinned, PinPolicy.PostsBy, Edited;
  }

  lemma {:induction false} StepKeepsShape(s: State, step: Step)
    requires Enabled(s, step) && Shaped(s) && !step.List?
    ensures Shaped(Next(s, step))
  {
    hide KeySized, PinsShaped, ReceiptsShaped, PinPolicy.ShouldPinAuthor, PinPolicy.PinSet, PinPolicy.Tracked, Edited;
    StepKeepsKeys(s, step);
    StepKeepsPinShape(s, step);
    StepKeepsReceipts(s, step);
  }

  lemma {:induction false} BeginKeeps(s: State, j: nat, owner: Blob, target: Blob, edit: Edit)
    requires Enabled(s, Begin(j, owner, target, edit)) && DecisionsOk(s) && PostsOk(s)
    ensures DecisionsOk(Next(s, Begin(j, owner, target, edit))) && PostsOk(Next(s, Begin(j, owner, target, edit)))
  {
    hide PinPolicy.ShouldPinAuthor, Edited, PinPolicy.IsPinned;
    var s' := Next(s, Begin(j, owner, target, edit));
    EditedRest(s.node, owner, target, edit);
    assert s'.changes[j] == Change(target, None);
    assert Undecided(s', target) && Open(s', target);
    forall a ensures Open(s, a) ==> Open(s', a) ensures Undecided(s, a) ==> Undecided(s', a)
      ensures a == target || PinPolicy.ShouldPinAuthor(s'.node, a) == PinPolicy.ShouldPinAuthor(s.node, a)
    {
      if a != target { EditedOthers(s.node, owner, target, edit, a); }
      if i :| i in s.changes && s.changes[i].author == a { assert s'.changes[i] == s.changes[i]; }
      if i :| i in s.changes && s.changes[i] == Change(a, None) { assert s'.changes[i] == s.changes[i]; }
    }
    forall cid | cid in s'.node.posts ensures PostOk(s', cid, s'.node.posts[cid]) {
      assert PostOk(s, cid, s.node.posts[cid]);
      SamePin(s.node, s'.node, cid);
      if HasReceipt(s, cid) { assert HasReceipt(s', cid); }
    }
  }

  lemma {:induction false} EditedRest(n: PinPolicy.Node, owner: Blob, target: Blob, edit: Edit)
    ensures var n' := Edited(n, owner, target, edit);
            n'.posts == n.posts && n'.access == n.access && n'.cas == n.cas && n'.identities == n.identities
  {
  }

  lemma {:induction false} SamePin(n: PinPolicy.Node, n': PinPolicy.Node, cid: Blob)
    requires n'.access == n.access
    ensures PinPolicy.IsPinned(n', cid) == PinPolicy.IsPinned(n, cid)
  {
  }

  /** With at most one decision in flight, a new one is the only one. */
  lemma {:induction false} OnlyDecision(s: State, a: Blob)
    requires Calm(s, 1)
    ensures forall i, j :: i in DecidedChanges(s, a) && j in DecidedChanges(s, a) ==> i == j
    ensures forall i, j :: i in DecidedReceipts(s, a) && j in DecidedReceipts(s, a) ==> i == j
    ensures DecidedChanges(s, a) == {} || DecidedReceipts(s, a) == {}
  {
    var c, r := DecidedChanges(s, a), DecidedReceipts(s, a);
    assert InFlight(s, a) <= 1;
    forall i, j | i in c && j in c ensures i == j { SubsetSize({i, j}, c); }
    forall i, j | i in r && j in r ensures i == j { SubsetSize({i, j}, r); }
    if i :| i in c {
      SubsetSize({i}, c);
    }
  }

  lemma {:induction false} DecideKeeps(s: State, j: nat)
    requires Enabled(s, Decide(j)) && DecisionsOk(s) && PostsOk(s) && Calm(Next(s, Decide(j)), 1)
    ensures DecisionsOk(Next(s, Decide(j))) && PostsOk(Next(s, Decide(j)))
  {
    hide PinPolicy.ShouldPinAuthor, PinPolicy.IsPinned, Calm;
    var s' := Next(s, Decide(j));
    var a := s.changes[j].author;
    OnlyDecision(s', a);
    assert j in DecidedChanges(s', a);
    forall b ensures Open(s, b) ==> Open(s', b) ensures b != a && Undecided(s, b) ==> Undecided(s', b) {
      if i :| i in s.changes && s.changes[i].author == b { assert i in s'.changes && s'.changes[i].author == b; }
      if i :| i in s.changes && s.changes[i] == Change(b, None) { assert b != a ==> s'.changes[i] == s.changes[i]; }
    }
    forall i | i in s'.changes && s'.changes[i].decision.Some?
      ensures DecisionOk(s', s'.changes[i].author, s'.changes[i].decision.value)
    {
      if s'.changes[i].author == a {
        assert i in DecidedChanges(s', a);
      } else {
        assert DecisionOk(s, s.changes[i].author, s.changes[i].decision.value);
      }
    }
    forall h | h in s'.receipts && s'.receipts[h].decision.Some?
      ensures DecisionOk(s', s'.receipts[h].author, s'.receipts[h].decision.value)
    {
      assert DecisionOk(s, s.receipts[h].author, s.receipts[h].decision.value);
      assert s'.receipts[h].author == a ==> h in DecidedReceipts(s', a);
    }
    forall cid | cid in s'.node.posts ensures PostOk(s', cid, s'.node.posts[cid]) {
      assert PostOk(s, cid, s.node.posts[cid]);
      if HasReceipt(s, cid) { assert HasReceipt(s', cid); }
    }
  }

  lemma {:induction false} DecidePostKeeps(s: State, h: nat)
    requires Enabled(s, DecidePost(h)) && DecisionsOk(s) && PostsOk(s) && Calm(Next(s, DecidePost(h)), 1)
    ensures DecisionsOk(Next(s, DecidePost(h))) && PostsOk(Next(s, DecidePost(h)))
  {
    hide PinPolicy.ShouldPinAuthor, PinPolicy.IsPinned, Calm;
    var s' := Next(s, DecidePost(h));
    assert s'.changes == s.changes && s'.node == s.node;
    forall g | g in s'.receipts && s'.receipts[g].decision.Some?
      ensures DecisionOk(s', s'.receipts[g].author, s'.receipts[g].decision.value)
    {
      if g != h { assert DecisionOk(s, s.receipts[g].author, s.receipts[g].decision.value); }
    }
    forall j | j in s'.changes && s'.changes[j].decision.Some?
      ensures DecisionOk(s', s'.changes[j].author, s'.changes[j].decision.value)
    {
      assert DecisionOk(s, s.changes[j].author, s.changes[j].decision.value);
    }
    forall cid | cid in s'.node.posts ensures PostOk(s', cid, s'.node.posts[cid]) {
      assert PostOk(s, cid, s.node.posts[cid]);
      if g :| g in s.receipts && s.receipts[g].cid == cid { assert g in s'.receipts && s'.receipts[g].cid == cid; }
    }
  }

  /** Steps that touch neither decisions nor the pins of posts. */
  lemma {:induction false} StillOk(s: State, s': State)
    requires DecisionsOk(s) && PostsOk(s)
    requires s'.changes == s.changes && s'.receipts == s.receipts && s'.node.posts == s.node.posts
    requires s'.node.identities == s.node.identities && s'.node.subscriptions == s.node.subscriptions
    requires forall cid :: cid in s.node.posts ==> PinPolicy.IsPinned(s'.node, cid) == PinPolicy.IsPinned(s.node, cid)
    ensures DecisionsOk(s') && PostsOk(s')
  {
    hide PinPolicy.ShouldPinAuthor, PinPolicy.IsPinned;
    forall a ensures PinPolicy.ShouldPinAuthor(s'.node, a) == PinPolicy.ShouldPinAuthor(s.node, a) { SameDecision(s.node, s'.node, a); }
    forall j | j in s'.changes && s'.changes[j].decision.Some?
      ensures DecisionOk(s', s'.changes[j].author, s'.changes[j].decision.value)
    {
      assert DecisionOk(s, s.changes[j].author, s.changes[j].decision.value);
    }
    forall h | h in s'.receipts && s'.receipts[h].decision.Some?
      ensures DecisionOk(s', s'.receipts[h].author, s'.receipts[h].decision.value)
    {
      assert DecisionOk(s, s.receipts[h].author, s.receipts[h].decision.value);
    }
    forall cid | cid in s'.node.posts ensures PostOk(s', cid, s'.node.posts[cid]) {
      assert PostOk(s, cid, s.node.posts[cid]);
      if HasReceipt(s, cid) { assert HasReceipt(s', cid); }
    }
  }

  lemma {:induction false} InsertKeeps(s: State, h: nat, cid: Blob, author: Blob)
    requires Enabled(s, Insert(h, cid, author)) && Shaped(s) && DecisionsOk(s) && PostsOk(s)
    ensures DecisionsOk(Next(s, Insert(h, cid, author))) && PostsOk(Next(s, Insert(h, cid, author)))
  {
    hide PinPolicy.ShouldPinAuthor;
    var s' := Next(s, Insert(h, cid, author));
    forall a ensures PinPolicy.ShouldPinAuthor(s'.node, a) == PinPolicy.ShouldPinAuthor(s.node, a) { SameDecision(s.node, s'.node, a); }
    forall g | g in s'.receipts && s'.receipts[g].decision.Some?
      ensures DecisionOk(s', s'.receipts[g].author, s'.receipts[g].decision.value)
    {
      assert DecisionOk(s, s.receipts[g].author, s.receipts[g].decision.value);
    }
    forall j | j in s'.changes && s'.changes[j].decision.Some?
      ensures DecisionOk(s', s'.changes[j].author, s'.changes[j].decision.value)
    {
      assert DecisionOk(s, s.changes[j].author, s.changes[j].decision.value);
    }
    forall c | c in s'.node.posts ensures PostOk(s', c, s'.node.posts[c]) {
      if c == cid {
        assert s'.receipts[h].cid == cid;
      } else {
        assert PostOk(s, c, s.node.posts[c]);
        if g :| g in s.receipts && s.receipts[g].cid == c { assert g in s'.receipts && s'.receipts[g].cid == c; }
      }
    }
  }

  lemma {:induction false} TrackKeeps(s: State, h: nat, now: int)
    requires Enabled(s, Track(h, now)) && Shaped(s) && DecisionsOk(s) && PostsOk(s)
    ensures DecisionsOk(Next(s, Track(h, now))) && PostsOk(Next(s, Track(h, now)))
  {
    hide PinPolicy.ShouldPinAuthor, PinPolicy.IsPinned, PinPolicy.Tracked, KeySized;
    var s' := Next(s, Track(h, now));
    var r := s.receipts[h];
    assert s'.changes == s.changes;
    forall a ensures PinPolicy.ShouldPinAuthor(s'.node, a) == PinPolicy.ShouldPinAuthor(s.node, a) { SameDecision(s.node, s'.node, a); }
    assert DecisionOk(s, r.author, r.decision.value);
    forall j | j in s'.changes && s'.changes[j].decision.Some?
      ensures DecisionOk(s', s'.changes[j].author, s'.changes[j].decision.value)
    {
      assert DecisionOk(s, s.changes[j].author, s.changes[j].decision.value);
    }
    forall g | g in s'.receipts && s'.receipts[g].decision.Some?
      ensures DecisionOk(s', s'.receipts[g].author, s'.receipts[g].decision.value)
    {
      assert DecisionOk(s, s.receipts[g].author, s.receipts[g].decision.value);
    }
    forall cid | cid in s'.node.posts ensures PostOk(s', cid, s'.node.posts[cid]) {
      TrackedReads(s.node, r.cid, r.decision.value, now, cid);
      assert PostOk(s, cid, s.node.posts[cid]);
      if cid != r.cid && HasReceipt(s, cid) {
        var g :| g in s.receipts && s.receipts[g].cid == cid;
        assert g in s'.receipts && s'.receipts[g].cid == cid;
      }
      UndecidedIsOpen(s, r.author);
    }
  }

  lemma {:induction false} UndecidedIsOpen(s: State, a: Blob)
    ensures Undecided(s, a) ==> Open(s, a)
  {
    if j :| j in s.changes && s.changes[j] == Change(a, None) {
      assert s.changes[j].author == a;
    }
  }

  lemma {:induction false} ApplyPostsKeeps(s: State, j: nat, now: int)
    requires Enabled(s, ApplyPosts(j, now)) && Shaped(s) && DecisionsOk(s) && PostsOk(s)
    ensures DecisionsOk(Next(s, ApplyPosts(j, now))) && PostsOk(Next(s, ApplyPosts(j, now)))
  {
    hide PinPolicy.ShouldPinAuthor, PinPolicy.IsPinned, PinPolicy.PinSet, KeySized;
    var s' := Next(s, ApplyPosts(j, now));
    var c := s.changes[j];
    forall a ensures PinPolicy.ShouldPinAuthor(s'.node, a) == PinPolicy.ShouldPinAuthor(s.node, a)
      ensures Undecided(s, a) ==> Undecided(s', a) && Open(s', a)
      ensures a != c.author && Open(s, a) ==> Open(s', a)
    {
      SameDecision(s.node, s'.node, a);
      if i :| i in s.changes && s.changes[i] == Change(a, None) {
        assert s'.changes[i] == Change(a, None);
        UndecidedIsOpen(s', a);
      }
      if i :| i in s.changes && s.changes[i].author == a { assert a != c.author ==> i in s'.changes && s'.changes[i].author == a; }
    }
    assert DecisionOk(s, c.author, c.decision.value);
    forall i | i in s'.changes && s'.changes[i].decision.Some?
      ensures DecisionOk(s', s'.changes[i].author, s'.changes[i].decision.value)
    {
      assert DecisionOk(s, s.changes[i].author, s.changes[i].decision.value);
    }
    forall h | h in s'.receipts && s'.receipts[h].decision.Some?
      ensures DecisionOk(s', s'.receipts[h].author, s'.receipts[h].decision.value)
    {
      assert DecisionOk(s, s.receipts[h].author, s.receipts[h].decision.value);
    }
    forall cid | cid in s'.node.posts ensures PostOk(s', cid, s'.node.posts[cid]) {
      PinnedRowsReads(s.node, PinPolicy.PostsBy(s.node, c.author), c.decision.value, now, cid);
      assert PostOk(s, cid, s.node.posts[cid]);
      if HasReceipt(s, cid) { assert HasReceipt(s', cid); }
    }
  }

  lemma {:induction false} StepKeepsPins(s: State, step: Step)
    requires Enabled(s, step) && Shaped(s) && DecisionsOk(s) && PostsOk(s)
    requires !step.BeginFails? && !step.List? && Calm(Next(s, step), 1)
    ensures DecisionsOk(Next(s, step)) && PostsOk(Next(s, step))
  {
    hide PinPolicy.ShouldPinAuthor, PinPolicy.IsPinned, PinPolicy.PinSet, PinPolicy.Tracked, DecisionsOk, PostsOk, Calm;
    match step {
      case Begin(j, owner, target, edit) => BeginKeeps(s, j, owner, target, edit);
      case Decide(j) => DecideKeeps(s, j);
      case DecidePost(h) => DecidePostKeeps(s, h);
      case Insert(h, cid, author) => InsertKeeps(s, h, cid, author);
      case Track(h, now) => TrackKeeps(s, h, now);
      case ApplyPosts(j, now) => ApplyPostsKeeps(s, j, now);
      case ApplyKey(j, now) =>
        forall cid | cid in s.node.posts ensures PinPolicy.IsPinned(Next(s, step).node, cid) == PinPolicy.IsPinned(s.node, cid) {
          PinnedRowsReads(s.node, {s.changes[j].author}, s.changes[j].decision.value, now, cid);
        }
        StillOk(s, Next(s, step));
      case Access(c, now) =>
        forall cid ensures PinPolicy.IsPinned(Next(s, step).node, cid) == PinPolicy.IsPinned(s.node, cid) {
          TrackedReads(s.node, c, false, now, cid);
          SamePin(s.node.(access := PinPolicy.Tracked(s.node.access, c, false, now)), Next(s, step).node, cid);
        }
        StillOk(s, Next(s, step));
      case Put(c) => SameAccess(s, Next(s, step));
      case Learn(a) => SameAccess(s, Next(s, step));
      case _ =>
    }
  }

  lemma {:induction false} SameAccess(s: State, s': State)
    requires DecisionsOk(s) && PostsOk(s) && s'.node.access == s.node.access
    requires s'.changes == s.changes && s'.receipts == s.receipts && s'.node.posts == s.node.posts
    requires s'.node.identities == s.node.identities && s'.node.subscriptions == s.node.subscriptions
    ensures DecisionsOk(s') && PostsOk(s')
  {
    hide PinPolicy.ShouldPinAuthor, PinPolicy.IsPinned, DecisionsOk, PostsOk;
    forall cid ensures PinPolicy.IsPinned(s'.node, cid) == PinPolicy.IsPinned(s.node, cid) { SamePin(s.node, s'.node, cid); }
    StillOk(s, s');
  }

  lemma {:induction false} ExclusiveInv(identities: set<Blob>, profiles: set<Blob>, steps: seq<Step>)
    requires Undisturbed(steps) && AtMost(Start(identities, profiles), steps, 1)
    ensures var s := Run(Start(identities, profiles), steps); Shaped(s) && DecisionsOk(s) && PostsOk(s)
    decreases |steps|
  {
    hide Shaped, DecisionsOk, PostsOk, Enabled, Next, Calm, AtMost;
    var s0 := Start(identities, profiles);
    if steps == [] {
      StartOk(identities, profiles);
    } else {
      var n := |steps| - 1;
      AtMostPrefix(s0, steps, 1, n);
      AtMostPrefix(s0, steps, 1, |steps|);
      assert steps[..|steps|] == steps;
      ExclusiveInv(identities, profiles, steps[..n]);
      var s := Run(s0, steps[..n]);
      if Enabled(s, steps[n]) {
        StepKeepsShape(s, steps[n]);
        StepKeepsPins(s, steps[n]);
      }
    }
  }

  lemma {:induction false} StartOk(identities: set<Blob>, profiles: set<Blob>)
    ensures var s := Start(identities, profiles); Shaped(s) && DecisionsOk(s) && PostsOk(s)
  {
  }

  /** No follow change and no untracked post of the author is under way. */
  ghost predicate Quiet(s: State, a: Blob) {
    !Open(s, a) && forall h :: h in s.receipts ==> s.receipts[h].author != a
  }

  ghost predicate RightFor(s: State, a: Blob) {
    forall cid :: cid in s.node.posts && s.node.posts[cid] == a ==>
      (PinPolicy.IsPinned(s.node, cid) <==> PinPolicy.ShouldPinAuthor(s.node, a))
  }

  /** One run: if the author is quiet at its end, the pins of the author's posts are right. */
  ghost predicate EndsRight(identities: set<Blob>, profiles: set<Blob>, steps: seq<Step>, a: Blob, k: nat) {
    var s := Run(Start(identities, profiles), steps);
    Undisturbed(steps) && AtMost(Start(identities, profiles), steps, k) && Quiet(s, a) ==> RightFor(s, a)
  }

  ghost predicate PinsSurvive(k: nat) {
    forall identities, profiles, steps, a :: EndsRight(identities, profiles, steps, a, k)
  }

  lemma {:induction false} AtMostMore(s: State, steps: seq<Step>, k: nat, m: nat)
    requires AtMost(s, steps, k) && k <= m
    ensures AtMost(s, steps, m)
  {
    hide Run;
    forall i | 0 <= i <= |steps| ensures Calm(Run(s, steps[..i]), m) {
      assert Calm(Run(s, steps[..i]), k);
    }
  }

  lemma {:induction false} ExclusiveRight(identities: set<Blob>, profiles: set<Blob>, steps: seq<Step>, a: Blob)
    ensures EndsRight(identities, profiles, steps, a, 1)
  {
    hide Run, AtMost, PinPolicy.ShouldPinAuthor, PinPolicy.IsPinned;
    var s := Run(Start(identities, profiles), steps);
    if Undisturbed(steps) && AtMost(Start(identities, profiles), steps, 1) && Quiet(s, a) {
      ExclusiveInv(identities, profiles, steps);
      forall cid | cid in s.node.posts && s.node.posts[cid] == a
        ensures PinPolicy.IsPinned(s.node, cid) <==> PinPolicy.ShouldPinAuthor(s.node, a)
      {
        assert PostOk(s, cid, a);
      }
    }
  }

  /**
    With at most `k` decisions about one author in flight, no failing callback and no eviction, every author without
    follow changes and posts under way has the right pins after every run if and only if `k` is at most one.
   */
  lemma {:induction false} PinsSurviveIff(k: nat)
    ensures PinsSurvive(k) <==> k <= 1
  {
    hide EndsRight, AtMost, Run;
    if k <= 1 {
      forall identities, profiles, steps, a ensures EndsRight(identities, profiles, steps, a, k) {
        ExclusiveRight(identities, profiles, steps, a);
        FewerRight(identities, profiles, steps, a, k);
      }
    } else {
      var cid: Blob := seq(34, i => 0);
      var author: Blob := seq(32, i => 0);
      OverlapUnpins(cid, [], author, k);
    }
  }

  lemma {:induction false} FewerRight(identities: set<Blob>, profiles: set<Blob>, steps: seq<Step>, a: Blob, k: nat)
    requires EndsRight(identities, profiles, steps, a, 1) && k <= 1
    ensures EndsRight(identities, profiles, steps, a, k)
  {
    hide Run, AtMost, RightFor, Quiet;
    if AtMost(Start(identities, profiles), steps, k) { AtMostMore(Start(identities, profiles), steps, k, 1); }
  }

  lemma {:induction false} OverlapUnpins(cid: Blob, owner: Blob, author: Blob, k: nat)
    requires IsPost(cid, author) && k >= 2
    ensures !EndsRight({}, {author}, Overtaking(cid, owner, author) + [ApplyPosts(1, 2)], author, k)
  {
    hide Run, AtMost;
    var steps := Overtaking(cid, owner, author) + [ApplyPosts(1, 2)];
    StaleDecisionUnpins(cid, owner, author);
    AtMostMore(Start({}, {author}), steps, 2, k);
    var s := Run(Start({}, {author}), steps);
    assert cid in s.node.posts && !PinPolicy.IsPinned(s.node, cid);
  }
}
