/**
  Likes whose insert may fail.

  `handleReaction` stores the object before the row and skips a reaction whose object is there. A delivery that finds no
  object and whose insert fails therefore blocks every later delivery of the same reaction until the object is evicted.
  Which likes are stored is decided here by the sequence of deliveries and evictions alone.
 */
module FailingLikes {
  import opened Wrappers
  import Replication

  datatype State = State(reactions: map<Blob, Replication.ReactionRow>, cas: set<Blob>)

  datatype Step = Deliver(reaction: Replication.Reaction, insertOk: bool) | Evict(cid: Blob)

  function Handled(s: State, r: Replication.Reaction, insertOk: bool): State {
    if r.id in s.cas then s
    else State(if insertOk then Replication.InsertedReaction(s.reactions, r) else s.reactions, s.cas + {r.id})
  }

  function Next(s: State, step: Step): State {
    match step
    case Deliver(r, ok) => Handled(s, r, ok)
    case Evict(cid) => s.(cas := s.cas - {cid})
  }

  function Run(steps: seq<Step>): State {
    if steps == [] then State(map[], {}) else Next(Run(steps[..|steps| - 1]), steps[|steps| - 1])
  }

  // ---------------------------------------------------------------- read off the steps

  /** The last step about the id is a delivery and not an eviction. */
  predicate Blocked(steps: seq<Step>, id: Blob) {
    if steps == [] then false
    else
      match steps[|steps| - 1]
      case Deliver(r, _) => r.id == id || Blocked(steps[..|steps| - 1], id)
      case Evict(cid) => cid != id && Blocked(steps[..|steps| - 1], id)
  }

  /** The reactions with a delivery that was not blocked and whose insert did not fail. */
  function Effective(steps: seq<Step>): set<Replication.Reaction> {
    if steps == [] then {}
    else
      var before := Effective(steps[..|steps| - 1]);
      match steps[|steps| - 1]
      case Deliver(r, ok) => if ok && !Blocked(steps[..|steps| - 1], r.id) then before + {r} else before
      case Evict(_) => before
  }

  predicate SameId(a: Step, b: Step) {
    a.Deliver? && b.Deliver? && a.reaction.id == b.reaction.id
  }

  /** Deliveries are likes, and ids are content hashes. */
  ghost predicate GoodLikes(steps: seq<Step>) {
    && (forall i :: 0 <= i < |steps| && steps[i].Deliver? ==> steps[i].reaction.kind == "like")
    && (forall i, j :: 0 <= i < |steps| && 0 <= j < |steps| && SameId(steps[i], steps[j]) ==> steps[i].reaction == steps[j].reaction)
  }

  /** The content store holds an id exactly when deliveries of it are blocked. */
  lemma {:induction false} StoreBlocks(steps: seq<Step>, id: Blob)
    ensures id in Run(steps).cas <==> Blocked(steps, id)
    decreases |steps|
  {
    hide Replication.InsertedReaction;
    if steps != [] { StoreBlocks(steps[..|steps| - 1], id); }
  }

  lemma {:induction false} EffectiveDelivered(steps: seq<Step>, r: Replication.Reaction)
    requires r in Effective(steps)
    ensures exists i :: 0 <= i < |steps| && steps[i].Deliver? && steps[i].reaction == r
    decreases |steps|
  {
    var n := |steps| - 1;
    if r in Effective(steps[..n]) {
      EffectiveDelivered(steps[..n], r);
      var i :| 0 <= i < n && steps[..n][i].Deliver? && steps[..n][i].reaction == r;
      assert steps[i].Deliver? && steps[i].reaction == r;
    }
  }

  /** In every run the stored likes are those of the effective deliveries, one row for each author and target. */
  lemma {:induction false} LikesStored(steps: seq<Step>)
    requires GoodLikes(steps)
    ensures Replication.ReactionsMatch(Run(steps).reactions, Effective(steps))
    ensures Replication.RowsFrom(Run(steps).reactions, Effective(steps))
    decreases |steps|
  {
    hide Replication.ReactionsMatch, Replication.RowsFrom, Replication.InsertedReaction;
    if steps == [] {
      NothingStored();
    } else {
      var n := |steps| - 1;
      var before, s, e := steps[..n], Run(steps[..n]), Effective(steps[..n]);
      LikesStored(before);
      if steps[n].Deliver? {
        var r := steps[n].reaction;
        StoreBlocks(before, r.id);
        if steps[n].insertOk && r.id !in s.cas {
          SameIdSameLike(steps, s.reactions);
          Replication.InsertedMatches(s.reactions, r, e);
          Replication.InsertedFrom(s.reactions, r, e);
        }
      }
    }
  }

  lemma {:induction false} NothingStored()
    ensures Replication.ReactionsMatch(map[], {}) && Replication.RowsFrom(map[], {})
  {
  }

  lemma {:induction false} SameIdSameLike(steps: seq<Step>, rows: map<Blob, Replication.ReactionRow>)
    requires GoodLikes(steps) && steps != [] && steps[|steps| - 1].Deliver?
    requires Replication.RowsFrom(rows, Effective(steps[..|steps| - 1]))
    ensures var r := steps[|steps| - 1].reaction; r.id in rows ==> r in Effective(steps[..|steps| - 1])
  {
    hide Effective;
    var n := |steps| - 1;
    var r := steps[n].reaction;
    if r.id in rows {
      var q :| q in Effective(steps[..n]) && q.id == r.id;
      EffectiveDelivered(steps[..n], q);
      var i :| 0 <= i < n && steps[..n][i].Deliver? && steps[..n][i].reaction == q;
      assert SameId(steps[i], steps[n]);
    }
  }

  ghost predicate LikesTarget(steps: seq<Step>, author: Blob, target: Blob) {
    exists r :: r in Effective(steps) && r.author == author && r.target == target
  }

  lemma {:induction false} RowHasLike(rows: map<Blob, Replication.ReactionRow>, e: set<Replication.Reaction>, cid: Blob)
    returns (r: Replication.Reaction)
    requires Replication.AllDelivered(rows, e) && cid in rows
    ensures r in e && Replication.SameReaction(rows[cid], r.author, r.target, "like")
  {
    assert Replication.Delivered(rows[cid], e);
    r :| r in e && Replication.SameReaction(rows[cid], r.author, r.target, "like");
  }

  lemma {:induction false} LikeHasRow(rows: map<Blob, Replication.ReactionRow>, e: set<Replication.Reaction>, r: Replication.Reaction)
    requires Replication.AllCovered(rows, e) && r in e
    ensures Replication.HasReacted(rows, r.author, r.target, "like")
  {
    assert Replication.Covered(rows, r);
    var cid :| cid in rows && Replication.SameReaction(rows[cid], r.author, r.target, "like");
  }

  /** A like is stored if and only if some delivery of it, or of another like by the same author, was effective. */
  lemma {:induction false} LikeStoredIff(steps: seq<Step>, author: Blob, target: Blob)
    requires GoodLikes(steps)
    ensures Replication.HasReacted(Run(steps).reactions, author, target, "like") <==> LikesTarget(steps, author, target)
  {
    hide Run, Effective, GoodLikes, Replication.AllDelivered, Replication.AllCovered, Replication.UniqueRows, Replication.RowsFrom;
    LikesStored(steps);
    var rows, e := Run(steps).reactions, Effective(steps);
    if Replication.HasReacted(rows, author, target, "like") {
      var cid :| cid in rows && Replication.SameReaction(rows[cid], author, target, "like");
      var r := RowHasLike(rows, e, cid);
    }
    if LikesTarget(steps, author, target) {
      var r :| r in e && r.author == author && r.target == target;
      LikeHasRow(rows, e, r);
    }
  }

  /** The like count of a target is its number of authors with an effective delivery. */
  lemma {:induction false} LikeCount(steps: seq<Step>, target: Blob)
    requires GoodLikes(steps)
    ensures |Replication.LikesOf(Run(steps).reactions, target)| == |Replication.Likers(Effective(steps), target)|
  {
    hide Run, Effective, Replication.ReactionsMatch, Replication.LikesOf, Replication.Likers;
    LikesStored(steps);
    Replication.LikesAreLikers(Run(steps).reactions, Effective(steps), target);
  }

  /** Two runs store the same likes if and only if the same authors have effective deliveries for the same targets. */
  lemma {:induction false} SameLikesIff(a: seq<Step>, b: seq<Step>)
    requires GoodLikes(a) && GoodLikes(b)
    ensures SameLikes(Run(a).reactions, Run(b).reactions) <==> SameEffective(a, b)
  {
    hide Run, LikesTarget, Replication.HasReacted, GoodLikes;
    forall author, target
      ensures Replication.HasReacted(Run(a).reactions, author, target, "like") <==> LikesTarget(a, author, target)
      ensures Replication.HasReacted(Run(b).reactions, author, target, "like") <==> LikesTarget(b, author, target)
    {
      LikeStoredIff(a, author, target);
      LikeStoredIff(b, author, target);
    }
  }

  ghost predicate SameLikes(x: map<Blob, Replication.ReactionRow>, y: map<Blob, Replication.ReactionRow>) {
    forall author, target ::
      Replication.HasReacted(x, author, target, "like") <==> Replication.HasReacted(y, author, target, "like")
  }

  ghost predicate SameEffective(a: seq<Step>, b: seq<Step>) {
    forall author, target :: LikesTarget(a, author, target) <==> LikesTarget(b, author, target)
  }

  /** A failed insert is not made good by delivering again, and is by an eviction in between. */
  lemma {:induction false} RetryNeedsEviction(r: Replication.Reaction)
    ensures Effective([Deliver(r, false), Deliver(r, true)]) == {}
    ensures Effective([Deliver(r, false), Evict(r.id), Deliver(r, true)]) == {r}
  {
    var f, t, e := Deliver(r, false), Deliver(r, true), Evict(r.id);
    assert [f, t][..1] == [f] && [f][..0] == [] && [f, e, t][..2] == [f, e] && [f, e][..1] == [f];
    assert Blocked([f], r.id) && !Blocked([f, e], r.id);
    assert Effective([f]) == {} && Effective([f, e]) == {};
  }
}
