/**
  The overlapping recounts of `Recounting`, for reaction counts and for follower counts.

  For each: the writes of the handlers start the recounts they must, what a stored count says in any interleaving, a run
  in which two recounts overtake each other, and how many recounts of one key may overlap before a count goes wrong.
 */
module CountRaces {
  import opened Wrappers
  import opened Recounting
  import Replication
  import Follows
  import Sets

  // ---------------------------------------------------------------- reaction counts

  const REACTION_COLUMNS: nat := 3

  /** Likes, replies and reposts, in the order in which `UpdateReactionCount` counts them. */
  function ReactionValue(t: Replication.Tables, key: Key, c: nat): int {
    if c == 0 then |Replication.LikesOf(t.reactions, key)|
    else if c == 1 then |Replication.RepliesOf(t.posts, key)|
    else if c == 2 then |Replication.RepostsOf(t.posts, key)|
    else 0
  }

  /** The writes of `handlePost` before it recounts. */
  function PostWritten(t: Replication.Tables, p: Replication.Post, now: int): Replication.Tables {
    t.(cas := t.cas + {p.id}, posts := t.posts[p.id := Replication.RowOfPost(p, now)])
  }

  /** The writes of `handleReaction` before it recounts. */
  function ReactionWritten(t: Replication.Tables, r: Replication.Reaction): Replication.Tables {
    t.(cas := t.cas + {r.id}, reactions := Replication.InsertedReaction(t.reactions, r))
  }

  lemma {:induction false} PostCovers(t: Replication.Tables, p: Replication.Post, now: int, begun: map<JobId, Key>)
    requires p.id !in t.posts
    requires p.payload.replyTo != [] ==> p.payload.replyTo in begun.Values
    requires p.payload.repostOf != [] ==> p.payload.repostOf in begun.Values
    ensures Covers(ReactionValue, REACTION_COLUMNS, t, PostWritten(t, p, now), begun)
    ensures Grows(t, PostWritten(t, p, now))
  {
    var t' := PostWritten(t, p, now);
    forall key, c: nat | key == [] || (key != p.payload.replyTo && key != p.payload.repostOf)
      ensures ReactionValue(t', key, c) == ReactionValue(t, key, c)
    {
      Replication.OtherRecounts(t, p, now, key);
    }
  }

  lemma {:induction false} ReactionCovers(t: Replication.Tables, r: Replication.Reaction, begun: map<JobId, Key>)
    requires r.target in begun.Values
    ensures Covers(ReactionValue, REACTION_COLUMNS, t, ReactionWritten(t, r), begun)
    ensures Grows(t, ReactionWritten(t, r))
  {
    var t' := ReactionWritten(t, r);
    forall key, c: nat | key != r.target ensures ReactionValue(t', key, c) == ReactionValue(t, key, c) {
      assert Replication.LikesOf(t'.reactions, key) == Replication.LikesOf(t.reactions, key);
    }
  }

  predicate Extends<K, V(==)>(m: map<K, V>, m': map<K, V>) {
    forall k :: k in m ==> k in m' && m'[k] == m[k]
  }

  /** Posts and reactions are only ever added. */
  predicate Grows(t: Replication.Tables, t': Replication.Tables) {
    Extends(t.posts, t'.posts) && Extends(t.reactions, t'.reactions)
  }

  ghost predicate GrowingStep(s: State<Replication.Tables>, step: Step<Replication.Tables>) {
    s.history != [] && (step.Write? ==> Grows(Now(s), step.next))
  }

  ghost predicate GrowingRun(t: Replication.Tables, steps: seq<Step<Replication.Tables>>) {
    forall i :: 0 <= i < |steps| ==> GrowingStep(Run(ReactionValue, REACTION_COLUMNS, t, steps[..i]), steps[i])
  }

  ghost predicate GrowingHistory(h: seq<Replication.Tables>) {
    forall i, j :: 0 <= i <= j < |h| ==> Grows(h[i], h[j])
  }

  lemma {:induction false} GrowingSnoc(h: seq<Replication.Tables>, t: Replication.Tables)
    requires GrowingHistory(h) && h != [] && Grows(h[|h| - 1], t)
    ensures GrowingHistory(h + [t])
  {
    var h' := h + [t];
    forall i, j | 0 <= i <= j < |h'| ensures Grows(h'[i], h'[j]) {
      if i < |h| && j == |h| {
        assert Grows(h[i], h[|h| - 1]);
      } else if j < |h| {
        assert Grows(h[i], h[j]);
      }
    }
  }

  lemma {:induction false} HistoryGrows(t: Replication.Tables, steps: seq<Step<Replication.Tables>>)
    requires GrowingRun(t, steps)
    ensures GrowingHistory(Run(ReactionValue, REACTION_COLUMNS, t, steps).history)
    decreases |steps|
  {
    hide Enabled, Grows, ReactionValue;
    if steps == [] {
      OneVersionGrows(t);
    } else {
      var n := |steps| - 1;
      forall i | 0 <= i < n
        ensures GrowingStep(Run(ReactionValue, REACTION_COLUMNS, t, steps[..n][..i]), steps[..n][i])
      {
        assert steps[..n][..i] == steps[..i] && steps[..n][i] == steps[i];
      }
      HistoryGrows(t, steps[..n]);
      var s := Run(ReactionValue, REACTION_COLUMNS, t, steps[..n]);
      assert GrowingStep(s, steps[n]);
      if steps[n].Write? { GrowingSnoc(s.history, steps[n].next); }
    }
  }

  lemma {:induction false} OneVersionGrows(t: Replication.Tables)
    ensures GrowingHistory([t])
  {
  }

  /** Between two versions no like, reply or repost of the key was stored. */
  predicate NothingStored(t: Replication.Tables, t': Replication.Tables, key: Key, c: nat) {
    match c
    case 0 => Replication.LikesOf(t.reactions, key) == Replication.LikesOf(t'.reactions, key)
    case 1 => Replication.RepliesOf(t.posts, key) == Replication.RepliesOf(t'.posts, key)
    case 2 => Replication.RepostsOf(t.posts, key) == Replication.RepostsOf(t'.posts, key)
    case _ => true
  }

  lemma {:induction false} SameValueIff(t: Replication.Tables, t': Replication.Tables, key: Key, c: nat)
    requires Grows(t, t')
    ensures ReactionValue(t, key, c) == ReactionValue(t', key, c) <==> NothingStored(t, t', key, c)
  {
    if c == 0 {
      Sets.SubsetSize(Replication.LikesOf(t.reactions, key), Replication.LikesOf(t'.reactions, key));
    } else if c == 1 {
      Sets.SubsetSize(Replication.RepliesOf(t.posts, key), Replication.RepliesOf(t'.posts, key));
    } else if c == 2 {
      Sets.SubsetSize(Replication.RepostsOf(t.posts, key), Replication.RepostsOf(t'.posts, key));
    }
  }

  lemma {:induction false} NoReactionsYet(profiles: set<Blob>, key: Key, c: nat)
    ensures ReactionValue(Replication.Fresh(profiles), key, c) == 0
  {
    var t := Replication.Fresh(profiles);
    assert Replication.LikesOf(t.reactions, key) == {};
    assert Replication.RepliesOf(t.posts, key) == {} && Replication.RepostsOf(t.posts, key) == {};
  }

  /**
    In every interleaving of handlers and recounts, failing ones included: a target's like, reply or repost count is
    right if and only if none was stored since the count that the row holds.
   */
  lemma {:induction false} ReactionCountRightIff(
    profiles: set<Blob>, steps: seq<Step<Replication.Tables>>, target: Key, c: nat)
    requires GrowingRun(Replication.Fresh(profiles), steps) && c < REACTION_COLUMNS
    ensures var s := Run(ReactionValue, REACTION_COLUMNS, Replication.Fresh(profiles), steps);
            && s.history != [] && BasisOf(s, target, c) < |s.history|
            && (Right(ReactionValue, s, target, c) <==> NothingStored(s.history[BasisOf(s, target, c)], Now(s), target, c))
  {
    hide Run, ReactionValue, NothingStored, Grows, Right, GrowingRun;
    var t := Replication.Fresh(profiles);
    NoReactionsYet(profiles, target, c);
    RightIffBasis(ReactionValue, REACTION_COLUMNS, t, steps, target, c);
    HistoryGrows(t, steps);
    var s := Run(ReactionValue, REACTION_COLUMNS, t, steps);
    SameValueIff(s.history[BasisOf(s, target, c)], Now(s), target, c);
  }

  /** Recounts that nothing overtakes leave every settled target right. */
  lemma {:induction false} ReactionCountsOrdered(
    profiles: set<Blob>, steps: seq<Step<Replication.Tables>>, target: Key, c: nat)
    requires Ordered(ReactionValue, REACTION_COLUMNS, Replication.Fresh(profiles), steps) && c < REACTION_COLUMNS
    requires Quiet(Run(ReactionValue, REACTION_COLUMNS, Replication.Fresh(profiles), steps), target)
    ensures Right(ReactionValue, Run(ReactionValue, REACTION_COLUMNS, Replication.Fresh(profiles), steps), target, c)
  {
    hide Run, ReactionValue, Right, Ordered, Quiet;
    NoReactionsYet(profiles, target, c);
    OrderedRight(ReactionValue, REACTION_COLUMNS, Replication.Fresh(profiles), steps, target, c);
  }

  predicate PlainReply(p: Replication.Post, target: Key) {
    p.id != [] && target != [] && p.payload.replyTo == target && p.payload.repostOf == []
  }

  lemma {:induction false} TwoReplies(t: Replication.Tables, p: Replication.Post, q: Replication.Post, target: Key)
    requires t.posts == map[] && PlainReply(p, target) && PlainReply(q, target) && p.id != q.id
    ensures ReactionValue(PostWritten(t, p, 0), target, 1) == 1
    ensures ReactionValue(PostWritten(PostWritten(t, p, 0), q, 0), target, 1) == 2
  {
    var t1 := PostWritten(t, p, 0);
    var t2 := PostWritten(t1, q, 0);
    assert Replication.RepliesOf(t1.posts, target) == {p.id};
    assert Replication.RepliesOf(t2.posts, target) == {p.id, q.id};
  }

  function RacingReplies(profiles: set<Blob>, p: Replication.Post, q: Replication.Post, target: Key): seq<Step<Replication.Tables>> {
    var t1 := PostWritten(Replication.Fresh(profiles), p, 0);
    Overtaking(t1, map[1 := target], 1, PostWritten(t1, q, 0), map[2 := target], 2, REACTION_COLUMNS)
  }

  /** Two replies whose recounts overtake each other leave a count of one, with no recount under way. */
  lemma {:induction false} RacingRepliesLoseOne(profiles: set<Blob>, p: Replication.Post, q: Replication.Post, target: Key)
    requires PlainReply(p, target) && PlainReply(q, target) && p.id != q.id
    ensures var s := Run(ReactionValue, REACTION_COLUMNS, Replication.Fresh(profiles), RacingReplies(profiles, p, q, target));
            && s.history != [] && Quiet(s, target)
            && Stored(s, target, 1) == 1 && ReactionValue(Now(s), target, 1) == 2
  {
    hide Run, CanRace, ReactionValue;
    var t := Replication.Fresh(profiles);
    var t1 := PostWritten(t, p, 0);
    var t2 := PostWritten(t1, q, 0);
    RepliesRace(profiles, p, q, target);
    OvertakenStale(ReactionValue, REACTION_COLUMNS, t, t1, map[1 := target], 1, t2, map[2 := target], 2, target, 1);
    TwoReplies(t, p, q, target);
  }

  ghost predicate ReactionCountsSurvive(k: nat) {
    forall profiles, steps, target, c ::
      EndsRight(ReactionValue, REACTION_COLUMNS, Replication.Fresh(profiles), steps, target, c, k)
  }

  /** Two replies by one author to the post `[1]`. */
  function SampleReply(id: Blob): Replication.Post {
    Replication.Post(id, Replication.Payload([], "", [1], [], 0), [])
  }

  /**
    If nothing fails and at most `k` recounts of one target overlap, every target without a recount under way has the
    right counts after every run if and only if `k` is at most one.
   */
  lemma {:induction false} ReactionCountsSurviveIff(k: nat)
    ensures ReactionCountsSurvive(k) <==> k <= 1
  {
    hide EndsRight, ReactionValue;
    if k <= 1 {
      forall profiles, steps, target, c: nat
        ensures EndsRight(ReactionValue, REACTION_COLUMNS, Replication.Fresh(profiles), steps, target, c, k)
      {
        NoReactionsYet(profiles, target, c);
        OneAtATimeRight(ReactionValue, REACTION_COLUMNS, Replication.Fresh(profiles), steps, target, c, k);
      }
    } else {
      RacingRepliesWrong({}, SampleReply([2]), SampleReply([3]), [1], k);
    }
  }

  lemma {:induction false} RepliesRace(profiles: set<Blob>, p: Replication.Post, q: Replication.Post, target: Key)
    requires PlainReply(p, target) && PlainReply(q, target) && p.id != q.id
    ensures var t := Replication.Fresh(profiles);
            var t1 := PostWritten(t, p, 0);
            CanRace(ReactionValue, REACTION_COLUMNS, t, t1, map[1 := target], 1, PostWritten(t1, q, 0), map[2 := target], 2, target)
  {
    hide Covers, ReactionValue;
    var t := Replication.Fresh(profiles);
    assert map[1 := target][1] == target && map[2 := target][2] == target;
    PostCovers(t, p, 0, map[1 := target]);
    PostCovers(PostWritten(t, p, 0), q, 0, map[2 := target]);
  }

  lemma {:induction false} RacingRepliesWrong(profiles: set<Blob>, p: Replication.Post, q: Replication.Post, target: Key, k: nat)
    requires PlainReply(p, target) && PlainReply(q, target) && p.id != q.id && k >= 2
    ensures !EndsRight(ReactionValue, REACTION_COLUMNS, Replication.Fresh(profiles), RacingReplies(profiles, p, q, target), target, 1, k)
  {
    hide EndsRight, CanRace, ReactionValue, PlainReply;
    var t := Replication.Fresh(profiles);
    var t1 := PostWritten(t, p, 0);
    RepliesRace(profiles, p, q, target);
    TwoReplies(t, p, q, target);
    OvertakingWrong(ReactionValue, REACTION_COLUMNS, t, t1, map[1 := target], 1, PostWritten(t1, q, 0), map[2 := target], 2, target, 1, k);
  }

  // ---------------------------------------------------------------- follower counts

  const FOLLOW_COLUMNS: nat := 2

  type Events = map<(Blob, Blob), Follows.EventRow>

  function FollowSet(events: Events, key: Key, c: nat): set<(Blob, Blob)> {
    if c == 0 then Follows.FollowersOf(Follows.Edges(events), key)
    else if c == 1 then Follows.FollowingOf(Follows.Edges(events), key)
    else {}
  }

  function FollowValue(events: Events, key: Key, c: nat): int {
    |FollowSet(events, key, c)|
  }

  function EventWritten(events: Events, e: Follows.FollowEvent): Events {
    events[(e.author, e.target) := Follows.EventRow(e.action, e.timestamp)]
  }

  lemma {:induction false} EventCovers(events: Events, e: Follows.FollowEvent, begun: map<JobId, Key>)
    requires e.author in begun.Values && e.target in begun.Values
    ensures Covers(FollowValue, FOLLOW_COLUMNS, events, EventWritten(events, e), begun)
  {
    hide Follows.Edges, Follows.FollowersOf, Follows.FollowingOf;
    var t := Follows.FollowTables(events, map[]);
    forall key, c: nat | key != e.author && key != e.target
      ensures FollowValue(EventWritten(events, e), key, c) == FollowValue(events, key, c)
    {
      Follows.OtherCounts(t, e, key);
    }
  }

  /**
    In every interleaving: a key's follower or following count is right if and only if as many follows were gained as
    were lost since the count that the row holds.
   */
  lemma {:induction false} FollowCountRightIff(steps: seq<Step<Events>>, key: Key, c: nat)
    requires c < FOLLOW_COLUMNS
    ensures var s := Run(FollowValue, FOLLOW_COLUMNS, map[], steps);
            && s.history != [] && BasisOf(s, key, c) < |s.history|
            && (var then', now := FollowSet(s.history[BasisOf(s, key, c)], key, c), FollowSet(Now(s), key, c);
                Right(FollowValue, s, key, c) <==> |now - then'| == |then' - now|)
  {
    hide Run, FollowSet, Right;
    NoFollowsYet(key, c);
    RightIffBasis(FollowValue, FOLLOW_COLUMNS, map[], steps, key, c);
    var s := Run(FollowValue, FOLLOW_COLUMNS, map[], steps);
    Sets.DifferenceSizes(FollowSet(s.history[BasisOf(s, key, c)], key, c), FollowSet(Now(s), key, c));
  }

  lemma {:induction false} NoFollowsYet(key: Key, c: nat)
    ensures FollowValue(map[], key, c) == 0
  {
    assert FollowSet(map[], key, c) == {};
  }

  lemma {:induction false} FollowCountsOrdered(steps: seq<Step<Events>>, key: Key, c: nat)
    requires Ordered(FollowValue, FOLLOW_COLUMNS, map[], steps) && c < FOLLOW_COLUMNS
    requires Quiet(Run(FollowValue, FOLLOW_COLUMNS, map[], steps), key)
    ensures Right(FollowValue, Run(FollowValue, FOLLOW_COLUMNS, map[], steps), key, c)
  {
    hide Run, FollowValue, Right, Ordered, Quiet;
    NoFollowsYet(key, c);
    OrderedRight(FollowValue, FOLLOW_COLUMNS, map[], steps, key, c);
  }

  function FollowBy(a: Key, target: Key): Follows.FollowEvent {
    Follows.FollowEvent(a, target, Follows.Follow, 0)
  }

  function RacingFollows(a: Key, b: Key, target: Key): seq<Step<Events>> {
    var t1 := EventWritten(map[], FollowBy(a, target));
    Overtaking(t1, map[1 := target, 3 := a], 1, EventWritten(t1, FollowBy(b, target)), map[2 := target, 4 := b], 2, FOLLOW_COLUMNS)
  }

  lemma {:induction false} TwoFollowers(a: Key, b: Key, target: Key)
    requires a != b
    ensures FollowValue(EventWritten(map[], FollowBy(a, target)), target, 0) == 1
    ensures FollowValue(EventWritten(EventWritten(map[], FollowBy(a, target)), FollowBy(b, target)), target, 0) == 2
  {
    var t1 := EventWritten(map[], FollowBy(a, target));
    var t2 := EventWritten(t1, FollowBy(b, target));
    assert FollowSet(t1, target, 0) == {(a, target)};
    assert FollowSet(t2, target, 0) == {(a, target), (b, target)};
  }

  /** Two new followers whose recounts overtake each other are counted as one. */
  lemma {:induction false} RacingFollowsLoseOne(a: Key, b: Key, target: Key)
    requires a != b && a != target && b != target
    ensures var s := Run(FollowValue, FOLLOW_COLUMNS, map[], RacingFollows(a, b, target));
            && s.history != [] && Quiet(s, target)
            && Stored(s, target, 0) == 1 && FollowValue(Now(s), target, 0) == 2
  {
    hide Run, CanRace, FollowValue;
    var t1 := EventWritten(map[], FollowBy(a, target));
    var t2 := EventWritten(t1, FollowBy(b, target));
    var b1, b2 := map[1 := target, 3 := a], map[2 := target, 4 := b];
    FollowsRace(a, b, target);
    OvertakenStale(FollowValue, FOLLOW_COLUMNS, map[], t1, b1, 1, t2, b2, 2, target, 0);
    TwoFollowers(a, b, target);
  }

  ghost predicate FollowCountsSurvive(k: nat) {
    forall steps, key, c :: EndsRight(FollowValue, FOLLOW_COLUMNS, map[], steps, key, c, k)
  }

  /** The same for follower and following counts. */
  lemma {:induction false} FollowCountsSurviveIff(k: nat)
    ensures FollowCountsSurvive(k) <==> k <= 1
  {
    hide EndsRight, FollowValue;
    if k <= 1 {
      forall steps, key, c: nat ensures EndsRight(FollowValue, FOLLOW_COLUMNS, map[], steps, key, c, k) {
        NoFollowsYet(key, c);
        OneAtATimeRight(FollowValue, FOLLOW_COLUMNS, map[], steps, key, c, k);
      }
    } else {
      RacingFollowsWrong([1], [2], [3], k);
    }
  }

  lemma {:induction false} FollowsRace(a: Key, b: Key, target: Key)
    requires a != b && a != target && b != target
    ensures var t1 := EventWritten(map[], FollowBy(a, target));
            CanRace(FollowValue, FOLLOW_COLUMNS, map[], t1, map[1 := target, 3 := a], 1,
                    EventWritten(t1, FollowBy(b, target)), map[2 := target, 4 := b], 2, target)
  {
    hide Covers, FollowValue;
    var b1, b2 := map[1 := target, 3 := a], map[2 := target, 4 := b];
    assert b1[1] == target && b1[3] == a && b2[2] == target && b2[4] == b;
    EventCovers(map[], FollowBy(a, target), b1);
    EventCovers(EventWritten(map[], FollowBy(a, target)), FollowBy(b, target), b2);
  }

  lemma {:induction false} RacingFollowsWrong(a: Key, b: Key, target: Key, k: nat)
    requires a != b && a != target && b != target && k >= 2
    ensures !EndsRight(FollowValue, FOLLOW_COLUMNS, map[], RacingFollows(a, b, target), target, 0, k)
  {
    hide EndsRight, CanRace, FollowValue;
    var t1 := EventWritten(map[], FollowBy(a, target));
    FollowsRace(a, b, target);
    TwoFollowers(a, b, target);
    OvertakingWrong(FollowValue, FOLLOW_COLUMNS, map[], t1, map[1 := target, 3 := a], 1,
                    EventWritten(t1, FollowBy(b, target)), map[2 := target, 4 := b], 2, target, 0, k);
  }
}
