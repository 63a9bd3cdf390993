/**
  Follow events and the follower counts kept beside them: `handleFollow` of `pkg/p2p/handlers.go`, the
  same statements at the end of `changeFollowState` in `pkg/social/follows.go`, and the tables of
  `pkg/storage/subscriptions_repo.go`.

  A run handles one event at a time; `CountRaces` treats handlers whose statements interleave or fail.
 */
module Follows {
  import opened Wrappers
  import opened Sequences

  type Pair = (Blob, Blob)

  datatype Action = Follow | Unfollow
  datatype EventRow = EventRow(action: Action, timestamp: int)
  datatype FollowCounts = FollowCounts(followers: nat, following: nat)
  datatype FollowEvent = FollowEvent(author: Blob, target: Blob, action: Action, timestamp: int)

  datatype FollowTables = FollowTables(events: map<Pair, EventRow>, counts: map<Blob, FollowCounts>)

  /** The pairs (follower, followed) whose latest action is a follow. */
  function Edges(events: map<Pair, EventRow>): set<Pair> {
    set e | e in events && events[e].action == Follow
  }

  function FollowersOf(edges: set<Pair>, key: Blob): set<Pair> {
    set e | e in edges && e.1 == key
  }

  function FollowingOf(edges: set<Pair>, key: Blob): set<Pair> {
    set e | e in edges && e.0 == key
  }

  function Recount(t: FollowTables, key: Blob): FollowCounts {
    FollowCounts(|FollowersOf(Edges(t.events), key)|, |FollowingOf(Edges(t.events), key)|)
  }

  function ReadCounts(t: FollowTables, key: Blob): FollowCounts {
    if key in t.counts then t.counts[key] else FollowCounts(0, 0)
  }

  function Recounted(t: FollowTables, key: Blob): FollowTables {
    t.(counts := t.counts[key := Recount(t, key)])
  }

  function Inserted(t: FollowTables, e: FollowEvent): FollowTables {
    t.(events := t.events[(e.author, e.target) := EventRow(e.action, e.timestamp)])
  }

  function FollowStep(t: FollowTables, e: FollowEvent): FollowTables {
    Recounted(Recounted(Inserted(t, e), e.author), e.target)
  }

  class FollowStore {
    var events: map<Pair, EventRow>
    var counts: map<Blob, FollowCounts>

    ghost function State(): FollowTables
      reads this
    {
      FollowTables(events, counts)
    }

    constructor ()
      ensures State() == FollowTables(map[], map[])
    {
      events, counts := map[], map[];
    }

    method InsertFollowEvent(author: Blob, target: Blob, action: Action, timestamp: int)
      modifies this`events
      ensures State() == Inserted(old(State()), FollowEvent(author, target, action, timestamp))
    {
      events := events[(author, target) := EventRow(action, timestamp)];
    }

    method UpdateFollowerCount(key: Blob)
      modifies this`counts
      ensures State() == Recounted(old(State()), key)
    {
      var followerCount := |FollowersOf(Edges(events), key)|;
      var followingCount := |FollowingOf(Edges(events), key)|;
      counts := counts[key := FollowCounts(followerCount, followingCount)];
    }

    method HandleFollow(e: FollowEvent)
      modifies this
      ensures State() == FollowStep(old(State()), e)
    {
      InsertFollowEvent(e.author, e.target, e.action, e.timestamp);
      UpdateFollowerCount(e.author);
      UpdateFollowerCount(e.target);
    }
  }

  function Run(events: seq<FollowEvent>): FollowTables {
    if events == [] then FollowTables(map[], map[])
    else FollowStep(Run(events[..|events| - 1]), events[|events| - 1])
  }

  // ---------------------------------------------------------------- counts equal a recount

  ghost predicate CountsAgree(t: FollowTables) {
    forall key :: ReadCounts(t, key) == Recount(t, key)
  }

  /** Every party to an event has a counts row. */
  ghost predicate RowsExist(t: FollowTables) {
    forall e :: e in t.events ==> e.0 in t.counts && e.1 in t.counts
  }

  lemma {:induction false} OtherCounts(t: FollowTables, e: FollowEvent, key: Blob)
    ensures key != e.target ==> FollowersOf(Edges(Inserted(t, e).events), key) == FollowersOf(Edges(t.events), key)
    ensures key != e.author ==> FollowingOf(Edges(Inserted(t, e).events), key) == FollowingOf(Edges(t.events), key)
  {
  }

  lemma {:induction false} RecountedReads(t: FollowTables, key: Blob, other: Blob)
    ensures Recount(Recounted(t, key), other) == Recount(t, other)
    ensures ReadCounts(Recounted(t, key), other) == if other == key then Recount(t, key) else ReadCounts(t, other)
  {
  }

  lemma {:induction false} FollowKeepsCounts(t: FollowTables, e: FollowEvent)
    requires CountsAgree(t) && RowsExist(t)
    ensures CountsAgree(FollowStep(t, e)) && RowsExist(FollowStep(t, e))
  {
    var t1 := Inserted(t, e);
    var t2 := Recounted(t1, e.author);
    var t' := FollowStep(t, e);
    forall key ensures ReadCounts(t', key) == Recount(t', key) {
      hide Edges, FollowersOf, FollowingOf;
      RecountedReads(t1, e.author, key);
      RecountedReads(t2, e.target, key);
      RecountedReads(t1, e.author, e.target);
      if key != e.author && key != e.target {
        OtherCounts(t, e, key);
        assert ReadCounts(t, key) == Recount(t, key);
      }
    }
  }

  /** In every reachable state the stored counts equal a recount of the events. */
  lemma {:induction false} CountsAlwaysAgree(events: seq<FollowEvent>)
    ensures CountsAgree(Run(events)) && RowsExist(Run(events))
    decreases |events|
  {
    hide FollowStep;
    if events == [] {
      var t := FollowTables(map[], map[]);
      forall key ensures ReadCounts(t, key) == Recount(t, key) {
        assert FollowersOf(Edges(map[]), key) == {} && FollowingOf(Edges(map[]), key) == {};
      }
    } else {
      var n := |events| - 1;
      CountsAlwaysAgree(events[..n]);
      FollowKeepsCounts(Run(events[..n]), events[n]);
    }
  }

  // ---------------------------------------------------------------- conservation

  ghost function TotalFollowers(counts: map<Blob, FollowCounts>, keys: set<Blob>): nat
    requires keys <= counts.Keys
  {
    if keys == {} then 0
    else
      var k :| k in keys;
      counts[k].followers + TotalFollowers(counts, keys - {k})
  }

  ghost function TotalFollowing(counts: map<Blob, FollowCounts>, keys: set<Blob>): nat
    requires keys <= counts.Keys
  {
    if keys == {} then 0
    else
      var k :| k in keys;
      counts[k].following + TotalFollowing(counts, keys - {k})
  }

  lemma {:induction false} FollowersAddUp(t: FollowTables, keys: set<Blob>)
    requires CountsAgree(t) && keys <= t.counts.Keys
    ensures TotalFollowers(t.counts, keys) == |set e | e in Edges(t.events) && e.1 in keys|
    decreases keys
  {
    hide Edges;
    var edges := Edges(t.events);
    if keys == {} {
      assert (set e | e in edges && e.1 in keys) == {};
    } else {
      var k :| k in keys && TotalFollowers(t.counts, keys) == t.counts[k].followers + TotalFollowers(t.counts, keys - {k});
      FollowersAddUp(t, keys - {k});
      assert ReadCounts(t, k) == Recount(t, k);
      var rest := set e | e in edges && e.1 in keys - {k};
      assert (set e | e in edges && e.1 in keys) == FollowersOf(edges, k) + rest;
      assert FollowersOf(edges, k) !! rest;
    }
  }

  lemma {:induction false} FollowingAddUp(t: FollowTables, keys: set<Blob>)
    requires CountsAgree(t) && keys <= t.counts.Keys
    ensures TotalFollowing(t.counts, keys) == |set e | e in Edges(t.events) && e.0 in keys|
    decreases keys
  {
    hide Edges;
    var edges := Edges(t.events);
    if keys == {} {
      assert (set e | e in edges && e.0 in keys) == {};
    } else {
      var k :| k in keys && TotalFollowing(t.counts, keys) == t.counts[k].following + TotalFollowing(t.counts, keys - {k});
      FollowingAddUp(t, keys - {k});
      assert ReadCounts(t, k) == Recount(t, k);
      var rest := set e | e in edges && e.0 in keys - {k};
      assert (set e | e in edges && e.0 in keys) == FollowingOf(edges, k) + rest;
      assert FollowingOf(edges, k) !! rest;
    }
  }

  /** Total followers, total following and the number of follow rows are the same number. */
  lemma {:induction false} FollowsConserved(events: seq<FollowEvent>)
    ensures var t := Run(events);
            TotalFollowers(t.counts, t.counts.Keys) == TotalFollowing(t.counts, t.counts.Keys) == |Edges(t.events)|
  {
    hide Run, TotalFollowers, TotalFollowing;
    var t := Run(events);
    CountsAlwaysAgree(events);
    FollowersAddUp(t, t.counts.Keys);
    FollowingAddUp(t, t.counts.Keys);
    assert (set e | e in Edges(t.events) && e.1 in t.counts.Keys) == Edges(t.events);
    assert (set e | e in Edges(t.events) && e.0 in t.counts.Keys) == Edges(t.events);
  }

  // ---------------------------------------------------------------- the last delivery wins

  /** The last delivered event for a pair, as a row. */
  function LastFor(events: seq<FollowEvent>, pair: Pair): Option<EventRow> {
    if events == [] then None
    else
      var e := events[|events| - 1];
      if (e.author, e.target) == pair then Some(EventRow(e.action, e.timestamp))
      else LastFor(events[..|events| - 1], pair)
  }

  function RowOf(events: map<Pair, EventRow>, pair: Pair): Option<EventRow> {
    if pair in events then Some(events[pair]) else None
  }

  lemma {:induction false} RowIsLast(events: seq<FollowEvent>, pair: Pair)
    ensures RowOf(Run(events).events, pair) == LastFor(events, pair)
    decreases |events|
  {
    if events != [] { RowIsLast(events[..|events| - 1], pair); }
  }

  ghost predicate SameLast(a: seq<FollowEvent>, b: seq<FollowEvent>) {
    forall pair :: LastFor(a, pair) == LastFor(b, pair)
  }

  /**
    Two deliveries end with the same follow rows exactly when, pair by pair, they deliver the same event
    last. The timestamp of an event never decides which one is kept.
   */
  lemma {:induction false} SameRowsIffSameLast(a: seq<FollowEvent>, b: seq<FollowEvent>)
    ensures Run(a).events == Run(b).events <==> SameLast(a, b)
  {
    hide Run, LastFor;
    var x, y := Run(a).events, Run(b).events;
    forall pair ensures RowOf(x, pair) == LastFor(a, pair) && RowOf(y, pair) == LastFor(b, pair) {
      RowIsLast(a, pair);
      RowIsLast(b, pair);
    }
    if SameLast(a, b) {
      forall pair ensures RowOf(x, pair) == RowOf(y, pair) { assert LastFor(a, pair) == LastFor(b, pair); }
      assert forall pair :: pair in x ==> RowOf(x, pair) == Some(x[pair]);
      assert forall pair :: pair in y ==> RowOf(y, pair) == Some(y[pair]);
      assert x == y;
    } else {
      var pair :| LastFor(a, pair) != LastFor(b, pair);
      assert RowOf(x, pair) != RowOf(y, pair);
      assert x != y;
    }
  }

  // ---------------------------------------------------------------- every order of delivery

  ghost predicate SameRows(a: seq<FollowEvent>, b: seq<FollowEvent>) {
    Run(a).events == Run(b).events
  }

  /** All orders of delivery of these events, with any repetition, end with the same rows. */
  ghost predicate OrderIrrelevant(events: set<FollowEvent>) {
    forall a, b :: Elements(a) == events && Elements(b) == events ==> SameRows(a, b)
  }

  /** No pair has two different events. */
  ghost predicate OnePerPair(events: set<FollowEvent>) {
    forall e, f :: e in events && f in events && e.author == f.author && e.target == f.target ==> e == f
  }

  /** The last row of a pair is that of some delivered event, and any delivered event gives its pair a row. */
  lemma {:induction false} LastIsDelivered(events: seq<FollowEvent>, pair: Pair)
    ensures LastFor(events, pair).Some? ==>
      exists e :: e in events && (e.author, e.target) == pair && LastFor(events, pair) == Some(EventRow(e.action, e.timestamp))
    ensures forall e :: e in events && (e.author, e.target) == pair ==> LastFor(events, pair).Some?
    decreases |events|
  {
    if events != [] {
      var n := |events| - 1;
      LastIsDelivered(events[..n], pair);
      assert events == events[..n] + [events[n]];
      assert events[n] in events;
    }
  }

  lemma {:induction false} OnePerPairAgrees(a: seq<FollowEvent>, b: seq<FollowEvent>, pair: Pair)
    requires Elements(a) == Elements(b) && OnePerPair(Elements(a))
    ensures LastFor(a, pair) == LastFor(b, pair)
  {
    hide LastFor;
    LastIsDelivered(a, pair);
    LastIsDelivered(b, pair);
    forall e ensures e in a <==> e in b { assert e in Elements(a) <==> e in Elements(b); }
    if LastFor(a, pair).Some? {
      var e :| e in a && (e.author, e.target) == pair && LastFor(a, pair) == Some(EventRow(e.action, e.timestamp));
      assert e in b;
      var f :| f in b && (f.author, f.target) == pair && LastFor(b, pair) == Some(EventRow(f.action, f.timestamp));
      assert e in Elements(a) && f in Elements(a);
    }
  }

  lemma {:induction false} Schedule(events: set<FollowEvent>) returns (order: seq<FollowEvent>)
    ensures Elements(order) == events
    decreases events
  {
    if events == {} {
      order := [];
    } else {
      var e :| e in events;
      var rest := Schedule(events - {e});
      order := rest + [e];
      assert Elements(order) == Elements(rest) + {e};
    }
  }

  /** Delivering `e` last decides the row of its pair. */
  lemma {:induction false} EndingWith(events: set<FollowEvent>, e: FollowEvent) returns (order: seq<FollowEvent>)
    requires e in events
    ensures Elements(order) == events && LastFor(order, (e.author, e.target)) == Some(EventRow(e.action, e.timestamp))
  {
    var rest := Schedule(events);
    order := rest + [e];
    assert Elements(order) == Elements(rest) + {e};
  }

  /** Delivery order is irrelevant if and only if no pair has two different events. */
  lemma {:induction false} OrderIrrelevantIff(events: set<FollowEvent>)
    ensures OrderIrrelevant(events) <==> OnePerPair(events)
  {
    hide LastFor, Elements, Run;
    if OnePerPair(events) {
      forall a, b | Elements(a) == events && Elements(b) == events ensures SameRows(a, b) {
        forall pair ensures LastFor(a, pair) == LastFor(b, pair) { OnePerPairAgrees(a, b, pair); }
        SameRowsIffSameLast(a, b);
      }
    }
    if OrderIrrelevant(events) {
      forall e, f | e in events && f in events && e.author == f.author && e.target == f.target ensures e == f {
        var a := EndingWith(events, e);
        var b := EndingWith(events, f);
        assert SameRows(a, b);
        SameRowsIffSameLast(a, b);
        assert LastFor(a, (e.author, e.target)) == LastFor(b, (e.author, e.target));
      }
    }
  }

  // ---------------------------------------------------------------- counts in terms of the events

  function PairsIn(events: seq<FollowEvent>): set<Pair> {
    set e | e in events :: (e.author, e.target)
  }

  /** The last event of the pair is a follow. */
  predicate Follows(events: seq<FollowEvent>, pair: Pair) {
    LastFor(events, pair).Some? && LastFor(events, pair).value.action == Follow
  }

  lemma {:induction false} EdgeIff(events: seq<FollowEvent>, pair: Pair)
    ensures pair in Edges(Run(events).events) <==> pair in PairsIn(events) && Follows(events, pair)
  {
    hide Run, LastFor;
    RowIsLast(events, pair);
    LastIsDelivered(events, pair);
  }

  /** After every run a key's followers are those whose last event to it is a follow, and likewise whom it follows. */
  lemma {:induction false} FinalFollowCounts(events: seq<FollowEvent>, key: Blob)
    ensures ReadCounts(Run(events), key).followers == |set p | p in PairsIn(events) && p.1 == key && Follows(events, p)|
    ensures ReadCounts(Run(events), key).following == |set p | p in PairsIn(events) && p.0 == key && Follows(events, p)|
  {
    hide Run, Follows, Edges, PairsIn;
    CountsAlwaysAgree(events);
    var edges := Edges(Run(events).events);
    forall p ensures p in edges <==> p in PairsIn(events) && Follows(events, p) { EdgeIff(events, p); }
    assert FollowersOf(edges, key) == set p | p in PairsIn(events) && p.1 == key && Follows(events, p);
    assert FollowingOf(edges, key) == set p | p in PairsIn(events) && p.0 == key && Follows(events, p);
  }

  /** So order matters: an older unfollow delivered after a newer follow undoes it. */
  lemma {:induction false} StaleUnfollowWins(author: Blob, target: Blob)
    ensures var f := FollowEvent(author, target, Follow, 2);
            var u := FollowEvent(author, target, Unfollow, 1);
            && Run([f, u]).events[(author, target)].action == Unfollow
            && Run([u, f]).events[(author, target)].action == Follow
  {
    var f := FollowEvent(author, target, Follow, 2);
    var u := FollowEvent(author, target, Unfollow, 1);
    assert [f, u][..1] == [f] && [u, f][..1] == [u] && [f][..0] == [] && [u][..0] == [];
    assert Run([f, u]) == FollowStep(Run([f]), u);
    assert Run([u, f]) == FollowStep(Run([u]), f);
  }
}
