/**
  Reply threads: `GetThread` and `assembleChildren` of `pkg/social/threads.go`, fed by the recursive
  query `GetAllDescendantReplies` of `pkg/storage/posts_repo.go`.

  A reply graph is acyclic when some ranking puts every stored parent below its replies; content-hash ids
  allow nothing else. The recursive query is a worklist that never removes duplicates, so that it ends at
  all, and lists each reply once, depends on the graph.
 */
module Threads {
  import opened Wrappers
  import opened Sequences
  import opened Sets

  type Cid = seq<int>

  datatype PostRow = PostRow(replyTo: Option<Cid>, timestamp: int, body: string)
  type Posts = map<Cid, PostRow>

  datatype ThreadNode = ThreadNode(id: Cid, post: PostRow, children: seq<ThreadNode>, replyCount: nat, likeCount: nat)

  type Rank = map<Cid, nat>

  ghost predicate Ranked(posts: Posts, rank: Rank) {
    && rank.Keys == posts.Keys
    && (forall c :: c in posts && posts[c].replyTo.Some? && posts[c].replyTo.value in posts
          ==> rank[posts[c].replyTo.value] < rank[c])
  }

  predicate RepliesTo(posts: Posts, c: Cid, parent: Cid) {
    c in posts && posts[c].replyTo == Some(parent)
  }

  function Replies(posts: Posts, parent: Cid): set<Cid> {
    set c | c in posts && posts[c].replyTo == Some(parent)
  }

  /** `c` is a direct or transitive reply to `root`. */
  ghost predicate Under(posts: Posts, rank: Rank, root: Cid, c: Cid)
    requires Ranked(posts, rank)
    decreases if c in rank then rank[c] + 1 else 0
  {
    && c in posts && posts[c].replyTo.Some?
    && (posts[c].replyTo.value == root
        || (posts[c].replyTo.value in posts && Under(posts, rank, root, posts[c].replyTo.value)))
  }

  // ---------------------------------------------------------------- laws of replies

  lemma {:induction false} UnderRank(posts: Posts, rank: Rank, root: Cid, c: Cid)
    requires Ranked(posts, rank) && root in posts && Under(posts, rank, root, c)
    ensures rank[root] < rank[c]
    decreases rank[c]
  {
    var p := posts[c].replyTo.value;
    if p != root { UnderRank(posts, rank, root, p); }
  }

  lemma {:induction false} UnderTransitive(posts: Posts, rank: Rank, a: Cid, b: Cid, c: Cid)
    requires Ranked(posts, rank) && Under(posts, rank, a, b) && Under(posts, rank, b, c)
    ensures Under(posts, rank, a, c)
    decreases rank[c]
  {
    var p := posts[c].replyTo.value;
    if p != b { UnderTransitive(posts, rank, a, b, p); }
  }

  /** The ancestors of a post form a chain. */
  lemma {:induction false} AncestorsChain(posts: Posts, rank: Rank, a: Cid, b: Cid, c: Cid)
    requires Ranked(posts, rank) && Under(posts, rank, a, c) && Under(posts, rank, b, c)
    ensures a == b || Under(posts, rank, a, b) || Under(posts, rank, b, a)
    decreases rank[c]
  {
    var p := posts[c].replyTo.value;
    if p != a && p != b { AncestorsChain(posts, rank, a, b, p); }
  }

  ghost predicate InSubtree(posts: Posts, rank: Rank, a: Cid, c: Cid)
    requires Ranked(posts, rank)
  {
    c == a || Under(posts, rank, a, c)
  }

  /** Two different replies to the same post have nothing below them in common. */
  lemma {:induction false} SiblingsDisjoint(posts: Posts, rank: Rank, p: Cid, a: Cid, b: Cid, c: Cid)
    requires Ranked(posts, rank) && p in posts && a != b
    requires RepliesTo(posts, a, p) && RepliesTo(posts, b, p)
    requires InSubtree(posts, rank, a, c)
    ensures !InSubtree(posts, rank, b, c)
  {
    if InSubtree(posts, rank, b, c) {
      if c != a && c != b { AncestorsChain(posts, rank, a, b, c); }
      assert Under(posts, rank, a, b) || Under(posts, rank, b, a);
      if Under(posts, rank, a, b) { NotBelowSibling(posts, rank, p, a, b); } else { NotBelowSibling(posts, rank, p, b, a); }
    }
  }

  lemma {:induction false} NotBelowSibling(posts: Posts, rank: Rank, p: Cid, a: Cid, b: Cid)
    requires Ranked(posts, rank) && p in posts && RepliesTo(posts, a, p) && RepliesTo(posts, b, p)
    ensures !Under(posts, rank, a, b)
  {
    if Under(posts, rank, a, b) {
      assert rank[p] < rank[a];
      if p != a { UnderRank(posts, rank, a, p); }
    }
  }

  /** A transitive reply lies in the subtree of exactly the direct reply it goes through. */
  lemma {:induction false} UnderThroughReply(posts: Posts, rank: Rank, p: Cid, c: Cid) returns (a: Cid)
    requires Ranked(posts, rank) && Under(posts, rank, p, c)
    ensures RepliesTo(posts, a, p) && InSubtree(posts, rank, a, c)
    decreases rank[c]
  {
    var q := posts[c].replyTo.value;
    if q == p {
      a := c;
    } else {
      a := UnderThroughReply(posts, rank, p, q);
      if q != a { assert Under(posts, rank, a, c); }
    }
  }

  lemma {:induction false} ReplyIsUnder(posts: Posts, rank: Rank, p: Cid, a: Cid, c: Cid)
    requires Ranked(posts, rank) && RepliesTo(posts, a, p) && InSubtree(posts, rank, a, c)
    ensures Under(posts, rank, p, c)
  {
    if c != a { UnderTransitive(posts, rank, p, a, c); }
  }

  // ---------------------------------------------------------------- what a thread is

  function IdsOf(ts: seq<ThreadNode>): (r: seq<Cid>)
    ensures |r| == |ts| && forall i :: 0 <= i < |r| ==> r[i] == ts[i].id
  {
    seq(|ts|, i requires 0 <= i < |ts| => ts[i].id)
  }

  ghost predicate InTimeOrder(posts: Posts, ids: seq<Cid>) {
    forall i, j :: 0 <= i < j < |ids| && ids[i] in posts && ids[j] in posts
      ==> posts[ids[i]].timestamp <= posts[ids[j]].timestamp
  }

  function LikesOf(likes: map<Cid, nat>, c: Cid): nat {
    if c in likes then likes[c] else 0
  }

  /** One node: its row, its counts, and its children are its stored replies, each once, in time order. */
  ghost predicate NodeRight(posts: Posts, likes: map<Cid, nat>, t: ThreadNode) {
    && t.id in posts && t.post == posts[t.id] && t.likeCount == (if t.id in likes then likes[t.id] else 0)
    && NoDup(IdsOf(t.children)) && Elements(IdsOf(t.children)) == Replies(posts, t.id)
    && InTimeOrder(posts, IdsOf(t.children)) && t.replyCount == |Replies(posts, t.id)|
  }

  ghost predicate IsThread(posts: Posts, likes: map<Cid, nat>, t: ThreadNode) {
    NodeRight(posts, likes, t) && forall i :: 0 <= i < |t.children| ==> IsThread(posts, likes, t.children[i])
  }

  function Flat(t: ThreadNode): seq<Cid>
    decreases t, 1
  {
    [t.id] + FlatAll(t.children)
  }

  function FlatAll(ts: seq<ThreadNode>): seq<Cid>
    decreases ts, 0
  {
    if ts == [] then [] else Flat(ts[0]) + FlatAll(ts[1..])
  }

  /** The tree lists its root and every transitive reply exactly once. */
  lemma {:induction false} EachOnce(posts: Posts, rank: Rank, likes: map<Cid, nat>, t: ThreadNode)
    requires Ranked(posts, rank) && IsThread(posts, likes, t)
    ensures NoDup(Flat(t))
    ensures forall c :: c in Flat(t) <==> InSubtree(posts, rank, t.id, c)
    decreases t, 1
  {
    hide FlatAll, Under;
    var ids := IdsOf(t.children);
    forall i | 0 <= i < |t.children| ensures RepliesTo(posts, t.children[i].id, t.id) {
      assert ids[i] in Elements(ids);
    }
    ForestOnce(posts, rank, likes, t.id, t.children);
    forall c ensures c in FlatAll(t.children) <==> Under(posts, rank, t.id, c) {
      if c in FlatAll(t.children) {
        var k :| 0 <= k < |t.children| && InSubtree(posts, rank, t.children[k].id, c);
        ReplyIsUnder(posts, rank, t.id, t.children[k].id, c);
      }
      if Under(posts, rank, t.id, c) {
        var a := UnderThroughReply(posts, rank, t.id, c);
        assert a in Elements(ids);
        var k :| 0 <= k < |ids| && ids[k] == a;
        assert InSubtree(posts, rank, t.children[k].id, c);
      }
    }
    assert t.id !in FlatAll(t.children) by {
      if Under(posts, rank, t.id, t.id) { UnderRank(posts, rank, t.id, t.id); }
    }
    NoDupConcat([t.id], FlatAll(t.children));
  }

  lemma {:induction false} ForestOnce(posts: Posts, rank: Rank, likes: map<Cid, nat>, p: Cid, ts: seq<ThreadNode>)
    requires Ranked(posts, rank) && p in posts && NoDup(IdsOf(ts))
    requires forall i :: 0 <= i < |ts| ==> IsThread(posts, likes, ts[i]) && RepliesTo(posts, ts[i].id, p)
    ensures NoDup(FlatAll(ts))
    ensures forall c :: c in FlatAll(ts) <==> exists k :: 0 <= k < |ts| && InSubtree(posts, rank, ts[k].id, c)
    decreases ts, 0
  {
    hide Flat, Under, InSubtree;
    if ts != [] {
      var rest := ts[1..];
      assert forall i :: 0 <= i < |rest| ==> rest[i] == ts[i + 1] && IdsOf(rest)[i] == IdsOf(ts)[i + 1];
      EachOnce(posts, rank, likes, ts[0]);
      ForestOnce(posts, rank, likes, p, rest);
      forall c | c in Flat(ts[0]) ensures c !in FlatAll(rest) {
        forall k | 0 <= k < |rest| ensures !InSubtree(posts, rank, rest[k].id, c) {
          assert IdsOf(ts)[0] != IdsOf(ts)[k + 1];
          SiblingsDisjoint(posts, rank, p, ts[0].id, rest[k].id, c);
        }
      }
      NoDupConcat(Flat(ts[0]), FlatAll(rest));
      forall c ensures c in FlatAll(ts) <==> exists k :: 0 <= k < |ts| && InSubtree(posts, rank, ts[k].id, c) {
        if c in FlatAll(rest) {
          var k :| 0 <= k < |rest| && InSubtree(posts, rank, rest[k].id, c);
          assert InSubtree(posts, rank, ts[k + 1].id, c);
        }
        if k :| 0 < k < |ts| && InSubtree(posts, rank, ts[k].id, c) {
          assert InSubtree(posts, rank, rest[k - 1].id, c);
        }
      }
    }
  }

  // ---------------------------------------------------------------- the recursive query

  /** Every reply to the root or to a listed post is listed or waiting. */
  ghost predicate ClosedUnder(posts: Posts, root: Cid, done: seq<Cid>, all: seq<Cid>) {
    forall c, p :: RepliesTo(posts, c, p) && (p == root || p in done) ==> c in all
  }

  ghost predicate ReachedFrom(posts: Posts, root: Cid, done: seq<Cid>, c: Cid) {
    && c in posts && posts[c].replyTo.Some?
    && (posts[c].replyTo.value == root || posts[c].replyTo.value in done)
  }

  /** A waiting post was reached through a listed one, and its own replies are not there yet. */
  ghost predicate Frontier(posts: Posts, root: Cid, done: seq<Cid>, queue: seq<Cid>) {
    && (forall c :: c in done + queue ==> ReachedFrom(posts, root, done, c))
    && (forall c, q :: q in queue && RepliesTo(posts, c, q) ==> c !in done + queue)
  }

  ghost predicate Worklist(posts: Posts, rank: Rank, root: Cid, done: seq<Cid>, queue: seq<Cid>)
    requires Ranked(posts, rank)
  {
    && NoDup(done + queue)
    && (forall c :: c in done + queue ==> Under(posts, rank, root, c))
    && ClosedUnder(posts, root, done, done + queue)
    && Frontier(posts, root, done, queue)
  }

  /** Listing the head of the queue and appending its replies keeps the worklist right. */
  lemma {:induction false} WorklistStep(
    posts: Posts, rank: Rank, root: Cid, done: seq<Cid>, queue: seq<Cid>, kids: seq<Cid>)
    requires Ranked(posts, rank) && root in posts && queue != []
    requires Worklist(posts, rank, root, done, queue)
    requires NoDup(kids) && forall c :: c in kids <==> RepliesTo(posts, c, queue[0])
    ensures Worklist(posts, rank, root, done + [queue[0]], queue[1..] + kids)
  {
    var t := queue[0];
    var done', queue' := done + [t], queue[1..] + kids;
    assert done' + queue' == (done + queue) + kids by { assert queue == [t] + queue[1..]; }
    assert t in done + queue && t in queue;
    assert forall c :: c in kids ==> c !in done + queue;
    NoDupConcat(done + queue, kids);
    forall c | c in done' + queue' ensures Under(posts, rank, root, c) {}
    FrontierStep(posts, rank, root, done, queue, kids);
  }

  lemma {:induction false} FrontierStep(
    posts: Posts, rank: Rank, root: Cid, done: seq<Cid>, queue: seq<Cid>, kids: seq<Cid>)
    requires Ranked(posts, rank) && root in posts && queue != []
    requires Worklist(posts, rank, root, done, queue)
    requires forall c :: c in kids <==> RepliesTo(posts, c, queue[0])
    ensures Frontier(posts, root, done + [queue[0]], queue[1..] + kids)
  {
    hide Under;
    var t := queue[0];
    var done', queue' := done + [t], queue[1..] + kids;
    var all := done + queue;
    assert queue == [t] + queue[1..] && t in all;
    assert forall c :: c in done' + queue' <==> c in all || c in kids;
    HeadOnce(done, queue);
    NoSelfReply(posts, rank, t);
    RootNotBelow(posts, rank, root, t);
    forall c | c in done' + queue' ensures ReachedFrom(posts, root, done', c) {
      if c in all { assert ReachedFrom(posts, root, done, c); }
    }
    forall c, q | q in queue' && RepliesTo(posts, c, q) ensures c !in done' + queue' {
      if q in kids {
        assert RepliesTo(posts, q, t) && q !in all;
        assert c in all ==> ReachedFrom(posts, root, done, c);
      } else {
        assert q in queue && c !in all;
      }
    }
  }

  lemma {:induction false} NoSelfReply(posts: Posts, rank: Rank, t: Cid)
    requires Ranked(posts, rank)
    ensures !RepliesTo(posts, t, t)
  {
  }

  lemma {:induction false} RootNotBelow(posts: Posts, rank: Rank, root: Cid, t: Cid)
    requires Ranked(posts, rank) && root in posts && Under(posts, rank, root, t)
    ensures !RepliesTo(posts, root, t)
  {
    UnderRank(posts, rank, root, t);
  }

  lemma {:induction false} HeadOnce(done: seq<Cid>, queue: seq<Cid>)
    requires queue != [] && NoDup(done + queue)
    ensures queue[0] !in queue[1..]
  {
    var all := done + queue;
    forall i | 0 <= i < |queue| - 1 ensures queue[1..][i] != queue[0] {
      assert all[|done|] == queue[0] && all[|done| + 1 + i] == queue[1..][i];
    }
  }

  lemma {:induction false} ClosedIsAll(posts: Posts, rank: Rank, root: Cid, done: seq<Cid>, c: Cid)
    requires Ranked(posts, rank) && ClosedUnder(posts, root, done, done) && Under(posts, rank, root, c)
    ensures c in done
    decreases rank[c]
  {
    var p := posts[c].replyTo.value;
    if p != root { ClosedIsAll(posts, rank, root, done, p); }
    assert RepliesTo(posts, c, p);
  }

  lemma {:induction false} ListBound(posts: Posts, all: seq<Cid>)
    requires NoDup(all) && forall c :: c in all ==> c in posts
    ensures |all| <= |posts|
  {
    NoDupSize(all);
    SubsetSize(Elements(all), posts.Keys);
  }

  lemma {:induction false} WorklistStart(posts: Posts, rank: Rank, root: Cid, queue: seq<Cid>)
    requires Ranked(posts, rank) && root in posts && NoDup(queue)
    requires forall c :: c in queue <==> RepliesTo(posts, c, root)
    ensures Worklist(posts, rank, root, [], queue)
  {
    assert [] + queue == queue;
    NoSelfReply(posts, rank, root);
  }

  lemma {:induction false} WorklistEnd(posts: Posts, rank: Rank, root: Cid, done: seq<Cid>)
    requires Ranked(posts, rank) && Worklist(posts, rank, root, done, [])
    ensures NoDup(done) && forall c :: c in done <==> Under(posts, rank, root, c)
  {
    hide Under;
    assert done + [] == done;
    forall c ensures c in done <==> Under(posts, rank, root, c) {
      if Under(posts, rank, root, c) { ClosedIsAll(posts, rank, root, done, c); }
    }
  }

  /** The recursive query, before its final join and sort: `UNION ALL` drops nothing. */
  method DescendantIds(posts: Posts, root: Cid, ghost rank: Rank) returns (done: seq<Cid>)
    requires Ranked(posts, rank) && root in posts
    ensures NoDup(done) && forall c :: c in done <==> Under(posts, rank, root, c)
  {
    hide Worklist, Under;
    done := [];
    var queue := Enumerate(Replies(posts, root));
    WorklistStart(posts, rank, root, queue);
    while queue != []
      invariant Worklist(posts, rank, root, done, queue)
      decreases |posts| - |done|
    {
      var t := queue[0];
      var kids := Enumerate(Replies(posts, t));
      WorklistBound(posts, rank, root, done, queue);
      WorklistStep(posts, rank, root, done, queue, kids);
      done := done + [t];
      queue := queue[1..] + kids;
    }
    WorklistEnd(posts, rank, root, done);
  }

  lemma {:induction false} WorklistBound(posts: Posts, rank: Rank, root: Cid, done: seq<Cid>, queue: seq<Cid>)
    requires Ranked(posts, rank) && Worklist(posts, rank, root, done, queue) && queue != []
    ensures |done| < |posts|
  {
    ListBound(posts, done + queue);
  }

  function TimeOf(posts: Posts, c: Cid): int {
    if c in posts then posts[c].timestamp else 0
  }

  method GetAllDescendantReplies(posts: Posts, root: Cid, ghost rank: Rank) returns (rows: seq<Cid>)
    requires Ranked(posts, rank) && root in posts
    ensures NoDup(rows) && (forall c :: c in rows <==> Under(posts, rank, root, c))
    ensures InTimeOrder(posts, rows)
  {
    hide Under;
    var ids := DescendantIds(posts, root, rank);
    rows := SortBy(ids, c => TimeOf(posts, c));
    PermutedNoDup(ids, rows);
  }

  // ---------------------------------------------------------------- building the tree

  /** The rows that reply to `p`, in their order. */
  function ChildRows(posts: Posts, rows: seq<Cid>, p: Cid): seq<Cid> {
    if rows == [] then []
    else
      var c := rows[|rows| - 1];
      ChildRows(posts, rows[..|rows| - 1], p) + if RepliesTo(posts, c, p) then [c] else []
  }

  lemma {:induction false} ChildRowsRight(posts: Posts, rows: seq<Cid>, p: Cid)
    requires NoDup(rows) && InTimeOrder(posts, rows)
    ensures forall c :: c in ChildRows(posts, rows, p) <==> c in rows && RepliesTo(posts, c, p)
    ensures NoDup(ChildRows(posts, rows, p)) && InTimeOrder(posts, ChildRows(posts, rows, p))
    decreases |rows|
  {
    if rows != [] {
      var n := |rows| - 1;
      var init, c := rows[..n], rows[n];
      assert rows == init + [c];
      ChildRowsRight(posts, init, p);
      var r := ChildRows(posts, init, p);
      assert forall d :: d in r ==> d in init;
      if RepliesTo(posts, c, p) {
        NoDupConcat(r, [c]);
        LastInOrder(posts, rows, r, c);
      } else {
        assert r + [] == r;
      }
    }
  }

  lemma {:induction false} LastInOrder(posts: Posts, rows: seq<Cid>, r: seq<Cid>, c: Cid)
    requires rows != [] && rows[|rows| - 1] == c && InTimeOrder(posts, rows) && InTimeOrder(posts, r)
    requires forall d :: d in r ==> d in rows[..|rows| - 1]
    ensures InTimeOrder(posts, r + [c])
  {
    var s := r + [c];
    forall i, j | 0 <= i < j < |s| && s[i] in posts && s[j] in posts
      ensures posts[s[i]].timestamp <= posts[s[j]].timestamp
    {
      assert s[i] == r[i];
      if j == |r| {
        assert r[i] in r;
        var k :| 0 <= k < |rows| - 1 && rows[k] == r[i];
      } else {
        assert s[j] == r[j];
      }
    }
  }

  function Lookup(m: map<Cid, seq<Cid>>, p: Cid): seq<Cid> {
    if p in m then m[p] else []
  }

  method GroupByParent(posts: Posts, rows: seq<Cid>) returns (m: map<Cid, seq<Cid>>)
    requires forall c :: c in rows ==> c in posts && posts[c].replyTo.Some?
    ensures forall p :: Lookup(m, p) == ChildRows(posts, rows, p)
  {
    m := map[];
    for i := 0 to |rows|
      invariant forall p :: Lookup(m, p) == ChildRows(posts, rows[..i], p)
    {
      var c := rows[i];
      var p := posts[c].replyTo.value;
      assert rows[..i + 1][..i] == rows[..i] && rows[..i + 1][i] == c;
      m := m[p := Lookup(m, p) + [c]];
    }
    assert rows[..|rows|] == rows;
  }

  ghost predicate GroupsComplete(posts: Posts, rank: Rank, root: Cid, m: map<Cid, seq<Cid>>)
    requires Ranked(posts, rank)
  {
    forall p :: InSubtree(posts, rank, root, p) ==>
      && NoDup(Lookup(m, p)) && InTimeOrder(posts, Lookup(m, p))
      && (forall c :: c in Lookup(m, p) <==> RepliesTo(posts, c, p))
  }

  lemma {:induction false} GroupsAreComplete(posts: Posts, rank: Rank, root: Cid, rows: seq<Cid>, m: map<Cid, seq<Cid>>)
    requires Ranked(posts, rank) && NoDup(rows) && InTimeOrder(posts, rows)
    requires forall c :: c in rows <==> Under(posts, rank, root, c)
    requires forall p :: Lookup(m, p) == ChildRows(posts, rows, p)
    ensures GroupsComplete(posts, rank, root, m)
  {
    forall p | InSubtree(posts, rank, root, p)
      ensures NoDup(Lookup(m, p)) && InTimeOrder(posts, Lookup(m, p))
      ensures forall c :: c in Lookup(m, p) <==> RepliesTo(posts, c, p)
    {
      ChildRowsRight(posts, rows, p);
      forall c | RepliesTo(posts, c, p) ensures c in rows {
        assert Under(posts, rank, root, c);
      }
    }
  }

  ghost function RankBound(rank: Rank): nat
    ensures forall c :: c in rank ==> rank[c] < RankBound(rank)
    decreases |rank|
  {
    if rank == map[] then 0
    else
      var c :| c in rank;
      assert (rank - {c}).Keys == rank.Keys - {c};
      var b := RankBound(rank - {c});
      assert forall d :: d in rank && d != c ==> d in rank - {c};
      if rank[c] < b then b else rank[c] + 1
  }

  /** `assembleChildren`, returning the node instead of filling one in. */
  method Assemble(posts: Posts, likes: map<Cid, nat>, m: map<Cid, seq<Cid>>, id: Cid, ghost rank: Rank, ghost root: Cid)
    returns (node: ThreadNode)
    requires Ranked(posts, rank) && id in posts && InSubtree(posts, rank, root, id)
    requires GroupsComplete(posts, rank, root, m)
    ensures node.id == id && IsThread(posts, likes, node)
    decreases RankBound(rank) - rank[id]
  {
    hide RankBound, InTimeOrder;
    var replies := Lookup(m, id);
    var children: seq<ThreadNode> := [];
    for i := 0 to |replies|
      invariant |children| == i
      invariant forall k :: 0 <= k < i ==> children[k].id == replies[k] && IsThread(posts, likes, children[k])
    {
      assert replies[i] in replies && RepliesTo(posts, replies[i], id);
      var child := Assemble(posts, likes, m, replies[i], rank, root);
      children := children + [child];
    }
    assert IdsOf(children) == replies;
    assert Elements(replies) == Replies(posts, id);
    NoDupSize(replies);
    node := ThreadNode(id, posts[id], children, |replies|, LikesOf(likes, id));
  }

  /**
    `GetThread`: it ends on every acyclic reply graph, fails only for an unknown post, and otherwise gives
    a tree with the root and every transitive reply exactly once, each under its own parent.
   */
  method GetThread(posts: Posts, likes: map<Cid, nat>, root: Cid, ghost rank: Rank) returns (r: Option<ThreadNode>)
    requires Ranked(posts, rank)
    ensures r.None? <==> root !in posts
    ensures r.Some? ==> r.value.id == root && IsThread(posts, likes, r.value)
    ensures r.Some? ==> NoDup(Flat(r.value)) && forall c :: c in Flat(r.value) <==> c == root || Under(posts, rank, root, c)
  {
    if root !in posts {
      return None;
    }
    var rows := GetAllDescendantReplies(posts, root, rank);
    var m := GroupByParent(posts, rows);
    GroupsAreComplete(posts, rank, root, rows, m);
    var node := Assemble(posts, likes, m, root, rank, root);
    EachOnce(posts, rank, likes, node);
    return Some(node);
  }

  /** The choice of ranking does not matter: any two rankings see the same replies. */
  lemma {:induction false} UnderUnique(posts: Posts, rank: Rank, rank': Rank, root: Cid, c: Cid)
    requires Ranked(posts, rank) && Ranked(posts, rank')
    ensures Under(posts, rank, root, c) <==> Under(posts, rank', root, c)
    decreases if c in rank then rank[c] + 1 else 0
  {
    if c in posts && posts[c].replyTo.Some? && posts[c].replyTo.value in posts {
      UnderUnique(posts, rank, rank', root, posts[c].replyTo.value);
    }
  }
}
