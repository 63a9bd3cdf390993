/**
  The replicated posts and likes of a node: `handlePost` and `handleReaction` of `pkg/p2p/handlers.go`
  over the tables of `pkg/storage`.

  `Tables` is the part of the database the handlers touch, with each SQL statement given its map or set
  meaning. The class performs a handler as the source does, one statement after another; `PostStep` and
  `ReactionStep` are the same handlers as functions, and the theorems are about runs of those.

  A run handles one message at a time. In the source counting and storing a count are separate statements, and handlers of
  different topics run concurrently; `CountRaces` treats handlers whose statements interleave or fail, and `FailingLikes`
  a failing insert.
 */
module Replication {
  import opened Wrappers
  import opened Sets

  /** The signed content of a post, which its id is the hash of. The signature itself is not hashed. */
  datatype Payload = Payload(author: Blob, content: string, replyTo: Blob, repostOf: Blob, timestamp: int)
  datatype Post = Post(id: Blob, payload: Payload, signature: Blob)
  datatype Reaction = Reaction(id: Blob, author: Blob, target: Blob, kind: string, timestamp: int)

  datatype PostRow = PostRow(
    author: Blob, content: string, replyTo: Option<Blob>, repostOf: Option<Blob>,
    timestamp: int, signature: Blob, receivedAt: int)
  datatype ReactionRow = ReactionRow(author: Blob, target: Blob, kind: string, timestamp: int)
  datatype Counts = Counts(likes: nat, replies: nat, reposts: nat)

  datatype Tables = Tables(
    profiles: set<Blob>,
    posts: map<Blob, PostRow>,
    reactions: map<Blob, ReactionRow>,
    counts: map<Blob, Counts>,
    cas: set<Blob>)

  datatype Status = Stored | Duplicate | UnknownAuthor

  // ---------------------------------------------------------------- queries

  function NilIfEmpty(b: Blob): Option<Blob> {
    if b == [] then None else Some(b)
  }

  function LikesOf(reactions: map<Blob, ReactionRow>, target: Blob): set<Blob> {
    set cid | cid in reactions && reactions[cid].target == target && reactions[cid].kind == "like"
  }

  function RepliesOf(posts: map<Blob, PostRow>, target: Blob): set<Blob> {
    set cid | cid in posts && posts[cid].replyTo == Some(target)
  }

  function RepostsOf(posts: map<Blob, PostRow>, target: Blob): set<Blob> {
    set cid | cid in posts && posts[cid].repostOf == Some(target)
  }

  function Recount(t: Tables, target: Blob): Counts {
    Counts(|LikesOf(t.reactions, target)|, |RepliesOf(t.posts, target)|, |RepostsOf(t.posts, target)|)
  }

  /** `GetFullReactionCounts`: a missing row reads as zero. */
  function ReadCounts(t: Tables, target: Blob): Counts {
    if target in t.counts then t.counts[target] else Counts(0, 0, 0)
  }

  function Recounted(t: Tables, target: Blob): Tables {
    t.(counts := t.counts[target := Recount(t, target)])
  }

  predicate HasReacted(reactions: map<Blob, ReactionRow>, author: Blob, target: Blob, kind: string) {
    exists cid :: cid in reactions && SameReaction(reactions[cid], author, target, kind)
  }

  predicate SameReaction(row: ReactionRow, author: Blob, target: Blob, kind: string) {
    row.author == author && row.target == target && row.kind == kind
  }

  // ---------------------------------------------------------------- handlers as functions

  function RowOfPost(p: Post, now: int): PostRow {
    PostRow(p.payload.author, p.payload.content, NilIfEmpty(p.payload.replyTo), NilIfEmpty(p.payload.repostOf),
            p.payload.timestamp, p.signature, now)
  }

  function RowOfReaction(r: Reaction): ReactionRow {
    ReactionRow(r.author, r.target, r.kind, r.timestamp)
  }

  function RecountIfSet(t: Tables, target: Blob): Tables {
    if target == [] then t else Recounted(t, target)
  }

  function PostStatus(t: Tables, p: Post): Status {
    if p.id in t.posts then Duplicate else if p.payload.author !in t.profiles then UnknownAuthor else Stored
  }

  function PostStep(t: Tables, p: Post, now: int): Tables {
    match PostStatus(t, p)
    case Duplicate => t
    case UnknownAuthor => t.(cas := t.cas + {p.id})
    case Stored =>
      var t1 := t.(cas := t.cas + {p.id}, posts := t.posts[p.id := RowOfPost(p, now)]);
      RecountIfSet(RecountIfSet(t1, p.payload.replyTo), p.payload.repostOf)
  }

  /** `INSERT OR IGNORE`: the id is the primary key and (author, target, type) is unique. */
  function InsertedReaction(reactions: map<Blob, ReactionRow>, r: Reaction): map<Blob, ReactionRow> {
    if r.id in reactions || HasReacted(reactions, r.author, r.target, r.kind) then reactions
    else reactions[r.id := RowOfReaction(r)]
  }

  function ReactionStep(t: Tables, r: Reaction): Tables {
    if r.id in t.cas then t
    else Recounted(t.(cas := t.cas + {r.id}, reactions := InsertedReaction(t.reactions, r)), r.target)
  }

  // ---------------------------------------------------------------- the handlers

  class MessageProcessor {
    var profiles: set<Blob>
    var posts: map<Blob, PostRow>
    var reactions: map<Blob, ReactionRow>
    var counts: map<Blob, Counts>
    var cas: set<Blob>

    ghost function State(): Tables
      reads this
    {
      Tables(profiles, posts, reactions, counts, cas)
    }

    constructor (known: set<Blob>)
      ensures State() == Tables(known, map[], map[], map[], {})
    {
      profiles, posts, reactions, counts, cas := known, map[], map[], map[], {};
    }

    method InsertPost(p: Post, now: int) returns (ok: bool)
      modifies this`posts
      ensures ok <==> p.id !in old(posts) && p.payload.author in profiles
      ensures posts == if ok then old(posts)[p.id := RowOfPost(p, now)] else old(posts)
    {
      ok := p.id !in posts && p.payload.author in profiles;
      if ok {
        posts := posts[p.id := RowOfPost(p, now)];
      }
    }

    method InsertReaction(r: Reaction)
      modifies this`reactions
      ensures reactions == InsertedReaction(old(reactions), r)
    {
      if r.id !in reactions && !HasReacted(reactions, r.author, r.target, r.kind) {
        reactions := reactions[r.id := RowOfReaction(r)];
      }
    }

    method UpdateReactionCount(target: Blob)
      modifies this`counts
      ensures State() == Recounted(old(State()), target)
    {
      var likeCount := |LikesOf(reactions, target)|;
      var replyCount := |RepliesOf(posts, target)|;
      var repostCount := |RepostsOf(posts, target)|;
      counts := counts[target := Counts(likeCount, replyCount, repostCount)];
    }

    method HandlePost(p: Post, now: int) returns (status: Status)
      modifies this
      ensures status == PostStatus(old(State()), p)
      ensures State() == PostStep(old(State()), p, now)
      ensures p.id in old(posts) || p.id in cas
      ensures status == Stored <==> p.id !in old(posts) && p.id in posts
    {
      if p.id in posts {
        return Duplicate;
      }
      cas := cas + {p.id};
      var inserted := InsertPost(p, now);
      if !inserted {
        return UnknownAuthor;
      }
      if p.payload.replyTo != [] {
        UpdateReactionCount(p.payload.replyTo);
      }
      if p.payload.repostOf != [] {
        UpdateReactionCount(p.payload.repostOf);
      }
      return Stored;
    }

    method HandleReaction(r: Reaction)
      modifies this
      ensures State() == ReactionStep(old(State()), r)
      ensures r.id in cas
    {
      if r.id in cas {
        return;
      }
      cas := cas + {r.id};
      InsertReaction(r);
      UpdateReactionCount(r.target);
    }

    /** An accepted profile update, as far as posts depend on it: the foreign key, and the object under the author's key. */
    method HandleProfile(author: Blob)
      modifies this`profiles, this`cas
      ensures State() == Apply(old(State()), LearnProfile(author))
    {
      cas := cas + {author};
      profiles := profiles + {author};
    }

    /** Storage pressure may delete any content object between two messages. */
    method EvictObject(cid: Blob)
      modifies this`cas
      ensures State() == Apply(old(State()), Evict(cid))
    {
      cas := cas - {cid};
    }
  }

  // ---------------------------------------------------------------- runs

  datatype Step =
    | DeliverPost(post: Post, now: int)
    | DeliverReaction(reaction: Reaction)
    | LearnProfile(author: Blob)
    | Evict(cid: Blob)

  function Apply(t: Tables, step: Step): Tables {
    match step
    case DeliverPost(p, now) => PostStep(t, p, now)
    case DeliverReaction(r) => ReactionStep(t, r)
    case LearnProfile(a) => t.(profiles := t.profiles + {a}, cas := t.cas + {a})
    case Evict(cid) => t.(cas := t.cas - {cid})
  }

  function Run(t: Tables, steps: seq<Step>): Tables {
    if steps == [] then t else Apply(Run(t, steps[..|steps| - 1]), steps[|steps| - 1])
  }

  function Fresh(profiles: set<Blob>): Tables {
    Tables(profiles, map[], map[], map[], {})
  }

  /** The posts and likes delivered in a run, as sets: neither order nor repetition is visible. */
  function PostsIn(steps: seq<Step>): set<(Blob, Payload)> {
    set i | 0 <= i < |steps| && steps[i].DeliverPost? :: (steps[i].post.id, steps[i].post.payload)
  }

  function ReactionsIn(steps: seq<Step>): set<Reaction> {
    set i | 0 <= i < |steps| && steps[i].DeliverReaction? :: steps[i].reaction
  }

  /** The authors whose profile is stored after the steps. */
  function Known(profiles: set<Blob>, steps: seq<Step>): set<Blob> {
    profiles + set i | 0 <= i < |steps| && steps[i].LearnProfile? :: steps[i].author
  }

  /** The posts delivered at least once after their author's profile. */
  function AdmittedIn(profiles: set<Blob>, steps: seq<Step>): set<(Blob, Payload)> {
    set i | 0 <= i < |steps| && steps[i].DeliverPost? && steps[i].post.payload.author in Known(profiles, steps[..i])
      :: (steps[i].post.id, steps[i].post.payload)
  }

  // ---------------------------------------------------------------- counts equal a recount, in every run

  ghost predicate CountsAgree(t: Tables) {
    forall target :: ReadCounts(t, target) == Recount(t, target)
  }

  lemma {:induction false} RecountedAgrees(t: Tables, target: Blob, other: Blob)
    ensures ReadCounts(Recounted(t, target), other)
         == if other == target then Recount(t, target) else ReadCounts(t, other)
    ensures Recount(Recounted(t, target), other) == Recount(t, other)
  {
  }

  /** Storing a post changes the recount of nothing but the posts it replies to or reposts. */
  lemma {:induction false} OtherRecounts(t: Tables, p: Post, now: int, other: Blob)
    requires p.id !in t.posts
    requires other == [] || (other != p.payload.replyTo && other != p.payload.repostOf)
    ensures Recount(t.(posts := t.posts[p.id := RowOfPost(p, now)]), other) == Recount(t, other)
  {
    var posts' := t.posts[p.id := RowOfPost(p, now)];
    assert RepliesOf(posts', other) == RepliesOf(t.posts, other);
    assert RepostsOf(posts', other) == RepostsOf(t.posts, other);
  }

  lemma {:induction false} PostKeepsCounts(t: Tables, p: Post, now: int)
    requires CountsAgree(t)
    ensures CountsAgree(PostStep(t, p, now))
  {
    hide Recount;
    var t' := PostStep(t, p, now);
    if PostStatus(t, p) == Stored {
      var t1 := t.(cas := t.cas + {p.id}, posts := t.posts[p.id := RowOfPost(p, now)]);
      var t2 := RecountIfSet(t1, p.payload.replyTo);
      forall target ensures ReadCounts(t', target) == Recount(t', target) {
        RecountedAgrees(t1, p.payload.replyTo, target);
        RecountedAgrees(t2, p.payload.repostOf, target);
        RecountIgnoresCas(t1, t.cas, target);
        if target == [] || (target != p.payload.replyTo && target != p.payload.repostOf) {
          OtherRecounts(t, p, now, target);
        }
      }
    } else {
      forall target ensures ReadCounts(t', target) == Recount(t', target) {
        RecountIgnoresCas(t, t.cas + {p.id}, target);
      }
    }
  }

  lemma {:induction false} RecountIgnoresCas(t: Tables, cas: set<Blob>, target: Blob)
    ensures Recount(t.(cas := cas), target) == Recount(t, target)
  {
  }

  lemma {:induction false} ReactionKeepsCounts(t: Tables, r: Reaction)
    requires CountsAgree(t)
    ensures CountsAgree(ReactionStep(t, r))
  {
    var t' := ReactionStep(t, r);
    if r.id !in t.cas {
      var t1 := t.(cas := t.cas + {r.id}, reactions := InsertedReaction(t.reactions, r));
      forall target ensures ReadCounts(t', target) == Recount(t', target) {
        RecountedAgrees(t1, r.target, target);
        if target != r.target {
          assert LikesOf(t1.reactions, target) == LikesOf(t.reactions, target);
          assert ReadCounts(t, target) == Recount(t, target);
        }
      }
    }
  }

  /** In every reachable state the stored counts equal a recount, whatever was delivered and evicted. */
  lemma {:induction false} CountsAlwaysAgree(profiles: set<Blob>, steps: seq<Step>)
    ensures CountsAgree(Run(Fresh(profiles), steps))
    decreases |steps|
  {
    hide PostStep, ReactionStep, CountsAgree;
    if steps == [] {
      FreshAgrees(profiles);
    } else {
      var n := |steps| - 1;
      CountsAlwaysAgree(profiles, steps[..n]);
      var t := Run(Fresh(profiles), steps[..n]);
      match steps[n]
      case DeliverPost(p, now) => PostKeepsCounts(t, p, now);
      case DeliverReaction(r) => ReactionKeepsCounts(t, r);
      case LearnProfile(a) => ProfileKeepsCounts(t, a);
      case Evict(cid) => EvictKeepsCounts(t, cid);
    }
  }

  lemma {:induction false} FreshAgrees(profiles: set<Blob>)
    ensures CountsAgree(Fresh(profiles))
  {
    var t := Fresh(profiles);
    forall target ensures ReadCounts(t, target) == Recount(t, target) {
      assert LikesOf(map[], target) == {} && RepliesOf(map[], target) == {} && RepostsOf(map[], target) == {};
    }
  }

  lemma {:induction false} ProfileKeepsCounts(t: Tables, a: Blob)
    requires CountsAgree(t)
    ensures CountsAgree(t.(profiles := t.profiles + {a}, cas := t.cas + {a}))
  {
    var t' := t.(profiles := t.profiles + {a}, cas := t.cas + {a});
    forall target ensures ReadCounts(t', target) == Recount(t', target) { RecountIgnoresCas(t, t'.cas, target); }
  }

  lemma {:induction false} EvictKeepsCounts(t: Tables, cid: Blob)
    requires CountsAgree(t)
    ensures CountsAgree(t.(cas := t.cas - {cid}))
  {
    var t' := t.(cas := t.cas - {cid});
    forall target ensures ReadCounts(t', target) == Recount(t', target) { RecountIgnoresCas(t, t'.cas, target); }
  }

  // ---------------------------------------------------------------- convergence

  /** The validator's checks that matter here; ids are never empty. */
  predicate ValidStep(step: Step) {
    match step
    case DeliverPost(p, _) => p.id != []
    case DeliverReaction(r) => r.id != [] && r.kind == "like" && r.target != []
    case LearnProfile(_) => true
    case Evict(_) => true
  }

  /** Ids are content hashes: equal ids mean equal content, and no reaction shares one with a post or with a key. */
  ghost predicate CollisionFree(posts: set<(Blob, Payload)>, reactions: set<Reaction>, keys: set<Blob>) {
    && (forall a, b :: a in posts && b in posts && a.0 == b.0 ==> a == b)
    && (forall a, b :: a in reactions && b in reactions && a.id == b.id ==> a == b)
    && (forall a, b :: a in posts && b in reactions ==> a.0 != b.id)
    && (forall r :: r in reactions ==> r.id !in keys)
  }

  /** A stored row says what the payload says; the signature and the arrival time are not compared. */
  predicate RowMatches(row: PostRow, p: Payload) {
    && row.author == p.author && row.content == p.content && row.timestamp == p.timestamp
    && row.replyTo == NilIfEmpty(p.replyTo) && row.repostOf == NilIfEmpty(p.repostOf)
  }

  ghost predicate PostsMatch(posts: map<Blob, PostRow>, delivered: set<(Blob, Payload)>) {
    && (forall p :: p in delivered ==> p.0 in posts && RowMatches(posts[p.0], p.1))
    && (forall cid :: cid in posts ==> exists p :: p in delivered && p.0 == cid)
  }

  ghost predicate Covered(reactions: map<Blob, ReactionRow>, r: Reaction) {
    exists cid :: cid in reactions && SameReaction(reactions[cid], r.author, r.target, "like")
  }

  ghost predicate AllCovered(reactions: map<Blob, ReactionRow>, delivered: set<Reaction>) {
    forall r :: r in delivered ==> Covered(reactions, r)
  }

  ghost predicate Delivered(row: ReactionRow, delivered: set<Reaction>) {
    exists r :: r in delivered && SameReaction(row, r.author, r.target, "like")
  }

  ghost predicate AllDelivered(reactions: map<Blob, ReactionRow>, delivered: set<Reaction>) {
    forall cid :: cid in reactions ==> Delivered(reactions[cid], delivered)
  }

  /** The UNIQUE constraint of the reactions table. */
  ghost predicate UniqueRows(reactions: map<Blob, ReactionRow>) {
    forall c, d :: c in reactions && d in reactions && SameKey(reactions[c], reactions[d]) ==> c == d
  }

  predicate SameKey(a: ReactionRow, b: ReactionRow) {
    SameReaction(a, b.author, b.target, b.kind)
  }

  ghost predicate ReactionsMatch(reactions: map<Blob, ReactionRow>, delivered: set<Reaction>) {
    AllCovered(reactions, delivered) && AllDelivered(reactions, delivered) && UniqueRows(reactions)
  }

  ghost predicate IdOf(cid: Blob, posts: set<(Blob, Payload)>, reactions: set<Reaction>, keys: set<Blob>) {
    (exists p :: p in posts && p.0 == cid) || (exists r :: r in reactions && r.id == cid) || cid in keys
  }

  ghost predicate CasFrom(cas: set<Blob>, posts: set<(Blob, Payload)>, reactions: set<Reaction>, keys: set<Blob>) {
    forall cid :: cid in cas ==> IdOf(cid, posts, reactions, keys)
  }

  /** The tables hold the admitted posts and the delivered likes; the content store holds nothing else. */
  ghost predicate Tracks(
    t: Tables, admitted: set<(Blob, Payload)>, posts: set<(Blob, Payload)>, reactions: set<Reaction>)
  {
    && PostsMatch(t.posts, admitted) && admitted <= posts
    && ReactionsMatch(t.reactions, reactions) && CasFrom(t.cas, posts, reactions, t.profiles)
  }

  lemma {:induction false} RecountKeepsRest(t: Tables, target: Blob)
    ensures RecountIfSet(t, target).posts == t.posts && RecountIfSet(t, target).reactions == t.reactions
    ensures RecountIfSet(t, target).cas == t.cas && RecountIfSet(t, target).profiles == t.profiles
  {
  }

  lemma {:induction false} PostTracked(
    t: Tables, p: Post, now: int,
    admitted: set<(Blob, Payload)>, posts: set<(Blob, Payload)>, reactions: set<Reaction>, keys: set<Blob>)
    requires Tracks(t, admitted, posts, reactions)
    requires CollisionFree(posts + {(p.id, p.payload)}, reactions, keys)
    ensures Tracks(PostStep(t, p, now),
                   if p.payload.author in t.profiles then admitted + {(p.id, p.payload)} else admitted,
                   posts + {(p.id, p.payload)}, reactions)
    ensures PostStep(t, p, now).profiles == t.profiles
  {
    hide Recount, Recounted, RecountIfSet, ReactionsMatch, PostsMatch, CasFrom;
    var posts' := posts + {(p.id, p.payload)};
    assert (p.id, p.payload) in posts';
    IdsGrow(t.cas, posts, reactions, t.profiles, posts', reactions, t.profiles, p.id);
    if p.id in t.posts {
      KnownPost(t.posts, p, admitted, posts, reactions, keys);
      assert admitted + {(p.id, p.payload)} == admitted;
    } else if p.payload.author in t.profiles {
      var t1 := t.(cas := t.cas + {p.id}, posts := t.posts[p.id := RowOfPost(p, now)]);
      RecountKeepsRest(t1, p.payload.replyTo);
      RecountKeepsRest(RecountIfSet(t1, p.payload.replyTo), p.payload.repostOf);
      PostsGrow(t.posts, p, now, admitted);
    }
  }

  lemma {:induction false} KnownPost(
    rows: map<Blob, PostRow>, p: Post,
    admitted: set<(Blob, Payload)>, posts: set<(Blob, Payload)>, reactions: set<Reaction>, keys: set<Blob>)
    requires PostsMatch(rows, admitted) && admitted <= posts && p.id in rows
    requires CollisionFree(posts + {(p.id, p.payload)}, reactions, keys)
    ensures (p.id, p.payload) in admitted
  {
    var posts' := posts + {(p.id, p.payload)};
    var q :| q in admitted && q.0 == p.id;
    assert q in posts' && (p.id, p.payload) in posts';
  }

  lemma {:induction false} PostsGrow(rows: map<Blob, PostRow>, p: Post, now: int, posts: set<(Blob, Payload)>)
    requires PostsMatch(rows, posts) && p.id !in rows
    ensures PostsMatch(rows[p.id := RowOfPost(p, now)], posts + {(p.id, p.payload)})
  {
    var rows', posts' := rows[p.id := RowOfPost(p, now)], posts + {(p.id, p.payload)};
    assert (p.id, p.payload) in posts';
    forall cid | cid in rows' ensures exists q :: q in posts' && q.0 == cid {
      if cid != p.id {
        var q :| q in posts && q.0 == cid;
        assert q in posts';
      }
    }
  }

  lemma {:induction false} IdGrows(
    cid: Blob, posts: set<(Blob, Payload)>, reactions: set<Reaction>, keys: set<Blob>,
    posts': set<(Blob, Payload)>, reactions': set<Reaction>, keys': set<Blob>)
    requires IdOf(cid, posts, reactions, keys) && posts <= posts' && reactions <= reactions' && keys <= keys'
    ensures IdOf(cid, posts', reactions', keys')
  {
    if p :| p in posts && p.0 == cid {
      assert p in posts';
    } else if r :| r in reactions && r.id == cid {
      assert r in reactions';
    }
  }

  /** The content store may gain an object whose id is accounted for. */
  lemma {:induction false} IdsGrow(
    cas: set<Blob>, posts: set<(Blob, Payload)>, reactions: set<Reaction>, keys: set<Blob>,
    posts': set<(Blob, Payload)>, reactions': set<Reaction>, keys': set<Blob>, id: Blob)
    requires CasFrom(cas, posts, reactions, keys) && posts <= posts' && reactions <= reactions' && keys <= keys'
    ensures CasFrom(cas, posts', reactions', keys')
    ensures IdOf(id, posts', reactions', keys') ==> CasFrom(cas + {id}, posts', reactions', keys')
  {
    hide IdOf;
    forall cid | cid in cas ensures IdOf(cid, posts', reactions', keys') {
      IdGrows(cid, posts, reactions, keys, posts', reactions', keys');
    }
  }

  lemma {:induction false} DeliveredGrows(row: ReactionRow, some: set<Reaction>, all: set<Reaction>)
    requires Delivered(row, some) && some <= all
    ensures Delivered(row, all)
  {
    var q :| q in some && SameReaction(row, q.author, q.target, "like");
    assert q in all;
  }

  lemma {:induction false} CoveredGrows(rows: map<Blob, ReactionRow>, id: Blob, row: ReactionRow, q: Reaction)
    requires Covered(rows, q) && id !in rows
    ensures Covered(rows[id := row], q)
  {
    var rows' := rows[id := row];
    var cid :| cid in rows && SameReaction(rows[cid], q.author, q.target, "like");
    assert cid in rows' && rows'[cid] == rows[cid];
  }

  lemma {:induction false} UniqueInserted(rows: map<Blob, ReactionRow>, r: Reaction)
    requires UniqueRows(rows)
    ensures UniqueRows(InsertedReaction(rows, r))
  {
    var rows' := InsertedReaction(rows, r);
    if r.id !in rows && !HasReacted(rows, r.author, r.target, r.kind) {
      forall c, d | c in rows' && d in rows' && SameKey(rows'[c], rows'[d]) ensures c == d {
        if c == r.id && d != r.id {
          assert SameReaction(rows[d], r.author, r.target, r.kind);
        }
      }
    }
  }

  lemma {:induction false} InsertedMatches(rows: map<Blob, ReactionRow>, r: Reaction, reactions: set<Reaction>)
    requires ReactionsMatch(rows, reactions) && r.kind == "like"
    requires r.id in rows ==> r in reactions
    ensures ReactionsMatch(InsertedReaction(rows, r), reactions + {r})
  {
    hide Covered, Delivered, UniqueRows, HasReacted;
    var rows', all := InsertedReaction(rows, r), reactions + {r};
    UniqueInserted(rows, r);
    InsertedCovers(rows, r);
    InsertedDelivered(r, all);
    forall q | q in all ensures Covered(rows', q) {
      if q != r && rows' != rows { CoveredGrows(rows, r.id, RowOfReaction(r), q); }
    }
    forall cid | cid in rows' ensures Delivered(rows'[cid], all) {
      if cid in rows && rows'[cid] == rows[cid] { DeliveredGrows(rows[cid], reactions, all); }
    }
  }

  lemma {:induction false} InsertedCovers(rows: map<Blob, ReactionRow>, r: Reaction)
    requires r.kind == "like"
    ensures r.id !in rows ==> Covered(InsertedReaction(rows, r), r)
  {
    var rows' := InsertedReaction(rows, r);
    if r.id !in rows && !HasReacted(rows, r.author, r.target, r.kind) {
      assert r.id in rows' && SameReaction(rows'[r.id], r.author, r.target, "like");
    }
  }

  lemma {:induction false} InsertedDelivered(r: Reaction, all: set<Reaction>)
    requires r in all && r.kind == "like"
    ensures Delivered(RowOfReaction(r), all)
  {
    assert SameReaction(RowOfReaction(r), r.author, r.target, "like");
  }

  lemma {:induction false} ReactionTracked(
    t: Tables, r: Reaction, admitted: set<(Blob, Payload)>, posts: set<(Blob, Payload)>, reactions: set<Reaction>)
    requires Tracks(t, admitted, posts, reactions) && r.kind == "like"
    requires CollisionFree(posts, reactions + {r}, t.profiles)
    requires RowsFrom(t.reactions, reactions)
    ensures Tracks(ReactionStep(t, r), admitted, posts, reactions + {r})
    ensures RowsFrom(ReactionStep(t, r).reactions, reactions + {r})
    ensures ReactionStep(t, r).profiles == t.profiles
  {
    hide Recount, ReactionsMatch, PostsMatch, InsertedReaction;
    var all := reactions + {r};
    assert r in all;
    if r.id in t.cas {
      assert IdOf(r.id, posts, reactions, t.profiles);
      assert r in reactions by {
        if q :| q in reactions && q.id == r.id {
          assert q in all;
        }
      }
      assert all == reactions;
    } else {
      if r.id in t.reactions {
        var q :| q in reactions && q.id == r.id;
        assert q in all;
      }
      InsertedMatches(t.reactions, r, reactions);
      InsertedFrom(t.reactions, r, reactions);
      assert exists q :: q in all && q.id == r.id;
      IdsGrow(t.cas, posts, reactions, t.profiles, posts, all, t.profiles, r.id);
    }
  }

  /** The row says what the reaction says. */
  predicate IsRowOf(row: ReactionRow, r: Reaction) {
    row.author == r.author && row.target == r.target && row.kind == r.kind && row.timestamp == r.timestamp
  }

  /** Each row is that of a delivered reaction with its id. */
  ghost predicate RowsFrom(rows: map<Blob, ReactionRow>, reactions: set<Reaction>) {
    forall cid :: cid in rows ==> exists r :: r in reactions && r.id == cid && IsRowOf(rows[cid], r)
  }

  lemma {:induction false} InsertedFrom(rows: map<Blob, ReactionRow>, r: Reaction, reactions: set<Reaction>)
    requires RowsFrom(rows, reactions)
    ensures RowsFrom(InsertedReaction(rows, r), reactions + {r})
  {
    var rows', all := InsertedReaction(rows, r), reactions + {r};
    assert r in all;
    forall cid | cid in rows' ensures exists q :: q in all && q.id == cid && IsRowOf(rows'[cid], q) {
      if cid in rows {
        var q :| q in reactions && q.id == cid && IsRowOf(rows[cid], q);
        assert q in all;
      } else {
        assert IsRowOf(rows'[cid], r);
      }
    }
  }

  lemma {:induction false} DeliveredSnoc(steps: seq<Step>)
    requires steps != []
    ensures var n := |steps| - 1;
            && PostsIn(steps) == PostsIn(steps[..n])
                 + (if steps[n].DeliverPost? then {(steps[n].post.id, steps[n].post.payload)} else {})
            && ReactionsIn(steps) == ReactionsIn(steps[..n])
                 + (if steps[n].DeliverReaction? then {steps[n].reaction} else {})
  {
    var n := |steps| - 1;
    assert steps == steps[..n] + [steps[n]];
    assert forall i :: 0 <= i < n ==> steps[..n][i] == steps[i];
    if steps[n].DeliverPost? {
      assert (steps[n].post.id, steps[n].post.payload) in PostsIn(steps);
    }
    forall p | p in PostsIn(steps[..n]) ensures p in PostsIn(steps) {
      var i :| 0 <= i < n && steps[..n][i].DeliverPost? && (steps[..n][i].post.id, steps[..n][i].post.payload) == p;
      assert steps[i].DeliverPost?;
    }
    forall r | r in ReactionsIn(steps[..n]) ensures r in ReactionsIn(steps) {
      var i :| 0 <= i < n && steps[..n][i].DeliverReaction? && steps[..n][i].reaction == r;
      assert steps[i].DeliverReaction?;
    }
  }

  /** Valid messages without collisions; profiles may come before, between or after the posts of their authors. */
  ghost predicate GoodRun(profiles: set<Blob>, steps: seq<Step>) {
    && (forall i :: 0 <= i < |steps| ==> ValidStep(steps[i]))
    && CollisionFree(PostsIn(steps), ReactionsIn(steps), Known(profiles, steps))
  }

  lemma {:induction false} KnownSnoc(profiles: set<Blob>, steps: seq<Step>)
    requires steps != []
    ensures var n := |steps| - 1;
            Known(profiles, steps) == Known(profiles, steps[..n]) + (if steps[n].LearnProfile? then {steps[n].author} else {})
  {
    var n := |steps| - 1;
    assert forall i :: 0 <= i < n ==> steps[..n][i] == steps[i];
    forall a | a in Known(profiles, steps[..n]) ensures a in Known(profiles, steps) {
      if a !in profiles {
        var i :| 0 <= i < n && steps[..n][i].LearnProfile? && steps[..n][i].author == a;
        assert steps[i].LearnProfile?;
      }
    }
    forall a | a in Known(profiles, steps) && a !in Known(profiles, steps[..n])
      ensures steps[n].LearnProfile? && steps[n].author == a
    {
      var i :| 0 <= i < |steps| && steps[i].LearnProfile? && steps[i].author == a;
      if i < n { assert steps[..n][i].LearnProfile?; }
    }
  }

  lemma {:induction false} AdmittedSnoc(profiles: set<Blob>, steps: seq<Step>)
    requires steps != []
    ensures var n := |steps| - 1;
            AdmittedIn(profiles, steps) == AdmittedIn(profiles, steps[..n])
              + (if steps[n].DeliverPost? && steps[n].post.payload.author in Known(profiles, steps[..n])
                 then {(steps[n].post.id, steps[n].post.payload)} else {})
  {
    hide Known;
    var n := |steps| - 1;
    assert forall i :: 0 <= i < n ==> steps[..n][i] == steps[i] && steps[..n][..i] == steps[..i];
    forall p | p in AdmittedIn(profiles, steps[..n]) ensures p in AdmittedIn(profiles, steps) {
      var i :| 0 <= i < n && steps[..n][i].DeliverPost? && steps[..n][i].post.payload.author in Known(profiles, steps[..n][..i])
               && (steps[..n][i].post.id, steps[..n][i].post.payload) == p;
      assert steps[i].DeliverPost?;
    }
    forall p | p in AdmittedIn(profiles, steps) && p !in AdmittedIn(profiles, steps[..n])
      ensures steps[n].DeliverPost? && (steps[n].post.id, steps[n].post.payload) == p
      ensures steps[n].post.payload.author in Known(profiles, steps[..n])
    {
      var i :| 0 <= i < |steps| && steps[i].DeliverPost? && steps[i].post.payload.author in Known(profiles, steps[..i])
               && (steps[i].post.id, steps[i].post.payload) == p;
      if i < n { assert steps[..n][i].DeliverPost?; }
    }
  }

  lemma {:induction false} GoodPrefix(profiles: set<Blob>, steps: seq<Step>)
    requires steps != [] && GoodRun(profiles, steps)
    ensures GoodRun(profiles, steps[..|steps| - 1])
  {
    hide PostsIn, ReactionsIn, Known;
    DeliveredSnoc(steps);
    KnownSnoc(profiles, steps);
  }

  /** After a run the tables hold exactly the admitted posts and the delivered likes. */
  lemma {:induction false} RunTracks(profiles: set<Blob>, steps: seq<Step>)
    requires GoodRun(profiles, steps)
    ensures Tracks(Run(Fresh(profiles), steps), AdmittedIn(profiles, steps), PostsIn(steps), ReactionsIn(steps))
    ensures RowsFrom(Run(Fresh(profiles), steps).reactions, ReactionsIn(steps))
    ensures Run(Fresh(profiles), steps).profiles == Known(profiles, steps)
    decreases |steps|
  {
    hide PostStep, ReactionStep, CollisionFree, Tracks, RowsFrom, PostsIn, ReactionsIn, AdmittedIn, Known;
    if steps == [] {
      EmptyTracks(profiles);
    } else {
      var n := |steps| - 1;
      GoodPrefix(profiles, steps);
      RunTracks(profiles, steps[..n]);
      DeliveredSnoc(steps);
      KnownSnoc(profiles, steps);
      AdmittedSnoc(profiles, steps);
      var t := Run(Fresh(profiles), steps[..n]);
      var admitted, posts, reactions := AdmittedIn(profiles, steps[..n]), PostsIn(steps[..n]), ReactionsIn(steps[..n]);
      assert admitted + {} == admitted && posts + {} == posts && reactions + {} == reactions;
      assert t.profiles + {} == t.profiles;
      match steps[n]
      case DeliverPost(p, now) =>
        PostTracked(t, p, now, admitted, posts, reactions, t.profiles);
        PostKeepsReactions(t, p, now);
      case DeliverReaction(r) => ReactionTracked(t, r, admitted, posts, reactions);
      case LearnProfile(a) => ProfileTracked(t, a, admitted, posts, reactions);
      case Evict(cid) => EvictTracked(t, cid, admitted, posts, reactions);
    }
  }

  lemma {:induction false} EmptyTracks(profiles: set<Blob>)
    ensures Tracks(Fresh(profiles), AdmittedIn(profiles, []), PostsIn([]), ReactionsIn([]))
    ensures RowsFrom(Fresh(profiles).reactions, ReactionsIn([])) && Known(profiles, []) == profiles
  {
  }

  lemma {:induction false} PostKeepsReactions(t: Tables, p: Post, now: int)
    ensures PostStep(t, p, now).reactions == t.reactions
  {
  }

  lemma {:induction false} ProfileTracked(
    t: Tables, a: Blob, admitted: set<(Blob, Payload)>, posts: set<(Blob, Payload)>, reactions: set<Reaction>)
    requires Tracks(t, admitted, posts, reactions)
    ensures Tracks(t.(profiles := t.profiles + {a}, cas := t.cas + {a}), admitted, posts, reactions)
  {
    hide PostsMatch, ReactionsMatch, CasFrom;
    IdsGrow(t.cas, posts, reactions, t.profiles, posts, reactions, t.profiles + {a}, a);
  }

  lemma {:induction false} EvictTracked(
    t: Tables, cid: Blob, admitted: set<(Blob, Payload)>, posts: set<(Blob, Payload)>, reactions: set<Reaction>)
    requires Tracks(t, admitted, posts, reactions)
    ensures Tracks(t.(cas := t.cas - {cid}), admitted, posts, reactions)
  {
    hide IdOf, PostsMatch, ReactionsMatch;
  }

  function Likers(reactions: set<Reaction>, target: Blob): set<Blob> {
    set r | r in reactions && r.target == target :: r.author
  }

  function Repliers(posts: set<(Blob, Payload)>, target: Blob): set<Blob> {
    set p | p in posts && target != [] && p.1.replyTo == target :: p.0
  }

  function Reposters(posts: set<(Blob, Payload)>, target: Blob): set<Blob> {
    set p | p in posts && target != [] && p.1.repostOf == target :: p.0
  }

  function AuthorAt(rows: map<Blob, ReactionRow>, cid: Blob): Blob {
    if cid in rows then rows[cid].author else []
  }

  lemma {:induction false} OneLikePerAuthor(rows: map<Blob, ReactionRow>, target: Blob, x: Blob, y: Blob)
    requires UniqueRows(rows) && x in LikesOf(rows, target) && y in LikesOf(rows, target)
    requires AuthorAt(rows, x) == AuthorAt(rows, y)
    ensures x == y
  {
    assert SameKey(rows[x], rows[y]);
  }

  lemma {:induction false} LikeHasLiker(rows: map<Blob, ReactionRow>, reactions: set<Reaction>, target: Blob, x: Blob)
    requires AllDelivered(rows, reactions) && x in LikesOf(rows, target)
    ensures AuthorAt(rows, x) in Likers(reactions, target)
  {
    assert Delivered(rows[x], reactions);
    var r :| r in reactions && SameReaction(rows[x], r.author, r.target, "like");
  }

  lemma {:induction false} LikerHasLike(rows: map<Blob, ReactionRow>, reactions: set<Reaction>, target: Blob, b: Blob)
    returns (cid: Blob)
    requires AllCovered(rows, reactions) && b in Likers(reactions, target)
    ensures cid in LikesOf(rows, target) && AuthorAt(rows, cid) == b
  {
    var r :| r in reactions && r.target == target && r.author == b;
    assert Covered(rows, r);
    cid :| cid in rows && SameReaction(rows[cid], r.author, r.target, "like");
  }

  lemma {:induction false} LikesAreLikers(rows: map<Blob, ReactionRow>, reactions: set<Reaction>, target: Blob)
    requires ReactionsMatch(rows, reactions)
    ensures |LikesOf(rows, target)| == |Likers(reactions, target)|
  {
    hide LikesOf, Likers, AuthorAt, UniqueRows, AllDelivered, AllCovered;
    var f := cid => AuthorAt(rows, cid);
    var s, t := LikesOf(rows, target), Likers(reactions, target);
    forall x, y | x in s && y in s && f(x) == f(y) ensures x == y { OneLikePerAuthor(rows, target, x, y); }
    forall x | x in s ensures f(x) in t { LikeHasLiker(rows, reactions, target, x); }
    forall b | b in t ensures exists x :: x in s && f(x) == b {
      var x := LikerHasLike(rows, reactions, target, b);
      assert f(x) == b;
    }
    ImageSize(s, t, f);
  }

  lemma {:induction false} RepliesAreRepliers(rows: map<Blob, PostRow>, posts: set<(Blob, Payload)>, target: Blob)
    requires PostsMatch(rows, posts)
    ensures RepliesOf(rows, target) == Repliers(posts, target)
    ensures RepostsOf(rows, target) == Reposters(posts, target)
  {
    forall cid ensures cid in RepliesOf(rows, target) <==> cid in Repliers(posts, target) {
      if cid in rows {
        var p :| p in posts && p.0 == cid;
        assert RowMatches(rows[cid], p.1);
      }
    }
    forall cid ensures cid in RepostsOf(rows, target) <==> cid in Reposters(posts, target) {
      if cid in rows {
        var p :| p in posts && p.0 == cid;
        assert RowMatches(rows[cid], p.1);
      }
    }
  }

  /** The final counts in terms of what was delivered: likes are distinct likers. */
  lemma {:induction false} FinalCounts(profiles: set<Blob>, steps: seq<Step>, target: Blob)
    requires GoodRun(profiles, steps)
    ensures ReadCounts(Run(Fresh(profiles), steps), target)
         == Counts(|Likers(ReactionsIn(steps), target)|,
                   |Repliers(AdmittedIn(profiles, steps), target)|,
                   |Reposters(AdmittedIn(profiles, steps), target)|)
  {
    hide GoodRun, PostsMatch, ReactionsMatch, Run, LikesOf, RepliesOf, RepostsOf, Likers, Repliers, Reposters, PostsIn, ReactionsIn, AdmittedIn, Known;
    RunTracks(profiles, steps);
    CountsAlwaysAgree(profiles, steps);
    var t := Run(Fresh(profiles), steps);
    LikesAreLikers(t.reactions, ReactionsIn(steps), target);
    RepliesAreRepliers(t.posts, AdmittedIn(profiles, steps), target);
  }

  datatype PostContent = PostContent(author: Blob, content: string, replyTo: Option<Blob>, repostOf: Option<Blob>, timestamp: int)

  function ContentOf(row: PostRow): PostContent {
    PostContent(row.author, row.content, row.replyTo, row.repostOf, row.timestamp)
  }

  function PostTable(t: Tables): map<Blob, PostContent> {
    map cid | cid in t.posts :: ContentOf(t.posts[cid])
  }

  lemma {:induction false} SamePosts(a: Tables, b: Tables, posts: set<(Blob, Payload)>)
    requires PostsMatch(a.posts, posts) && PostsMatch(b.posts, posts)
    ensures PostTable(a) == PostTable(b)
  {
    forall cid ensures cid in PostTable(a) <==> cid in PostTable(b) {
      if cid in a.posts {
        var p :| p in posts && p.0 == cid;
      }
    }
    forall cid | cid in PostTable(a) ensures PostTable(a)[cid] == PostTable(b)[cid] {
      var p :| p in posts && p.0 == cid;
      assert RowMatches(a.posts[cid], p.1) && RowMatches(b.posts[cid], p.1);
    }
  }

  lemma {:induction false} ContentDecides(row: PostRow, p: Payload, q: Payload)
    requires RowMatches(row, p)
    ensures RowMatches(row, q) <==> p == q
  {
  }

  /** The table determines the admitted posts. */
  lemma {:induction false} SameAdmitted(a: Tables, b: Tables, posts: set<(Blob, Payload)>, posts': set<(Blob, Payload)>)
    requires PostsMatch(a.posts, posts) && PostsMatch(b.posts, posts') && PostTable(a) == PostTable(b)
    ensures posts <= posts'
  {
    hide RowMatches;
    forall p | p in posts ensures p in posts' {
      var row := a.posts[p.0];
      assert p.0 in PostTable(a) && PostTable(a)[p.0] == ContentOf(row);
      assert p.0 in PostTable(b) && PostTable(b)[p.0] == ContentOf(b.posts[p.0]);
      var q :| q in posts' && q.0 == p.0;
      assert RowMatches(b.posts[p.0], q.1);
      SameContent(row, b.posts[p.0], p.1, q.1);
      assert p == (p.0, p.1) && q == (q.0, q.1);
    }
  }

  lemma {:induction false} SameContent(row: PostRow, row': PostRow, p: Payload, q: Payload)
    requires RowMatches(row, p) && RowMatches(row', q) && ContentOf(row) == ContentOf(row')
    ensures p == q
  {
    ContentDecides(row, p, q);
  }

  /**
    When two runs agree on the posts: exactly when the same posts were delivered at least once after their
    author's profile. Order, repetition and evicted content objects play no other part.
   */
  lemma {:induction false} PostsConvergeIff(profiles: set<Blob>, a: seq<Step>, b: seq<Step>)
    requires GoodRun(profiles, a) && GoodRun(profiles, b)
    ensures PostTable(Run(Fresh(profiles), a)) == PostTable(Run(Fresh(profiles), b))
       <==> AdmittedIn(profiles, a) == AdmittedIn(profiles, b)
  {
    hide GoodRun, PostsIn, ReactionsIn, AdmittedIn, Known, Run, PostTable, PostsMatch, ReactionsMatch, CasFrom;
    RunTracks(profiles, a);
    RunTracks(profiles, b);
    var s, t := Run(Fresh(profiles), a), Run(Fresh(profiles), b);
    if AdmittedIn(profiles, a) == AdmittedIn(profiles, b) {
      SamePosts(s, t, AdmittedIn(profiles, a));
    }
    if PostTable(s) == PostTable(t) {
      SameAdmitted(s, t, AdmittedIn(profiles, a), AdmittedIn(profiles, b));
      SameAdmitted(t, s, AdmittedIn(profiles, b), AdmittedIn(profiles, a));
    }
  }

  /** With the authors' profiles stored beforehand every delivered post is admitted. */
  lemma {:induction false} AllAdmitted(profiles: set<Blob>, steps: seq<Step>)
    requires forall p :: p in PostsIn(steps) ==> p.1.author in profiles
    ensures AdmittedIn(profiles, steps) == PostsIn(steps)
  {
    forall i | 0 <= i < |steps| && steps[i].DeliverPost?
      ensures steps[i].post.payload.author in Known(profiles, steps[..i])
    {
      assert (steps[i].post.id, steps[i].post.payload) in PostsIn(steps);
    }
  }

  ghost predicate SameCounts(a: Tables, b: Tables) {
    forall target :: ReadCounts(a, target) == ReadCounts(b, target)
  }

  /** Runs that admit the same posts and deliver the same likes end with the same posts and the same counts. */
  lemma {:induction false} ConvergesAdmitted(profiles: set<Blob>, a: seq<Step>, b: seq<Step>)
    requires GoodRun(profiles, a) && GoodRun(profiles, b)
    requires AdmittedIn(profiles, a) == AdmittedIn(profiles, b) && ReactionsIn(a) == ReactionsIn(b)
    ensures PostTable(Run(Fresh(profiles), a)) == PostTable(Run(Fresh(profiles), b))
    ensures SameCounts(Run(Fresh(profiles), a), Run(Fresh(profiles), b))
  {
    hide GoodRun, PostsIn, ReactionsIn, AdmittedIn, Run, PostTable, ReadCounts;
    PostsConvergeIff(profiles, a, b);
    forall target
      ensures ReadCounts(Run(Fresh(profiles), a), target) == ReadCounts(Run(Fresh(profiles), b), target)
    {
      FinalCounts(profiles, a, target);
      FinalCounts(profiles, b, target);
    }
  }

  /**
    Convergence: with the authors' profiles stored, runs that deliver the same posts and likes, in any order, with
    any repetition and with any content objects evicted in between, end with the same posts and the same counts.
   */
  lemma {:induction false} Converges(profiles: set<Blob>, a: seq<Step>, b: seq<Step>)
    requires GoodRun(profiles, a) && GoodRun(profiles, b)
    requires forall p :: p in PostsIn(a) ==> p.1.author in profiles
    requires PostsIn(a) == PostsIn(b) && ReactionsIn(a) == ReactionsIn(b)
    ensures PostTable(Run(Fresh(profiles), a)) == PostTable(Run(Fresh(profiles), b))
    ensures SameCounts(Run(Fresh(profiles), a), Run(Fresh(profiles), b))
  {
    hide GoodRun, PostsIn, ReactionsIn, AdmittedIn, Run, PostTable, SameCounts;
    AllAdmitted(profiles, a);
    AllAdmitted(profiles, b);
    ConvergesAdmitted(profiles, a, b);
  }

  lemma {:induction false} RunTwo(t: Tables, a: Step, b: Step)
    ensures Run(t, [a, b]) == Apply(Apply(t, a), b)
  {
    hide Apply;
    assert [a, b][..1] == [a] && [a][..0] == [];
    assert Run(t, []) == t;
    assert Run(t, [a]) == Apply(t, a);
  }

  lemma {:induction false} UnknownKept(t: Tables, p: Post, now: int)
    requires p.id !in t.posts && p.payload.author !in t.profiles
    ensures PostStep(t, p, now) == t.(cas := t.cas + {p.id})
  {
  }

  lemma {:induction false} KnownStored(t: Tables, p: Post, now: int)
    requires p.id !in t.posts && p.payload.author in t.profiles
    ensures p.id in PostStep(t, p, now).posts
  {
    hide Recount;
  }

  /** A post that arrives only before its author's profile is lost, although its object stays in the content store. */
  lemma {:induction false} EarlyPostLost(p: Post, now: int)
    ensures Run(Fresh({}), [DeliverPost(p, now), LearnProfile(p.payload.author)]).posts == map[]
    ensures p.id in Run(Fresh({}), [DeliverPost(p, now), LearnProfile(p.payload.author)]).cas
    ensures p.id in Run(Fresh({}), [LearnProfile(p.payload.author), DeliverPost(p, now)]).posts
  {
    hide PostStep, Run;
    var d, l := DeliverPost(p, now), LearnProfile(p.payload.author);
    RunTwo(Fresh({}), d, l);
    RunTwo(Fresh({}), l, d);
    UnknownKept(Fresh({}), p, now);
    KnownStored(Apply(Fresh({}), l), p, now);
  }
}
