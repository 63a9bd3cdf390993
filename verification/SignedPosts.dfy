/**
  Stored posts with their signatures.

  A post's id hashes its content with the signature left out, so two validly signed copies of one post share an id
  and the first one to be stored is kept. This module says exactly which signature that is, when two runs agree on
  the whole table, and for which sets of messages every order of delivery gives the same table. Only the arrival time
  is not compared.
 */
module SignedPosts {
  import opened Wrappers
  import opened Replication

  datatype SignedPost = SignedPost(content: PostContent, signature: Blob)

  function Signed(row: PostRow): SignedPost {
    SignedPost(ContentOf(row), row.signature)
  }

  /** The table of posts without the arrival times. */
  function SignedTable(t: Tables): map<Blob, SignedPost> {
    map cid | cid in t.posts :: Signed(t.posts[cid])
  }

  function StoredSignature(t: Tables, id: Blob): Option<Blob> {
    if id in t.posts then Some(t.posts[id].signature) else None
  }

  /** Step `i` delivers `id` at a time when its author's profile is stored. */
  ghost predicate Admits(profiles: set<Blob>, steps: seq<Step>, i: nat, id: Blob)
    requires i < |steps|
  {
    steps[i].DeliverPost? && steps[i].post.id == id && steps[i].post.payload.author in Known(profiles, steps[..i])
  }

  /** The signature of the first delivery that admits `id`. */
  ghost function FirstSignature(profiles: set<Blob>, steps: seq<Step>, id: Blob): Option<Blob> {
    if steps == [] then None
    else
      var n := |steps| - 1;
      var before := FirstSignature(profiles, steps[..n], id);
      if before.Some? then before
      else if Admits(profiles, steps, n, id) then Some(steps[n].post.signature)
      else None
  }

  // ---------------------------------------------------------------- which signature is stored

  lemma {:induction false} PostStepSignature(t: Tables, p: Post, now: int, id: Blob)
    ensures PostStep(t, p, now).profiles == t.profiles
    ensures StoredSignature(PostStep(t, p, now), id)
         == if StoredSignature(t, id).None? && p.id == id && p.payload.author in t.profiles then Some(p.signature)
            else StoredSignature(t, id)
  {
    hide Recount;
  }

  lemma {:induction false} OtherStepSignature(t: Tables, step: Step, id: Blob)
    requires !step.DeliverPost?
    ensures StoredSignature(Apply(t, step), id) == StoredSignature(t, id)
    ensures Apply(t, step).profiles == t.profiles + (if step.LearnProfile? then {step.author} else {})
  {
    hide Recount, InsertedReaction;
  }

  /** For every run: the stored signature is that of the first admitting delivery. */
  lemma {:induction false} SignatureIsFirst(profiles: set<Blob>, steps: seq<Step>, id: Blob)
    ensures StoredSignature(Run(Fresh(profiles), steps), id) == FirstSignature(profiles, steps, id)
    ensures Run(Fresh(profiles), steps).profiles == Known(profiles, steps)
    decreases |steps|
  {
    hide Known, PostStep, ReactionStep, StoredSignature;
    if steps == [] {
      NothingStored(profiles, id);
    } else {
      var n := |steps| - 1;
      SignatureIsFirst(profiles, steps[..n], id);
      KnownSnoc(profiles, steps);
      var t := Run(Fresh(profiles), steps[..n]);
      if steps[n].DeliverPost? {
        PostStepSignature(t, steps[n].post, steps[n].now, id);
      } else {
        OtherStepSignature(t, steps[n], id);
      }
    }
  }

  lemma {:induction false} NothingStored(profiles: set<Blob>, id: Blob)
    ensures StoredSignature(Fresh(profiles), id) == None && Known(profiles, []) == profiles
  {
  }

  function StoredArrival(t: Tables, id: Blob): Option<int> {
    if id in t.posts then Some(t.posts[id].receivedAt) else None
  }

  /** The time of the first delivery that admits `id`. */
  ghost function FirstArrival(profiles: set<Blob>, steps: seq<Step>, id: Blob): Option<int> {
    if steps == [] then None
    else
      var n := |steps| - 1;
      var before := FirstArrival(profiles, steps[..n], id);
      if before.Some? then before
      else if Admits(profiles, steps, n, id) then Some(steps[n].now)
      else None
  }

  lemma {:induction false} StepArrival(t: Tables, step: Step, id: Blob)
    ensures StoredArrival(Apply(t, step), id)
         == if StoredArrival(t, id).None? && step.DeliverPost? && step.post.id == id && step.post.payload.author in t.profiles
            then Some(step.now) else StoredArrival(t, id)
  {
    hide Recount, InsertedReaction;
  }

  /** For every run: the stored arrival time is that of the first admitting delivery. */
  lemma {:induction false} ArrivalIsFirst(profiles: set<Blob>, steps: seq<Step>, id: Blob)
    ensures StoredArrival(Run(Fresh(profiles), steps), id) == FirstArrival(profiles, steps, id)
    decreases |steps|
  {
    hide Known, Apply, StoredArrival;
    if steps == [] {
      NoArrival(profiles, id);
    } else {
      var n := |steps| - 1;
      ArrivalIsFirst(profiles, steps[..n], id);
      SignatureIsFirst(profiles, steps[..n], id);
      StepArrival(Run(Fresh(profiles), steps[..n]), steps[n], id);
    }
  }

  lemma {:induction false} NoArrival(profiles: set<Blob>, id: Blob)
    ensures StoredArrival(Fresh(profiles), id) == None
  {
  }

  // ---------------------------------------------------------------- when two runs agree

  ghost predicate SameFirst(profiles: set<Blob>, a: seq<Step>, b: seq<Step>) {
    forall id :: FirstSignature(profiles, a, id) == FirstSignature(profiles, b, id)
  }

  ghost predicate SameStored(s: Tables, t: Tables) {
    forall id :: StoredSignature(s, id) == StoredSignature(t, id)
  }

  lemma {:induction false} SignedTableParts(s: Tables, t: Tables)
    ensures SignedTable(s) == SignedTable(t) <==> PostTable(s) == PostTable(t) && SameStored(s, t)
  {
    if SignedTable(s) == SignedTable(t) {
      forall id ensures id in s.posts <==> id in t.posts {
        assert id in SignedTable(s) <==> id in SignedTable(t);
      }
      forall id | id in s.posts ensures Signed(s.posts[id]) == Signed(t.posts[id]) {
        assert SignedTable(s)[id] == SignedTable(t)[id];
      }
      assert PostTable(s) == PostTable(t);
    }
    if PostTable(s) == PostTable(t) && SameStored(s, t) {
      forall id ensures id in s.posts <==> id in t.posts {
        assert id in PostTable(s) <==> id in PostTable(t);
      }
      forall id | id in s.posts ensures Signed(s.posts[id]) == Signed(t.posts[id]) {
        assert PostTable(s)[id] == PostTable(t)[id];
        assert StoredSignature(s, id) == StoredSignature(t, id);
      }
    }
  }

  /**
    Two runs end with the same posts, signatures included, if and only if they admit the same posts and each id's
    first admitting delivery carries the same signature.
   */
  lemma {:induction false} SignedConvergeIff(profiles: set<Blob>, a: seq<Step>, b: seq<Step>)
    requires GoodRun(profiles, a) && GoodRun(profiles, b)
    ensures SignedTable(Run(Fresh(profiles), a)) == SignedTable(Run(Fresh(profiles), b))
       <==> AdmittedIn(profiles, a) == AdmittedIn(profiles, b) && SameFirst(profiles, a, b)
  {
    hide GoodRun, AdmittedIn, Run, PostTable, SignedTable, FirstSignature, StoredSignature;
    var s, t := Run(Fresh(profiles), a), Run(Fresh(profiles), b);
    PostsConvergeIff(profiles, a, b);
    SignedTableParts(s, t);
    forall id ensures StoredSignature(s, id) == FirstSignature(profiles, a, id)
      ensures StoredSignature(t, id) == FirstSignature(profiles, b, id)
    {
      SignatureIsFirst(profiles, a, id);
      SignatureIsFirst(profiles, b, id);
    }
  }

  // ---------------------------------------------------------------- when every order agrees

  /** The posts a run delivers, with their signatures, and the profiles it learns. */
  function Delivered(steps: seq<Step>): set<Post> {
    set i | 0 <= i < |steps| && steps[i].DeliverPost? :: steps[i].post
  }

  function Learned(steps: seq<Step>): set<Blob> {
    set i | 0 <= i < |steps| && steps[i].LearnProfile? :: steps[i].author
  }

  /** Ids are hashes of the content, and not empty. */
  ghost predicate HashedIds(posts: set<Post>) {
    && (forall p :: p in posts ==> p.id != [])
    && (forall p, q :: p in posts && q in posts && p.id == q.id ==> p.payload == q.payload)
  }

  ghost predicate SameSigned(profiles: set<Blob>, a: seq<Step>, b: seq<Step>) {
    SignedTable(Run(Fresh(profiles), a)) == SignedTable(Run(Fresh(profiles), b))
  }

  ghost predicate Delivers(profiles: set<Blob>, steps: seq<Step>, posts: set<Post>, learned: set<Blob>) {
    GoodRun(profiles, steps) && Delivered(steps) == posts && Learned(steps) == learned
  }

  /** All runs that deliver these posts and learn these profiles, with any reactions and evictions, agree. */
  ghost predicate OrderIrrelevant(profiles: set<Blob>, posts: set<Post>, learned: set<Blob>) {
    forall a, b :: Delivers(profiles, a, posts, learned) && Delivers(profiles, b, posts, learned)
      ==> SameSigned(profiles, a, b)
  }

  /** No author of a post becomes known on the way. */
  ghost predicate NoLateProfile(profiles: set<Blob>, posts: set<Post>, learned: set<Blob>) {
    forall p :: p in posts && p.payload.author in learned ==> p.payload.author in profiles
  }

  /** No post of a known author comes with two signatures. */
  ghost predicate OneSignature(profiles: set<Blob>, posts: set<Post>) {
    forall p, q :: p in posts && q in posts && p.id == q.id && p.payload.author in profiles ==> p.signature == q.signature
  }

  lemma {:induction false} KnownBounds(profiles: set<Blob>, steps: seq<Step>, i: nat)
    requires i <= |steps|
    ensures profiles <= Known(profiles, steps[..i]) <= profiles + Learned(steps)
  {
    forall a | a in Known(profiles, steps[..i]) ensures a in profiles + Learned(steps) {
      if a !in profiles {
        var k :| 0 <= k < i && steps[..i][k].LearnProfile? && steps[..i][k].author == a;
        assert steps[k].LearnProfile? && steps[k].author == a;
      }
    }
  }

  ghost predicate FirstFrom(profiles: set<Blob>, steps: seq<Step>, id: Blob, i: nat) {
    i < |steps| && Admits(profiles, steps, i, id) && FirstSignature(profiles, steps, id) == Some(steps[i].post.signature)
  }

  lemma {:induction false} AdmitsPrefix(profiles: set<Blob>, steps: seq<Step>, n: nat, i: nat, id: Blob)
    requires i < n <= |steps|
    ensures Admits(profiles, steps[..n], i, id) == Admits(profiles, steps, i, id)
  {
    hide Known;
    assert steps[..n][..i] == steps[..i];
  }

  /** The first signature is that of some admitting delivery. */
  lemma {:induction false} FirstIsDelivered(profiles: set<Blob>, steps: seq<Step>, id: Blob) returns (i: nat)
    requires FirstSignature(profiles, steps, id).Some?
    ensures FirstFrom(profiles, steps, id, i)
    decreases |steps|
  {
    hide Admits;
    var n := |steps| - 1;
    if FirstSignature(profiles, steps[..n], id).Some? {
      i := FirstIsDelivered(profiles, steps[..n], id);
      AdmitsPrefix(profiles, steps, n, i, id);
    } else {
      i := n;
    }
  }

  /** Any admitting delivery gives an id a first signature. */
  lemma {:induction false} AdmittedHasFirst(profiles: set<Blob>, steps: seq<Step>, id: Blob, i: nat)
    requires i < |steps| && Admits(profiles, steps, i, id)
    ensures FirstSignature(profiles, steps, id).Some?
    decreases |steps|
  {
    hide Admits;
    var n := |steps| - 1;
    if i < n {
      AdmitsPrefix(profiles, steps, n, i, id);
      AdmittedHasFirst(profiles, steps[..n], id, i);
    }
  }

  ghost predicate NeverAdmits(profiles: set<Blob>, steps: seq<Step>, id: Blob) {
    forall i :: 0 <= i < |steps| ==> !Admits(profiles, steps, i, id)
  }

  lemma {:induction false} NeverAdmitsNoFirst(profiles: set<Blob>, steps: seq<Step>, id: Blob)
    requires NeverAdmits(profiles, steps, id)
    ensures FirstSignature(profiles, steps, id) == None
    decreases |steps|
  {
    hide Admits;
    if steps != [] {
      var n := |steps| - 1;
      forall i | 0 <= i < n ensures !Admits(profiles, steps[..n], i, id) { AdmitsPrefix(profiles, steps, n, i, id); }
      NeverAdmitsNoFirst(profiles, steps[..n], id);
    }
  }

  lemma {:induction false} FirstStays(profiles: set<Blob>, a: seq<Step>, b: seq<Step>, id: Blob)
    requires FirstSignature(profiles, a, id).Some?
    ensures FirstSignature(profiles, a + b, id) == FirstSignature(profiles, a, id)
    decreases |b|
  {
    hide Admits;
    if b == [] {
      assert a + b == a;
    } else {
      var n := |b| - 1;
      FirstStays(profiles, a, b[..n], id);
      assert (a + b)[..|a + b| - 1] == a + b[..n];
    }
  }

  /** Under the two conditions an id's first signature is fixed by the set of posts. */
  lemma {:induction false} FirstIsFixed(
    profiles: set<Blob>, steps: seq<Step>, posts: set<Post>, learned: set<Blob>, p: Post)
    requires Delivered(steps) == posts && Learned(steps) == learned && p in posts
    requires HashedIds(posts) && NoLateProfile(profiles, posts, learned) && OneSignature(profiles, posts)
    ensures FirstSignature(profiles, steps, p.id) == if p.payload.author in profiles then Some(p.signature) else None
  {
    hide Known, FirstSignature;
    var author := p.payload.author;
    if author in profiles {
      var i :| 0 <= i < |steps| && steps[i].DeliverPost? && steps[i].post == p;
      KnownBounds(profiles, steps, i);
      AdmittedHasFirst(profiles, steps, p.id, i);
      var k := FirstIsDelivered(profiles, steps, p.id);
      assert steps[k].post in posts;
    } else {
      forall i | 0 <= i < |steps| ensures !Admits(profiles, steps, i, p.id) {
        if steps[i].DeliverPost? { assert steps[i].post in posts; }
        KnownBounds(profiles, steps, i);
      }
      NeverAdmitsNoFirst(profiles, steps, p.id);
    }
  }

  lemma {:induction false} NotDeliveredNoFirst(profiles: set<Blob>, steps: seq<Step>, id: Blob)
    requires forall p :: p in Delivered(steps) ==> p.id != id
    ensures FirstSignature(profiles, steps, id) == None
  {
    hide Known, FirstSignature;
    forall i | 0 <= i < |steps| ensures !Admits(profiles, steps, i, id) {
      if steps[i].DeliverPost? { assert steps[i].post in Delivered(steps); }
    }
    NeverAdmitsNoFirst(profiles, steps, id);
  }

  lemma {:induction false} AdmittedIsFixed(profiles: set<Blob>, steps: seq<Step>, posts: set<Post>, learned: set<Blob>)
    requires Delivered(steps) == posts && Learned(steps) == learned && NoLateProfile(profiles, posts, learned)
    ensures AdmittedIn(profiles, steps) == set p | p in posts && p.payload.author in profiles :: (p.id, p.payload)
  {
    hide Known;
    forall i | 0 <= i < |steps| && steps[i].DeliverPost?
      ensures steps[i].post in posts
      ensures steps[i].post.payload.author in Known(profiles, steps[..i]) <==> steps[i].post.payload.author in profiles
    {
      assert steps[i].post in Delivered(steps);
      KnownBounds(profiles, steps, i);
    }
    forall x | x in AdmittedIn(profiles, steps)
      ensures exists p :: p in posts && p.payload.author in profiles && (p.id, p.payload) == x
    {
      var i :| 0 <= i < |steps| && steps[i].DeliverPost? && steps[i].post.payload.author in Known(profiles, steps[..i])
               && (steps[i].post.id, steps[i].post.payload) == x;
    }
    forall p | p in posts && p.payload.author in profiles ensures (p.id, p.payload) in AdmittedIn(profiles, steps) {
      var i :| 0 <= i < |steps| && steps[i].DeliverPost? && steps[i].post == p;
    }
  }

  lemma {:induction false} FixedConverges(
    profiles: set<Blob>, a: seq<Step>, b: seq<Step>, posts: set<Post>, learned: set<Blob>)
    requires Delivers(profiles, a, posts, learned) && Delivers(profiles, b, posts, learned)
    requires HashedIds(posts) && NoLateProfile(profiles, posts, learned) && OneSignature(profiles, posts)
    ensures SameSigned(profiles, a, b)
  {
    hide GoodRun, AdmittedIn, Run, FirstSignature, SignedTable, NoLateProfile, OneSignature, Delivered, Learned;
    AdmittedIsFixed(profiles, a, posts, learned);
    AdmittedIsFixed(profiles, b, posts, learned);
    forall id ensures FirstSignature(profiles, a, id) == FirstSignature(profiles, b, id) {
      if p :| p in posts && p.id == id {
        FirstIsFixed(profiles, a, posts, learned, p);
        FirstIsFixed(profiles, b, posts, learned, p);
      } else {
        NotDeliveredNoFirst(profiles, a, id);
        NotDeliveredNoFirst(profiles, b, id);
      }
    }
    SignedConvergeIff(profiles, a, b);
  }

  // ---------------------------------------------------------------- runs that disagree

  lemma {:induction false} DeliveredConcat(a: seq<Step>, b: seq<Step>)
    ensures Delivered(a + b) == Delivered(a) + Delivered(b)
    ensures Learned(a + b) == Learned(a) + Learned(b)
    ensures ReactionsIn(a + b) == ReactionsIn(a) + ReactionsIn(b)
  {
    var c := a + b;
    assert forall i :: 0 <= i < |a| ==> c[i] == a[i];
    assert forall i :: 0 <= i < |b| ==> c[|a| + i] == b[i];
    assert forall i :: |a| <= i < |c| ==> c[i] == b[i - |a|];
  }

  ghost predicate OnlyPosts(steps: seq<Step>) {
    forall i :: 0 <= i < |steps| ==> steps[i].DeliverPost?
  }

  ghost predicate OnlyProfiles(steps: seq<Step>) {
    forall i :: 0 <= i < |steps| ==> steps[i].LearnProfile?
  }

  lemma {:induction false} SchedulePosts(posts: set<Post>) returns (steps: seq<Step>)
    ensures OnlyPosts(steps) && Delivered(steps) == posts && Learned(steps) == {}
    decreases posts
  {
    if posts == {} {
      steps := [];
    } else {
      var p :| p in posts;
      var rest := SchedulePosts(posts - {p});
      steps := rest + [DeliverPost(p, 0)];
      DeliveredConcat(rest, [DeliverPost(p, 0)]);
      DeliveredOne(p);
    }
  }

  lemma {:induction false} DeliveredOne(p: Post)
    ensures Delivered([DeliverPost(p, 0)]) == {p} && Learned([DeliverPost(p, 0)]) == {}
  {
    var s := [DeliverPost(p, 0)];
    assert s[0].DeliverPost?;
    assert p in Delivered(s);
  }

  lemma {:induction false} ScheduleProfiles(learned: set<Blob>) returns (steps: seq<Step>)
    ensures OnlyProfiles(steps) && Delivered(steps) == {} && Learned(steps) == learned
    decreases learned
  {
    if learned == {} {
      steps := [];
    } else {
      var a :| a in learned;
      var rest := ScheduleProfiles(learned - {a});
      steps := rest + [LearnProfile(a)];
      DeliveredConcat(rest, [LearnProfile(a)]);
      LearnedOne(a);
    }
  }

  lemma {:induction false} LearnedOne(a: Blob)
    ensures Learned([LearnProfile(a)]) == {a} && Delivered([LearnProfile(a)]) == {}
  {
    var s := [LearnProfile(a)];
    assert s[0].LearnProfile?;
    assert a in Learned(s);
  }

  /** Posts with hashed ids and profiles, and nothing else, make a good run in any order. */
  lemma {:induction false} PlainRunGood(profiles: set<Blob>, steps: seq<Step>, posts: set<Post>)
    requires forall i :: 0 <= i < |steps| ==> steps[i].DeliverPost? || steps[i].LearnProfile?
    requires Delivered(steps) == posts && HashedIds(posts)
    ensures GoodRun(profiles, steps)
  {
    hide Known;
    assert ReactionsIn(steps) == {};
    forall i | 0 <= i < |steps| ensures ValidStep(steps[i]) {
      if steps[i].DeliverPost? { assert steps[i].post in Delivered(steps); }
    }
    forall x, y | x in PostsIn(steps) && y in PostsIn(steps) && x.0 == y.0 ensures x == y {
      var i :| 0 <= i < |steps| && steps[i].DeliverPost? && (steps[i].post.id, steps[i].post.payload) == x;
      var j :| 0 <= j < |steps| && steps[j].DeliverPost? && (steps[j].post.id, steps[j].post.payload) == y;
      assert steps[i].post in posts && steps[j].post in posts;
    }
  }

  /** A run in which `p` comes first, then all posts, then all profiles. */
  lemma {:induction false} RunStartingWith(profiles: set<Blob>, posts: set<Post>, learned: set<Blob>, p: Post)
    returns (steps: seq<Step>)
    requires HashedIds(posts) && p in posts && p.payload.author in profiles
    ensures Delivers(profiles, steps, posts, learned)
    ensures FirstSignature(profiles, steps, p.id) == Some(p.signature)
  {
    hide FirstSignature, GoodRun;
    var ds := SchedulePosts(posts);
    var ls := ScheduleProfiles(learned);
    var first := [DeliverPost(p, 0)];
    steps := first + (ds + ls);
    DeliveredConcat(ds, ls);
    DeliveredConcat(first, ds + ls);
    DeliveredOne(p);
    assert Delivered(steps) == posts;
    PlainRunGood(profiles, steps, posts);
    FirstOfOne(profiles, p);
    FirstStays(profiles, first, ds + ls, p.id);
  }

  lemma {:induction false} FirstOfOne(profiles: set<Blob>, p: Post)
    requires p.payload.author in profiles
    ensures FirstSignature(profiles, [DeliverPost(p, 0)], p.id) == Some(p.signature)
  {
    var s := [DeliverPost(p, 0)];
    assert s[..0] == [];
    assert Admits(profiles, s, 0, p.id);
  }

  /** With the profiles first, a post whose author they name is stored. */
  lemma {:induction false} ProfilesFirst(profiles: set<Blob>, posts: set<Post>, learned: set<Blob>, p: Post)
    returns (steps: seq<Step>)
    requires HashedIds(posts) && p in posts && p.payload.author in learned
    ensures Delivers(profiles, steps, posts, learned) && FirstSignature(profiles, steps, p.id).Some?
  {
    hide FirstSignature, GoodRun;
    var ds := SchedulePosts(posts);
    var ls := ScheduleProfiles(learned);
    steps := ls + ds;
    DeliveredConcat(ls, ds);
    assert Delivered(steps) == posts;
    PlainRunGood(profiles, steps, posts);
    var k :| 0 <= k < |ds| && ds[k].DeliverPost? && ds[k].post == p;
    assert steps[|ls| + k] == ds[k];
    var before := steps[..|ls| + k];
    var l :| 0 <= l < |ls| && ls[l].LearnProfile? && ls[l].author == p.payload.author;
    assert before[l] == ls[l];
    AdmittedHasFirst(profiles, steps, p.id, |ls| + k);
  }

  /** With the posts first, a post whose author is not known yet is lost. */
  lemma {:induction false} PostsFirst(profiles: set<Blob>, posts: set<Post>, learned: set<Blob>, p: Post)
    returns (steps: seq<Step>)
    requires HashedIds(posts) && p in posts && p.payload.author !in profiles
    ensures Delivers(profiles, steps, posts, learned) && FirstSignature(profiles, steps, p.id) == None
  {
    hide FirstSignature, GoodRun;
    var ds := SchedulePosts(posts);
    var ls := ScheduleProfiles(learned);
    steps := ds + ls;
    DeliveredConcat(ds, ls);
    assert Delivered(steps) == posts;
    PlainRunGood(profiles, steps, posts);
    forall i | 0 <= i < |steps| ensures !Admits(profiles, steps, i, p.id) {
      if i < |ds| {
        assert steps[i].post in Delivered(steps);
        assert forall k :: 0 <= k < i ==> steps[..i][k] == ds[k];
        assert Known(profiles, steps[..i]) == profiles;
      }
    }
    NeverAdmitsNoFirst(profiles, steps, p.id);
  }

  lemma {:induction false} SameSignedSameFirst(profiles: set<Blob>, a: seq<Step>, b: seq<Step>, id: Blob)
    requires GoodRun(profiles, a) && GoodRun(profiles, b) && SameSigned(profiles, a, b)
    ensures FirstSignature(profiles, a, id) == FirstSignature(profiles, b, id)
  {
    hide GoodRun, AdmittedIn, Run, FirstSignature, SignedTable;
    SignedConvergeIff(profiles, a, b);
  }

  /**
    Every order of delivery gives the same posts, signatures included, if and only if no author's profile arrives
    on the way and no post of a known author comes with two signatures.
   */
  lemma {:induction false} OrderIrrelevantIff(profiles: set<Blob>, posts: set<Post>, learned: set<Blob>)
    requires HashedIds(posts)
    ensures OrderIrrelevant(profiles, posts, learned)
       <==> NoLateProfile(profiles, posts, learned) && OneSignature(profiles, posts)
  {
    hide HashedIds, FirstSignature, GoodRun, SameSigned, Delivered, Learned;
    if NoLateProfile(profiles, posts, learned) && OneSignature(profiles, posts) {
      forall a, b | Delivers(profiles, a, posts, learned) && Delivers(profiles, b, posts, learned)
        ensures SameSigned(profiles, a, b)
      {
        FixedConverges(profiles, a, b, posts, learned);
      }
    }
    if OrderIrrelevant(profiles, posts, learned) {
      forall p | p in posts && p.payload.author in learned ensures p.payload.author in profiles {
        if p.payload.author !in profiles {
          var a := ProfilesFirst(profiles, posts, learned, p);
          var b := PostsFirst(profiles, posts, learned, p);
          SameSignedSameFirst(profiles, a, b, p.id);
          assert false;
        }
      }
      forall p, q | p in posts && q in posts && p.id == q.id && p.payload.author in profiles
        ensures p.signature == q.signature
      {
        SamePayload(posts, p, q);
        var a := RunStartingWith(profiles, posts, learned, p);
        var b := RunStartingWith(profiles, posts, learned, q);
        SameSignedSameFirst(profiles, a, b, p.id);
      }
    }
  }

  lemma {:induction false} SamePayload(posts: set<Post>, p: Post, q: Post)
    requires HashedIds(posts) && p in posts && q in posts && p.id == q.id
    ensures p.payload == q.payload
  {
  }

  // ---------------------------------------------------------------- the content store

  /** The steps have admitted the post. */
  ghost predicate HasRow(profiles: set<Blob>, steps: seq<Step>, id: Blob) {
    exists i :: 0 <= i < |steps| && Admits(profiles, steps, i, id)
  }

  /**
    The last step that puts or evicts the id is a put. A post's object is put by every delivery made before the post has a
    row, a reaction's by every delivery, a profile's under its author's key.
   */
  ghost predicate Held(profiles: set<Blob>, steps: seq<Step>, id: Blob) {
    if steps == [] then false
    else
      var before := steps[..|steps| - 1];
      match steps[|steps| - 1]
      case DeliverPost(p, _) => Held(profiles, before, id) || (p.id == id && !HasRow(profiles, before, id))
      case DeliverReaction(r) => Held(profiles, before, id) || r.id == id
      case LearnProfile(a) => Held(profiles, before, id) || a == id
      case Evict(cid) => Held(profiles, before, id) && cid != id
  }

  lemma {:induction false} RowIffAdmitted(profiles: set<Blob>, steps: seq<Step>, id: Blob)
    ensures id in Run(Fresh(profiles), steps).posts <==> HasRow(profiles, steps, id)
  {
    hide Run, Admits, FirstSignature;
    SignatureIsFirst(profiles, steps, id);
    if HasRow(profiles, steps, id) {
      var i :| 0 <= i < |steps| && Admits(profiles, steps, i, id);
      AdmittedHasFirst(profiles, steps, id, i);
    } else {
      NeverAdmitsNoFirst(profiles, steps, id);
    }
  }

  lemma {:induction false} StepObject(t: Tables, step: Step, id: Blob)
    ensures id in Apply(t, step).cas
       <==> match step
            case DeliverPost(p, _) => id in t.cas || (p.id == id && p.id !in t.posts)
            case DeliverReaction(r) => id in t.cas || r.id == id
            case LearnProfile(a) => id in t.cas || a == id
            case Evict(cid) => id in t.cas && cid != id
  {
    hide Recount, InsertedReaction;
  }

  /** In every run the content store holds exactly the objects that were put and not evicted since. */
  lemma {:induction false} StoreHolds(profiles: set<Blob>, steps: seq<Step>, id: Blob)
    ensures id in Run(Fresh(profiles), steps).cas <==> Held(profiles, steps, id)
    decreases |steps|
  {
    hide HasRow, Apply;
    if steps != [] {
      var n := |steps| - 1;
      StoreHolds(profiles, steps[..n], id);
      RowIffAdmitted(profiles, steps[..n], id);
      StepObject(Run(Fresh(profiles), steps[..n]), steps[n], id);
    }
  }
}
