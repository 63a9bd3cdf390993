/**
  Which stored posts are pinned against eviction: the access table of
  `pkg/storage/content_access_repo.go`, the follow service of `pkg/social/follows.go` with the
  subscription manager behind it, and the rule that eviction takes unpinned rows only.

  The pin flag is not computed when it is needed; several steps maintain it. The invariant says that they
  keep it right.

  Each step here runs to its end before the next one starts. `PinRaces` splits follow changes, arriving posts and eviction
  passes into their statements.
 */
module PinPolicy {
  import opened Wrappers

  /** A post id is a 34-byte SHA-256 multihash, a public key has 32 bytes. */
  const CID_SIZE := 34
  const KEY_SIZE := 32

  datatype AccessRow = AccessRow(lastAccessed: int, accessCount: nat, pinned: bool)

  datatype Node = Node(
    identities: set<Blob>,
    subscriptions: set<(Blob, Blob)>,   // (owner, followed key)
    runtime: set<Blob>,                  // the manager's in-memory set of followed keys
    profiles: set<Blob>,
    posts: map<Blob, Blob>,             // post id to author
    access: map<Blob, AccessRow>,
    cas: set<Blob>)

  // ---------------------------------------------------------------- queries and statements

  predicate HasLocalSubscription(n: Node, key: Blob) {
    key != [] && exists s :: s in n.subscriptions && s.1 == key
  }

  predicate ShouldPinAuthor(n: Node, author: Blob) {
    (author != [] && author in n.identities) || HasLocalSubscription(n, author)
  }

  /** An access updates the row and may raise its pin, never clear it. */
  function Tracked(access: map<Blob, AccessRow>, cid: Blob, pin: bool, now: int): map<Blob, AccessRow> {
    if cid in access
    then access[cid := AccessRow(now, access[cid].accessCount + 1, access[cid].pinned || pin)]
    else access[cid := AccessRow(now, 1, pin)]
  }

  /** No row was accessed after `now`. */
  predicate NoneLater(access: map<Blob, AccessRow>, now: int) {
    forall c :: c in access ==> access[c].lastAccessed <= now
  }

  /** With a clock that does not run backwards, an accessed id is no older than any other, so eviction takes it last. */
  lemma {:induction false} AccessedIsNewest(access: map<Blob, AccessRow>, cid: Blob, pin: bool, now: int)
    requires NoneLater(access, now)
    ensures var after := Tracked(access, cid, pin, now);
            cid in after && NoneLater(after, now) && forall c :: c in after ==> after[c].lastAccessed <= after[cid].lastAccessed
  {
  }

  /** Upsert of the pin flag for one set of ids. */
  function PinSet(access: map<Blob, AccessRow>, cids: set<Blob>, pin: bool, now: int): map<Blob, AccessRow> {
    map cid | cid in access.Keys + cids ::
      if cid !in cids then access[cid]
      else if cid in access then access[cid].(pinned := pin)
      else AccessRow(now, 1, pin)
  }

  function PostsBy(n: Node, author: Blob): set<Blob> {
    set cid | cid in n.posts && n.posts[cid] == author
  }

  /** `SetPinnedForAuthor`: the author's profile row, then the rows of all the author's posts. */
  function PinnedForAuthor(n: Node, author: Blob, pin: bool, now: int): Node {
    if author == [] then n
    else n.(access := PinSet(PinSet(n.access, {author}, pin, now), PostsBy(n, author), pin, now))
  }

  function SubscriptionsWithout(n: Node, owner: Blob, key: Blob): set<(Blob, Blob)> {
    set s | s in n.subscriptions && !(s.1 == key && (owner == [] || s.0 == owner || s.0 == []))
  }

  // ---------------------------------------------------------------- steps

  datatype Change = Follow | Unfollow

  datatype Step =
    | ReceivePost(cid: Blob, author: Blob, now: int)
    | LearnProfile(author: Blob, now: int)
    | ChangeFollow(owner: Blob, target: Blob, change: Change, now: int, callbackOk: bool)
    | Reload(owner: Blob)
    | Access(cid: Blob, now: int)
    | Evict(victims: set<Blob>)

  function Received(n: Node, cid: Blob, author: Blob, now: int): Node {
    if cid in n.posts then n
    else if author !in n.profiles then n.(cas := n.cas + {cid})
    else n.(cas := n.cas + {cid}, posts := n.posts[cid := author],
            access := Tracked(n.access, cid, ShouldPinAuthor(n, author), now))
  }

  /** An accepted profile: stored under the author's key, and tracked like the author's other content. */
  function Learned(n: Node, author: Blob, now: int): Node {
    n.(profiles := n.profiles + {author}, cas := n.cas + {author},
       access := Tracked(n.access, author, ShouldPinAuthor(n, author), now))
  }

  /** The manager: a no-op when its runtime set says that nothing changes. */
  function Resubscribed(n: Node, owner: Blob, target: Blob, change: Change): Node {
    match change
    case Follow =>
      if target in n.runtime then n
      else n.(subscriptions := n.subscriptions + {(owner, target)}, runtime := n.runtime + {target})
    case Unfollow =>
      if target !in n.runtime then n
      else n.(subscriptions := SubscriptionsWithout(n, owner, target), runtime := n.runtime - {target})
  }

  predicate CallsBack(n: Node, target: Blob, change: Change) {
    change == Follow <==> target !in n.runtime
  }

  /** A failing topic callback makes the service return before it recomputes the pins. */
  function FollowChanged(n: Node, owner: Blob, target: Blob, change: Change, now: int, callbackOk: bool): Node {
    var n' := Resubscribed(n, owner, target, change);
    if CallsBack(n, target, change) && !callbackOk then n'
    else PinnedForAuthor(n', target, ShouldPinAuthor(n', target), now)
  }

  function Reloaded(n: Node, owner: Blob): Node {
    n.(runtime := set s | s in n.subscriptions && (owner == [] || s.0 == owner || s.0 == []) :: s.1)
  }

  function Apply(n: Node, step: Step): Node {
    match step
    case ReceivePost(cid, author, now) => Received(n, cid, author, now)
    case LearnProfile(author, now) => Learned(n, author, now)
    case ChangeFollow(owner, target, change, now, ok) => FollowChanged(n, owner, target, change, now, ok)
    case Reload(owner) => Reloaded(n, owner)
    case Access(cid, now) => n.(cas := n.cas + {cid}, access := Tracked(n.access, cid, false, now))
    case Evict(victims) => n.(cas := n.cas - victims, access := n.access - victims)
  }

  /** Valid messages, and victims among the unpinned rows, which is all `GetLRUContent` returns. */
  predicate Legal(n: Node, step: Step) {
    match step
    case ReceivePost(cid, author, _) => |cid| == CID_SIZE && |author| == KEY_SIZE
    case LearnProfile(author, _) => |author| == KEY_SIZE
    case ChangeFollow(_, target, _, _, _) => |target| == KEY_SIZE
    case Reload(_) => true
    case Access(cid, _) => |cid| == CID_SIZE
    case Evict(victims) => forall cid :: cid in victims ==> cid in n.access && !n.access[cid].pinned
  }

  predicate CallbacksSucceed(step: Step) {
    step.ChangeFollow? ==> step.callbackOk
  }

  // ---------------------------------------------------------------- the code

  class PinStore {
    var identities: set<Blob>
    var subscriptions: set<(Blob, Blob)>
    var runtime: set<Blob>
    var profiles: set<Blob>
    var posts: map<Blob, Blob>
    var access: map<Blob, AccessRow>
    var cas: set<Blob>

    ghost function State(): Node
      reads this
    {
      Node(identities, subscriptions, runtime, profiles, posts, access, cas)
    }

    constructor (identities: set<Blob>, profiles: set<Blob>)
      ensures State() == Empty(identities, profiles)
    {
      this.identities, this.profiles := identities, profiles;
      subscriptions, runtime, posts, access, cas := {}, {}, map[], map[], {};
    }

    method ShouldPin(author: Blob) returns (pin: bool)
      ensures pin == ShouldPinAuthor(State(), author)
      ensures pin <==> author != [] && (author in identities || exists s :: s in subscriptions && s.1 == author)
    {
      if author != [] && author in identities {
        return true;
      }
      return author != [] && exists s :: s in subscriptions && s.1 == author;
    }

    method TrackContentAccess(cid: Blob, pin: bool, now: int)
      modifies this`access
      ensures access == Tracked(old(access), cid, pin, now)
      ensures cid in access && access[cid].lastAccessed == now
      ensures access[cid].accessCount == (if cid in old(access) then old(access)[cid].accessCount else 0) + 1
      ensures access[cid].pinned <==> pin || (cid in old(access) && old(access)[cid].pinned)
      ensures access.Keys == old(access).Keys + {cid}
      ensures forall c :: c in old(access) && c != cid ==> access[c] == old(access)[c]
    {
      if cid in access {
        var row := access[cid];
        access := access[cid := AccessRow(now, row.accessCount + 1, row.pinned || pin)];
      } else {
        access := access[cid := AccessRow(now, 1, pin)];
      }
    }

    method TrackContentForAuthor(cid: Blob, author: Blob, now: int)
      modifies this`access
      ensures access == Tracked(old(access), cid, ShouldPinAuthor(old(State()), author), now)
      ensures cid in access && access[cid].lastAccessed == now
    {
      var pinned := ShouldPin(author);
      TrackContentAccess(cid, pinned, now);
    }

    method SetPinnedForAuthor(author: Blob, pin: bool, now: int)
      modifies this`access
      ensures State() == PinnedForAuthor(old(State()), author, pin, now)
      ensures author != [] ==> forall c :: c in posts && posts[c] == author ==> c in access && access[c].pinned == pin
      ensures author != [] ==> author in access && (access[author].pinned == pin || author in posts)
      ensures forall c :: c in old(access) ==> c in access && access[c].lastAccessed == old(access)[c].lastAccessed
    {
      if author == [] {
        return;
      }
      access := PinSet(access, {author}, pin, now);
      access := PinSet(access, (set cid | cid in posts && posts[cid] == author), pin, now);
    }

    method HandlePost(cid: Blob, author: Blob, now: int)
      modifies this
      ensures State() == Received(old(State()), cid, author, now)
      ensures cid in old(posts) || cid in cas
      ensures cid !in old(posts) && author in profiles ==>
        cid in posts && posts[cid] == author && cid in access && access[cid].lastAccessed == now
    {
      if cid in posts {
        return;
      }
      cas := cas + {cid};
      if author !in profiles {
        return;
      }
      posts := posts[cid := author];
      TrackContentForAuthor(cid, author, now);
      assert ShouldPinAuthor(State(), author) == ShouldPinAuthor(old(State()), author);
    }

    /** The effects of an accepted profile on posts and pins. */
    method HandleProfile(author: Blob, now: int)
      modifies this
      ensures State() == Learned(old(State()), author, now)
      ensures author in profiles && author in cas && author in access && access[author].lastAccessed == now
    {
      cas := cas + {author};
      profiles := profiles + {author};
      TrackContentForAuthor(author, author, now);
      assert ShouldPinAuthor(State(), author) == ShouldPinAuthor(old(State()), author);
    }

    /** The manager reads its set of followed keys from the table. */
    method ReloadSubscriptions(owner: Blob)
      modifies this`runtime
      ensures State() == Reloaded(old(State()), owner)
      ensures forall key :: key in runtime <==>
        exists s :: s in subscriptions && s.1 == key && (owner == [] || s.0 == owner || s.0 == [])
    {
      runtime := set s | s in subscriptions && (owner == [] || s.0 == owner || s.0 == []) :: s.1;
    }

    method ChangeFollowState(owner: Blob, target: Blob, change: Change, now: int, callbackOk: bool)
      modifies this
      ensures State() == FollowChanged(old(State()), owner, target, change, now, callbackOk)
      ensures change == Follow ==> target in runtime && (target in old(runtime) || (owner, target) in subscriptions)
      ensures change == Unfollow ==> target !in runtime && (target in old(runtime) ==> (owner, target) !in subscriptions)
    {
      if change == Follow && target !in runtime {
        subscriptions := subscriptions + {(owner, target)};
        runtime := runtime + {target};
        if !callbackOk {
          return;
        }
      } else if change == Unfollow && target in runtime {
        subscriptions := set s | s in subscriptions && !(s.1 == target && (owner == [] || s.0 == owner || s.0 == []));
        runtime := runtime - {target};
        if !callbackOk {
          return;
        }
      }
      var pin := ShouldPin(target);
      SetPinnedForAuthor(target, pin, now);
    }
  }

  // ---------------------------------------------------------------- the invariant

  function Empty(identities: set<Blob>, profiles: set<Blob>): Node {
    Node(identities, {}, {}, profiles, map[], map[], {})
  }

  predicate IsPinned(n: Node, cid: Blob) {
    cid in n.access && n.access[cid].pinned
  }

  /** Each stored post is pinned exactly when its author should be. */
  ghost predicate PinsRight(n: Node) {
    forall cid :: cid in n.posts ==> (IsPinned(n, cid) <==> ShouldPinAuthor(n, n.posts[cid]))
  }

  ghost predicate Shapes(n: Node) {
    && (forall cid :: cid in n.posts ==> |cid| == CID_SIZE)
    && (forall cid :: cid in n.access && |cid| == CID_SIZE && cid !in n.posts ==> !n.access[cid].pinned)
  }

  lemma {:induction false} ReceiveKeeps(n: Node, cid: Blob, author: Blob, now: int)
    requires PinsRight(n) && Shapes(n) && |cid| == CID_SIZE
    ensures PinsRight(Received(n, cid, author, now)) && Shapes(Received(n, cid, author, now))
  {
    var n' := Received(n, cid, author, now);
    assert forall a :: ShouldPinAuthor(n', a) == ShouldPinAuthor(n, a);
  }

  lemma {:induction false} LearnKeeps(n: Node, author: Blob, now: int)
    requires PinsRight(n) && Shapes(n) && |author| == KEY_SIZE
    ensures PinsRight(Learned(n, author, now)) && Shapes(Learned(n, author, now))
  {
    var n' := Learned(n, author, now);
    assert forall a :: ShouldPinAuthor(n', a) == ShouldPinAuthor(n, a);
  }

  lemma {:induction false} PinSetReads(access: map<Blob, AccessRow>, cids: set<Blob>, pin: bool, now: int, cid: Blob)
    ensures cid in PinSet(access, cids, pin, now) <==> cid in access || cid in cids
    ensures cid in cids ==> PinSet(access, cids, pin, now)[cid].pinned == pin
    ensures cid !in cids && cid in access ==> PinSet(access, cids, pin, now)[cid] == access[cid]
  {
  }

  /** Recomputing one author's pins sets them for that author's posts and for no other post. */
  lemma {:induction false} PinnedForAuthorReads(n: Node, author: Blob, pin: bool, now: int, cid: Blob)
    requires |cid| == CID_SIZE && |author| == KEY_SIZE
    ensures IsPinned(PinnedForAuthor(n, author, pin, now), cid)
         == if cid in n.posts && n.posts[cid] == author then pin else IsPinned(n, cid)
    ensures cid !in n.posts ==> (cid in PinnedForAuthor(n, author, pin, now).access <==> cid in n.access)
  {
    hide PinSet;
    PinSetReads(n.access, {author}, pin, now, cid);
    PinSetReads(PinSet(n.access, {author}, pin, now), PostsBy(n, author), pin, now, cid);
  }

  /** A change of subscription matters for the target only. */
  lemma {:induction false} ResubscribedOthers(n: Node, owner: Blob, target: Blob, change: Change, author: Blob)
    requires author != target
    ensures ShouldPinAuthor(Resubscribed(n, owner, target, change), author) == ShouldPinAuthor(n, author)
  {
    var n' := Resubscribed(n, owner, target, change);
    if s :| s in n.subscriptions && s.1 == author {
      assert s in n'.subscriptions;
    }
    if s :| s in n'.subscriptions && s.1 == author {
      assert s in n.subscriptions;
    }
  }

  lemma {:induction false} RecomputeKeeps(n: Node, n': Node, target: Blob, now: int)
    requires PinsRight(n) && Shapes(n) && |target| == KEY_SIZE
    requires n'.posts == n.posts && n'.access == n.access
    requires forall a :: a != target ==> ShouldPinAuthor(n', a) == ShouldPinAuthor(n, a)
    ensures PinsRight(PinnedForAuthor(n', target, ShouldPinAuthor(n', target), now))
    ensures Shapes(PinnedForAuthor(n', target, ShouldPinAuthor(n', target), now))
  {
    hide ShouldPinAuthor, PinnedForAuthor;
    var pin := ShouldPinAuthor(n', target);
    var m := PinnedForAuthor(n', target, pin, now);
    PinnedForAuthorRest(n', target, pin, now);
    forall cid | cid in m.posts ensures IsPinned(m, cid) <==> ShouldPinAuthor(m, m.posts[cid]) {
      PinnedForAuthorReads(n', target, pin, now, cid);
    }
    forall cid | cid in m.access && |cid| == CID_SIZE && cid !in m.posts ensures !m.access[cid].pinned {
      PinnedForAuthorReads(n', target, pin, now, cid);
    }
  }

  lemma {:induction false} PinnedForAuthorRest(n: Node, author: Blob, pin: bool, now: int)
    ensures PinnedForAuthor(n, author, pin, now).posts == n.posts
    ensures PinnedForAuthor(n, author, pin, now).cas == n.cas
    ensures forall a :: ShouldPinAuthor(PinnedForAuthor(n, author, pin, now), a) == ShouldPinAuthor(n, a)
  {
  }

  lemma {:induction false} FollowKeeps(n: Node, owner: Blob, target: Blob, change: Change, now: int)
    requires PinsRight(n) && Shapes(n) && |target| == KEY_SIZE
    ensures PinsRight(FollowChanged(n, owner, target, change, now, true))
    ensures Shapes(FollowChanged(n, owner, target, change, now, true))
  {
    hide ShouldPinAuthor, PinnedForAuthor;
    var n' := Resubscribed(n, owner, target, change);
    forall a | a != target ensures ShouldPinAuthor(n', a) == ShouldPinAuthor(n, a) {
      ResubscribedOthers(n, owner, target, change, a);
    }
    RecomputeKeeps(n, n', target, now);
  }

  lemma {:induction false} ReloadKeeps(n: Node, owner: Blob)
    requires PinsRight(n) && Shapes(n)
    ensures PinsRight(Reloaded(n, owner)) && Shapes(Reloaded(n, owner))
  {
    var n' := Reloaded(n, owner);
    assert forall a :: ShouldPinAuthor(n', a) == ShouldPinAuthor(n, a);
  }

  lemma {:induction false} AccessKeeps(n: Node, cid: Blob, now: int)
    requires PinsRight(n) && Shapes(n)
    ensures PinsRight(Apply(n, Access(cid, now))) && Shapes(Apply(n, Access(cid, now)))
  {
    var n' := Apply(n, Access(cid, now));
    assert forall a :: ShouldPinAuthor(n', a) == ShouldPinAuthor(n, a);
  }

  lemma {:induction false} EvictKeeps(n: Node, victims: set<Blob>)
    requires PinsRight(n) && Shapes(n) && Legal(n, Evict(victims))
    ensures PinsRight(Apply(n, Evict(victims))) && Shapes(Apply(n, Evict(victims)))
  {
    var n' := Apply(n, Evict(victims));
    assert forall a :: ShouldPinAuthor(n', a) == ShouldPinAuthor(n, a);
  }

  lemma {:induction false} StepKeeps(n: Node, step: Step)
    requires PinsRight(n) && Shapes(n) && Legal(n, step) && CallbacksSucceed(step)
    ensures PinsRight(Apply(n, step)) && Shapes(Apply(n, step))
  {
    hide PinsRight, Shapes, Received, Learned, FollowChanged, Reloaded;
    match step
    case ReceivePost(cid, author, now) => ReceiveKeeps(n, cid, author, now);
    case LearnProfile(author, now) => LearnKeeps(n, author, now);
    case ChangeFollow(owner, target, change, now, _) => FollowKeeps(n, owner, target, change, now);
    case Reload(owner) => ReloadKeeps(n, owner);
    case Access(cid, now) => AccessKeeps(n, cid, now);
    case Evict(victims) => EvictKeeps(n, victims);
  }

  // ---------------------------------------------------------------- whole runs

  function Run(n: Node, steps: seq<Step>): Node {
    if steps == [] then n else Apply(Run(n, steps[..|steps| - 1]), steps[|steps| - 1])
  }

  ghost predicate LegalRun(n: Node, steps: seq<Step>) {
    forall i :: 0 <= i < |steps| ==> Legal(Run(n, steps[..i]), steps[i]) && CallbacksSucceed(steps[i])
  }

  lemma {:induction false} LegalPrefix(n: Node, steps: seq<Step>, k: nat)
    requires LegalRun(n, steps) && k <= |steps|
    ensures LegalRun(n, steps[..k])
  {
    hide Run, Legal;
    forall i | 0 <= i < k ensures Legal(Run(n, steps[..k][..i]), steps[..k][i]) && CallbacksSucceed(steps[..k][i]) {
      assert steps[..k][..i] == steps[..i];
      assert steps[..k][i] == steps[i];
    }
  }

  /** The pin invariant holds after every run from an empty store. */
  lemma {:induction false} PinsAlwaysRight(identities: set<Blob>, profiles: set<Blob>, steps: seq<Step>)
    requires LegalRun(Empty(identities, profiles), steps)
    ensures PinsRight(Run(Empty(identities, profiles), steps)) && Shapes(Run(Empty(identities, profiles), steps))
    decreases |steps|
  {
    hide PinsRight, Shapes, Apply, Legal;
    var n := Empty(identities, profiles);
    if steps == [] {
      EmptyRight(identities, profiles);
    } else {
      var k := |steps| - 1;
      LegalPrefix(n, steps, k);
      PinsAlwaysRight(identities, profiles, steps[..k]);
      assert Legal(Run(n, steps[..k]), steps[k]);
      StepKeeps(Run(n, steps[..k]), steps[k]);
    }
  }

  lemma {:induction false} EmptyRight(identities: set<Blob>, profiles: set<Blob>)
    ensures PinsRight(Empty(identities, profiles)) && Shapes(Empty(identities, profiles))
  {
  }

  /** Posts are never forgotten and never change author, and only eviction removes content. */
  lemma {:induction false} StepKeepsPost(n: Node, step: Step, cid: Blob)
    requires Legal(n, step) && cid in n.posts && cid in n.cas && IsPinned(n, cid)
    ensures cid in Apply(n, step).posts && Apply(n, step).posts[cid] == n.posts[cid]
    ensures cid in Apply(n, step).cas
  {
    hide ShouldPinAuthor;
    match step
    case ChangeFollow(owner, target, change, now, _) =>
      var n' := Resubscribed(n, owner, target, change);
      PinnedForAuthorRest(n', target, ShouldPinAuthor(n', target), now);
    case _ =>
  }

  /**
    A stored post whose author is local or followed throughout a stretch of a run keeps its content object
    and stays pinned to the end of that stretch.
   */
  lemma {:induction false} NeverEvictedWhileFollowed(
    identities: set<Blob>, profiles: set<Blob>, steps: seq<Step>, i: nat, j: nat, cid: Blob)
    requires i <= j <= |steps|
    requires LegalRun(Empty(identities, profiles), steps)
    requires var n := Run(Empty(identities, profiles), steps[..i]);
             cid in n.posts && cid in n.cas
             && forall k :: i <= k <= j ==> ShouldPinAuthor(Run(Empty(identities, profiles), steps[..k]), n.posts[cid])
    ensures var n := Run(Empty(identities, profiles), steps[..i]);
            var m := Run(Empty(identities, profiles), steps[..j]);
            cid in m.posts && m.posts[cid] == n.posts[cid] && cid in m.cas && IsPinned(m, cid)
    decreases j
  {
    hide Run, ShouldPinAuthor, Apply, Legal, LegalRun, IsPinned, Shapes;
    var e := Empty(identities, profiles);
    LegalPrefix(e, steps, j);
    PinsAlwaysRight(identities, profiles, steps[..j]);
    if i < j {
      NeverEvictedWhileFollowed(identities, profiles, steps, i, j - 1, cid);
      LastStep(e, steps, j);
      StepKeepsPost(Run(e, steps[..j - 1]), steps[j - 1], cid);
    }
  }

  lemma {:induction false} LastStep(n: Node, steps: seq<Step>, j: nat)
    requires LegalRun(n, steps) && 0 < j <= |steps|
    ensures Run(n, steps[..j]) == Apply(Run(n, steps[..j - 1]), steps[j - 1])
    ensures Legal(Run(n, steps[..j - 1]), steps[j - 1])
  {
    hide Apply, Legal;
    assert steps[..j][..j - 1] == steps[..j - 1];
  }

  // ---------------------------------------------------------------- a failing callback

  /** The subscriptions that an unfollow by `owner` leaves in place. */
  predicate KeptByOthers(n: Node, owner: Blob, target: Blob) {
    exists s :: s in n.subscriptions && s.1 == target && owner != [] && s.0 != owner && s.0 != []
  }

  /** Before the change: it will not alter whether the target's content should be pinned. */
  predicate DecisionStays(n: Node, owner: Blob, target: Blob, change: Change) {
    || target == []
    || target in n.identities
    || (change == Follow && HasLocalSubscription(n, target))
    || (change == Unfollow && (!HasLocalSubscription(n, target) || KeptByOthers(n, owner, target)))
  }

  lemma {:induction false} DecisionStaysRight(n: Node, owner: Blob, target: Blob, change: Change)
    requires CallsBack(n, target, change)
    ensures DecisionStays(n, owner, target, change)
       <==> ShouldPinAuthor(Resubscribed(n, owner, target, change), target) == ShouldPinAuthor(n, target)
  {
    var n' := Resubscribed(n, owner, target, change);
    if change == Follow {
      assert (owner, target) in n'.subscriptions && (owner, target).1 == target;
    } else {
      if s :| s in n.subscriptions && s.1 == target && owner != [] && s.0 != owner && s.0 != [] {
        assert s in n'.subscriptions;
      }
      if s :| s in n'.subscriptions && s.1 == target {
        assert s in n.subscriptions && s.0 != owner && s.0 != [] && owner != [];
      }
    }
  }

  /**
    When the topic callback fails, the pins are left as they were. They are still right exactly when, before
    the call, the change could not alter whether the target should be pinned, or no post of the target is stored.
   */
  lemma {:induction false} FailedCallback(n: Node, owner: Blob, target: Blob, change: Change, now: int)
    requires PinsRight(n) && CallsBack(n, target, change)
    ensures PinsRight(FollowChanged(n, owner, target, change, now, false))
       <==> PostsBy(n, target) == {} || DecisionStays(n, owner, target, change)
  {
    hide ShouldPinAuthor, DecisionStays;
    var n' := FollowChanged(n, owner, target, change, now, false);
    assert n' == Resubscribed(n, owner, target, change);
    DecisionStaysRight(n, owner, target, change);
    forall a | a != target ensures ShouldPinAuthor(n', a) == ShouldPinAuthor(n, a) {
      ResubscribedOthers(n, owner, target, change, a);
    }
    forall cid | cid in n.posts ensures n.posts[cid] == target ==> cid in PostsBy(n, target) {}
    if PostsBy(n, target) != {} {
      var cid :| cid in PostsBy(n, target);
      assert IsPinned(n', cid) == IsPinned(n, cid);
    }
  }

  /** The first follow of an author with a stored post is such a case. */
  lemma {:induction false} FailedCallbackUnpins(cid: Blob, owner: Blob, target: Blob, now: int)
    requires target != []
    ensures var n := Received(Empty({}, {target}), cid, target, now);
            PinsRight(n) && !PinsRight(FollowChanged(n, owner, target, Follow, now, false))
  {
    var n := Received(Empty({}, {target}), cid, target, now);
    var n' := FollowChanged(n, owner, target, Follow, now, false);
    assert (owner, target) in n'.subscriptions && (owner, target).1 == target;
    assert ShouldPinAuthor(n', target) && !IsPinned(n', cid);
    assert n'.posts[cid] == target;
  }
}
