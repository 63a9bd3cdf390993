/**
  The gossip rate limiter of `pkg/p2p/ratelimit.go`: per author, posts and reactions are counted in one
  shared window of a minute.
 */
module RateLimit {
  import opened Wrappers
  import opened FixedWindow

  type Author = string

  const MAX_POSTS: nat := 10
  const MAX_REACTIONS: nat := 100
  const WINDOW: nat := 60_000   // milliseconds

  datatype MsgType = PostMsg | ReactionMsg | OtherMsg
  datatype AuthorCounts = AuthorCounts(posts: nat, reactions: nat, resetAt: int)

  type Counts = map<Author, AuthorCounts>

  function LimitOf(kind: MsgType): nat {
    match kind case PostMsg => MAX_POSTS case ReactionMsg => MAX_REACTIONS case OtherMsg => 0
  }

  function CountOf(ac: AuthorCounts, kind: MsgType): nat {
    match kind case PostMsg => ac.posts case ReactionMsg => ac.reactions case OtherMsg => 0
  }

  /** The author's counts after the window has been created or reset if needed. */
  function CountsNow(counts: Counts, author: Author, now: int): AuthorCounts {
    if author !in counts || now > counts[author].resetAt then AuthorCounts(0, 0, now + WINDOW) else counts[author]
  }

  function Bumped(ac: AuthorCounts, kind: MsgType): AuthorCounts {
    match kind
    case PostMsg => ac.(posts := ac.posts + 1)
    case ReactionMsg => ac.(reactions := ac.reactions + 1)
    case OtherMsg => ac
  }

  predicate Allows(counts: Counts, author: Author, kind: MsgType, now: int) {
    kind == OtherMsg || CountOf(CountsNow(counts, author, now), kind) < LimitOf(kind)
  }

  function Allowed(counts: Counts, author: Author, kind: MsgType, now: int): Counts {
    var ac := CountsNow(counts, author, now);
    counts[author := if Allows(counts, author, kind, now) then Bumped(ac, kind) else ac]
  }

  function Cleaned(counts: Counts, now: int): Counts {
    map a | a in counts && now <= counts[a].resetAt :: counts[a]
  }

  class PubsubRateLimiter {
    var counts: Counts

    constructor ()
      ensures counts == map[]
    {
      counts := map[];
    }

    method Allow(author: Author, kind: MsgType, now: int) returns (ok: bool)
      modifies this
      ensures ok == Allows(old(counts), author, kind, now)
      ensures counts == Allowed(old(counts), author, kind, now)
    {
      var ac;
      if author in counts {
        ac := counts[author];
      } else {
        ac := AuthorCounts(0, 0, now + WINDOW);
      }
      if now > ac.resetAt {
        ac := AuthorCounts(0, 0, now + WINDOW);
      }
      counts := counts[author := ac];
      match kind {
        case PostMsg =>
          if ac.posts >= MAX_POSTS {
            return false;
          }
          ac := ac.(posts := ac.posts + 1);
        case ReactionMsg =>
          if ac.reactions >= MAX_REACTIONS {
            return false;
          }
          ac := ac.(reactions := ac.reactions + 1);
        case OtherMsg =>
      }
      counts := counts[author := ac];
      return true;
    }

    method Cleanup(now: int)
      modifies this
      ensures counts == Cleaned(old(counts), now)
      ensures forall a :: a in counts <==> a in old(counts) && now <= old(counts)[a].resetAt
      ensures forall a :: a in counts ==> counts[a] == old(counts)[a]
    {
      var todo := counts.Keys;
      while todo != {}
        invariant todo <= old(counts).Keys
        invariant forall a :: a in counts <==>
          a in old(counts) && (a in todo || now <= old(counts)[a].resetAt)
        invariant forall a :: a in counts ==> counts[a] == old(counts)[a]
        decreases todo
      {
        var author :| author in todo;
        todo := todo - {author};
        if now > counts[author].resetAt {
          counts := counts - {author};
        }
      }
    }
  }

  // ---------------------------------------------------------------- histories

  datatype Event = AllowCall(author: Author, kind: MsgType, at: int) | CleanupCall(at: int)

  predicate Monotone(events: seq<Event>) {
    forall i, j :: 0 <= i < j < |events| ==> events[i].at <= events[j].at
  }

  function Run(events: seq<Event>): Counts {
    if events == [] then map[]
    else
      var counts := Run(events[..|events| - 1]);
      match events[|events| - 1]
      case AllowCall(author, kind, at) => Allowed(counts, author, kind, at)
      case CleanupCall(at) => Cleaned(counts, at)
  }

  /** The times at which messages of this author and type were let through. */
  function AllowedTimes(events: seq<Event>, author: Author, kind: MsgType): seq<int> {
    if events == [] then []
    else
      var n := |events| - 1;
      var before := AllowedTimes(events[..n], author, kind);
      match events[n]
      case CleanupCall(_) => before
      case AllowCall(a, k, at) =>
        if a == author && k == kind && Allows(Run(events[..n]), a, k, at) then before + [at] else before
  }

  /** The counter of one author and type, seen as a fixed window. */
  function ViewOf(counts: Counts, author: Author, kind: MsgType): View {
    if author in counts then Open(counts[author].resetAt, CountOf(counts[author], kind)) else Absent
  }

  lemma {:induction false} AllowView(counts: Counts, a: Author, k: MsgType, at: int, author: Author, kind: MsgType)
    requires kind != OtherMsg
    ensures ViewOf(Allowed(counts, a, k, at), author, kind)
         == if a != author then ViewOf(counts, author, kind)
            else
              var v := Rolled(ViewOf(counts, author, kind), at, WINDOW);
              if k == kind && Allows(counts, a, k, at) then v.(n := v.n + 1) else v
    ensures a == author && k == kind ==>
      (Allows(counts, a, k, at) <==> Rolled(ViewOf(counts, author, kind), at, WINDOW).n < LimitOf(kind))
  {
  }

  lemma {:induction false} CleanView(counts: Counts, at: int, author: Author, kind: MsgType)
    ensures ViewOf(Cleaned(counts, at), author, kind)
         == if Expired(ViewOf(counts, author, kind), at) then Absent else ViewOf(counts, author, kind)
  {
  }

  /** Every history drives the fixed-window machine. */
  lemma {:induction false} Windows(events: seq<Event>, author: Author, kind: MsgType, now: int) returns (starts: seq<int>)
    requires Monotone(events) && kind != OtherMsg
    requires events != [] ==> events[|events| - 1].at <= now
    ensures History(AllowedTimes(events, author, kind), starts, ViewOf(Run(events), author, kind), now, WINDOW, LimitOf(kind))
    decreases |events|
  {
    hide History, Rolled, Expired, ViewOf, Allowed, Allows, Cleaned;
    if events == [] {
      starts := [];
      EmptyHistory(author, kind, now);
    } else {
      var n := |events| - 1;
      var e := events[n];
      var v := ViewOf(Run(events[..n]), author, kind);
      var times := AllowedTimes(events[..n], author, kind);
      starts := Windows(events[..n], author, kind, e.at);
      match e {
      case CleanupCall(at) =>
        CleanView(Run(events[..n]), at, author, kind);
        if Expired(v, at) {
          Removed(times, starts, v, at, WINDOW, LimitOf(kind));
        }
      case AllowCall(a, k, at) =>
        AllowView(Run(events[..n]), a, k, at, author, kind);
        if a == author {
          Touched(times, starts, v, at, WINDOW, LimitOf(kind));
          if k == kind && Allows(Run(events[..n]), a, k, at) {
            RolledOpen(v, at);
            Admitted(times, starts, Rolled(v, at, WINDOW), at, WINDOW, LimitOf(kind));
            starts := starts + [Rolled(v, at, WINDOW).resetAt - WINDOW];
          }
        }
      }
      Later(AllowedTimes(events, author, kind), starts, ViewOf(Run(events), author, kind), e.at, now, WINDOW, LimitOf(kind));
    }
  }

  lemma {:induction false} RolledOpen(v: View, at: int)
    ensures Rolled(v, at, WINDOW).Open? && at <= Rolled(v, at, WINDOW).resetAt
  {
  }

  lemma {:induction false} EmptyHistory(author: Author, kind: MsgType, now: int)
    ensures History([], [], ViewOf(map[], author, kind), now, WINDOW, LimitOf(kind))
  {
  }

  /**
    For every monotone history, with cleanups anywhere, an author gets at most 20 posts and at most 200
    reactions through in any closed interval of one window.
   */
  lemma {:induction false} RateBound(events: seq<Event>, author: Author, kind: MsgType, lo: int)
    requires Monotone(events) && kind != OtherMsg
    ensures CountIn(AllowedTimes(events, author, kind), lo, lo + 60_000) <= if kind == PostMsg then 20 else 200
  {
    hide Run, History, AllowedTimes, ViewOf, CountIn;
    var now := if events == [] then 0 else events[|events| - 1].at;
    var starts := Windows(events, author, kind, now);
    IntervalBound(AllowedTimes(events, author, kind), starts, ViewOf(Run(events), author, kind), now, WINDOW, LimitOf(kind), lo);
  }

  // ---------------------------------------------------------------- what is admitted

  /** The start of the author's current window: the first message after the window before has ended. */
  function WindowOf(events: seq<Event>, author: Author): Option<int> {
    if events == [] then None
    else
      var before := WindowOf(events[..|events| - 1], author);
      match events[|events| - 1]
      case CleanupCall(_) => before
      case AllowCall(a, _, at) => if a == author then Reopened(before, at, 60_000) else before
  }

  lemma {:induction false} WindowKnown(events: seq<Event>, author: Author, kind: MsgType, now: int)
    requires Monotone(events) && kind != OtherMsg
    requires events != [] ==> events[|events| - 1].at <= now
    ensures Knows(AllowedTimes(events, author, kind), WindowOf(events, author), ViewOf(Run(events), author, kind), now, WINDOW)
    decreases |events|
  {
    hide Knows, Rolled, Expired, ViewOf, Allowed, Allows, Cleaned, Reopened;
    if events == [] {
      NothingKnown(author, kind, now);
    } else {
      var n := |events| - 1;
      var e := events[n];
      var v := ViewOf(Run(events[..n]), author, kind);
      var times, start := AllowedTimes(events[..n], author, kind), WindowOf(events[..n], author);
      WindowKnown(events[..n], author, kind, e.at);
      match e {
        case CleanupCall(at) =>
          CleanView(Run(events[..n]), at, author, kind);
          if Expired(v, at) { KnowsRemoved(times, start, v, at, WINDOW); }
        case AllowCall(a, k, at) =>
          AllowView(Run(events[..n]), a, k, at, author, kind);
          if a == author {
            KnowsTouched(times, start, v, at, WINDOW);
            if k == kind && Allows(Run(events[..n]), a, k, at) {
              RolledOpen(v, at);
              KnowsAdmitted(times, Reopened(start, at, WINDOW), Rolled(v, at, WINDOW), at, WINDOW);
            }
          }
      }
      KnowsLater(AllowedTimes(events, author, kind), WindowOf(events, author), ViewOf(Run(events), author, kind), e.at, now, WINDOW);
    }
  }

  lemma {:induction false} NothingKnown(author: Author, kind: MsgType, now: int)
    ensures Knows([], None, ViewOf(map[], author, kind), now, WINDOW)
  {
  }

  /**
    In every monotone history a post is admitted if and only if fewer than 10, and a reaction if and only if fewer than 100,
    were admitted in the author's current window. Anything else is always admitted.
   */
  lemma {:induction false} AllowedIff(events: seq<Event>, author: Author, kind: MsgType, now: int)
    requires Monotone(events) && (events != [] ==> events[|events| - 1].at <= now)
    ensures Allows(Run(events), author, kind, now)
       <==> || kind == OtherMsg
            || HasRoom(AllowedTimes(events, author, kind), WindowOf(events, author), now, 60_000, if kind == PostMsg then 10 else 100)
  {
    hide Run, AllowedTimes, WindowOf, CountFrom;
    if kind != OtherMsg { WindowKnown(events, author, kind, now); }
  }
}
