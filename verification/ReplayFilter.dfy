/**
  Replay protection: the seen cache of `pkg/p2p/seencache.go` and the message filter built in
  `SubscribeWithFilter` of `pkg/p2p/pubsub.go`.

  A message is checked and marked under the cache's lock, then the rate limiter may drop it, then the
  handler runs. The check and the handler call are different moments: another topic's reader can be
  scheduled in between, so a history records both times.
 */
module ReplayFilter {
  import opened Wrappers
  import RateLimit

  type Cid = string
  type Seen = map<Cid, int>

  function Marked(seen: Seen, cid: Cid, now: int): Seen {
    if cid in seen then seen else seen[cid := now]
  }

  function Cleaned(seen: Seen, now: int, maxAge: nat): Seen {
    map c | c in seen && seen[c] >= now - maxAge :: seen[c]
  }

  class SeenCache {
    var seen: Seen
    const maxAge: nat

    constructor (maxAge: nat)
      ensures seen == map[] && this.maxAge == maxAge
    {
      this.maxAge := maxAge;
      seen := map[];
    }

    method MarkSeen(cid: Cid, now: int)
      modifies this
      ensures seen == Marked(old(seen), cid, now)
      ensures seen == if cid in old(seen) then old(seen) else old(seen)[cid := now]
    {
      if cid !in seen {
        seen := seen[cid := now];
      }
    }

    method CheckAndMark(cid: Cid, now: int) returns (replay: bool)
      modifies this
      ensures replay <==> cid in old(seen)
      ensures seen == Marked(old(seen), cid, now)
      ensures seen == if replay then old(seen) else old(seen)[cid := now]
    {
      if cid in seen {
        return true;
      }
      seen := seen[cid := now];
      return false;
    }

    method Cleanup(now: int)
      modifies this
      ensures seen == Cleaned(old(seen), now, maxAge)
      ensures forall c :: c in seen <==> c in old(seen) && now <= old(seen)[c] + maxAge
      ensures forall c :: c in seen ==> seen[c] == old(seen)[c]
    {
      var cutoff := now - maxAge;
      var todo := seen.Keys;
      while todo != {}
        invariant todo <= old(seen).Keys
        invariant forall c :: c in seen <==> c in old(seen) && (c in todo || old(seen)[c] >= cutoff)
        invariant forall c :: c in seen ==> seen[c] == old(seen)[c]
        decreases todo
      {
        var c :| c in todo;
        todo := todo - {c};
        if seen[c] < cutoff {
          seen := seen - {c};
        }
      }
    }
  }

  /** What the extractor of a topic finds in a message. */
  datatype Info = Info(author: string, kind: RateLimit.MsgType, cid: Cid)

  /** The filter of a topic: extraction, replay check under the extracted id or the hash of the message, rate check, and then the handler. */
  method Filter(
    cache: SeenCache, limiter: RateLimit.PubsubRateLimiter, data: seq<int>,
    extract: seq<int> -> Option<Info>, hash: seq<int> -> Cid, now: int)
    returns (invoked: bool)
    modifies cache, limiter
    ensures extract(data).None? ==> !invoked && cache.seen == old(cache.seen) && limiter.counts == old(limiter.counts)
    ensures extract(data).Some? ==>
      var info := extract(data).value;
      var cid := if info.cid == "" then hash(data) else info.cid;
      && cache.seen == Marked(old(cache.seen), cid, now)
      && (invoked <==> cid !in old(cache.seen) && RateLimit.Allows(old(limiter.counts), info.author, info.kind, now))
      && limiter.counts == if cid in old(cache.seen) then old(limiter.counts)
                           else RateLimit.Allowed(old(limiter.counts), info.author, info.kind, now)
  {
    var extracted := extract(data);
    if extracted.None? {
      return false;
    }
    var info := extracted.value;
    var cid := info.cid;
    if cid == "" {
      cid := hash(data);
    }
    var replay := cache.CheckAndMark(cid, now);
    if replay {
      return false;
    }
    invoked := limiter.Allow(info.author, info.kind, now);
  }

  // ---------------------------------------------------------------- histories

  /** `Message` passes the filter at `at`; if it is new and `rateOk`, the handler starts `delay` later. */
  datatype Event =
    | Message(cid: Cid, at: int, rateOk: bool, delay: nat)
    | Mark(cid: Cid, at: int)
    | CleanupCall(at: int)

  datatype Invocation = Invocation(cid: Cid, admittedAt: int, invokedAt: int)

  predicate Monotone(events: seq<Event>) {
    forall i, j :: 0 <= i < j < |events| ==> events[i].at <= events[j].at
  }

  function After(seen: Seen, e: Event, maxAge: nat): Seen {
    match e
    case Message(cid, at, _, _) => Marked(seen, cid, at)
    case Mark(cid, at) => Marked(seen, cid, at)
    case CleanupCall(at) => Cleaned(seen, at, maxAge)
  }

  function InvokedAfter(seen: Seen, inv: seq<Invocation>, e: Event): seq<Invocation> {
    match e
    case Message(cid, at, rateOk, delay) => if cid !in seen && rateOk then inv + [Invocation(cid, at, at + delay)] else inv
    case _ => inv
  }

  function Run(events: seq<Event>, maxAge: nat): Seen {
    if events == [] then map[] else After(Run(events[..|events| - 1], maxAge), events[|events| - 1], maxAge)
  }

  /** The handler invocations of a history, in the order of admission. */
  function Invocations(events: seq<Event>, maxAge: nat): seq<Invocation> {
    if events == [] then []
    else
      var n := |events| - 1;
      InvokedAfter(Run(events[..n], maxAge), Invocations(events[..n], maxAge), events[n])
  }

  /** An earlier admission is still remembered, or more than the maximum age has passed. */
  ghost predicate Remembered(seen: Seen, v: Invocation, now: int, maxAge: nat) {
    now > v.admittedAt + maxAge || (v.cid in seen && seen[v.cid] >= v.admittedAt)
  }

  ghost predicate Spaced(inv: seq<Invocation>, maxAge: nat) {
    forall i, j :: 0 <= i < j < |inv| && inv[i].cid == inv[j].cid ==> inv[j].admittedAt > inv[i].admittedAt + maxAge
  }

  ghost predicate Inv(seen: Seen, inv: seq<Invocation>, now: int, maxAge: nat) {
    && (forall i :: 0 <= i < |inv| ==> Remembered(seen, inv[i], now, maxAge) && inv[i].admittedAt <= now)
    && Spaced(inv, maxAge)
  }

  lemma {:induction false} InvHolds(events: seq<Event>, maxAge: nat, now: int)
    requires Monotone(events)
    requires events != [] ==> events[|events| - 1].at <= now
    ensures Inv(Run(events, maxAge), Invocations(events, maxAge), now, maxAge)
    decreases |events|
  {
    if events != [] {
      var n := |events| - 1;
      var e := events[n];
      InvHolds(events[..n], maxAge, e.at);
      StepKeeps(Run(events[..n], maxAge), Invocations(events[..n], maxAge), e, maxAge, now);
    }
  }

  lemma {:induction false} StepKeeps(seen: Seen, inv: seq<Invocation>, e: Event, maxAge: nat, now: int)
    requires Inv(seen, inv, e.at, maxAge) && e.at <= now
    ensures Inv(After(seen, e, maxAge), InvokedAfter(seen, inv, e), now, maxAge)
  {
    var seen', inv' := After(seen, e, maxAge), InvokedAfter(seen, inv, e);
    forall i | 0 <= i < |inv'| ensures Remembered(seen', inv'[i], now, maxAge) && inv'[i].admittedAt <= now {
      if i < |inv| {
        assert inv'[i] == inv[i];
        assert Remembered(seen, inv[i], e.at, maxAge);
      }
    }
    forall i, j | 0 <= i < j < |inv'| && inv'[i].cid == inv'[j].cid
      ensures inv'[j].admittedAt > inv'[i].admittedAt + maxAge
    {
      assert inv'[i] == inv[i];
      if j == |inv| {
        assert Remembered(seen, inv[i], e.at, maxAge);
      } else {
        assert inv'[j] == inv[j];
      }
    }
  }

  lemma {:induction false} DelaysNonNegative(events: seq<Event>, maxAge: nat)
    ensures forall i :: 0 <= i < |Invocations(events, maxAge)| ==>
      Invocations(events, maxAge)[i].invokedAt >= Invocations(events, maxAge)[i].admittedAt
    decreases |events|
  {
    hide Run;
    if events != [] { DelaysNonNegative(events[..|events| - 1], maxAge); }
  }

  // ---------------------------------------------------------------- theorems

  /**
    In every history, the later of two invocations for the same id happens more than the maximum age after
    the earlier one was admitted. Invoked without delay, they are more than the maximum age apart.
   */
  lemma {:induction false} ReplaySpacing(events: seq<Event>, maxAge: nat, i: nat, j: nat)
    requires Monotone(events) && i < j < |Invocations(events, maxAge)|
    requires Invocations(events, maxAge)[i].cid == Invocations(events, maxAge)[j].cid
    ensures var a, b := Invocations(events, maxAge)[i], Invocations(events, maxAge)[j];
            && b.admittedAt > a.admittedAt + maxAge
            && b.invokedAt > a.admittedAt + maxAge
            && (a.invokedAt == a.admittedAt ==> b.invokedAt > a.invokedAt + maxAge)
  {
    hide Run, Invocations;
    var now := if events == [] then 0 else events[|events| - 1].at;
    InvHolds(events, maxAge, now);
    DelaysNonNegative(events, maxAge);
  }

  ghost predicate DelaysAtMost(events: seq<Event>, d: nat) {
    forall k :: 0 <= k < |events| && events[k].Message? ==> events[k].delay <= d
  }

  ghost predicate AllSpaced(inv: seq<Invocation>, maxAge: nat) {
    forall i, j :: 0 <= i < j < |inv| && inv[i].cid == inv[j].cid ==> inv[j].invokedAt > inv[i].invokedAt + maxAge
  }

  ghost predicate SpacedUpTo(maxAge: nat, d: nat) {
    forall events :: Monotone(events) && DelaysAtMost(events, d) ==> AllSpaced(Invocations(events, maxAge), maxAge)
  }

  lemma {:induction false} NoDelay(events: seq<Event>, maxAge: nat)
    requires DelaysAtMost(events, 0)
    ensures forall i :: 0 <= i < |Invocations(events, maxAge)| ==>
      Invocations(events, maxAge)[i].invokedAt == Invocations(events, maxAge)[i].admittedAt
    decreases |events|
  {
    hide Run;
    if events != [] { NoDelay(events[..|events| - 1], maxAge); }
  }

  /** A handler that starts late lets the next delivery of the same id come too close. */
  lemma {:induction false} LateHandler(maxAge: nat, d: nat, cid: Cid)
    requires d >= 1
    ensures var events := [Message(cid, 0, true, d), CleanupCall(maxAge + 1), Message(cid, maxAge + 1, true, 0)];
            && Monotone(events) && DelaysAtMost(events, d)
            && Invocations(events, maxAge) == [Invocation(cid, 0, d), Invocation(cid, maxAge + 1, maxAge + 1)]
  {
    var e := [Message(cid, 0, true, d), CleanupCall(maxAge + 1), Message(cid, maxAge + 1, true, 0)];
    assert e[..0] == [] && e[..1][..0] == [] && e[..2][..1] == e[..1] && e[..3] == e && e[..3][..2] == e[..2];
    assert Run(e[..0], maxAge) == map[];
    assert Run(e[..1], maxAge) == map[cid := 0];
    assert Run(e[..2], maxAge) == Cleaned(map[cid := 0], maxAge + 1, maxAge) == map[];
    assert Invocations(e[..0], maxAge) == [];
    assert Invocations(e[..1], maxAge) == [Invocation(cid, 0, d)];
    assert Invocations(e[..2], maxAge) == [Invocation(cid, 0, d)];
  }

  /** Handler starts for one id are more than the maximum age apart in all histories exactly when none is delayed. */
  lemma {:induction false} SpacedIffPrompt(maxAge: nat, d: nat)
    ensures SpacedUpTo(maxAge, d) <==> d == 0
  {
    if d == 0 {
      forall events | Monotone(events) && DelaysAtMost(events, d) ensures AllSpaced(Invocations(events, maxAge), maxAge) {
        hide Invocations, Run;
        var inv := Invocations(events, maxAge);
        NoDelay(events, maxAge);
        forall i, j | 0 <= i < j < |inv| && inv[i].cid == inv[j].cid ensures inv[j].invokedAt > inv[i].invokedAt + maxAge {
          ReplaySpacing(events, maxAge, i, j);
        }
      }
    } else {
      hide Invocations, Run;
      LateHandler(maxAge, d, "");
      var events := [Message("", 0, true, d), CleanupCall(maxAge + 1), Message("", maxAge + 1, true, 0)];
      var inv := Invocations(events, maxAge);
      assert inv[0].cid == inv[1].cid && !(inv[1].invokedAt > inv[0].invokedAt + maxAge);
      assert !AllSpaced(inv, maxAge);
    }
  }

  // ---------------------------------------------------------------- what is admitted

  /** Event `i` marks the id, and no cleanup since has been more than the age limit later. */
  ghost predicate Remembers(events: seq<Event>, maxAge: nat, cid: Cid, i: nat) {
    && i < |events| && !events[i].CleanupCall? && events[i].cid == cid
    && forall k :: i < k < |events| && events[k].CleanupCall? ==> events[k].at <= events[i].at + maxAge
  }

  /** Event `i` is a mark of the id made while it was not remembered; later replays do not renew it. */
  ghost predicate FirstMark(events: seq<Event>, maxAge: nat, cid: Cid, i: nat) {
    && Remembers(events, maxAge, cid, i) && cid !in Run(events[..i], maxAge)
  }

  lemma {:induction false} MarkPersists(events: seq<Event>, maxAge: nat, cid: Cid, i: nat)
    requires FirstMark(events, maxAge, cid, i)
    ensures cid in Run(events, maxAge) && Run(events, maxAge)[cid] == events[i].at
    decreases |events|
  {
    var n := |events| - 1;
    if i < n {
      assert events[..n][..i] == events[..i] && events[..n][i] == events[i];
      assert forall k :: i < k < n ==> events[..n][k] == events[k];
      MarkPersists(events[..n], maxAge, cid, i);
    }
  }

  lemma {:induction false} MarkExists(events: seq<Event>, maxAge: nat, cid: Cid) returns (i: nat)
    requires cid in Run(events, maxAge)
    ensures FirstMark(events, maxAge, cid, i)
    decreases |events|
  {
    var n := |events| - 1;
    if cid in Run(events[..n], maxAge) {
      i := MarkExists(events[..n], maxAge, cid);
      MarkPersists(events[..n], maxAge, cid, i);
      assert events[..n][..i] == events[..i] && events[..n][i] == events[i];
      assert forall k :: i < k < n ==> events[..n][k] == events[k];
    } else {
      i := n;
    }
  }

  /**
    In every history a message reaches the handler if and only if the limiter lets it and no first mark of its id is still
    remembered.
   */
  lemma {:induction false} AdmittedIff(events: seq<Event>, maxAge: nat, cid: Cid, at: int, rateOk: bool, delay: nat)
    ensures var after := Invocations(events + [Message(cid, at, rateOk, delay)], maxAge);
            && (after == Invocations(events, maxAge) + [Invocation(cid, at, at + delay)]
                <==> rateOk && forall i :: !FirstMark(events, maxAge, cid, i))
            && (after == Invocations(events, maxAge)
                <==> !(rateOk && forall i :: !FirstMark(events, maxAge, cid, i)))
  {
    hide FirstMark, Run;
    var m := Message(cid, at, rateOk, delay);
    assert (events + [m])[..|events + [m]| - 1] == events;
    if cid in Run(events, maxAge) {
      var i := MarkExists(events, maxAge, cid);
    }
    forall i | FirstMark(events, maxAge, cid, i) ensures cid in Run(events, maxAge) { MarkPersists(events, maxAge, cid, i); }
  }
}
