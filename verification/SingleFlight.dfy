/**
  Concurrent content fetches: `fetchShared`, `runRemoteFetch` and `FetchContentToTempFile` of
  `pkg/p2p/bitswap_fetch.go`.

  Every section that the source runs under `fetchStateMu`, and every channel operation, is one atomic
  step of a transition system; a run is any interleaving of the steps of any number of fetches. A fetch
  is named by a number, and the call record that a shared fetch creates carries the number of its leader.
 */
module SingleFlight {
  import opened Wrappers

  type Cid = seq<int>
  type Fetch = nat

  const CONCURRENCY := 4
  /** Fifteen seconds, in the nanoseconds of the clock. */
  const BACKOFF := 15_000_000_000

  datatype FetchResult = Data(content: seq<int>) | Failed(code: int)
  datatype Kind = Shared | ToFile

  /** Where a fetch is. `Led` and `Followed` are the two ways a shared fetch returns a result. */
  datatype Place =
    | Queued(kind: Kind, cid: Cid)                          // waits for a semaphore slot
    | Running(kind: Kind, cid: Cid)                         // holds a slot
    | Finishing(kind: Kind, cid: Cid, result: FetchResult)  // slot released, outcome not yet recorded
    | Led(cid: Cid, result: FetchResult)
    | FileDone(cid: Cid, result: FetchResult)
    | Waiting(cid: Cid, call: Fetch)                        // blocked on the done channel of a call
    | Followed(cid: Cid, call: Fetch, seen: Option<FetchResult>)
    | Refused(cid: Cid)                                     // backoff active
    | Cancelled(cid: Cid)

  datatype Call = Call(cid: Cid, result: Option<FetchResult>, closes: nat)

  datatype Event = Passed(cid: Cid, at: int) | FailureRecorded(cid: Cid, at: int) | SuccessRecorded(cid: Cid, at: int)

  datatype State = State(
    clock: int,
    places: map<Fetch, Place>,
    calls: map<Fetch, Call>,
    inFlight: map<Cid, Fetch>,
    failures: map<Cid, int>,
    slots: nat,
    log: seq<Event>)

  datatype Step =
    | Tick(dt: nat)
    | Enter(f: Fetch, kind: Kind, cid: Cid)
    | Acquire(f: Fetch)
    | Abandon(f: Fetch, code: int)
    | Complete(f: Fetch, result: FetchResult)
    | Finish(f: Fetch)
    | Observe(f: Fetch)
    | GiveUp(f: Fetch)

  // ---------------------------------------------------------------- steps

  predicate BackedOff(s: State, cid: Cid) {
    cid in s.failures && s.clock < s.failures[cid]
  }

  predicate Enabled(s: State, step: Step) {
    match step
    case Tick(_) => true
    case Enter(f, _, _) => f !in s.places
    case Acquire(f) => f in s.places && s.places[f].Queued? && s.slots < CONCURRENCY
    case Abandon(f, _) => f in s.places && s.places[f].Queued?
    case Complete(f, _) => f in s.places && s.places[f].Running?
    case Finish(f) => f in s.places && s.places[f].Finishing?
    case Observe(f) => f in s.places && s.places[f].Waiting? && s.places[f].call in s.calls && s.calls[s.places[f].call].closes > 0
    case GiveUp(f) => f in s.places && s.places[f].Waiting?
  }

  function Moved(s: State, f: Fetch, p: Place): State {
    s.(places := s.places[f := p])
  }

  function Entered(s: State, f: Fetch, kind: Kind, cid: Cid): State {
    if BackedOff(s, cid) then Moved(s, f, Refused(cid))
    else
      var s1 := s.(failures := s.failures - {cid}, log := s.log + [Passed(cid, s.clock)]);
      if kind == ToFile then Moved(s1, f, Queued(kind, cid))
      else if cid in s.inFlight then Moved(s1, f, Waiting(cid, s.inFlight[cid]))
      else Moved(s1, f, Queued(kind, cid)).(calls := s.calls[f := Call(cid, None, 0)], inFlight := s.inFlight[cid := f])
  }

  /** The fetch has an outcome; a shared leader writes it into its call record. */
  function Resulted(s: State, f: Fetch, kind: Kind, cid: Cid, r: FetchResult): State {
    var s1 := Moved(s, f, Finishing(kind, cid, r));
    if kind == Shared && f in s.calls then s1.(calls := s.calls[f := s.calls[f].(result := Some(r))]) else s1
  }

  function Recorded(s: State, cid: Cid, r: FetchResult): State {
    if r.Failed?
    then s.(failures := s.failures[cid := s.clock + BACKOFF], log := s.log + [FailureRecorded(cid, s.clock)])
    else s.(failures := s.failures - {cid}, log := s.log + [SuccessRecorded(cid, s.clock)])
  }

  function Finished(s: State, f: Fetch, kind: Kind, cid: Cid, r: FetchResult): State {
    var s1 := Recorded(s, cid, r);
    if kind == ToFile then Moved(s1, f, FileDone(cid, r))
    else
      Moved(s1, f, Led(cid, r)).(
        inFlight := s.inFlight - {cid},
        calls := if f in s.calls then s.calls[f := s.calls[f].(closes := s.calls[f].closes + 1)] else s.calls)
  }

  function Next(s: State, step: Step): State
    requires Enabled(s, step)
  {
    match step
    case Tick(dt) => s.(clock := s.clock + dt)
    case Enter(f, kind, cid) => Entered(s, f, kind, cid)
    case Acquire(f) => Moved(s, f, Running(s.places[f].kind, s.places[f].cid)).(slots := s.slots + 1)
    case Abandon(f, code) => Resulted(s, f, s.places[f].kind, s.places[f].cid, Failed(code))
    case Complete(f, r) => Resulted(s, f, s.places[f].kind, s.places[f].cid, r).(slots := if s.slots > 0 then s.slots - 1 else 0)
    case Finish(f) => Finished(s, f, s.places[f].kind, s.places[f].cid, s.places[f].result)
    case Observe(f) => Moved(s, f, Followed(s.places[f].cid, s.places[f].call, s.calls[s.places[f].call].result))
    case GiveUp(f) => Moved(s, f, Cancelled(s.places[f].cid))
  }

  const INITIAL := State(0, map[], map[], map[], map[], 0, [])

  /** A step that is not enabled does not happen. */
  function Run(steps: seq<Step>): State {
    if steps == [] then INITIAL
    else
      var s := Run(steps[..|steps| - 1]);
      var step := steps[|steps| - 1];
      if Enabled(s, step) then Next(s, step) else s
  }

  // ---------------------------------------------------------------- the code of the steps

  /** The fields of the content exchange, with the places of the goroutines, the clock and the log as ghost fields. */
  class ContentExchange {
    var fetchInFlight: map<Cid, Fetch>
    var fetchFailures: map<Cid, int>
    var fetchSemaphore: nat
    var calls: map<Fetch, Call>
    ghost var clock: int
    ghost var places: map<Fetch, Place>
    ghost var log: seq<Event>

    ghost function View(): State
      reads this
    {
      State(clock, places, calls, fetchInFlight, fetchFailures, fetchSemaphore, log)
    }

    constructor ()
      ensures View() == INITIAL
    {
      fetchInFlight, fetchFailures, fetchSemaphore, calls := map[], map[], 0, map[];
      clock, places, log := 0, map[], [];
    }

    method CheckFetchBackoffLocked(cid: Cid, now: int) returns (active: bool)
      requires now == clock
      modifies this`fetchFailures, this`log
      ensures active <==> BackedOff(old(View()), cid)
      ensures fetchFailures == if active then old(fetchFailures) else old(fetchFailures) - {cid}
      ensures log == if active then old(log) else old(log) + [Passed(cid, clock)]
    {
      if cid in fetchFailures {
        if now < fetchFailures[cid] {
          return true;
        }
        fetchFailures := fetchFailures - {cid};
      }
      log := log + [Passed(cid, clock)];
      return false;
    }

    method RecordFetchResultLocked(cid: Cid, r: FetchResult, now: int)
      requires now == clock
      modifies this`fetchFailures, this`log
      ensures View() == Recorded(old(View()), cid, r)
    {
      if r.Failed? {
        fetchFailures := fetchFailures[cid := now + BACKOFF];
        log := log + [FailureRecorded(cid, clock)];
      } else {
        fetchFailures := fetchFailures - {cid};
        log := log + [SuccessRecorded(cid, clock)];
      }
    }

    /** The first locked section of `fetchShared`: refuse, follow the call in flight, or lead a new one. */
    method JoinOrLead(f: Fetch, cid: Cid, now: int)
      requires Enabled(View(), Enter(f, Shared, cid)) && now == clock
      modifies this
      ensures View() == Next(old(View()), Enter(f, Shared, cid))
    {
      var active := CheckFetchBackoffLocked(cid, now);
      if active {
        places := places[f := Refused(cid)];
        return;
      }
      if cid in fetchInFlight {
        places := places[f := Waiting(cid, fetchInFlight[cid])];
        return;
      }
      calls := calls[f := Call(cid, None, 0)];
      fetchInFlight := fetchInFlight[cid := f];
      places := places[f := Queued(Shared, cid)];
    }

    /** The entry of `FetchContentToTempFile`. */
    method CheckFetchBackoff(f: Fetch, cid: Cid, now: int)
      requires Enabled(View(), Enter(f, ToFile, cid)) && now == clock
      modifies this
      ensures View() == Next(old(View()), Enter(f, ToFile, cid))
    {
      var active := CheckFetchBackoffLocked(cid, now);
      places := places[f := if active then Refused(cid) else Queued(ToFile, cid)];
    }

    /** The last locked section of `fetchShared`. */
    method PublishResult(f: Fetch, now: int)
      requires Enabled(View(), Finish(f)) && places[f].kind == Shared && now == clock
      requires CallInv(View())
      modifies this
      ensures View() == Next(old(View()), Finish(f))
    {
      assert f in calls && CallMatches(calls[f], places[f]);
      var cid, r := calls[f].cid, calls[f].result.value;
      fetchInFlight := fetchInFlight - {cid};
      RecordFetchResultLocked(cid, r, now);
      calls := calls[f := calls[f].(closes := calls[f].closes + 1)];
      places := places[f := Led(cid, r)];
    }
  }

  // ---------------------------------------------------------------- invariants

  predicate ActiveLeader(p: Place) {
    (p.Queued? || p.Running? || p.Finishing?) && p.kind == Shared
  }

  /** The in-flight map and the active leaders are the same relation. */
  ghost predicate FlightInv(s: State) {
    && (forall cid :: cid in s.inFlight ==>
          s.inFlight[cid] in s.places && ActiveLeader(s.places[s.inFlight[cid]]) && s.places[s.inFlight[cid]].cid == cid)
    && (forall f :: f in s.places && ActiveLeader(s.places[f]) ==>
          s.places[f].cid in s.inFlight && s.inFlight[s.places[f].cid] == f)
  }

  /** What a call record says, depending on where its leader is. */
  ghost predicate CallMatches(c: Call, p: Place) {
    match p
    case Queued(kind, cid) => kind == Shared && c == Call(cid, None, 0)
    case Running(kind, cid) => kind == Shared && c == Call(cid, None, 0)
    case Finishing(kind, cid, r) => kind == Shared && c == Call(cid, Some(r), 0)
    case Led(cid, r) => c == Call(cid, Some(r), 1)
    case _ => false
  }

  ghost predicate CallInv(s: State) {
    && (forall f :: f in s.calls ==> f in s.places && CallMatches(s.calls[f], s.places[f]))
    && (forall f :: f in s.places && (ActiveLeader(s.places[f]) || s.places[f].Led?) ==> f in s.calls)
  }

  ghost predicate FollowerMatches(s: State, p: Place) {
    && (p.Waiting? ==> p.call in s.calls && s.calls[p.call].cid == p.cid)
    && (p.Followed? ==>
          && p.call in s.calls && s.calls[p.call].cid == p.cid
          && s.calls[p.call].closes == 1 && s.calls[p.call].result == p.seen)
  }

  ghost predicate FollowerInv(s: State) {
    forall f :: f in s.places ==> FollowerMatches(s, s.places[f])
  }

  function Runners(places: map<Fetch, Place>): set<Fetch> {
    set f | f in places && places[f].Running?
  }

  ghost predicate SlotInv(s: State) {
    s.slots == |Runners(s.places)| <= CONCURRENCY
  }

  ghost predicate NoSuccessAfter(log: seq<Event>, i: nat, cid: Cid) {
    forall k :: i < k < |log| ==> !(log[k].SuccessRecorded? && log[k].cid == cid)
  }

  /** A failure not followed by a success still blocks, unless its time has passed. */
  ghost predicate StillBlocks(s: State, cid: Cid, at: int) {
    s.clock >= at + BACKOFF || (cid in s.failures && s.failures[cid] >= at + BACKOFF)
  }

  ghost predicate BackoffInv(s: State) {
    && (forall i :: 0 <= i < |s.log| ==> s.log[i].at <= s.clock)
    && (forall i :: 0 <= i < |s.log| && s.log[i].FailureRecorded? && NoSuccessAfter(s.log, i, s.log[i].cid)
          ==> StillBlocks(s, s.log[i].cid, s.log[i].at))
  }

  /** Entry `j` passes a check for the id of failure `i` with no success recorded in between. */
  ghost predicate BlockedPass(log: seq<Event>, i: int, j: int)
    requires 0 <= i < j < |log|
  {
    && log[i].FailureRecorded? && log[j].Passed? && log[j].cid == log[i].cid
    && NoSuccessAfter(log[..j], i, log[i].cid)
  }

  /** No passed check in the log lies inside an unbroken backoff. */
  ghost predicate SpacedLog(log: seq<Event>) {
    forall i, j :: 0 <= i < j < |log| && BlockedPass(log, i, j) ==> log[j].at >= log[i].at + BACKOFF
  }

  ghost predicate Inv(s: State) {
    FlightInv(s) && CallInv(s) && FollowerInv(s) && SlotInv(s) && BackoffInv(s) && SpacedLog(s.log)
  }

  // ---------------------------------------------------------------- each step keeps each part

  lemma {:induction false} EnterKeepsFlight(s: State, f: Fetch, kind: Kind, cid: Cid)
    requires FlightInv(s) && f !in s.places
    ensures FlightInv(Entered(s, f, kind, cid))
  {
  }

  lemma {:induction false} FinishKeepsFlight(s: State, f: Fetch)
    requires FlightInv(s) && Enabled(s, Finish(f))
    ensures FlightInv(Next(s, Finish(f)))
  {
  }

  /** Moves that neither create nor finish a shared leader. */
  lemma {:induction false} MoveKeepsFlight(s: State, s': State, f: Fetch)
    requires FlightInv(s) && f in s.places && f in s'.places
    requires s'.places == s.places[f := s'.places[f]] && s'.inFlight == s.inFlight
    requires ActiveLeader(s'.places[f]) == ActiveLeader(s.places[f])
    requires ActiveLeader(s.places[f]) ==> s'.places[f].cid == s.places[f].cid
    ensures FlightInv(s')
  {
  }

  lemma {:induction false} StepKeepsFlight(s: State, step: Step)
    requires Enabled(s, step) && FlightInv(s)
    ensures FlightInv(Next(s, step))
  {
    match step
    case Tick(_) =>
    case Enter(f, kind, cid) => EnterKeepsFlight(s, f, kind, cid);
    case Finish(f) => FinishKeepsFlight(s, f);
    case Acquire(f) => hide FlightInv; MoveKeepsFlight(s, Next(s, step), f);
    case Abandon(f, _) => hide FlightInv; MoveKeepsFlight(s, Next(s, step), f);
    case Complete(f, _) => hide FlightInv; MoveKeepsFlight(s, Next(s, step), f);
    case Observe(f) => hide FlightInv; MoveKeepsFlight(s, Next(s, step), f);
    case GiveUp(f) => hide FlightInv; MoveKeepsFlight(s, Next(s, step), f);
  }

  lemma {:induction false} EnterKeepsCalls(s: State, f: Fetch, kind: Kind, cid: Cid)
    requires CallInv(s) && f !in s.places
    ensures CallInv(Entered(s, f, kind, cid))
  {
  }

  lemma {:induction false} ResultKeepsCalls(s: State, f: Fetch, r: FetchResult)
    requires CallInv(s) && f in s.places && (s.places[f].Queued? || s.places[f].Running?)
    ensures CallInv(Resulted(s, f, s.places[f].kind, s.places[f].cid, r))
  {
  }

  lemma {:induction false} FinishKeepsCalls(s: State, f: Fetch)
    requires CallInv(s) && Enabled(s, Finish(f))
    ensures CallInv(Next(s, Finish(f)))
  {
  }

  lemma {:induction false} AcquireKeepsCalls(s: State, f: Fetch)
    requires CallInv(s) && Enabled(s, Acquire(f))
    ensures CallInv(Next(s, Acquire(f)))
  {
  }

  /** Followers have no call record, and moving one touches none. */
  lemma {:induction false} FollowerMoveKeepsCalls(s: State, f: Fetch, p: Place)
    requires CallInv(s) && f in s.places && s.places[f].Waiting? && (p.Followed? || p.Cancelled?)
    ensures CallInv(Moved(s, f, p))
  {
  }

  lemma {:induction false} StepKeepsCalls(s: State, step: Step)
    requires Enabled(s, step) && CallInv(s)
    ensures CallInv(Next(s, step))
  {
    match step
    case Tick(_) =>
    case Enter(f, kind, cid) => hide CallInv; EnterKeepsCalls(s, f, kind, cid);
    case Finish(f) => hide CallInv; FinishKeepsCalls(s, f);
    case Acquire(f) => hide CallInv; AcquireKeepsCalls(s, f);
    case Abandon(f, code) => hide CallInv; ResultKeepsCalls(s, f, Failed(code));
    case Complete(f, r) => ResultKeepsCalls(s, f, r);
    case Observe(f) => hide CallInv; FollowerMoveKeepsCalls(s, f, Next(s, step).places[f]);
    case GiveUp(f) => hide CallInv; FollowerMoveKeepsCalls(s, f, Next(s, step).places[f]);
  }

  /** Once closed, a call record never changes, and no record ever changes its id. */
  lemma {:induction false} CallsGrow(s: State, step: Step)
    requires Enabled(s, step) && CallInv(s)
    ensures forall c :: c in s.calls ==>
      && c in Next(s, step).calls && Next(s, step).calls[c].cid == s.calls[c].cid
      && (s.calls[c].closes == 1 ==> Next(s, step).calls[c] == s.calls[c])
  {
  }

  lemma {:induction false} FollowerStays(s: State, s': State, p: Place)
    requires FollowerMatches(s, p)
    requires forall c :: c in s.calls ==>
      && c in s'.calls && s'.calls[c].cid == s.calls[c].cid
      && (s.calls[c].closes == 1 ==> s'.calls[c] == s.calls[c])
    ensures FollowerMatches(s', p)
  {
  }

  lemma {:induction false} NewWaiter(s: State, f: Fetch, kind: Kind, cid: Cid)
    requires FlightInv(s) && CallInv(s) && f !in s.places
    ensures FollowerMatches(Entered(s, f, kind, cid), Entered(s, f, kind, cid).places[f])
  {
    if cid in s.inFlight {
      var c := s.inFlight[cid];
      assert c in s.calls && CallMatches(s.calls[c], s.places[c]);
    }
  }

  lemma {:induction false} NewObserver(s: State, f: Fetch)
    requires CallInv(s) && FollowerInv(s) && Enabled(s, Observe(f))
    ensures FollowerMatches(Next(s, Observe(f)), Next(s, Observe(f)).places[f])
  {
    var c := s.places[f].call;
    assert CallMatches(s.calls[c], s.places[c]);
    assert FollowerMatches(s, s.places[f]);
  }

  /** The one place a step changes is right afterwards. */
  lemma {:induction false} NewFollower(s: State, step: Step, f: Fetch)
    requires Enabled(s, step) && FlightInv(s) && CallInv(s) && FollowerInv(s)
    requires f in Next(s, step).places && (f !in s.places || s.places[f] != Next(s, step).places[f])
    ensures FollowerMatches(Next(s, step), Next(s, step).places[f])
  {
    hide FlightInv, CallInv, FollowerInv;
    match step
    case Enter(g, kind, cid) => hide Entered; EnteredPlaces(s, g, kind, cid); NewWaiter(s, g, kind, cid);
    case Observe(g) => hide FollowerMatches; NewObserver(s, g);
    case _ =>
  }

  lemma {:induction false} EnteredPlaces(s: State, f: Fetch, kind: Kind, cid: Cid)
    ensures var s' := Entered(s, f, kind, cid); f in s'.places && s'.places == s.places[f := s'.places[f]]
  {
  }

  lemma {:induction false} StepKeepsFollowers(s: State, step: Step)
    requires Enabled(s, step) && FlightInv(s) && CallInv(s) && FollowerInv(s)
    ensures FollowerInv(Next(s, step))
  {
    hide FlightInv, CallInv, FollowerMatches, Next, Enabled;
    var s' := Next(s, step);
    CallsGrow(s, step);
    forall f | f in s'.places ensures FollowerMatches(s', s'.places[f]) {
      if f in s.places && s.places[f] == s'.places[f] {
        FollowerStays(s, s', s.places[f]);
      } else {
        NewFollower(s, step, f);
      }
    }
  }

  lemma {:induction false} SameRunners(places: map<Fetch, Place>, f: Fetch, p: Place)
    requires !p.Running? && (f in places ==> !places[f].Running?)
    ensures Runners(places[f := p]) == Runners(places)
  {
  }

  lemma {:induction false} StepKeepsSlots(s: State, step: Step)
    requires Enabled(s, step) && SlotInv(s)
    ensures SlotInv(Next(s, step))
  {
    hide Runners;
    var s' := Next(s, step);
    match step
    case Tick(_) =>
    case Enter(f, kind, cid) =>
      EnteredPlaces(s, f, kind, cid);
      SameRunners(s.places, f, s'.places[f]);
    case Acquire(f) => OneMoreRunner(s.places, f, s'.places[f]);
    case Complete(f, _) => OneLessRunner(s.places, f, s'.places[f]);
    case Abandon(f, _) => SameRunners(s.places, f, s'.places[f]);
    case Finish(f) => SameRunners(s.places, f, s'.places[f]);
    case Observe(f) => SameRunners(s.places, f, s'.places[f]);
    case GiveUp(f) => SameRunners(s.places, f, s'.places[f]);
  }

  lemma {:induction false} OneMoreRunner(places: map<Fetch, Place>, f: Fetch, p: Place)
    requires p.Running? && f in places && !places[f].Running?
    ensures |Runners(places[f := p])| == |Runners(places)| + 1
  {
    assert Runners(places[f := p]) == Runners(places) + {f};
  }

  lemma {:induction false} OneLessRunner(places: map<Fetch, Place>, f: Fetch, p: Place)
    requires !p.Running? && f in places && places[f].Running?
    ensures |Runners(places[f := p])| == |Runners(places)| - 1
  {
    assert Runners(places) == Runners(places[f := p]) + {f};
  }

  // ---------------------------------------------------------------- backoff

  lemma {:induction false} NoSuccessSnoc(log: seq<Event>, e: Event, i: nat, cid: Cid)
    requires i < |log|
    ensures NoSuccessAfter(log + [e], i, cid)
       <==> NoSuccessAfter(log, i, cid) && !(e.SuccessRecorded? && e.cid == cid)
  {
    var l := log + [e];
    assert l[|log|] == e;
    assert forall k :: i < k < |log| ==> l[k] == log[k];
  }

  ghost predicate Blocks(log: seq<Event>, i: nat, cid: Cid)
    requires i < |log|
  {
    log[i].FailureRecorded? && log[i].cid == cid && NoSuccessAfter(log, i, cid)
  }

  lemma {:induction false} SpacedSnoc(log: seq<Event>, e: Event)
    requires SpacedLog(log)
    requires e.Passed? ==> forall i :: 0 <= i < |log| && Blocks(log, i, e.cid) ==> e.at >= log[i].at + BACKOFF
    ensures SpacedLog(log + [e])
  {
    hide NoSuccessAfter;
    var l := log + [e];
    forall i, j | 0 <= i < j < |l| && BlockedPass(l, i, j) ensures l[j].at >= l[i].at + BACKOFF {
      assert l[i] == log[i];
      if j < |log| {
        assert l[..j] == log[..j] && l[j] == log[j];
        assert BlockedPass(log, i, j);
      } else {
        assert l[..j] == log && l[j] == e;
        assert Blocks(log, i, e.cid);
      }
    }
  }

  /** Passing the check drops only an expired entry. */
  lemma {:induction false} EnterKeepsBackoff(s: State, f: Fetch, kind: Kind, cid: Cid)
    requires BackoffInv(s) && SpacedLog(s.log)
    ensures BackoffInv(Entered(s, f, kind, cid)) && SpacedLog(Entered(s, f, kind, cid).log)
  {
    hide NoSuccessAfter, SpacedLog;
    if !BackedOff(s, cid) {
      var s' := Entered(s, f, kind, cid);
      var e := Passed(cid, s.clock);
      SpacedSnoc(s.log, e);
      forall i | 0 <= i < |s'.log| && s'.log[i].FailureRecorded? && NoSuccessAfter(s'.log, i, s'.log[i].cid)
        ensures StillBlocks(s', s'.log[i].cid, s'.log[i].at)
      {
        assert i < |s.log| && s'.log[i] == s.log[i];
        NoSuccessSnoc(s.log, e, i, s.log[i].cid);
      }
    }
  }

  lemma {:induction false} RecordKeepsBackoff(s: State, cid: Cid, r: FetchResult)
    requires BackoffInv(s) && SpacedLog(s.log)
    ensures BackoffInv(Recorded(s, cid, r)) && SpacedLog(Recorded(s, cid, r).log)
  {
    hide NoSuccessAfter, SpacedLog;
    var s' := Recorded(s, cid, r);
    var e := s'.log[|s.log|];
    SpacedSnoc(s.log, e);
    forall i | 0 <= i < |s'.log| && s'.log[i].FailureRecorded? && NoSuccessAfter(s'.log, i, s'.log[i].cid)
      ensures StillBlocks(s', s'.log[i].cid, s'.log[i].at)
    {
      if i < |s.log| {
        assert s'.log[i] == s.log[i];
        NoSuccessSnoc(s.log, e, i, s.log[i].cid);
        assert StillBlocks(s, s.log[i].cid, s.log[i].at);
      }
    }
  }

  lemma {:induction false} SameBackoff(s: State, s': State)
    requires BackoffInv(s) && SpacedLog(s.log)
    requires s'.log == s.log && s'.failures == s.failures && s'.clock >= s.clock
    ensures BackoffInv(s') && SpacedLog(s'.log)
  {
    forall i | 0 <= i < |s'.log| && s'.log[i].FailureRecorded? && NoSuccessAfter(s'.log, i, s'.log[i].cid)
      ensures StillBlocks(s', s'.log[i].cid, s'.log[i].at)
    {
      assert StillBlocks(s, s.log[i].cid, s.log[i].at);
    }
  }

  lemma {:induction false} StepKeepsBackoff(s: State, step: Step)
    requires Enabled(s, step) && BackoffInv(s) && SpacedLog(s.log)
    ensures BackoffInv(Next(s, step)) && SpacedLog(Next(s, step).log)
  {
    hide BackoffInv, SpacedLog;
    var s' := Next(s, step);
    match step
    case Enter(f, kind, cid) => EnterKeepsBackoff(s, f, kind, cid);
    case Finish(f) =>
      var r := Recorded(s, s.places[f].cid, s.places[f].result);
      RecordKeepsBackoff(s, s.places[f].cid, s.places[f].result);
      SameBackoff(r, s');
    case _ => SameBackoff(s, s');
  }

  // ---------------------------------------------------------------- every interleaving

  lemma {:induction false} InvHolds(steps: seq<Step>)
    ensures Inv(Run(steps))
    decreases |steps|
  {
    hide FlightInv, CallInv, FollowerInv, SlotInv, BackoffInv, SpacedLog, Next, Enabled;
    if steps == [] {
      InitialInv();
    } else {
      var s, step := Run(steps[..|steps| - 1]), steps[|steps| - 1];
      InvHolds(steps[..|steps| - 1]);
      if Enabled(s, step) {
        StepKeepsFlight(s, step);
        StepKeepsCalls(s, step);
        StepKeepsFollowers(s, step);
        StepKeepsSlots(s, step);
        StepKeepsBackoff(s, step);
      }
    }
  }

  lemma {:induction false} InitialInv()
    ensures Inv(INITIAL)
  {
    assert Runners(map[]) == {};
  }

  /** At most one shared fetch per id is between its in-flight entry and its recorded outcome. */
  lemma {:induction false} OneLeaderPerCid(steps: seq<Step>, f: Fetch, g: Fetch)
    requires var s := Run(steps);
             f in s.places && g in s.places && ActiveLeader(s.places[f]) && ActiveLeader(s.places[g])
             && s.places[f].cid == s.places[g].cid
    ensures f == g
  {
    hide Run;
    InvHolds(steps);
  }

  /** A done channel is closed at most once, and exactly when its leader has returned. */
  lemma {:induction false} ClosedExactlyOnce(steps: seq<Step>, c: Fetch)
    requires c in Run(steps).calls
    ensures var s := Run(steps);
            c in s.places && s.calls[c].closes <= 1 && (s.calls[c].closes == 1 <==> s.places[c].Led?)
  {
    hide Run;
    InvHolds(steps);
    var s := Run(steps);
    assert CallMatches(s.calls[c], s.places[c]);
  }

  /** A follower that returns through the done channel returns what its leader returned. */
  lemma {:induction false} FollowerGetsLeaderResult(steps: seq<Step>, f: Fetch)
    requires f in Run(steps).places && Run(steps).places[f].Followed?
    ensures var s := Run(steps);
            var p := s.places[f];
            p.seen.Some? && p.call in s.places && s.places[p.call] == Led(p.cid, p.seen.value)
  {
    hide Run;
    InvHolds(steps);
    var s := Run(steps);
    var p := s.places[f];
    assert FollowerMatches(s, p);
    assert CallMatches(s.calls[p.call], s.places[p.call]);
  }

  /** A waiting follower is never stranded: the channel is closed already or its leader is still at work. */
  lemma {:induction false} FollowerNotStranded(steps: seq<Step>, f: Fetch)
    requires f in Run(steps).places && Run(steps).places[f].Waiting?
    ensures var s := Run(steps);
            var p := s.places[f];
            Enabled(s, Observe(f)) || (p.call in s.places && ActiveLeader(s.places[p.call]) && s.places[p.call].cid == p.cid)
  {
    hide Run;
    InvHolds(steps);
    var s := Run(steps);
    var p := s.places[f];
    assert FollowerMatches(s, p);
    assert CallMatches(s.calls[p.call], s.places[p.call]);
  }

  /** Fetches of both kinds together never exceed the semaphore. */
  lemma {:induction false} ConcurrencyBounded(steps: seq<Step>)
    ensures |Runners(Run(steps).places)| <= 4
  {
    hide Run;
    InvHolds(steps);
  }

  /** After a recorded failure no attempt passes the check within the backoff, unless a success came in between. */
  lemma {:induction false} BackoffRespected(steps: seq<Step>, i: nat, j: nat)
    requires i < j < |Run(steps).log|
    requires var log := Run(steps).log;
             && log[i].FailureRecorded? && log[j].Passed? && log[j].cid == log[i].cid
             && forall k :: i < k < j ==> !(log[k].SuccessRecorded? && log[k].cid == log[i].cid)
    ensures Run(steps).log[j].at >= Run(steps).log[i].at + 15_000_000_000
  {
    hide Run;
    InvHolds(steps);
    var log := Run(steps).log;
    assert BlockedPass(log, i, j);
  }

  // ---------------------------------------------------------------- what a fetch is let do

  /** A failure of the id lies less than fifteen seconds back, and no success came after it. */
  ghost predicate FailedLately(log: seq<Event>, cid: Cid, clock: int) {
    exists i :: 0 <= i < |log| && FailureStands(log, i, cid) && clock < log[i].at + 15_000_000_000
  }

  ghost predicate FailureStands(log: seq<Event>, i: nat, cid: Cid)
    requires i < |log|
  {
    log[i].FailureRecorded? && log[i].cid == cid && NoSuccessAfter(log, i, cid)
  }

  /** Every entry of the failure map goes back to a recorded failure. */
  ghost predicate FailuresLogged(s: State) {
    forall cid :: cid in s.failures ==> Logged(s.log, cid, s.failures[cid])
  }

  ghost predicate Logged(log: seq<Event>, cid: Cid, until: int) {
    exists i :: 0 <= i < |log| && FailureStands(log, i, cid) && until == log[i].at + BACKOFF
  }

  lemma {:induction false} LoggedSnoc(log: seq<Event>, e: Event, cid: Cid, until: int)
    requires Logged(log, cid, until) && !(e.SuccessRecorded? && e.cid == cid)
    ensures Logged(log + [e], cid, until)
  {
    hide NoSuccessAfter;
    var i :| 0 <= i < |log| && FailureStands(log, i, cid) && until == log[i].at + BACKOFF;
    NoSuccessSnoc(log, e, i, cid);
    assert (log + [e])[i] == log[i];
    assert FailureStands(log + [e], i, cid);
  }

  lemma {:induction false} EnterKeepsLogged(s: State, f: Fetch, kind: Kind, cid: Cid)
    requires FailuresLogged(s)
    ensures FailuresLogged(Entered(s, f, kind, cid))
  {
    hide Logged;
    var s' := Entered(s, f, kind, cid);
    if !BackedOff(s, cid) {
      forall c | c in s'.failures ensures Logged(s'.log, c, s'.failures[c]) {
        LoggedSnoc(s.log, Passed(cid, s.clock), c, s.failures[c]);
      }
    }
  }

  lemma {:induction false} RecordKeepsLogged(s: State, cid: Cid, r: FetchResult)
    requires FailuresLogged(s)
    ensures FailuresLogged(Recorded(s, cid, r))
  {
    var s' := Recorded(s, cid, r);
    forall c | c in s'.failures ensures Logged(s'.log, c, s'.failures[c]) {
      if c == cid {
        assert FailureStands(s'.log, |s.log|, cid);
      } else {
        hide Logged;
        LoggedSnoc(s.log, s'.log[|s.log|], c, s.failures[c]);
      }
    }
  }

  lemma {:induction false} StepKeepsLogged(s: State, step: Step)
    requires Enabled(s, step) && FailuresLogged(s)
    ensures FailuresLogged(Next(s, step))
  {
    hide Logged;
    match step {
      case Enter(f, kind, cid) => EnterKeepsLogged(s, f, kind, cid);
      case Finish(f) => RecordKeepsLogged(s, s.places[f].cid, s.places[f].result);
      case _ =>
    }
  }

  lemma {:induction false} LoggedHolds(steps: seq<Step>)
    ensures FailuresLogged(Run(steps))
    decreases |steps|
  {
    hide FailuresLogged, Next, Enabled;
    if steps == [] {
      NothingLogged();
    } else {
      var s, step := Run(steps[..|steps| - 1]), steps[|steps| - 1];
      LoggedHolds(steps[..|steps| - 1]);
      if Enabled(s, step) { StepKeepsLogged(s, step); }
    }
  }

  lemma {:induction false} NothingLogged()
    ensures FailuresLogged(INITIAL)
  {
  }

  lemma {:induction false} BackedOffIff(steps: seq<Step>, cid: Cid)
    ensures BackedOff(Run(steps), cid) <==> FailedLately(Run(steps).log, cid, Run(steps).clock)
  {
    hide Run, NoSuccessAfter;
    InvHolds(steps);
    LoggedHolds(steps);
    var s := Run(steps);
    if BackedOff(s, cid) {
      assert Logged(s.log, cid, s.failures[cid]);
      var i :| 0 <= i < |s.log| && FailureStands(s.log, i, cid) && s.failures[cid] == s.log[i].at + BACKOFF;
    }
    if FailedLately(s.log, cid, s.clock) {
      var i :| 0 <= i < |s.log| && FailureStands(s.log, i, cid) && s.clock < s.log[i].at + 15_000_000_000;
      assert StillBlocks(s, s.log[i].cid, s.log[i].at);
    }
  }

  /** Some shared fetch of the id is under way. */
  ghost predicate LeaderIs(s: State, cid: Cid, g: Fetch) {
    g in s.places && ActiveLeader(s.places[g]) && s.places[g].cid == cid
  }

  /**
    In every run, a new fetch is refused if and only if the id failed lately. Otherwise a shared fetch waits for the one
    of the same id that is under way, if there is one, and any other fetch is queued.
   */
  lemma {:induction false} EntryExact(steps: seq<Step>, f: Fetch, kind: Kind, cid: Cid)
    requires f !in Run(steps).places
    ensures var s := Run(steps);
            Enabled(s, Enter(f, kind, cid)) && f in Next(s, Enter(f, kind, cid)).places
    ensures var s := Run(steps);
            var p := Next(s, Enter(f, kind, cid)).places[f];
            && (p == Refused(cid) <==> FailedLately(s.log, cid, s.clock))
            && (!FailedLately(s.log, cid, s.clock) && kind == Shared ==>
                  forall g :: LeaderIs(s, cid, g) ==> p == Waiting(cid, g))
            && (!FailedLately(s.log, cid, s.clock) && (kind == ToFile || forall g :: !LeaderIs(s, cid, g)) ==> p == Queued(kind, cid))
  {
    hide Run, FailedLately, BackedOff;
    var s := Run(steps);
    BackedOffIff(steps, cid);
    InvHolds(steps);
    if cid in s.inFlight {
      assert LeaderIs(s, cid, s.inFlight[cid]);
    }
  }

  /**
    Nothing is held back without need: a queued fetch can start exactly while fewer than four run and can be cancelled at
    any time, a running one can complete with any result, and a completed one can return.
   */
  lemma {:induction false} Progress(steps: seq<Step>, f: Fetch, r: FetchResult, code: int)
    requires f in Run(steps).places
    ensures var s := Run(steps);
            var p := s.places[f];
            && (p.Queued? ==> Enabled(s, Abandon(f, code)) && (Enabled(s, Acquire(f)) <==> |Runners(s.places)| < 4))
            && (p.Running? ==> Enabled(s, Complete(f, r)))
            && (p.Finishing? ==> Enabled(s, Finish(f)))
  {
    hide Run, Runners;
    InvHolds(steps);
  }

  /** A fetch that acquires a slot runs, and one that completes with a result returns it and has it recorded. */
  lemma {:induction false} ResultReturned(s: State, f: Fetch, r: FetchResult)
    requires f in s.places && s.places[f].Running?
    ensures Enabled(s, Complete(f, r)) && Enabled(Next(s, Complete(f, r)), Finish(f))
    ensures var p := s.places[f];
            var t := Next(Next(s, Complete(f, r)), Finish(f));
            && t.places == s.places[f := if p.kind == Shared then Led(p.cid, r) else FileDone(p.cid, r)]
            && t.log == s.log + [if r.Failed? then FailureRecorded(p.cid, s.clock) else SuccessRecorded(p.cid, s.clock)]
  {
    hide Runners;
  }

  lemma {:induction false} SlotTaken(s: State, f: Fetch)
    requires Enabled(s, Acquire(f))
    ensures Next(s, Acquire(f)).places == s.places[f := Running(s.places[f].kind, s.places[f].cid)]
  {
  }

  /** In every run a follower whose leader has returned can return the leader's result; it can give up at any time. */
  lemma {:induction false} FollowerReturns(steps: seq<Step>, f: Fetch)
    requires f in Run(steps).places && Run(steps).places[f].Waiting?
    ensures var s := Run(steps);
            var p := s.places[f];
            && p.call in s.places
            && (s.places[p.call].Led? ==>
                  && Enabled(s, Observe(f)) && f in Next(s, Observe(f)).places
                  && Next(s, Observe(f)).places[f] == Followed(p.cid, p.call, Some(s.places[p.call].result)))
            && Enabled(s, GiveUp(f)) && Next(s, GiveUp(f)).places == s.places[f := Cancelled(p.cid)]
  {
    hide Run;
    InvHolds(steps);
    var s := Run(steps);
    var p := s.places[f];
    assert FollowerMatches(s, p);
    assert CallMatches(s.calls[p.call], s.places[p.call]);
  }

  /** A fetch that is cancelled while it is queued ends with that failure. */
  lemma {:induction false} AbandonFails(s: State, f: Fetch, code: int)
    requires Enabled(s, Abandon(f, code))
    ensures Next(s, Abandon(f, code)).places == s.places[f := Finishing(s.places[f].kind, s.places[f].cid, Failed(code))]
  {
  }

  /** Time passes and nothing else changes. */
  lemma {:induction false} TickMoves(s: State, dt: nat)
    ensures Enabled(s, Tick(dt)) && Next(s, Tick(dt)) == s.(clock := s.clock + dt)
  {
  }
}
