/**
  Profile updates, statement by statement: the version guard, the object and the row of `handleProfile` in
  `pkg/p2p/handlers.go` are separate statements, and handlers of different topics overlap.

  The upsert repeats the guard, so the table keeps the highest version in every interleaving. The content store has no
  guard of its own: it can be left with an older version than the table.
 */
module ProfileRaces {
  import opened Wrappers
  import opened Sets
  import Profiles

  /** A handler that has passed the version guard, and whether its object is stored. */
  datatype Handler = Handler(profile: Profiles.Profile, put: bool)

  /** `lost` are the profiles whose handler failed on the way. */
  datatype State = State(tables: Profiles.Tables, handlers: map<nat, Handler>, lost: set<Profiles.Profile>)

  datatype Step =
    | Arrive(h: nat, profile: Profiles.Profile)
    | PutObject(h: nat)
    | Upsert(h: nat)
    | Fail(h: nat)
    | Evict(key: Blob)

  // ---------------------------------------------------------------- steps

  predicate Enabled(s: State, step: Step) {
    match step
    case Arrive(h, _) => h !in s.handlers
    case PutObject(h) => h in s.handlers && !s.handlers[h].put
    case Upsert(h) => h in s.handlers && s.handlers[h].put
    case Fail(h) => h in s.handlers
    case Evict(_) => true
  }

  /** The guard: only a higher version than the stored one goes on. */
  predicate IsNewer(rows: map<Blob, Profiles.Profile>, p: Profiles.Profile) {
    p.author in rows ==> rows[p.author].version < p.version
  }

  function Next(s: State, step: Step): State
    requires Enabled(s, step)
  {
    var t := s.tables;
    match step
    case Arrive(h, p) => if IsNewer(t.rows, p) then s.(handlers := s.handlers[h := Handler(p, false)]) else s
    case PutObject(h) =>
      var p := s.handlers[h].profile;
      s.(tables := t.(cas := t.cas[p.author := p]), handlers := s.handlers[h := Handler(p, true)])
    case Upsert(h) =>
      s.(tables := t.(rows := Profiles.Upserted(t.rows, s.handlers[h].profile)), handlers := s.handlers - {h})
    case Fail(h) => s.(lost := s.lost + {s.handlers[h].profile}, handlers := s.handlers - {h})
    case Evict(key) => s.(tables := t.(cas := t.cas - {key}))
  }

  const START := State(Profiles.Tables(map[], map[]), map[], {})

  /** A step that is not enabled does not happen. */
  function Run(steps: seq<Step>): State {
    if steps == [] then START
    else
      var s := Run(steps[..|steps| - 1]);
      var step := steps[|steps| - 1];
      if Enabled(s, step) then Next(s, step) else s
  }

  /** The profiles that arrived, with handlers of their own. */
  function Arrived(steps: seq<Step>): set<Profiles.Profile> {
    if steps == [] then {}
    else
      var n := |steps| - 1;
      Arrived(steps[..n]) + if steps[n].Arrive? && Enabled(Run(steps[..n]), steps[n]) then {steps[n].profile} else {}
  }

  lemma {:induction false} RunSnoc(steps: seq<Step>, step: Step)
    ensures var s := Run(steps); Run(steps + [step]) == if Enabled(s, step) then Next(s, step) else s
  {
    hide Enabled, Next;
    assert (steps + [step])[..|steps + [step]| - 1] == steps;
  }

  // ---------------------------------------------------------------- the table

  ghost predicate UnderWay(s: State, p: Profiles.Profile) {
    exists h :: h in s.handlers && s.handlers[h].profile == p
  }

  predicate Superseded(rows: map<Blob, Profiles.Profile>, p: Profiles.Profile) {
    p.author in rows && p.version <= rows[p.author].version
  }

  /** Whatever arrived is under way, lost, or no higher than the row; every row arrived. */
  ghost predicate TableRight(s: State, arrived: set<Profiles.Profile>) {
    && (forall p :: p in arrived ==> UnderWay(s, p) || p in s.lost || Superseded(s.tables.rows, p))
    && (forall a :: a in s.tables.rows ==> s.tables.rows[a] in arrived && s.tables.rows[a].author == a)
    && (forall h :: h in s.handlers ==> s.handlers[h].profile in arrived)
  }

  lemma {:induction false} StepKeepsTable(s: State, step: Step, arrived: set<Profiles.Profile>)
    requires Enabled(s, step) && TableRight(s, arrived)
    ensures TableRight(Next(s, step), arrived + if step.Arrive? then {step.profile} else {})
  {
    var s' := Next(s, step);
    var all := arrived + if step.Arrive? then {step.profile} else {};
    forall p | p in all ensures UnderWay(s', p) || p in s'.lost || Superseded(s'.tables.rows, p) {
      if step.Arrive? && p == step.profile {
        if IsNewer(s.tables.rows, p) { assert s'.handlers[step.h].profile == p; }
      } else if UnderWay(s, p) {
        var h :| h in s.handlers && s.handlers[h].profile == p;
        if h in s'.handlers { assert s'.handlers[h].profile == p; }
      }
    }
  }

  /** In every interleaving, failing handlers included, the table holds the highest version of all that is settled. */
  lemma {:induction false} TableAlwaysRight(steps: seq<Step>)
    ensures TableRight(Run(steps), Arrived(steps))
    decreases |steps|
  {
    hide TableRight, Enabled, Next;
    if steps == [] {
      NothingArrived();
    } else {
      var n := |steps| - 1;
      TableAlwaysRight(steps[..n]);
      var s := Run(steps[..n]);
      assert Arrived(steps[..n]) + {} == Arrived(steps[..n]);
      if Enabled(s, steps[n]) { StepKeepsTable(s, steps[n], Arrived(steps[..n])); }
    }
  }

  lemma {:induction false} NothingArrived()
    ensures TableRight(START, {})
  {
  }

  /** Nothing is under way and nothing was lost: the table is as if handlers had run one at a time. */
  lemma {:induction false} SettledHighest(steps: seq<Step>)
    requires Run(steps).handlers == map[] && Run(steps).lost == {}
    ensures Profiles.Highest(Run(steps).tables.rows, Arrived(steps))
  {
    hide Run, Arrived;
    TableAlwaysRight(steps);
  }

  lemma {:induction false} HighestUnique(x: map<Blob, Profiles.Profile>, y: map<Blob, Profiles.Profile>, arrived: set<Profiles.Profile>)
    requires Profiles.Highest(x, arrived) && Profiles.Highest(y, arrived) && Profiles.UniqueTop(arrived)
    ensures x == y
  {
    forall a ensures a in x <==> a in y {
      if a in x { assert x[a] in arrived; }
      if a in y { assert y[a] in arrived; }
    }
    forall a | a in x ensures x[a] == y[a] {
      assert Profiles.Top(x[a], arrived) && Profiles.Top(y[a], arrived);
    }
  }

  /** Convergence survives any interleaving: settled runs that received the same profiles have the same table. */
  lemma {:induction false} SettledConverge(a: seq<Step>, b: seq<Step>)
    requires Run(a).handlers == map[] && Run(a).lost == {} && Run(b).handlers == map[] && Run(b).lost == {}
    requires Arrived(a) == Arrived(b) && Profiles.UniqueTop(Arrived(a))
    ensures Run(a).tables.rows == Run(b).tables.rows
  {
    hide Run, Arrived, Profiles.Highest, Profiles.UniqueTop;
    SettledHighest(a);
    SettledHighest(b);
    HighestUnique(Run(a).tables.rows, Run(b).tables.rows, Arrived(a));
  }

  // ---------------------------------------------------------------- the content store

  function HandlersOf(s: State, a: Blob): set<nat> {
    set h | h in s.handlers && s.handlers[h].profile.author == a
  }

  ghost predicate Calm(s: State, k: nat) {
    forall a :: |HandlersOf(s, a)| <= k
  }

  /** At no moment of the run are more than `k` handlers of one author between guard and upsert. */
  ghost predicate AtMost(steps: seq<Step>, k: nat) {
    forall i :: 0 <= i <= |steps| ==> Calm(Run(steps[..i]), k)
  }

  predicate NoFailures(steps: seq<Step>) {
    forall i :: 0 <= i < |steps| ==> !steps[i].Fail?
  }

  /** The object under the author's key, if there is one, is the row. */
  predicate AgreesAt(t: Profiles.Tables, a: Blob) {
    a in t.cas ==> a in t.rows && t.cas[a] == t.rows[a]
  }

  /** What holds while a handler is alone with its author. */
  predicate AloneOk(s: State, h: nat)
    requires h in s.handlers
  {
    var p := s.handlers[h].profile;
    && IsNewer(s.tables.rows, p)
    && if s.handlers[h].put then p.author in s.tables.cas ==> s.tables.cas[p.author] == p else AgreesAt(s.tables, p.author)
  }

  ghost predicate StoreInv(s: State) {
    && (forall h :: h in s.handlers ==> AloneOk(s, h))
    && (forall a :: HandlersOf(s, a) == {} ==> AgreesAt(s.tables, a))
  }

  lemma {:induction false} Alone(s: State, h: nat, g: nat)
    requires Calm(s, 1) && h in s.handlers && g in s.handlers && s.handlers[h].profile.author == s.handlers[g].profile.author
    ensures h == g
  {
    var a := s.handlers[h].profile.author;
    assert |HandlersOf(s, a)| <= 1;
    SubsetSize({h, g}, HandlersOf(s, a));
  }

  lemma {:induction false} ArriveKeepsStore(s: State, h: nat, p: Profiles.Profile)
    requires Enabled(s, Arrive(h, p)) && StoreInv(s) && Calm(Next(s, Arrive(h, p)), 1)
    ensures StoreInv(Next(s, Arrive(h, p)))
  {
    hide Calm;
    var s' := Next(s, Arrive(h, p));
    if IsNewer(s.tables.rows, p) {
      assert HandlersOf(s, p.author) == {} by {
        forall g | g in HandlersOf(s, p.author) ensures g == h { Alone(s', h, g); }
      }
      forall a | HandlersOf(s', a) == {} ensures AgreesAt(s'.tables, a) {
        assert HandlersOf(s, a) <= HandlersOf(s', a);
      }
      forall g | g in s'.handlers ensures AloneOk(s', g) {
        if g != h { assert AloneOk(s, g); }
      }
    }
  }

  lemma {:induction false} PutKeepsStore(s: State, h: nat)
    requires Enabled(s, PutObject(h)) && StoreInv(s) && Calm(s, 1)
    ensures StoreInv(Next(s, PutObject(h)))
  {
    hide Calm;
    var s' := Next(s, PutObject(h));
    var p := s.handlers[h].profile;
    assert h in HandlersOf(s', p.author);
    forall g | g in s'.handlers ensures AloneOk(s', g) {
      assert AloneOk(s, g);
      if g != h && s.handlers[g].profile.author == p.author { Alone(s, g, h); }
    }
    forall a | HandlersOf(s', a) == {} ensures AgreesAt(s'.tables, a) {
      assert HandlersOf(s', a) == HandlersOf(s, a);
    }
  }

  lemma {:induction false} UpsertKeepsStore(s: State, h: nat)
    requires Enabled(s, Upsert(h)) && StoreInv(s) && Calm(s, 1)
    ensures StoreInv(Next(s, Upsert(h)))
  {
    hide Calm;
    var s' := Next(s, Upsert(h));
    var p := s.handlers[h].profile;
    assert AloneOk(s, h);
    forall g | g in s'.handlers ensures AloneOk(s', g) {
      assert AloneOk(s, g);
      if s.handlers[g].profile.author == p.author { Alone(s, g, h); }
    }
    forall a | HandlersOf(s', a) == {} ensures AgreesAt(s'.tables, a) {
      if a != p.author { assert HandlersOf(s', a) == HandlersOf(s, a); }
    }
  }

  lemma {:induction false} EvictKeepsStore(s: State, key: Blob)
    requires StoreInv(s)
    ensures StoreInv(Next(s, Evict(key)))
  {
    var s' := Next(s, Evict(key));
    forall g | g in s'.handlers ensures AloneOk(s', g) { assert AloneOk(s, g); }
    forall a | HandlersOf(s', a) == {} ensures AgreesAt(s'.tables, a) { assert HandlersOf(s, a) == {}; }
  }

  lemma {:induction false} AtMostPrefix(steps: seq<Step>, k: nat, n: nat)
    requires AtMost(steps, k) && n <= |steps|
    ensures AtMost(steps[..n], k) && Calm(Run(steps[..n]), k)
  {
    hide Run, Calm;
    forall i | 0 <= i <= n ensures Calm(Run(steps[..n][..i]), k) {
      assert steps[..n][..i] == steps[..i];
    }
  }

  lemma {:induction false} OneAtATimeInv(steps: seq<Step>)
    requires NoFailures(steps) && AtMost(steps, 1)
    ensures StoreInv(Run(steps))
    decreases |steps|
  {
    hide StoreInv, Calm, AtMost, Enabled, Next;
    if steps == [] {
      StartStore();
    } else {
      var n := |steps| - 1;
      AtMostPrefix(steps, 1, n);
      AtMostPrefix(steps, 1, |steps|);
      assert steps[..|steps|] == steps;
      OneAtATimeInv(steps[..n]);
      var s := Run(steps[..n]);
      if Enabled(s, steps[n]) {
        match steps[n] {
          case Arrive(h, p) => ArriveKeepsStore(s, h, p);
          case PutObject(h) => PutKeepsStore(s, h);
          case Upsert(h) => UpsertKeepsStore(s, h);
          case Evict(key) => EvictKeepsStore(s, key);
          case Fail(_) =>
        }
      }
    }
  }

  lemma {:induction false} StartStore()
    ensures StoreInv(START)
  {
  }

  /** One run: if no handler of the author is under way at its end, the content store agrees with the table. */
  ghost predicate EndsAgreeing(steps: seq<Step>, a: Blob, k: nat) {
    NoFailures(steps) && AtMost(steps, k) && HandlersOf(Run(steps), a) == {} ==> AgreesAt(Run(steps).tables, a)
  }

  ghost predicate StoreSurvives(k: nat) {
    forall steps, a :: EndsAgreeing(steps, a, k)
  }

  lemma {:induction false} OneAtATimeAgrees(steps: seq<Step>, a: Blob, k: nat)
    requires k <= 1
    ensures EndsAgreeing(steps, a, k)
  {
    hide Run, AgreesAt;
    if NoFailures(steps) && AtMost(steps, k) && HandlersOf(Run(steps), a) == {} {
      forall i | 0 <= i <= |steps| ensures Calm(Run(steps[..i]), 1) { assert Calm(Run(steps[..i]), k); }
      OneAtATimeInv(steps);
    }
  }

  // ---------------------------------------------------------------- an older version stays in the store

  /** Both versions pass the guard, the newer one is stored, and then the older object is put over it. */
  function OlderLast(p: Profiles.Profile, q: Profiles.Profile): seq<Step> {
    [Arrive(1, p), Arrive(2, q), PutObject(2), Upsert(2), PutObject(1), Upsert(1)]
  }

  lemma {:induction false} BothPass(p: Profiles.Profile, q: Profiles.Profile)
    requires p.author == q.author && p.version < q.version
    ensures Run(OlderLast(p, q)[..2]) == START.(handlers := map[1 := Handler(p, false), 2 := Handler(q, false)])
  {
    hide Run;
    var steps := OlderLast(p, q);
    RunSnoc([], steps[0]);
    RunSnoc([] + [steps[0]], steps[1]);
    assert [] + [steps[0]] + [steps[1]] == steps[..2];
    RunNothing();
  }

  lemma {:induction false} RunNothing()
    ensures Run([]) == START
  {
  }

  lemma {:induction false} OlderLastRun(p: Profiles.Profile, q: Profiles.Profile)
    requires p.author == q.author && p.version < q.version
    ensures var s := Run(OlderLast(p, q));
            s.handlers == map[] && s.tables == Profiles.Tables(map[p.author := q], map[p.author := p])
  {
    hide Run;
    var steps := OlderLast(p, q);
    BothPass(p, q);
    RunSnoc(steps[..2], steps[2]);
    RunSnoc(steps[..2] + [steps[2]], steps[3]);
    RunSnoc(steps[..2] + [steps[2]] + [steps[3]], steps[4]);
    RunSnoc(steps[..2] + [steps[2]] + [steps[3]] + [steps[4]], steps[5]);
    assert steps[..2] + [steps[2]] + [steps[3]] + [steps[4]] + [steps[5]] == steps;
  }

  /** The table has the newer version, the content store the older one, and nothing is under way. */
  lemma {:induction false} OlderObjectStays(p: Profiles.Profile, q: Profiles.Profile, k: nat)
    requires p.author == q.author && p.version < q.version && k >= 2
    ensures !EndsAgreeing(OlderLast(p, q), p.author, k)
    ensures Run(OlderLast(p, q)).tables == Profiles.Tables(map[p.author := q], map[p.author := p])
  {
    hide Run;
    OlderLastRun(p, q);
    TwoHandlers(OlderLast(p, q), k);
    assert HandlersOf(Run(OlderLast(p, q)), p.author) == {};
  }

  lemma {:induction false} HandlersWithin(steps: seq<Step>, ids: set<nat>)
    requires forall i :: 0 <= i < |steps| && steps[i].Arrive? ==> steps[i].h in ids
    ensures Run(steps).handlers.Keys <= ids
    decreases |steps|
  {
    if steps != [] { HandlersWithin(steps[..|steps| - 1], ids); }
  }

  lemma {:induction false} TwoHandlers(steps: seq<Step>, k: nat)
    requires k >= 2 && forall i :: 0 <= i < |steps| && steps[i].Arrive? ==> steps[i].h in {1, 2}
    ensures AtMost(steps, k)
  {
    hide Run;
    forall i | 0 <= i <= |steps| ensures Calm(Run(steps[..i]), k) {
      HandlersWithin(steps[..i], {1, 2});
      forall a ensures |HandlersOf(Run(steps[..i]), a)| <= k { SubsetSize(HandlersOf(Run(steps[..i]), a), {1, 2}); }
    }
  }

  /**
    If nothing fails and at most `k` handlers of one author overlap, the content store agrees with the table for every
    author without a handler under way, after every run, if and only if `k` is at most one.
   */
  lemma {:induction false} StoreSurvivesIff(k: nat)
    ensures StoreSurvives(k) <==> k <= 1
  {
    hide EndsAgreeing;
    if k <= 1 {
      forall steps, a ensures EndsAgreeing(steps, a, k) { OneAtATimeAgrees(steps, a, k); }
    } else {
      OlderObjectStays(Profiles.Profile([], "", 1, 0), Profiles.Profile([], "", 2, 0), k);
    }
  }
}
