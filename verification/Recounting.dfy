/**
  Count, then upsert, with nothing in between held.

  `UpdateReactionCount` and `UpdateFollowerCount` count with one statement for each column and store the counts with a
  last one. Readers of different topics run in different goroutines and no lock or transaction spans the statements, so
  recounts of one key may overlap with each other and with writes. Here each statement is one step. A write that changes a derived value starts a recount of its key; `history` keeps every
  version of the table, and each reading remembers the version it was taken on. A statement of a recount, or one before
  it in the handler, may also fail; then the recount is given up.
 */
module Recounting {
  import opened Wrappers
  import opened Sets

  type Key = Blob
  type JobId = nat

  datatype Reading = Reading(value: int, at: nat)
  datatype Job = Job(key: Key, counted: map<nat, Reading>)

  datatype State<T> = State(history: seq<T>, jobs: map<JobId, Job>, rows: map<Key, map<nat, Reading>>)

  datatype Step<T> =
    | Write(next: T, begun: map<JobId, Key>)
    | Count(job: JobId, column: nat)
    | Upsert(job: JobId)
    | Fail(job: JobId)

  /** A write changes derived values only of keys whose recount it starts. */
  ghost predicate Covers<T(!new)>(m: (T, Key, nat) -> int, columns: nat, t: T, t': T, begun: map<JobId, Key>) {
    forall key, c: nat :: c < columns && m(t, key, c) != m(t', key, c) ==> key in begun.Values
  }

  ghost predicate Enabled<T(!new)>(m: (T, Key, nat) -> int, columns: nat, s: State<T>, step: Step<T>) {
    s.history != [] &&
    match step
    case Write(next, begun) => begun.Keys !! s.jobs.Keys && Covers(m, columns, Now(s), next, begun)
    case Count(j, c) => j in s.jobs && c < columns && c !in s.jobs[j].counted
    case Upsert(j) => j in s.jobs && HasAll(s.jobs[j].counted, columns)
    case Fail(j) => j in s.jobs
  }

  predicate HasAll(counted: map<nat, Reading>, columns: nat) {
    forall c :: 0 <= c < columns ==> c in counted
  }

  function Now<T>(s: State<T>): T
    requires s.history != []
  {
    s.history[|s.history| - 1]
  }

  function Started(begun: map<JobId, Key>): map<JobId, Job> {
    map j | j in begun :: Job(begun[j], map[])
  }

  ghost function Next<T(!new)>(m: (T, Key, nat) -> int, columns: nat, s: State<T>, step: Step<T>): State<T>
    requires Enabled(m, columns, s, step)
  {
    match step
    case Write(next, begun) => s.(history := s.history + [next], jobs := s.jobs + Started(begun))
    case Count(j, c) =>
      var job := s.jobs[j];
      var r := Reading(m(Now(s), job.key, c), |s.history| - 1);
      s.(jobs := s.jobs[j := job.(counted := job.counted[c := r])])
    case Upsert(j) => s.(rows := s.rows[s.jobs[j].key := s.jobs[j].counted], jobs := s.jobs - {j})
    case Fail(j) => s.(jobs := s.jobs - {j})
  }

  function Initial<T>(t: T): State<T> {
    State([t], map[], map[])
  }

  /** A step that is not enabled does not happen. */
  ghost function Run<T(!new)>(m: (T, Key, nat) -> int, columns: nat, t: T, steps: seq<Step<T>>): State<T>
    decreases |steps|
  {
    if steps == [] then Initial(t)
    else
      var s := Run(m, columns, t, steps[..|steps| - 1]);
      var step := steps[|steps| - 1];
      if Enabled(m, columns, s, step) then Next(m, columns, s, step) else s
  }

  /** A missing row counted as zero. */
  function Stored<T>(s: State<T>, key: Key, c: nat): int {
    if key in s.rows && c in s.rows[key] then s.rows[key][c].value else 0
  }

  ghost predicate Right<T(!new)>(m: (T, Key, nat) -> int, s: State<T>, key: Key, c: nat) {
    s.history != [] && Stored(s, key, c) == m(Now(s), key, c)
  }

  // ---------------------------------------------------------------- what is stored

  ghost predicate TrueReading<T(!new)>(m: (T, Key, nat) -> int, s: State<T>, key: Key, c: nat, r: Reading) {
    r.at < |s.history| && r.value == m(s.history[r.at], key, c)
  }

  ghost predicate JobsTrue<T(!new)>(m: (T, Key, nat) -> int, s: State<T>) {
    forall j, c :: j in s.jobs && c in s.jobs[j].counted ==> TrueReading(m, s, s.jobs[j].key, c, s.jobs[j].counted[c])
  }

  ghost predicate RowsTrue<T(!new)>(m: (T, Key, nat) -> int, columns: nat, s: State<T>) {
    && (forall key :: key in s.rows ==> HasAll(s.rows[key], columns))
    && (forall key, c :: key in s.rows && c in s.rows[key] ==> TrueReading(m, s, key, c, s.rows[key][c]))
  }

  lemma {:induction false} StepKeepsReadings<T(!new)>(m: (T, Key, nat) -> int, columns: nat, s: State<T>, step: Step<T>)
    requires Enabled(m, columns, s, step) && JobsTrue(m, s) && RowsTrue(m, columns, s)
    ensures JobsTrue(m, Next(m, columns, s, step)) && RowsTrue(m, columns, Next(m, columns, s, step))
    ensures Next(m, columns, s, step).history != []
  {
    hide Covers;
    var s' := Next(m, columns, s, step);
    forall j, c | j in s'.jobs && c in s'.jobs[j].counted
      ensures TrueReading(m, s', s'.jobs[j].key, c, s'.jobs[j].counted[c])
    {
      if j in s.jobs && c in s.jobs[j].counted {
        assert TrueReading(m, s, s.jobs[j].key, c, s.jobs[j].counted[c]);
      }
    }
    forall key, c | key in s'.rows && c in s'.rows[key] ensures TrueReading(m, s', key, c, s'.rows[key][c]) {
      if step.Upsert? && key == s.jobs[step.job].key {
        assert TrueReading(m, s, key, c, s.jobs[step.job].counted[c]);
      } else {
        assert TrueReading(m, s, key, c, s.rows[key][c]);
      }
    }
  }

  /** In every interleaving, what is stored was true of the version it was counted on. */
  lemma {:induction false} ReadingsTrue<T(!new)>(m: (T, Key, nat) -> int, columns: nat, t: T, steps: seq<Step<T>>)
    ensures var s := Run(m, columns, t, steps);
            s.history != [] && JobsTrue(m, s) && RowsTrue(m, columns, s)
    decreases |steps|
  {
    hide JobsTrue, RowsTrue, Next, Enabled;
    if steps == [] {
      NoReadings(m, columns, t);
    } else {
      var n := |steps| - 1;
      ReadingsTrue(m, columns, t, steps[..n]);
      var s := Run(m, columns, t, steps[..n]);
      if Enabled(m, columns, s, steps[n]) {
        StepKeepsReadings(m, columns, s, steps[n]);
      }
    }
  }

  lemma {:induction false} NoReadings<T(!new)>(m: (T, Key, nat) -> int, columns: nat, t: T)
    ensures JobsTrue(m, Initial(t)) && RowsTrue(m, columns, Initial(t))
  {
  }

  /** The version behind a stored value; a missing row stands for the empty first version. */
  function BasisOf<T>(s: State<T>, key: Key, c: nat): nat {
    if key in s.rows && c in s.rows[key] then s.rows[key][c].at else 0
  }

  lemma {:induction false} FirstVersion<T(!new)>(m: (T, Key, nat) -> int, columns: nat, t: T, steps: seq<Step<T>>)
    ensures Run(m, columns, t, steps).history != [] && Run(m, columns, t, steps).history[0] == t
    decreases |steps|
  {
    hide Enabled;
    if steps != [] { FirstVersion(m, columns, t, steps[..|steps| - 1]); }
  }

  /** In every interleaving: a stored value is right exactly when the derived value is the same as on its basis. */
  lemma {:induction false} RightIffBasis<T(!new)>(
    m: (T, Key, nat) -> int, columns: nat, t: T, steps: seq<Step<T>>, key: Key, c: nat)
    requires m(t, key, c) == 0 && c < columns
    ensures var s := Run(m, columns, t, steps);
            && s.history != [] && BasisOf(s, key, c) < |s.history|
            && Stored(s, key, c) == m(s.history[BasisOf(s, key, c)], key, c)
            && (Right(m, s, key, c) <==> m(s.history[BasisOf(s, key, c)], key, c) == m(Now(s), key, c))
  {
    hide Run;
    ReadingsTrue(m, columns, t, steps);
    FirstVersion(m, columns, t, steps);
    var s := Run(m, columns, t, steps);
    if key in s.rows {
      assert HasAll(s.rows[key], columns);
      assert TrueReading(m, s, key, c, s.rows[key][c]);
    }
  }

  // ---------------------------------------------------------------- recounts that finish in order

  /** The value has not changed since version `at`. */
  ghost predicate Settled<T(!new)>(m: (T, Key, nat) -> int, h: seq<T>, at: nat, key: Key, c: nat) {
    forall k :: at <= k < |h| ==> m(h[k], key, c) == m(h[|h| - 1], key, c)
  }

  predicate IsJobFor<T>(s: State<T>, j: JobId, key: Key) {
    j in s.jobs && s.jobs[j].key == key
  }

  /** The recount `j` will bring the row up to date: it has still to count, or has counted a settled value. */
  ghost predicate Redeems<T(!new)>(m: (T, Key, nat) -> int, s: State<T>, j: JobId, key: Key, c: nat) {
    IsJobFor(s, j, key) && (c in s.jobs[j].counted ==> Settled(m, s.history, s.jobs[j].counted[c].at, key, c))
  }

  ghost predicate CaughtUp<T(!new)>(m: (T, Key, nat) -> int, s: State<T>, key: Key, c: nat) {
    Settled(m, s.history, BasisOf(s, key, c), key, c) || exists j :: Redeems(m, s, j, key, c)
  }

  predicate NoFailure<T>(s: State<T>, step: Step<T>) {
    step.Fail? ==> step.job !in s.jobs
  }

  /** Nothing fails, and a recount was not counted before the one whose row it replaces. */
  ghost predicate InOrder<T>(s: State<T>, columns: nat, step: Step<T>) {
    && NoFailure(s, step)
    && (step.Upsert? && step.job in s.jobs ==>
          forall c :: c < columns && c in s.jobs[step.job].counted ==>
            BasisOf(s, s.jobs[step.job].key, c) <= s.jobs[step.job].counted[c].at)
  }

  lemma {:induction false} SettledGrows<T(!new)>(m: (T, Key, nat) -> int, h: seq<T>, t: T, at: nat, key: Key, c: nat)
    requires h != [] && Settled(m, h, at, key, c) && m(t, key, c) == m(h[|h| - 1], key, c)
    ensures Settled(m, h + [t], at, key, c)
  {
    var h' := h + [t];
    forall k | at <= k < |h'| ensures m(h'[k], key, c) == m(h'[|h'| - 1], key, c) {
      if k < |h| { assert m(h[k], key, c) == m(h[|h| - 1], key, c); }
    }
  }

  lemma {:induction false} WriteKeepsCaught<T(!new)>(
    m: (T, Key, nat) -> int, columns: nat, s: State<T>, next: T, begun: map<JobId, Key>, key: Key, c: nat)
    requires Enabled(m, columns, s, Write(next, begun)) && CaughtUp(m, s, key, c) && c < columns
    ensures CaughtUp(m, Next(m, columns, s, Write(next, begun)), key, c)
  {
    hide Settled;
    var s' := Next(m, columns, s, Write(next, begun));
    if m(next, key, c) != m(Now(s), key, c) {
      var j :| j in begun && begun[j] == key;
      assert Redeems(m, s', j, key, c);
    } else if Settled(m, s.history, BasisOf(s, key, c), key, c) {
      SettledGrows(m, s.history, next, BasisOf(s, key, c), key, c);
    } else {
      var j :| Redeems(m, s, j, key, c);
      assert s'.jobs[j] == s.jobs[j];
      if c in s.jobs[j].counted { SettledGrows(m, s.history, next, s.jobs[j].counted[c].at, key, c); }
      assert Redeems(m, s', j, key, c);
    }
  }

  lemma {:induction false} CountKeepsCaught<T(!new)>(
    m: (T, Key, nat) -> int, columns: nat, s: State<T>, job: JobId, column: nat, key: Key, c: nat)
    requires Enabled(m, columns, s, Count(job, column)) && CaughtUp(m, s, key, c)
    ensures CaughtUp(m, Next(m, columns, s, Count(job, column)), key, c)
  {
    var s' := Next(m, columns, s, Count(job, column));
    if j :| Redeems(m, s, j, key, c) {
      assert Redeems(m, s', j, key, c);
    }
  }

  lemma {:induction false} UpsertKeepsCaught<T(!new)>(
    m: (T, Key, nat) -> int, columns: nat, s: State<T>, job: JobId, key: Key, c: nat)
    requires Enabled(m, columns, s, Upsert(job)) && InOrder(s, columns, Upsert(job))
    requires CaughtUp(m, s, key, c) && c < columns
    ensures CaughtUp(m, Next(m, columns, s, Upsert(job)), key, c)
  {
    var s' := Next(m, columns, s, Upsert(job));
    if j :| j != job && Redeems(m, s, j, key, c) {
      assert Redeems(m, s', j, key, c);
    }
  }

  ghost predicate AllCaughtUp<T(!new)>(m: (T, Key, nat) -> int, columns: nat, s: State<T>) {
    forall key, c: nat :: c < columns ==> CaughtUp(m, s, key, c)
  }

  lemma {:induction false} StepKeepsCaught<T(!new)>(m: (T, Key, nat) -> int, columns: nat, s: State<T>, step: Step<T>)
    requires Enabled(m, columns, s, step) && InOrder(s, columns, step) && AllCaughtUp(m, columns, s)
    ensures AllCaughtUp(m, columns, Next(m, columns, s, step))
  {
    hide CaughtUp, Next;
    forall key, c: nat | c < columns ensures CaughtUp(m, Next(m, columns, s, step), key, c) {
      match step
      case Write(next, begun) => WriteKeepsCaught(m, columns, s, next, begun, key, c);
      case Count(job, column) => CountKeepsCaught(m, columns, s, job, column, key, c);
      case Upsert(job) => UpsertKeepsCaught(m, columns, s, job, key, c);
    }
  }

  /** Every upsert of the run happens in the order of the counts behind it. */
  ghost predicate Ordered<T(!new)>(m: (T, Key, nat) -> int, columns: nat, t: T, steps: seq<Step<T>>) {
    forall i :: 0 <= i < |steps| ==> InOrder(Run(m, columns, t, steps[..i]), columns, steps[i])
  }

  lemma {:induction false} OrderedPrefix<T(!new)>(m: (T, Key, nat) -> int, columns: nat, t: T, steps: seq<Step<T>>, n: nat)
    requires Ordered(m, columns, t, steps) && n <= |steps|
    ensures Ordered(m, columns, t, steps[..n])
  {
    hide Run, InOrder;
    forall i | 0 <= i < n ensures InOrder(Run(m, columns, t, steps[..n][..i]), columns, steps[..n][i]) {
      assert steps[..n][..i] == steps[..i] && steps[..n][i] == steps[i];
    }
  }

  lemma {:induction false} OrderedCaughtUp<T(!new)>(m: (T, Key, nat) -> int, columns: nat, t: T, steps: seq<Step<T>>)
    requires Ordered(m, columns, t, steps)
    ensures AllCaughtUp(m, columns, Run(m, columns, t, steps))
    decreases |steps|
  {
    hide AllCaughtUp, Next, Enabled, InOrder;
    if steps == [] {
      InitialCaughtUp(m, columns, t);
    } else {
      var n := |steps| - 1;
      OrderedPrefix(m, columns, t, steps, n);
      OrderedCaughtUp(m, columns, t, steps[..n]);
      var s := Run(m, columns, t, steps[..n]);
      if Enabled(m, columns, s, steps[n]) {
        StepKeepsCaught(m, columns, s, steps[n]);
      }
    }
  }

  lemma {:induction false} InitialCaughtUp<T(!new)>(m: (T, Key, nat) -> int, columns: nat, t: T)
    ensures AllCaughtUp(m, columns, Initial(t))
  {
    forall key, c: nat | c < columns ensures CaughtUp(m, Initial(t), key, c) {
      assert Settled(m, [t], 0, key, c);
    }
  }

  ghost predicate Quiet<T>(s: State<T>, key: Key) {
    forall j :: j in s.jobs ==> s.jobs[j].key != key
  }

  /** If nothing fails and upserts happen in the order of their counts, a key without a recount under way has the right row. */
  lemma {:induction false} OrderedRight<T(!new)>(
    m: (T, Key, nat) -> int, columns: nat, t: T, steps: seq<Step<T>>, key: Key, c: nat)
    requires Ordered(m, columns, t, steps) && m(t, key, c) == 0 && c < columns
    requires Quiet(Run(m, columns, t, steps), key)
    ensures Right(m, Run(m, columns, t, steps), key, c)
  {
    hide Run, Ordered, Right;
    OrderedCaughtUp(m, columns, t, steps);
    RightIffBasis(m, columns, t, steps, key, c);
    assert CaughtUp(m, Run(m, columns, t, steps), key, c);
  }

  // ---------------------------------------------------------------- a lock would order them

  /** A count starts only while no other recount of its key has counted anything. */
  ghost predicate Exclusive<T>(s: State<T>, step: Step<T>) {
    && NoFailure(s, step)
    && (step.Count? && step.job in s.jobs ==>
          forall j :: j in s.jobs && j != step.job && s.jobs[j].key == s.jobs[step.job].key ==> s.jobs[j].counted == map[])
  }

  ghost predicate Locked<T(!new)>(m: (T, Key, nat) -> int, columns: nat, t: T, steps: seq<Step<T>>) {
    forall i :: 0 <= i < |steps| && Enabled(m, columns, Run(m, columns, t, steps[..i]), steps[i])
      ==> Exclusive(Run(m, columns, t, steps[..i]), steps[i])
  }

  /** One counting recount per key, and it counted after the row of its key. */
  ghost predicate LockInv<T>(s: State<T>) {
    && (forall i, j :: i in s.jobs && j in s.jobs && i != j && s.jobs[i].key == s.jobs[j].key
          ==> s.jobs[i].counted == map[] || s.jobs[j].counted == map[])
    && (forall j, c :: j in s.jobs && c in s.jobs[j].counted ==> BasisOf(s, s.jobs[j].key, c) <= s.jobs[j].counted[c].at)
    && (forall key, c :: BasisOf(s, key, c) < |s.history|)
  }

  lemma {:induction false} WriteKeepsLock<T(!new)>(
    m: (T, Key, nat) -> int, columns: nat, s: State<T>, next: T, begun: map<JobId, Key>)
    requires Enabled(m, columns, s, Write(next, begun)) && LockInv(s)
    ensures LockInv(Next(m, columns, s, Write(next, begun)))
  {
    hide Covers;
    var s' := Next(m, columns, s, Write(next, begun));
    assert forall key, c: nat :: BasisOf(s', key, c) == BasisOf(s, key, c);
  }

  lemma {:induction false} CountKeepsLock<T(!new)>(
    m: (T, Key, nat) -> int, columns: nat, s: State<T>, job: JobId, column: nat)
    requires Enabled(m, columns, s, Count(job, column)) && Exclusive(s, Count(job, column)) && LockInv(s)
    ensures LockInv(Next(m, columns, s, Count(job, column)))
  {
    var s' := Next(m, columns, s, Count(job, column));
    assert forall key, c: nat :: BasisOf(s', key, c) == BasisOf(s, key, c);
  }

  lemma {:induction false} UpsertKeepsLock<T(!new)>(m: (T, Key, nat) -> int, columns: nat, s: State<T>, job: JobId)
    requires Enabled(m, columns, s, Upsert(job)) && LockInv(s) && JobsTrue(m, s)
    ensures LockInv(Next(m, columns, s, Upsert(job)))
  {
    var s' := Next(m, columns, s, Upsert(job));
    var mine := s.jobs[job];
    forall key, c: nat ensures BasisOf(s', key, c) < |s'.history|
      ensures key != mine.key ==> BasisOf(s', key, c) == BasisOf(s, key, c)
    {
      assert BasisOf(s, key, c) < |s.history|;
      if key == mine.key && c in mine.counted {
        assert TrueReading(m, s, key, c, mine.counted[c]);
      }
    }
    forall j, c | j in s'.jobs && c in s'.jobs[j].counted
      ensures BasisOf(s', s'.jobs[j].key, c) <= s'.jobs[j].counted[c].at
    {
      if s.jobs[j].key == mine.key {
        assert mine.counted == map[];
      }
    }
  }

  lemma {:induction false} StepKeepsLock<T(!new)>(m: (T, Key, nat) -> int, columns: nat, s: State<T>, step: Step<T>)
    requires Enabled(m, columns, s, step) && Exclusive(s, step) && LockInv(s) && JobsTrue(m, s)
    ensures LockInv(Next(m, columns, s, step))
  {
    hide LockInv, Next, JobsTrue, Covers, HasAll;
    match step
    case Write(next, begun) => WriteKeepsLock(m, columns, s, next, begun);
    case Count(job, column) => CountKeepsLock(m, columns, s, job, column);
    case Upsert(job) => UpsertKeepsLock(m, columns, s, job);
  }

  /** Holding a lock per key from the first count to the upsert puts the upserts in order. */
  lemma {:induction false} LockedOrdered<T(!new)>(m: (T, Key, nat) -> int, columns: nat, t: T, steps: seq<Step<T>>)
    requires Locked(m, columns, t, steps)
    ensures Ordered(m, columns, t, steps) && LockInv(Run(m, columns, t, steps))
    decreases |steps|
  {
    hide Next, Enabled, Exclusive, LockInv, InOrder;
    if steps == [] {
      InitialLock(t);
    } else {
      var n := |steps| - 1;
      forall i | 0 <= i < n && Enabled(m, columns, Run(m, columns, t, steps[..n][..i]), steps[..n][i])
        ensures Exclusive(Run(m, columns, t, steps[..n][..i]), steps[..n][i])
      {
        assert steps[..n][..i] == steps[..i] && steps[..n][i] == steps[i];
      }
      LockedOrdered(m, columns, t, steps[..n]);
      var s := Run(m, columns, t, steps[..n]);
      ReadingsTrue(m, columns, t, steps[..n]);
      if Enabled(m, columns, s, steps[n]) { StepKeepsLock(m, columns, s, steps[n]); }
      forall i | 0 <= i < |steps| ensures InOrder(Run(m, columns, t, steps[..i]), columns, steps[i]) {
        if i < n {
          assert steps[..n][..i] == steps[..i] && steps[..n][i] == steps[i];
          assert InOrder(Run(m, columns, t, steps[..n][..i]), columns, steps[..n][i]);
        } else {
          if Enabled(m, columns, s, steps[n]) { ExclusiveNoFailure(s, steps[n]); } else { DisabledNoFailure(m, columns, s, steps[n]); }
          LockInvOrders(s, columns, steps[n]);
        }
      }
    }
  }

  lemma {:induction false} InitialLock<T>(t: T)
    ensures LockInv(Initial(t))
  {
  }

  lemma {:induction false} ExclusiveNoFailure<T>(s: State<T>, step: Step<T>)
    requires Exclusive(s, step)
    ensures NoFailure(s, step)
  {
  }

  lemma {:induction false} DisabledNoFailure<T(!new)>(m: (T, Key, nat) -> int, columns: nat, s: State<T>, step: Step<T>)
    requires s.history != [] && !Enabled(m, columns, s, step)
    ensures NoFailure(s, step)
  {
  }

  lemma {:induction false} LockInvOrders<T>(s: State<T>, columns: nat, step: Step<T>)
    requires LockInv(s) && NoFailure(s, step)
    ensures InOrder(s, columns, step)
  {
  }

  // ---------------------------------------------------------------- how many recounts may overlap

  /** The recounts of a key between their first count and their upsert. */
  function Counting<T>(s: State<T>, key: Key): set<JobId> {
    set j | j in s.jobs && s.jobs[j].key == key && s.jobs[j].counted != map[]
  }

  ghost predicate Calm<T(!new)>(s: State<T>, k: nat) {
    forall key :: |Counting(s, key)| <= k
  }

  /** At no moment of the run are more than `k` recounts of one key between first count and upsert. */
  ghost predicate AtMost<T(!new)>(m: (T, Key, nat) -> int, columns: nat, t: T, steps: seq<Step<T>>, k: nat) {
    forall i :: 0 <= i <= |steps| ==> Calm(Run(m, columns, t, steps[..i]), k)
  }

  predicate NoFailures<T>(steps: seq<Step<T>>) {
    forall i :: 0 <= i < |steps| ==> !steps[i].Fail?
  }

  lemma {:induction false} CalmExclusive<T(!new)>(m: (T, Key, nat) -> int, columns: nat, s: State<T>, step: Step<T>)
    requires Enabled(m, columns, s, step) && !step.Fail? && Calm(Next(m, columns, s, step), 1)
    ensures Exclusive(s, step)
  {
    hide Covers;
    if step.Count? {
      var s' := Next(m, columns, s, step);
      var mine := s.jobs[step.job];
      var counting := Counting(s', mine.key);
      assert step.column in s'.jobs[step.job].counted;
      assert step.job in counting;
      forall j | j in s.jobs && j != step.job && s.jobs[j].key == mine.key ensures s.jobs[j].counted == map[] {
        if s.jobs[j].counted != map[] {
          assert j in counting;
          SubsetSize({j, step.job}, counting);
        }
      }
    }
  }

  lemma {:induction false} OneAtATimeLocked<T(!new)>(m: (T, Key, nat) -> int, columns: nat, t: T, steps: seq<Step<T>>)
    requires NoFailures(steps) && AtMost(m, columns, t, steps, 1)
    ensures Locked(m, columns, t, steps)
  {
    hide Run, Enabled, Next, Exclusive, Calm;
    forall i | 0 <= i < |steps| && Enabled(m, columns, Run(m, columns, t, steps[..i]), steps[i])
      ensures Exclusive(Run(m, columns, t, steps[..i]), steps[i])
    {
      RunSnoc(m, columns, t, steps[..i], steps[i]);
      assert steps[..i + 1] == steps[..i] + [steps[i]];
      CalmExclusive(m, columns, Run(m, columns, t, steps[..i]), steps[i]);
    }
  }

  /** One run: if nothing fails, at most `k` recounts of a key overlap and none is under way at the end, the row is right. */
  ghost predicate EndsRight<T(!new)>(
    m: (T, Key, nat) -> int, columns: nat, t: T, steps: seq<Step<T>>, key: Key, c: nat, k: nat)
  {
    var s := Run(m, columns, t, steps);
    NoFailures(steps) && AtMost(m, columns, t, steps, k) && Quiet(s, key) && c < columns ==> Right(m, s, key, c)
  }

  lemma {:induction false} AtMostMore<T(!new)>(m: (T, Key, nat) -> int, columns: nat, t: T, steps: seq<Step<T>>, k: nat, more: nat)
    requires AtMost(m, columns, t, steps, k) && k <= more
    ensures AtMost(m, columns, t, steps, more)
  {
    hide Run;
    forall i | 0 <= i <= |steps| ensures Calm(Run(m, columns, t, steps[..i]), more) {
      assert Calm(Run(m, columns, t, steps[..i]), k);
    }
  }

  /** Recounts of a key one at a time leave every settled row right. */
  lemma {:induction false} OneAtATimeRight<T(!new)>(
    m: (T, Key, nat) -> int, columns: nat, t: T, steps: seq<Step<T>>, key: Key, c: nat, k: nat)
    requires k <= 1 && m(t, key, c) == 0
    ensures EndsRight(m, columns, t, steps, key, c, k)
  {
    hide Run, Right, AtMost, Locked, Ordered, Quiet;
    if NoFailures(steps) && AtMost(m, columns, t, steps, k) && Quiet(Run(m, columns, t, steps), key) && c < columns {
      AtMostMore(m, columns, t, steps, k, 1);
      OneAtATimeLocked(m, columns, t, steps);
      LockedOrdered(m, columns, t, steps);
      OrderedRight(m, columns, t, steps, key, c);
    }
  }

  ghost predicate OnlyCounts<T>(steps: seq<Step<T>>, jobs: set<JobId>) {
    forall i :: 0 <= i < |steps| && steps[i].Count? ==> steps[i].job in jobs
  }

  /** Only the recounts that a run counts for are ever counting. */
  lemma {:induction false} CountingWithin<T(!new)>(
    m: (T, Key, nat) -> int, columns: nat, t: T, steps: seq<Step<T>>, jobs: set<JobId>, key: Key)
    requires OnlyCounts(steps, jobs)
    ensures Counting(Run(m, columns, t, steps), key) <= jobs
    decreases |steps|
  {
    hide Enabled;
    if steps != [] {
      var n := |steps| - 1;
      CountingWithin(m, columns, t, steps[..n], jobs, key);
      var s := Run(m, columns, t, steps[..n]);
      if Enabled(m, columns, s, steps[n]) { CountingStep(m, columns, s, steps[n], jobs, key); }
    }
  }

  lemma {:induction false} CountingStep<T(!new)>(
    m: (T, Key, nat) -> int, columns: nat, s: State<T>, step: Step<T>, jobs: set<JobId>, key: Key)
    requires Enabled(m, columns, s, step) && Counting(s, key) <= jobs && (step.Count? ==> step.job in jobs)
    ensures Counting(Next(m, columns, s, step), key) <= jobs
  {
    hide Covers;
    var s' := Next(m, columns, s, step);
    forall j | j in Counting(s', key) ensures j in jobs {
      if j in s.jobs && s'.jobs[j] == s.jobs[j] { assert j in Counting(s, key); }
    }
  }

  lemma {:induction false} TwoAtATime<T(!new)>(m: (T, Key, nat) -> int, columns: nat, t: T, steps: seq<Step<T>>, i: JobId, j: JobId, k: nat)
    requires OnlyCounts(steps, {i, j}) && k >= 2
    ensures AtMost(m, columns, t, steps, k)
  {
    hide Run;
    forall n | 0 <= n <= |steps| ensures Calm(Run(m, columns, t, steps[..n]), k) {
      assert OnlyCounts(steps[..n], {i, j});
      forall key ensures |Counting(Run(m, columns, t, steps[..n]), key)| <= k {
        CountingWithin(m, columns, t, steps[..n], {i, j}, key);
        SubsetSize(Counting(Run(m, columns, t, steps[..n]), key), {i, j});
      }
    }
  }

  // ---------------------------------------------------------------- two recounts that overtake each other

  function Counts<T>(j: JobId, n: nat): seq<Step<T>> {
    if n == 0 then [] else Counts(j, n - 1) + [Count(j, n - 1)]
  }

  lemma {:induction false} RunSnoc<T(!new)>(m: (T, Key, nat) -> int, columns: nat, t: T, steps: seq<Step<T>>, step: Step<T>)
    ensures var s := Run(m, columns, t, steps);
            Run(m, columns, t, steps + [step]) == if Enabled(m, columns, s, step) then Next(m, columns, s, step) else s
  {
    hide Enabled, Next;
    assert (steps + [step])[..|steps + [step]| - 1] == steps;
  }

  function ReadAll<T>(m: (T, Key, nat) -> int, s: State<T>, key: Key, n: nat): map<nat, Reading>
    requires s.history != []
  {
    map c: nat | 0 <= c < n :: Reading(m(Now(s), key, c), |s.history| - 1)
  }

  lemma {:induction false} CountsRun<T(!new)>(
    m: (T, Key, nat) -> int, columns: nat, t: T, steps: seq<Step<T>>, j: JobId, n: nat)
    requires var s := Run(m, columns, t, steps);
             s.history != [] && j in s.jobs && s.jobs[j].counted == map[] && n <= columns
    ensures var s := Run(m, columns, t, steps);
            Run(m, columns, t, steps + Counts(j, n)) == s.(jobs := s.jobs[j := Job(s.jobs[j].key, ReadAll(m, s, s.jobs[j].key, n))])
  {
    hide Run;
    var s := Run(m, columns, t, steps);
    var key := s.jobs[j].key;
    if n == 0 {
      assert steps + Counts(j, 0) == steps;
      assert ReadAll(m, s, key, 0) == map[];
      assert s.jobs[j := Job(key, map[])] == s.jobs;
    } else {
      CountsRun(m, columns, t, steps, j, n - 1);
      var before := steps + Counts(j, n - 1);
      RunSnoc(m, columns, t, before, Count(j, n - 1));
      assert steps + Counts(j, n) == before + [Count(j, n - 1)];
      var s1 := Run(m, columns, t, before);
      assert s1.jobs[j].counted == ReadAll(m, s, key, n - 1);
      assert Next(m, columns, s1, Count(j, n - 1)).jobs[j].counted == ReadAll(m, s, key, n);
    }
  }

  lemma {:induction false} RunFirst<T(!new)>(m: (T, Key, nat) -> int, columns: nat, t: T, step: Step<T>)
    requires Enabled(m, columns, Initial(t), step)
    ensures Run(m, columns, t, [step]) == Next(m, columns, Initial(t), step)
  {
    hide Enabled, Next;
    assert [step][..0] == [];
    assert Run(m, columns, t, []) == Initial(t);
  }

  /** Job `j` is the only one of the write that is for `key`. */
  predicate OnlyJob(begun: map<JobId, Key>, j: JobId, key: Key) {
    j in begun && begun[j] == key && forall i :: i in begun && i != j ==> begun[i] != key
  }

  /** The first half of the run: write and count, then write and count again. */
  function CountTwice<T>(t1: T, b1: map<JobId, Key>, j1: JobId, t2: T, b2: map<JobId, Key>, j2: JobId, columns: nat): seq<Step<T>> {
    [Write(t1, b1)] + Counts(j1, columns) + [Write(t2, b2)] + Counts(j2, columns)
  }

  /** The second half stores the second result before the first. */
  function Overtaking<T>(t1: T, b1: map<JobId, Key>, j1: JobId, t2: T, b2: map<JobId, Key>, j2: JobId, columns: nat): seq<Step<T>> {
    CountTwice(t1, b1, j1, t2, b2, j2, columns) + [Upsert(j2)] + [Upsert(j1)]
  }

  ghost predicate CanRace<T(!new)>(
    m: (T, Key, nat) -> int, columns: nat, t: T, t1: T, b1: map<JobId, Key>, j1: JobId, t2: T, b2: map<JobId, Key>, j2: JobId, key: Key)
  {
    && Covers(m, columns, t, t1, b1) && Covers(m, columns, t1, t2, b2)
    && OnlyJob(b1, j1, key) && OnlyJob(b2, j2, key) && b1.Keys !! b2.Keys
  }

  lemma {:induction false} BothCounted<T(!new)>(
    m: (T, Key, nat) -> int, columns: nat, t: T, t1: T, b1: map<JobId, Key>, j1: JobId, t2: T, b2: map<JobId, Key>, j2: JobId, key: Key)
    requires CanRace(m, columns, t, t1, b1, j1, t2, b2, j2, key)
    ensures var s := Run(m, columns, t, CountTwice(t1, b1, j1, t2, b2, j2, columns));
            var older, newer := State([t, t1], map[], map[]), State([t, t1, t2], map[], map[]);
            && s.history == [t, t1, t2] && s.rows == map[]
            && s.jobs == (Started(b1)[j1 := Job(key, ReadAll(m, older, key, columns))] + Started(b2))
                           [j2 := Job(key, ReadAll(m, newer, key, columns))]
  {
    hide Run, Covers, ReadAll;
    var a := [Write(t1, b1)];
    RunFirst(m, columns, t, Write(t1, b1));
    var s1 := Run(m, columns, t, a);
    assert map[] + Started(b1) == Started(b1);
    assert s1 == State([t, t1], Started(b1), map[]);
    CountsRun(m, columns, t, a, j1, columns);
    var b := a + Counts(j1, columns);
    SameReadings(m, s1, State([t, t1], map[], map[]), key, columns);
    RunSnoc(m, columns, t, b, Write(t2, b2));
    var d := b + [Write(t2, b2)];
    var s2 := Run(m, columns, t, d);
    assert s2.history == [t, t1, t2] && j2 in s2.jobs && s2.jobs[j2] == Job(key, map[]);
    SameReadings(m, s2, State([t, t1, t2], map[], map[]), key, columns);
    CountsRun(m, columns, t, d, j2, columns);
  }

  lemma {:induction false} SameReadings<T(!new)>(m: (T, Key, nat) -> int, s: State<T>, s': State<T>, key: Key, n: nat)
    requires s.history == s'.history != []
    ensures ReadAll(m, s, key, n) == ReadAll(m, s', key, n)
  {
  }

  /** After it no recount of the key is under way and its row holds the values of the older version. */
  lemma {:induction false} OvertakenStale<T(!new)>(
    m: (T, Key, nat) -> int, columns: nat, t: T, t1: T, b1: map<JobId, Key>, j1: JobId, t2: T, b2: map<JobId, Key>, j2: JobId,
    key: Key, c: nat)
    requires CanRace(m, columns, t, t1, b1, j1, t2, b2, j2, key) && c < columns
    ensures var s := Run(m, columns, t, Overtaking(t1, b1, j1, t2, b2, j2, columns));
            s.history != [] && Now(s) == t2 && Quiet(s, key) && Stored(s, key, c) == m(t1, key, c)
  {
    hide Run, Covers, CountTwice;
    BothCounted(m, columns, t, t1, b1, j1, t2, b2, j2, key);
    var e := CountTwice(t1, b1, j1, t2, b2, j2, columns);
    RunSnoc(m, columns, t, e, Upsert(j2));
    RunSnoc(m, columns, t, e + [Upsert(j2)], Upsert(j1));
  }

  lemma {:induction false} CountsOnly<T>(j: JobId, n: nat, jobs: set<JobId>)
    requires j in jobs
    ensures OnlyCounts<T>(Counts(j, n), jobs) && NoFailures<T>(Counts(j, n))
  {
    if n > 0 { CountsOnly<T>(j, n - 1, jobs); }
  }

  lemma {:induction false} JoinedOnly<T>(a: seq<Step<T>>, b: seq<Step<T>>, jobs: set<JobId>)
    requires OnlyCounts(a, jobs) && OnlyCounts(b, jobs) && NoFailures(a) && NoFailures(b)
    ensures OnlyCounts(a + b, jobs) && NoFailures(a + b)
  {
  }

  /** The overtaking run has two recounts of the key under way and no failure. */
  lemma {:induction false} OvertakingTwo<T(!new)>(
    m: (T, Key, nat) -> int, columns: nat, t: T, t1: T, b1: map<JobId, Key>, j1: JobId, t2: T, b2: map<JobId, Key>, j2: JobId, k: nat)
    requires k >= 2
    ensures var steps := Overtaking(t1, b1, j1, t2, b2, j2, columns);
            NoFailures(steps) && AtMost(m, columns, t, steps, k)
  {
    hide Run, OnlyCounts, NoFailures, AtMost;
    var jobs := {j1, j2};
    CountsOnly<T>(j1, columns, jobs);
    CountsOnly<T>(j2, columns, jobs);
    PlainStep(Write(t1, b1), jobs);
    PlainStep(Write(t2, b2), jobs);
    PlainStep<T>(Upsert(j1), jobs);
    PlainStep<T>(Upsert(j2), jobs);
    JoinedOnly([Write(t1, b1)], Counts(j1, columns), jobs);
    JoinedOnly([Write(t1, b1)] + Counts(j1, columns), [Write(t2, b2)], jobs);
    JoinedOnly([Write(t1, b1)] + Counts(j1, columns) + [Write(t2, b2)], Counts(j2, columns), jobs);
    JoinedOnly(CountTwice(t1, b1, j1, t2, b2, j2, columns), [Upsert(j2)], jobs);
    JoinedOnly(CountTwice(t1, b1, j1, t2, b2, j2, columns) + [Upsert(j2)], [Upsert(j1)], jobs);
    TwoAtATime(m, columns, t, Overtaking(t1, b1, j1, t2, b2, j2, columns), j1, j2, k);
  }

  lemma {:induction false} PlainStep<T>(step: Step<T>, jobs: set<JobId>)
    requires step.Write? || step.Upsert?
    ensures OnlyCounts([step], jobs) && NoFailures([step])
  {
  }

  /** So two overlapping recounts are enough for a wrong row, if the two writes differ in what is counted. */
  lemma {:induction false} OvertakingWrong<T(!new)>(
    m: (T, Key, nat) -> int, columns: nat, t: T, t1: T, b1: map<JobId, Key>, j1: JobId, t2: T, b2: map<JobId, Key>, j2: JobId,
    key: Key, c: nat, k: nat)
    requires CanRace(m, columns, t, t1, b1, j1, t2, b2, j2, key) && c < columns && k >= 2 && m(t1, key, c) != m(t2, key, c)
    ensures !EndsRight(m, columns, t, Overtaking(t1, b1, j1, t2, b2, j2, columns), key, c, k)
  {
    hide Run, Covers, CanRace, AtMost, NoFailures, Overtaking;
    OvertakenStale(m, columns, t, t1, b1, j1, t2, b2, j2, key, c);
    OvertakingTwo(m, columns, t, t1, b1, j1, t2, b2, j2, k);
  }

  /** A recount that fails leaves the row as it was. */
  lemma {:induction false} FailedStale<T(!new)>(m: (T, Key, nat) -> int, columns: nat, t: T, t1: T, key: Key, c: nat)
    requires Covers(m, columns, t, t1, map[1 := key])
    ensures var s := Run(m, columns, t, [Write(t1, map[1 := key]), Fail(1)]);
            s.history != [] && Now(s) == t1 && s.jobs == map[] && Stored(s, key, c) == 0
  {
    hide Run, Covers;
    var w := Write(t1, map[1 := key]);
    RunFirst(m, columns, t, w);
    RunSnoc(m, columns, t, [w], Fail(1));
    assert [w] + [Fail(1)] == [w, Fail(1)];
  }
}
