/**
  A fixed-window counter for one key, and what it admits over time.

  Both rate limiters of the repository drive this machine: a window opens at the first use after the
  previous one ended, counts admissions up to a limit, and ends strictly after its reset time. The theorem
  is about every interval of every history, not about one call.
 */
module FixedWindow {
  import opened Wrappers

  /** No window, or an open one with its reset time and the number of admissions. */
  datatype View = Absent | Open(resetAt: int, n: nat)

  predicate Expired(v: View, now: int) {
    v == Absent || now > v.resetAt
  }

  /** The window a use at time `now` falls into. */
  function Rolled(v: View, now: int, window: nat): View {
    if Expired(v, now) then Open(now + window, 0) else v
  }

  predicate Sorted(times: seq<int>) {
    forall i, j :: 0 <= i < j < |times| ==> times[i] <= times[j]
  }

  /** `starts[i]` is the start of the window that admitted `times[i]`. */
  ghost predicate InWindows(times: seq<int>, starts: seq<int>, window: nat, limit: nat)
    requires |starts| == |times|
  {
    && (forall i :: 0 <= i < |times| ==> starts[i] <= times[i] <= starts[i] + window)
    && (forall i, j :: 0 <= i < j < |times| ==> starts[j] == starts[i] || starts[j] > starts[i] + window)
    && (forall i, j :: 0 <= i < j < |times| && j == i + limit ==> starts[i] != starts[j])
  }

  /** How the current window relates to the windows of the past. */
  ghost predicate Current(starts: seq<int>, v: View, now: int, window: nat, limit: nat) {
    match v
    case Absent => forall i :: 0 <= i < |starts| ==> starts[i] + window < now
    case Open(resetAt, n) =>
      && n <= limit && n <= |starts| && resetAt - window <= now
      && (forall i :: |starts| - n <= i < |starts| ==> starts[i] == resetAt - window)
      && (forall i :: 0 <= i < |starts| - n ==> starts[i] + window < resetAt - window)
  }

  ghost predicate History(times: seq<int>, starts: seq<int>, v: View, now: int, window: nat, limit: nat) {
    && |starts| == |times| && Sorted(times)
    && (forall i :: 0 <= i < |times| ==> times[i] <= now)
    && InWindows(times, starts, window, limit)
    && Current(starts, v, now, window, limit)
  }

  lemma {:induction false} Later(times: seq<int>, starts: seq<int>, v: View, now: int, now': int, window: nat, limit: nat)
    requires History(times, starts, v, now, window, limit) && now <= now'
    ensures History(times, starts, v, now', window, limit)
  {
  }

  lemma {:induction false} Removed(times: seq<int>, starts: seq<int>, v: View, now: int, window: nat, limit: nat)
    requires History(times, starts, v, now, window, limit) && Expired(v, now)
    ensures History(times, starts, Absent, now, window, limit)
  {
  }

  lemma {:induction false} Touched(times: seq<int>, starts: seq<int>, v: View, now: int, window: nat, limit: nat)
    requires History(times, starts, v, now, window, limit)
    ensures History(times, starts, Rolled(v, now, window), now, window, limit)
  {
  }

  lemma {:induction false} Admitted(times: seq<int>, starts: seq<int>, v: View, now: int, window: nat, limit: nat)
    requires History(times, starts, v, now, window, limit)
    requires v.Open? && v.n < limit && now <= v.resetAt
    ensures History(times + [now], starts + [v.resetAt - window], v.(n := v.n + 1), now, window, limit)
  {
    var a := v.resetAt - window;
    var t, s := times + [now], starts + [a];
    forall i, j | 0 <= i < j < |t| && j == i + limit ensures s[i] != s[j] {
      if j == |times| {
        assert i < |starts| - v.n;
        assert starts[i] + window < a;
      }
    }
    forall i, j | 0 <= i < j < |t| ensures s[j] == s[i] || s[j] > s[i] + window {
      if j == |times| {
        assert s[i] == starts[i];
      }
    }
  }

  /** Admissions that are two limits apart are more than a window apart. */
  lemma {:induction false} FarApart(times: seq<int>, starts: seq<int>, v: View, now: int, window: nat, limit: nat, i: nat)
    requires History(times, starts, v, now, window, limit) && limit > 0 && i + 2 * limit < |times|
    ensures times[i + 2 * limit] > times[i] + window
  {
    assert starts[i] != starts[i + limit] && starts[i + limit] != starts[i + 2 * limit];
  }

  /** How many of the times lie in the closed interval from `lo` to `hi`. */
  function CountIn(times: seq<int>, lo: int, hi: int): nat {
    if times == [] then 0
    else
      var t := times[|times| - 1];
      CountIn(times[..|times| - 1], lo, hi) + if lo <= t <= hi then 1 else 0
  }

  /** Times counted only at positions `from` to `from + n` are at most `n`. */
  lemma {:induction false} CountBound(times: seq<int>, lo: int, hi: int, from: nat, n: nat)
    requires forall i :: 0 <= i < |times| && lo <= times[i] <= hi ==> from <= i < from + n
    ensures CountIn(times, lo, hi) <= n
    ensures |times| <= from ==> CountIn(times, lo, hi) == 0
    ensures from <= |times| ==> CountIn(times, lo, hi) <= |times| - from
    decreases |times|
  {
    if times != [] {
      var k := |times| - 1;
      assert forall i :: 0 <= i < k ==> times[..k][i] == times[i];
      CountBound(times[..k], lo, hi, from, n);
    }
  }

  lemma {:induction false} FirstIn(times: seq<int>, lo: int, hi: int) returns (m: nat)
    ensures forall i :: 0 <= i < |times| && lo <= times[i] <= hi ==> m <= i
    ensures m <= |times|
    ensures m < |times| ==> lo <= times[m] <= hi
  {
    m := 0;
    while m < |times| && !(lo <= times[m] <= hi)
      invariant m <= |times|
      invariant forall i :: 0 <= i < |times| && lo <= times[i] <= hi ==> m <= i
    {
      m := m + 1;
    }
  }

  /** In every closed interval of one window length at most twice the limit is admitted. */
  lemma {:induction false} IntervalBound(
    times: seq<int>, starts: seq<int>, v: View, now: int, window: nat, limit: nat, lo: int)
    requires History(times, starts, v, now, window, limit) && limit > 0
    ensures CountIn(times, lo, lo + window) <= 2 * limit
  {
    hide History, CountIn;
    var m := FirstIn(times, lo, lo + window);
    forall i | 0 <= i < |times| && lo <= times[i] <= lo + window ensures m <= i < m + 2 * limit {
      if i >= m + 2 * limit {
        FarApart(times, starts, v, now, window, limit, m);
        SortedAt(times, starts, v, now, window, limit, m + 2 * limit, i);
      }
    }
    CountBound(times, lo, lo + window, m, 2 * limit);
  }

  lemma {:induction false} SortedAt(
    times: seq<int>, starts: seq<int>, v: View, now: int, window: nat, limit: nat, i: nat, j: nat)
    requires History(times, starts, v, now, window, limit) && i <= j < |times|
    ensures times[i] <= times[j]
  {
  }

  // ---------------------------------------------------------------- what is admitted

  /** The start of the window that a use at time `at` falls into: the old one, or a new one once the old one has ended. */
  function Reopened(start: Option<int>, at: int, window: nat): Option<int> {
    if start.Some? && at <= start.value + window then start else Some(at)
  }

  function CountFrom(times: seq<int>, start: int): nat {
    if times == [] then 0
    else CountFrom(times[..|times| - 1], start) + if times[|times| - 1] >= start then 1 else 0
  }

  /** The machine knows the current window and how many admissions it has seen. */
  ghost predicate Knows(times: seq<int>, start: Option<int>, v: View, now: int, window: nat) {
    && (start.None? ==> times == [] && v.Absent?)
    && (start.Some? ==> start.value <= now && forall i :: 0 <= i < |times| ==> times[i] <= start.value + window)
    && (v.Open? ==> start == Some(v.resetAt - window) && v.n == CountFrom(times, v.resetAt - window))
    && (v.Absent? && start.Some? ==> now > start.value + window)
  }

  lemma {:induction false} CountNone(times: seq<int>, start: int)
    requires forall i :: 0 <= i < |times| ==> times[i] < start
    ensures CountFrom(times, start) == 0
    decreases |times|
  {
    if times != [] { CountNone(times[..|times| - 1], start); }
  }

  lemma {:induction false} KnowsLater(times: seq<int>, start: Option<int>, v: View, now: int, now': int, window: nat)
    requires Knows(times, start, v, now, window) && now <= now'
    ensures Knows(times, start, v, now', window)
  {
  }

  lemma {:induction false} KnowsRemoved(times: seq<int>, start: Option<int>, v: View, now: int, window: nat)
    requires Knows(times, start, v, now, window) && Expired(v, now)
    ensures Knows(times, start, Absent, now, window)
  {
  }

  lemma {:induction false} KnowsTouched(times: seq<int>, start: Option<int>, v: View, now: int, window: nat)
    requires Knows(times, start, v, now, window)
    ensures Knows(times, Reopened(start, now, window), Rolled(v, now, window), now, window)
  {
    if Expired(v, now) { CountNone(times, now); }
  }

  lemma {:induction false} KnowsAdmitted(times: seq<int>, start: Option<int>, v: View, now: int, window: nat)
    requires Knows(times, start, v, now, window) && v.Open? && now <= v.resetAt
    ensures Knows(times + [now], start, v.(n := v.n + 1), now, window)
  {
    assert (times + [now])[..|times + [now]| - 1] == times;
  }

  /** Room in the window that a use at time `now` falls into. */
  predicate HasRoom(times: seq<int>, start: Option<int>, now: int, window: nat, limit: int) {
    start.None? || now > start.value + window || CountFrom(times, start.value) < limit
  }
}
