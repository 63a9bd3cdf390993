/**
  Profile updates: `handleProfile` of `pkg/p2p/handlers.go` over `pkg/storage/profiles_repo.go`.

  The version guard makes the table of profiles a register in which the highest version wins. Whether that is
  enough for nodes to agree, whatever the order of delivery, is decided here exactly. A run handles one profile at a time;
  `ProfileRaces` treats handlers whose statements interleave.
 */
module Profiles {
  import opened Wrappers

  datatype Profile = Profile(author: Blob, body: string, version: nat, timestamp: int)

  /** The profiles table, and the content store under the authors' keys. */
  datatype Tables = Tables(rows: map<Blob, Profile>, cas: map<Blob, Profile>)

  function Upserted(rows: map<Blob, Profile>, p: Profile): map<Blob, Profile> {
    if p.author in rows && p.version <= rows[p.author].version then rows else rows[p.author := p]
  }

  function Handled(t: Tables, p: Profile): Tables {
    if p.author in t.rows && t.rows[p.author].version >= p.version then t
    else Tables(Upserted(t.rows, p), t.cas[p.author := p])
  }

  class ProfileStore {
    var rows: map<Blob, Profile>
    var cas: map<Blob, Profile>

    ghost function State(): Tables
      reads this
    {
      Tables(rows, cas)
    }

    constructor ()
      ensures State() == Tables(map[], map[])
    {
      rows, cas := map[], map[];
    }

    /** The upsert repeats the guard in its WHERE clause. */
    method UpsertProfile(p: Profile)
      modifies this`rows
      ensures rows == Upserted(old(rows), p)
      ensures p.author !in old(rows) || old(rows)[p.author].version < p.version ==> rows == old(rows)[p.author := p]
      ensures p.author in old(rows) && p.version <= old(rows)[p.author].version ==> rows == old(rows)
    {
      if p.author !in rows || p.version > rows[p.author].version {
        rows := rows[p.author := p];
      }
    }

    method HandleProfile(p: Profile)
      modifies this
      ensures State() == Handled(old(State()), p)
    {
      if p.author in rows && rows[p.author].version >= p.version {
        return;
      }
      cas := cas[p.author := p];
      UpsertProfile(p);
    }
  }

  // ---------------------------------------------------------------- runs

  datatype Step = Deliver(profile: Profile) | Evict(key: Blob)

  function Apply(t: Tables, step: Step): Tables {
    match step
    case Deliver(p) => Handled(t, p)
    case Evict(key) => t.(cas := t.cas - {key})
  }

  function Run(steps: seq<Step>): Tables {
    if steps == [] then Tables(map[], map[]) else Apply(Run(steps[..|steps| - 1]), steps[|steps| - 1])
  }

  function Delivered(steps: seq<Step>): set<Profile> {
    if steps == [] then {}
    else Delivered(steps[..|steps| - 1]) + if steps[|steps| - 1].Deliver? then {steps[|steps| - 1].profile} else {}
  }

  /** Each author's row is a delivered profile of the highest delivered version. */
  ghost predicate Highest(rows: map<Blob, Profile>, delivered: set<Profile>) {
    && (forall p :: p in delivered ==> p.author in rows && p.version <= rows[p.author].version)
    && (forall a :: a in rows ==> rows[a] in delivered && rows[a].author == a)
  }

  /** What the content store holds for an author is what the table holds. */
  ghost predicate StoreAgrees(t: Tables) {
    forall a :: a in t.cas ==> a in t.rows && t.cas[a] == t.rows[a]
  }

  lemma {:induction false} HandledKeeps(t: Tables, p: Profile, delivered: set<Profile>)
    requires Highest(t.rows, delivered) && StoreAgrees(t)
    ensures Highest(Handled(t, p).rows, delivered + {p}) && StoreAgrees(Handled(t, p))
  {
  }

  lemma {:induction false} RunHighest(steps: seq<Step>)
    ensures Highest(Run(steps).rows, Delivered(steps)) && StoreAgrees(Run(steps))
    decreases |steps|
  {
    hide Highest, Handled;
    if steps == [] {
      NothingDelivered();
    } else {
      var n := |steps| - 1;
      RunHighest(steps[..n]);
      match steps[n]
      case Deliver(p) => hide StoreAgrees; HandledKeeps(Run(steps[..n]), p, Delivered(steps[..n]));
      case Evict(_) => assert Delivered(steps) == Delivered(steps[..n]);
    }
  }

  lemma {:induction false} NothingDelivered()
    ensures Highest(map[], {}) && StoreAgrees(Tables(map[], map[]))
  {
  }

  /** Along a run an author's row never disappears, its version never falls, and it changes only to a higher version. */
  lemma {:induction false} VersionsGrow(steps: seq<Step>, i: nat, j: nat, a: Blob)
    requires i <= j <= |steps| && a in Run(steps[..i]).rows
    ensures a in Run(steps[..j]).rows
    ensures var r, r' := Run(steps[..i]).rows[a], Run(steps[..j]).rows[a]; r' == r || r'.version > r.version
    decreases j
  {
    if i < j {
      VersionsGrow(steps, i, j - 1, a);
      assert steps[..j][..|steps[..j]| - 1] == steps[..j - 1];
    }
  }

  // ---------------------------------------------------------------- convergence

  ghost predicate Top(p: Profile, delivered: set<Profile>) {
    p in delivered && forall q :: q in delivered && q.author == p.author ==> q.version <= p.version
  }

  /** No author has two different profiles of the highest version. */
  ghost predicate UniqueTop(delivered: set<Profile>) {
    forall p, q :: Top(p, delivered) && Top(q, delivered) && p.author == q.author ==> p == q
  }

  ghost predicate SameRows(a: seq<Step>, b: seq<Step>) {
    Run(a).rows == Run(b).rows
  }

  /** All runs that deliver exactly these profiles end with the same table. */
  ghost predicate OrderIrrelevant(delivered: set<Profile>) {
    forall a, b :: Delivered(a) == delivered && Delivered(b) == delivered ==> SameRows(a, b)
  }

  lemma {:induction false} RowIsTop(steps: seq<Step>, a: Blob)
    requires a in Run(steps).rows
    ensures Top(Run(steps).rows[a], Delivered(steps)) && Run(steps).rows[a].author == a
  {
    hide Run, Delivered;
    RunHighest(steps);
  }

  lemma {:induction false} UniqueTopConverges(a: seq<Step>, b: seq<Step>)
    requires Delivered(a) == Delivered(b) && UniqueTop(Delivered(a))
    ensures SameRows(a, b)
  {
    hide Run, Delivered, Top;
    RunHighest(a);
    RunHighest(b);
    var x, y := Run(a).rows, Run(b).rows;
    forall k ensures k in x <==> k in y {
      if k in x { assert x[k] in Delivered(b); }
      if k in y { assert y[k] in Delivered(a); }
    }
    forall k | k in x ensures x[k] == y[k] {
      RowIsTop(a, k);
      RowIsTop(b, k);
    }
  }

  /** A top profile that arrives first stays. */
  lemma {:induction false} FirstTopStays(steps: seq<Step>, p: Profile)
    requires steps != [] && steps[0] == Deliver(p) && Top(p, Delivered(steps))
    ensures p.author in Run(steps).rows && Run(steps).rows[p.author] == p
  {
    hide Top;
    assert steps[..1][..0] == [] && steps[..1][0] == Deliver(p);
    assert Run(steps[..1]).rows == map[p.author := p];
    VersionsGrow(steps, 1, |steps|, p.author);
    assert steps[..|steps|] == steps;
    RunHighest(steps);
    TopIsHighest(p, Run(steps).rows[p.author], Delivered(steps));
  }

  lemma {:induction false} TopIsHighest(p: Profile, q: Profile, delivered: set<Profile>)
    requires Top(p, delivered) && (q in delivered && q.author == p.author)
    ensures q.version <= p.version
  {
  }

  lemma {:induction false} DeliveredConcat(a: seq<Step>, b: seq<Step>)
    ensures Delivered(a + b) == Delivered(a) + Delivered(b)
    decreases |b|
  {
    if b == [] {
      assert a + b == a;
    } else {
      var n := |b| - 1;
      assert (a + b)[..|a + b| - 1] == a + b[..n];
      DeliveredConcat(a, b[..n]);
    }
  }

  lemma {:induction false} DeliveredOne(p: Profile)
    ensures Delivered([Deliver(p)]) == {p}
  {
    assert [Deliver(p)][..0] == [];
  }

  /** Some run delivers exactly the given profiles. */
  lemma {:induction false} Schedule(delivered: set<Profile>) returns (steps: seq<Step>)
    ensures Delivered(steps) == delivered
    decreases delivered
  {
    if delivered == {} {
      steps := [];
    } else {
      var p :| p in delivered;
      var rest := Schedule(delivered - {p});
      steps := rest + [Deliver(p)];
      DeliveredConcat(rest, [Deliver(p)]);
      DeliveredOne(p);
    }
  }

  lemma {:induction false} FirstTopRun(delivered: set<Profile>, p: Profile) returns (steps: seq<Step>)
    requires Top(p, delivered)
    ensures Delivered(steps) == delivered
    ensures p.author in Run(steps).rows && Run(steps).rows[p.author] == p
  {
    hide Run;
    var rest := Schedule(delivered);
    steps := [Deliver(p)] + rest;
    DeliveredConcat([Deliver(p)], rest);
    DeliveredOne(p);
    FirstTopStays(steps, p);
  }

  /** Delivery order is irrelevant if and only if no author has two different profiles of the highest version. */
  lemma {:induction false} ConvergesIffUniqueTop(delivered: set<Profile>)
    ensures OrderIrrelevant(delivered) <==> UniqueTop(delivered)
  {
    hide Top, Run, Delivered;
    if UniqueTop(delivered) {
      forall a, b | Delivered(a) == delivered && Delivered(b) == delivered ensures SameRows(a, b) {
        UniqueTopConverges(a, b);
      }
    }
    if OrderIrrelevant(delivered) {
      forall p, q | Top(p, delivered) && Top(q, delivered) && p.author == q.author ensures p == q {
        var a := FirstTopRun(delivered, p);
        var b := FirstTopRun(delivered, q);
        assert SameRows(a, b);
      }
    }
  }

  // ---------------------------------------------------------------- the content store

  /** No earlier profile of the author has as high a version. */
  ghost predicate IsHigher(steps: seq<Step>, p: Profile) {
    forall q :: q in Delivered(steps) && q.author == p.author ==> q.version < p.version
  }

  /** The last step that puts or evicts the author's object is a delivery of a higher version than all before it. */
  ghost predicate Held(steps: seq<Step>, key: Blob) {
    if steps == [] then false
    else
      var before := steps[..|steps| - 1];
      match steps[|steps| - 1]
      case Deliver(p) => Held(before, key) || (p.author == key && IsHigher(before, p))
      case Evict(k) => Held(before, key) && k != key
  }

  /** In every run the content store holds exactly the objects that were put and not evicted since. */
  lemma {:induction false} StoreHolds(steps: seq<Step>, key: Blob)
    ensures key in Run(steps).cas <==> Held(steps, key)
    decreases |steps|
  {
    hide IsHigher;
    if steps != [] {
      var before := steps[..|steps| - 1];
      StoreHolds(before, key);
      if steps[|steps| - 1].Deliver? { AcceptedIff(before, steps[|steps| - 1].profile); }
    }
  }

  lemma {:induction false} AcceptedIff(steps: seq<Step>, p: Profile)
    ensures IsHigher(steps, p) <==> p.author !in Run(steps).rows || Run(steps).rows[p.author].version < p.version
  {
    hide Run, Delivered;
    RunHighest(steps);
  }
}
