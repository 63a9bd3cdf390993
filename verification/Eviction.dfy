/**
  Storage eviction: `checkAndEvict` and `EvictStaleContent` of `pkg/feed/replicator.go` over the
  content directory and the access table.

  Any file deletion and any statement may fail. Which ones do is a parameter, so the postconditions say what happens under
  every pattern of faults. Nothing else touches the store during a pass; `PinRaces` treats passes that overlap with other work.
 */
module Eviction {
  import opened Wrappers
  import opened PinPolicy

  /** Whether the query of a pass fails, and the deletion of an object or of a row in it. */
  datatype Faults = Faults(query: nat -> bool, content: (nat, Blob) -> bool, row: (nat, Blob) -> bool)

  ghost predicate NoRowFaults(f: Faults) {
    forall i, c :: !f.row(i, c)
  }

  ghost predicate NoFaults(f: Faults) {
    (forall i :: !f.query(i)) && (forall i, c :: !f.content(i, c)) && NoRowFaults(f)
  }

  /** Why the loop ended. */
  datatype Outcome = WithinLimit | ReachedTarget | NothingUnpinned | FreedNothing | QueryFailed

  // ---------------------------------------------------------------- sizes

  ghost function Total(disk: map<Blob, nat>): nat {
    if disk == map[] then 0
    else
      var k :| k in disk;
      disk[k] + Total(disk - {k})
  }

  lemma {:induction false} TotalRemove(disk: map<Blob, nat>, k: Blob)
    requires k in disk
    ensures Total(disk) == disk[k] + Total(disk - {k})
    decreases |disk|
  {
    var j :| j in disk && Total(disk) == disk[j] + Total(disk - {j});
    if j != k {
      RemoveSmaller(disk, j);
      TotalRemove(disk - {j}, k);
      RemoveSmaller(disk, k);
      TotalRemove(disk - {k}, j);
      assert disk - {j} - {k} == disk - {k} - {j};
    }
  }

  lemma {:induction false} RemoveSmaller(disk: map<Blob, nat>, k: Blob)
    requires k in disk
    ensures |disk - {k}| == |disk| - 1
  {
    assert (disk - {k}).Keys == disk.Keys - {k};
  }

  /** The objects of `before` that are gone in `after`. */
  function Deleted(before: map<Blob, nat>, after: map<Blob, nat>): map<Blob, nat> {
    before - after.Keys
  }

  predicate Shrunk<K, V(==)>(before: map<K, V>, after: map<K, V>) {
    forall c :: c in after ==> c in before && after[c] == before[c]
  }

  /** Blob freed are the sizes of the deleted objects. */
  lemma {:induction false} FreedBytes(before: map<Blob, nat>, after: map<Blob, nat>)
    requires Shrunk(before, after)
    ensures Total(before) == Total(after) + Total(Deleted(before, after))
    decreases |before|
  {
    hide Total;
    if before == map[] {
      assert after == map[];
      assert Deleted(before, after) == map[];
      TotalEmpty();
    } else {
      var k :| k in before;
      RemoveSmaller(before, k);
      TotalRemove(before, k);
      if k in after {
        FreedBytes(before - {k}, after - {k});
        TotalRemove(after, k);
        assert Deleted(before - {k}, after - {k}) == Deleted(before, after);
      } else {
        FreedBytes(before - {k}, after);
        TotalRemove(Deleted(before, after), k);
        assert Deleted(before - {k}, after) == Deleted(before, after) - {k};
      }
    }
  }

  lemma {:induction false} TotalEmpty()
    ensures Total(map[]) == 0
  {
  }

  // ---------------------------------------------------------------- least recently used rows

  function Unpinned(rows: map<Blob, AccessRow>): set<Blob> {
    set c | c in rows && !rows[c].pinned
  }

  /** The answer of `GetLRUContent`, with ties in any order. */
  ghost predicate IsLru(rows: map<Blob, AccessRow>, limit: nat, items: seq<Blob>) {
    && (forall i :: 0 <= i < |items| ==> items[i] in Unpinned(rows))
    && (forall i, j :: 0 <= i < j < |items| ==> items[i] != items[j])
    && (forall i, j :: 0 <= i < j < |items| ==> rows[items[i]].lastAccessed <= rows[items[j]].lastAccessed)
    && (forall i, c :: 0 <= i < |items| && c in Unpinned(rows) && c !in items
          ==> rows[items[i]].lastAccessed <= rows[c].lastAccessed)
    && (|items| == limit || forall c :: c in Unpinned(rows) ==> c in items)
    && |items| <= limit
  }

  method Oldest(rows: map<Blob, AccessRow>, candidates: set<Blob>) returns (best: Blob)
    requires candidates != {} && candidates <= rows.Keys
    ensures best in candidates
    ensures forall c :: c in candidates ==> rows[best].lastAccessed <= rows[c].lastAccessed
  {
    best :| best in candidates;
    var todo := candidates - {best};
    while todo != {}
      invariant best in candidates && todo <= candidates
      invariant forall c :: c in candidates - todo ==> rows[best].lastAccessed <= rows[c].lastAccessed
      decreases todo
    {
      var c :| c in todo;
      todo := todo - {c};
      if rows[c].lastAccessed < rows[best].lastAccessed {
        best := c;
      }
    }
  }

  /** Anything but unpinned, tracked content is as it was. */
  ghost predicate Protected(
    disk0: map<Blob, nat>, rows0: map<Blob, AccessRow>, disk: map<Blob, nat>, rows: map<Blob, AccessRow>)
  {
    && Shrunk(rows0, rows) && Shrunk(disk0, disk)
    && (forall c :: c in rows0 && rows0[c].pinned ==> c in rows)
    && (forall c :: c in disk0 && (c !in rows0 || rows0[c].pinned) ==> c in disk)
  }

  /** Rows removed so far were accessed no later than any unpinned row that remains. */
  ghost predicate RemovedPrefix(rows0: map<Blob, AccessRow>, rows: map<Blob, AccessRow>) {
    forall c, d :: c in rows0 && c !in rows && d in Unpinned(rows) && d in rows0
      ==> rows0[c].lastAccessed <= rows0[d].lastAccessed
  }

  /** What deleting `items` does: each object and each row goes unless its deletion fails, and nothing else does. */
  ghost predicate ItemsDeleted(
    f: Faults, pass: nat, items: seq<Blob>,
    disk0: map<Blob, nat>, rows0: map<Blob, AccessRow>, disk: map<Blob, nat>, rows: map<Blob, AccessRow>)
  {
    && Shrunk(disk0, disk) && Shrunk(rows0, rows)
    && (forall c :: c in disk0 ==> (c in disk <==> c !in items || f.content(pass, c)))
    && (forall c :: c in rows0 ==> (c in rows <==> c !in items || f.row(pass, c)))
  }

  /** A batch of least recently used rows keeps what the loop maintains. */
  lemma {:induction false} BatchKeeps(
    f: Faults, pass: nat, disk0: map<Blob, nat>, rows0: map<Blob, AccessRow>, disk1: map<Blob, nat>, rows1: map<Blob, AccessRow>,
    disk: map<Blob, nat>, rows: map<Blob, AccessRow>, items: seq<Blob>)
    requires Protected(disk0, rows0, disk1, rows1)
    requires IsLru(rows1, 100, items)
    requires ItemsDeleted(f, pass, items, disk1, rows1, disk, rows)
    ensures Protected(disk0, rows0, disk, rows) && Shrunk(disk1, disk)
    ensures NoRowFaults(f) && RemovedPrefix(rows0, rows1) ==> RemovedPrefix(rows0, rows)
  {
    assert forall c :: c in items ==> c in rows1 && !rows1[c].pinned && c in rows0 && !rows0[c].pinned;
    if NoRowFaults(f) && RemovedPrefix(rows0, rows1) {
      forall c, d | c in rows0 && c !in rows && d in Unpinned(rows) && d in rows0
        ensures rows0[c].lastAccessed <= rows0[d].lastAccessed
      {
        assert d in Unpinned(rows1);
        if c in rows1 {
          assert c in items && d !in items;
        }
      }
    }
  }

  lemma {:induction false} NoChange(disk: map<Blob, nat>, rows: map<Blob, AccessRow>)
    ensures Protected(disk, rows, disk, rows) && RemovedPrefix(rows, rows) && Shrunk(disk, disk)
  {
  }

  lemma {:induction false} EmptyAnswer(rows: map<Blob, AccessRow>)
    requires IsLru(rows, 100, [])
    ensures Unpinned(rows) == {}
  {
  }

  lemma {:induction false} ProtectedShrinks(
    disk0: map<Blob, nat>, rows0: map<Blob, AccessRow>, disk: map<Blob, nat>, rows: map<Blob, AccessRow>)
    requires Protected(disk0, rows0, disk, rows)
    ensures Shrunk(disk0, disk)
  {
  }

  // ---------------------------------------------------------------- passes of the loop

  /** One pass: over the target, a query that works, a non-empty batch of at most a hundred ids, and its deletions. */
  ghost predicate Pass(
    f: Faults, pass: nat, target: nat, batch: seq<Blob>,
    disk0: map<Blob, nat>, rows0: map<Blob, AccessRow>, disk: map<Blob, nat>, rows: map<Blob, AccessRow>)
  {
    && Total(disk0) > target && !f.query(pass)
    && batch != [] && IsLru(rows0, 100, batch) && ItemsDeleted(f, pass, batch, disk0, rows0, disk, rows)
  }

  /** The directory and the table before the first pass and after each one. */
  datatype Trail = Trail(disks: seq<map<Blob, nat>>, rows: seq<map<Blob, AccessRow>>, batches: seq<seq<Blob>>)

  ghost predicate IsTrail(t: Trail, f: Faults, target: nat) {
    && |t.disks| == |t.batches| + 1 && |t.rows| == |t.batches| + 1
    && (forall i :: 0 <= i < |t.batches| ==>
          Pass(f, i, target, t.batches[i], t.disks[i], t.rows[i], t.disks[i + 1], t.rows[i + 1]))
  }

  /** The first `m` passes each freed something. */
  ghost predicate Falling(t: Trail, m: int) {
    m < |t.disks| && forall i :: 0 <= i < m ==> Total(t.disks[i + 1]) < Total(t.disks[i])
  }

  function Extended(t: Trail, batch: seq<Blob>, disk: map<Blob, nat>, rows: map<Blob, AccessRow>): Trail {
    Trail(t.disks + [disk], t.rows + [rows], t.batches + [batch])
  }

  predicate EndsAt(t: Trail, disk: map<Blob, nat>, rows: map<Blob, AccessRow>) {
    t.disks != [] && t.rows != [] && t.disks[|t.disks| - 1] == disk && t.rows[|t.rows| - 1] == rows
  }

  predicate StartsAt(t: Trail, disk: map<Blob, nat>, rows: map<Blob, AccessRow>) {
    t.disks != [] && t.rows != [] && t.disks[0] == disk && t.rows[0] == rows
  }

  lemma {:induction false} TrailStart(disk: map<Blob, nat>, rows: map<Blob, AccessRow>, f: Faults, target: nat)
    ensures var t := Trail([disk], [rows], []); IsTrail(t, f, target) && Falling(t, 0) && StartsAt(t, disk, rows) && EndsAt(t, disk, rows)
  {
  }

  lemma {:induction false} TrailGrows(
    t: Trail, f: Faults, target: nat, disk0: map<Blob, nat>, rows0: map<Blob, AccessRow>,
    batch: seq<Blob>, disk: map<Blob, nat>, rows: map<Blob, AccessRow>)
    requires IsTrail(t, f, target) && EndsAt(t, disk0, rows0)
    requires Pass(f, |t.batches|, target, batch, disk0, rows0, disk, rows)
    ensures var t' := Extended(t, batch, disk, rows); IsTrail(t', f, target) && EndsAt(t', disk, rows)
    ensures forall d, r :: StartsAt(t, d, r) ==> StartsAt(Extended(t, batch, disk, rows), d, r)
    ensures Falling(t, |t.batches|) ==> Falling(Extended(t, batch, disk, rows), |t.batches|)
    ensures Falling(t, |t.batches|) && Total(disk) < Total(disk0) ==> Falling(Extended(t, batch, disk, rows), |t.batches| + 1)
  {
    hide Total, Pass;
    var t' := Extended(t, batch, disk, rows);
    forall i | 0 <= i < |t'.batches|
      ensures Pass(f, i, target, t'.batches[i], t'.disks[i], t'.rows[i], t'.disks[i + 1], t'.rows[i + 1])
    {
      if i < |t.batches| {
        assert Pass(f, i, target, t.batches[i], t.disks[i], t.rows[i], t.disks[i + 1], t.rows[i + 1]);
      }
    }
  }

  /** After `i` passes that freed something at least `i` bytes are free. */
  lemma {:induction false} SizesFall(t: Trail, m: nat, i: nat)
    requires Falling(t, m) && i <= m
    ensures Total(t.disks[i]) + i <= Total(t.disks[0])
  {
    hide Total;
    if i > 0 { SizesFall(t, m, i - 1); }
  }

  lemma {:induction false} TotalZero(disk: map<Blob, nat>, c: Blob)
    requires Total(disk) == 0 && c in disk
    ensures disk[c] == 0
  {
    hide Total;
    TotalRemove(disk, c);
  }

  /** The objects of these ids are absent or empty. */
  predicate NothingToFree(items: seq<Blob>, disk: map<Blob, nat>) {
    forall c :: c in items && c in disk ==> disk[c] == 0
  }

  /** A batch that frees nothing, without faults, was one of absent or empty objects. */
  lemma {:induction false} EmptyBatch(
    f: Faults, pass: nat, items: seq<Blob>,
    disk0: map<Blob, nat>, rows0: map<Blob, AccessRow>, disk: map<Blob, nat>, rows: map<Blob, AccessRow>)
    requires ItemsDeleted(f, pass, items, disk0, rows0, disk, rows) && NoFaults(f) && Total(disk) == Total(disk0)
    ensures NothingToFree(items, disk0)
  {
    hide Total;
    FreedBytes(disk0, disk);
    forall c | c in items && c in disk0 ensures disk0[c] == 0 {
      assert c !in disk;
      TotalZero(Deleted(disk0, disk), c);
    }
  }

  /** How the loop ended, in terms of the directory, the table and the faults. */
  ghost predicate Justified(outcome: Outcome, t: Trail, f: Faults, target: nat)
    requires IsTrail(t, f, target)
  {
    var n := |t.batches|;
    match outcome
    case WithinLimit => n == 0
    case ReachedTarget => Falling(t, n) && Total(t.disks[n]) <= target
    case NothingUnpinned => Falling(t, n) && Total(t.disks[n]) > target && !f.query(n) && Unpinned(t.rows[n]) == {}
    case QueryFailed => Falling(t, n) && Total(t.disks[n]) > target && f.query(n)
    case FreedNothing => n > 0 && Falling(t, n - 1) && Total(t.disks[n]) == Total(t.disks[n - 1])
  }

  class Replicator {
    var disk: map<Blob, nat>             // object sizes in the content directory
    var rows: map<Blob, AccessRow>       // content_access

    constructor (disk: map<Blob, nat>, rows: map<Blob, AccessRow>)
      ensures this.disk == disk && this.rows == rows
    {
      this.disk, this.rows := disk, rows;
    }

    method GetLRUContent(limit: nat) returns (items: seq<Blob>)
      ensures IsLru(rows, limit, items)
    {
      items := [];
      var left := set c | c in rows && !rows[c].pinned;
      while |items| < limit && left != {}
        invariant |items| <= limit
        invariant forall c :: c in left <==> c in Unpinned(rows) && c !in items
        invariant forall i :: 0 <= i < |items| ==> items[i] in Unpinned(rows)
        invariant forall i, j :: 0 <= i < j < |items| ==> items[i] != items[j]
        invariant forall i, j :: 0 <= i < j < |items| ==> rows[items[i]].lastAccessed <= rows[items[j]].lastAccessed
        invariant forall i, c :: 0 <= i < |items| && c in left ==> rows[items[i]].lastAccessed <= rows[c].lastAccessed
      {
        var c := Oldest(rows, left);
        items := items + [c];
        left := left - {c};
      }
    }

    method DirSize() returns (n: nat)
      ensures n == Total(disk)
    {
      n := 0;
      var todo := disk;
      while todo != map[]
        invariant n + Total(todo) == Total(disk)
        decreases |todo|
      {
        var k :| k in todo;
        TotalRemove(todo, k);
        RemoveSmaller(todo, k);
        n := n + todo[k];
        todo := todo - {k};
      }
    }

    method Delete(cid: Blob, fails: bool)
      modifies this`disk
      ensures disk == if fails then old(disk) else old(disk) - {cid}
    {
      if !fails {
        disk := disk - {cid};
      }
    }

    method DeleteContentAccess(cid: Blob, fails: bool)
      modifies this`rows
      ensures rows == if fails then old(rows) else old(rows) - {cid}
    {
      if !fails {
        rows := rows - {cid};
      }
    }

    /** A failing deletion does not keep the others from being made. */
    method EvictItems(items: seq<Blob>, f: Faults, pass: nat)
      modifies this
      ensures ItemsDeleted(f, pass, items, old(disk), old(rows), disk, rows)
    {
      for i := 0 to |items|
        invariant Shrunk(old(disk), disk) && Shrunk(old(rows), rows)
        invariant forall c :: c in old(disk) ==> (c in disk <==> c !in items[..i] || f.content(pass, c))
        invariant forall c :: c in old(rows) ==> (c in rows <==> c !in items[..i] || f.row(pass, c))
      {
        Delete(items[i], f.content(pass, items[i]));
        DeleteContentAccess(items[i], f.row(pass, items[i]));
        assert items[..i + 1] == items[..i] + [items[i]];
      }
      assert items[..|items|] == items;
    }

    /** One batch of the least recently used unpinned content; the query may fail. */
    method EvictStaleContent(f: Faults) returns (ok: bool, items: seq<Blob>)
      modifies this
      ensures ok <==> !f.query(0)
      ensures ok ==> IsLru(old(rows), 100, items) && ItemsDeleted(f, 0, items, old(disk), old(rows), disk, rows)
      ensures !ok ==> disk == old(disk) && rows == old(rows)
      ensures Protected(old(disk), old(rows), disk, rows)
      ensures NoRowFaults(f) ==> RemovedPrefix(old(rows), rows)
    {
      hide *;
      NoChange(disk, rows);
      if f.query(0) {
        return false, [];
      }
      items := GetLRUContent(100);
      EvictItems(items, f, 0);
      BatchKeeps(f, 0, old(disk), old(rows), old(disk), old(rows), disk, rows, items);
      ok := true;
    }

    method CheckAndEvict(maxBytes: nat, target: nat, f: Faults) returns (outcome: Outcome, ghost t: Trail)
      requires target <= maxBytes
      modifies this
      ensures outcome == WithinLimit <==> Total(old(disk)) <= maxBytes
      ensures IsTrail(t, f, target) && StartsAt(t, old(disk), old(rows)) && EndsAt(t, disk, rows)
      ensures Justified(outcome, t, f, target)
      ensures Protected(old(disk), old(rows), disk, rows)
      ensures Total(old(disk)) == Total(disk) + Total(Deleted(old(disk), disk))
      ensures NoRowFaults(f) ==> RemovedPrefix(old(rows), rows)
    {
      hide *;
      NoChange(disk, rows);
      FreedBytes(disk, disk);
      var currentSize := DirSize();
      t := Trail([disk], [rows], []);
      TrailStart(disk, rows, f, target);
      if currentSize <= maxBytes {
        JustifiedStart(t, f, target);
        return WithinLimit, t;
      }
      var pass := 0;
      while currentSize > target
        invariant Protected(old(disk), old(rows), disk, rows)
        invariant currentSize == Total(disk) && pass == |t.batches|
        invariant NoRowFaults(f) ==> RemovedPrefix(old(rows), rows)
        invariant IsTrail(t, f, target) && StartsAt(t, old(disk), old(rows)) && EndsAt(t, disk, rows)
        invariant Falling(t, |t.batches|)
        decreases currentSize
      {
        if f.query(pass) {
          JustifiedFailure(t, f, target, disk, rows);
          ProtectedShrinks(old(disk), old(rows), disk, rows);
          FreedBytes(old(disk), disk);
          return QueryFailed, t;
        }
        var items := GetLRUContent(100);
        if |items| == 0 {
          EmptyAnswer(rows);
          JustifiedEmpty(t, f, target, disk, rows);
          ProtectedShrinks(old(disk), old(rows), disk, rows);
          FreedBytes(old(disk), disk);
          return NothingUnpinned, t;
        }
        ghost var rows1, disk1 := rows, disk;
        EvictItems(items, f, pass);
        BatchKeeps(f, pass, old(disk), old(rows), disk1, rows1, disk, rows, items);
        var newSize := DirSize();
        FreedBytes(disk1, disk);
        IsPass(f, pass, target, items, disk1, rows1, disk, rows);
        TrailGrows(t, f, target, disk1, rows1, items, disk, rows);
        ghost var before := t;
        t := Extended(t, items, disk, rows);
        ExtendedBatches(before, items, disk, rows);
        if newSize >= currentSize {
          JustifiedStop(before, t, f, target, disk1, rows1, items, disk, rows);
          ProtectedShrinks(old(disk), old(rows), disk, rows);
          FreedBytes(old(disk), disk);
          return FreedNothing, t;
        }
        currentSize := newSize;
        pass := pass + 1;
      }
      JustifiedTarget(t, f, target, disk, rows);
      ProtectedShrinks(old(disk), old(rows), disk, rows);
      FreedBytes(old(disk), disk);
      outcome := ReachedTarget;
    }
  }

  lemma {:induction false} IsPass(
    f: Faults, pass: nat, target: nat, batch: seq<Blob>,
    disk0: map<Blob, nat>, rows0: map<Blob, AccessRow>, disk: map<Blob, nat>, rows: map<Blob, AccessRow>)
    requires Total(disk0) > target && !f.query(pass) && |batch| > 0 && IsLru(rows0, 100, batch)
    requires ItemsDeleted(f, pass, batch, disk0, rows0, disk, rows)
    ensures Pass(f, pass, target, batch, disk0, rows0, disk, rows)
  {
  }

  lemma {:induction false} ExtendedBatches(t: Trail, batch: seq<Blob>, disk: map<Blob, nat>, rows: map<Blob, AccessRow>)
    ensures |Extended(t, batch, disk, rows).batches| == |t.batches| + 1
  {
  }

  lemma {:induction false} JustifiedStart(t: Trail, f: Faults, target: nat)
    requires IsTrail(t, f, target) && t.batches == []
    ensures Justified(WithinLimit, t, f, target)
  {
  }

  lemma {:induction false} JustifiedTarget(t: Trail, f: Faults, target: nat, disk: map<Blob, nat>, rows: map<Blob, AccessRow>)
    requires IsTrail(t, f, target) && EndsAt(t, disk, rows) && Falling(t, |t.batches|) && Total(disk) <= target
    ensures Justified(ReachedTarget, t, f, target)
  {
    hide Total, Pass;
  }

  lemma {:induction false} JustifiedEmpty(t: Trail, f: Faults, target: nat, disk: map<Blob, nat>, rows: map<Blob, AccessRow>)
    requires IsTrail(t, f, target) && EndsAt(t, disk, rows) && Falling(t, |t.batches|)
    requires Total(disk) > target && !f.query(|t.batches|) && Unpinned(rows) == {}
    ensures Justified(NothingUnpinned, t, f, target)
  {
    hide Total, Pass;
  }

  lemma {:induction false} JustifiedFailure(t: Trail, f: Faults, target: nat, disk: map<Blob, nat>, rows: map<Blob, AccessRow>)
    requires IsTrail(t, f, target) && EndsAt(t, disk, rows) && Falling(t, |t.batches|) && Total(disk) > target && f.query(|t.batches|)
    ensures Justified(QueryFailed, t, f, target)
  {
    hide Total, Pass;
  }

  lemma {:induction false} JustifiedStop(
    before: Trail, t: Trail, f: Faults, target: nat, disk0: map<Blob, nat>, rows0: map<Blob, AccessRow>,
    batch: seq<Blob>, disk: map<Blob, nat>, rows: map<Blob, AccessRow>)
    requires IsTrail(before, f, target) && EndsAt(before, disk0, rows0) && t == Extended(before, batch, disk, rows)
    requires IsTrail(t, f, target) && Falling(t, |before.batches|) && Total(disk) == Total(disk0)
    ensures Justified(FreedNothing, t, f, target)
  {
    hide Total, Pass;
  }

  /**
    Without faults, a directory over the limit ends at or below the target, or with nothing unpinned, or after a batch of
    absent or empty objects.
   */
  lemma {:induction false} FaultFreeEnd(outcome: Outcome, t: Trail, f: Faults, target: nat)
    requires IsTrail(t, f, target) && Justified(outcome, t, f, target) && NoFaults(f) && outcome != WithinLimit
    ensures var n := |t.batches|;
            || Total(t.disks[n]) <= target
            || Unpinned(t.rows[n]) == {}
            || (n > 0 && NothingToFree(t.batches[n - 1], t.disks[n - 1]))
  {
    hide Total, IsLru;
    var n := |t.batches|;
    if outcome == FreedNothing {
      assert Pass(f, n - 1, target, t.batches[n - 1], t.disks[n - 1], t.rows[n - 1], t.disks[n], t.rows[n]);
      EmptyBatch(f, n - 1, t.batches[n - 1], t.disks[n - 1], t.rows[n - 1], t.disks[n], t.rows[n]);
    }
  }
}
