/**
  The conversation list: `GetConversations` of `pkg/storage/dm_repo.go`.

  The query partitions a user's messages by the pair of both public keys, smaller key first, ranks each
  partition by time, joins the unread counts, and leaves it to the row loop to find out which of the two
  keys is the other party. `IsAnswer` is the meaning of the query, with ties in any order.
 */
module Conversations {
  import opened Wrappers
  import opened Sequences

  type Cid = seq<int>
  type Pair = (Blob, Blob)

  datatype Message = Message(
    author: Blob, recipient: Blob, content: Blob, nonce: Blob, timestamp: int, read: bool)
  type Table = map<Cid, Message>

  datatype QueryRow = QueryRow(
    peerA: Blob, peerB: Blob, timestamp: int, author: Blob, content: Blob, nonce: Blob, unread: nat)
  datatype Summary = Summary(
    peer: Blob, lastTimestamp: int, lastAuthor: Blob, content: Blob, nonce: Blob, unread: nat)

  // ---------------------------------------------------------------- key order

  /** Byte-wise comparison of blobs; a proper prefix is smaller. */
  predicate Less(a: Blob, b: Blob) {
    if b == [] then false
    else if a == [] then true
    else a[0] < b[0] || (a[0] == b[0] && Less(a[1..], b[1..]))
  }

  lemma {:induction false} LessIrreflexive(a: Blob)
    ensures !Less(a, a)
  {
    if a != [] {
      LessIrreflexive(a[1..]);
    }
  }

  lemma {:induction false} LessTotal(a: Blob, b: Blob)
    ensures a == b || Less(a, b) || Less(b, a)
    ensures !(Less(a, b) && Less(b, a)) && !Less(a, a)
  {
    LessIrreflexive(a);
    if a != [] && b != [] {
      LessTotal(a[1..], b[1..]);
      assert a == [a[0]] + a[1..] && b == [b[0]] + b[1..];
    }
  }

  /** The normalised pair of two keys, as the CASE expressions of the query compute it. */
  function Norm(x: Blob, y: Blob): Pair {
    (if Less(x, y) then x else y, if Less(y, x) then x else y)
  }

  lemma {:induction false} NormForms(x: Blob, y: Blob)
    ensures Norm(x, y) == Norm(y, x)
    ensures Norm(x, y) == (x, y) || Norm(x, y) == (y, x)
  {
    hide Less;
    LessTotal(x, y);
    LessTotal(y, x);
  }

  // ---------------------------------------------------------------- messages of one user

  predicate Involves(m: Message, own: Blob) {
    m.author == own || m.recipient == own
  }

  function PairOf(m: Message): Pair {
    Norm(m.author, m.recipient)
  }

  /** The other party; a message to oneself has oneself as the other party. */
  function PeerOf(m: Message, own: Blob): Blob {
    if m.author == own then m.recipient else m.author
  }

  /** The row loop's choice between the two keys of a pair. */
  function Recover(p: Pair, own: Blob): Blob {
    if p.0 == own then p.1 else p.0
  }

  /** For one user's messages, normalised pairs and other parties are in bijection. */
  lemma {:induction false} PairIsPeer(m: Message, own: Blob)
    requires Involves(m, own)
    ensures PairOf(m) == Norm(own, PeerOf(m, own))
    ensures Recover(PairOf(m), own) == PeerOf(m, own)
  {
    hide Norm;
    NormForms(m.author, m.recipient);
    NormForms(own, PeerOf(m, own));
  }

  lemma {:induction false} SamePairSamePeer(m: Message, n: Message, own: Blob)
    requires Involves(m, own) && Involves(n, own)
    ensures PairOf(m) == PairOf(n) <==> PeerOf(m, own) == PeerOf(n, own)
  {
    hide Norm;
    PairIsPeer(m, own);
    PairIsPeer(n, own);
  }

  // ---------------------------------------------------------------- meaning of the query

  function Unread(t: Table, own: Blob, p: Pair): set<Cid> {
    set c | c in t && Involves(t[c], own) && PairOf(t[c]) == p && !t[c].read && t[c].recipient == own
  }

  /** Rank one: no message of the same partition is later. */
  predicate Newest(t: Table, own: Blob, c: Cid) {
    && c in t && Involves(t[c], own)
    && forall d :: d in t && Involves(t[d], own) && PairOf(t[d]) == PairOf(t[c]) ==> t[d].timestamp <= t[c].timestamp
  }

  function RowFor(t: Table, own: Blob, c: Cid): QueryRow
    requires c in t
  {
    var m := t[c];
    QueryRow(PairOf(m).0, PairOf(m).1, m.timestamp, m.author, m.content, m.nonce, |Unread(t, own, PairOf(m))|)
  }

  ghost predicate Represented(t: Table, chosen: seq<Cid>, p: Pair) {
    exists i :: 0 <= i < |chosen| && chosen[i] in t && PairOf(t[chosen[i]]) == p
  }

  /** `chosen` holds one rank-one message of each partition. */
  ghost predicate Ranked(t: Table, own: Blob, chosen: seq<Cid>) {
    && (forall i :: 0 <= i < |chosen| ==> Newest(t, own, chosen[i]))
    && (forall i, j :: 0 <= i < j < |chosen| ==> PairOf(t[chosen[i]]) != PairOf(t[chosen[j]]))
    && (forall c :: c in t && Involves(t[c], own) ==> Represented(t, chosen, PairOf(t[c])))
  }

  ghost predicate RowsFor(t: Table, own: Blob, chosen: seq<Cid>, rows: seq<QueryRow>) {
    |chosen| == |rows| && forall i :: 0 <= i < |rows| ==> chosen[i] in t && rows[i] == RowFor(t, own, chosen[i])
  }

  ghost predicate NewestFirst(rows: seq<QueryRow>) {
    forall i, j :: 0 <= i < j < |rows| ==> rows[i].timestamp >= rows[j].timestamp
  }

  /** `chosen[i]` is the message behind row `i`. */
  ghost predicate IsAnswer(t: Table, own: Blob, chosen: seq<Cid>, rows: seq<QueryRow>) {
    Ranked(t, own, chosen) && RowsFor(t, own, chosen, rows) && NewestFirst(rows)
  }

  // ---------------------------------------------------------------- the promise

  function UnreadFrom(t: Table, own: Blob, peer: Blob): set<Cid> {
    set c | c in t && Involves(t[c], own) && PeerOf(t[c], own) == peer && !t[c].read && t[c].recipient == own
  }

  /** The messages of one author that its recipient has not read. */
  function UnreadBy(t: Table, own: Blob, author: Blob): set<Cid> {
    set c | c in t && t[c].author == author && t[c].recipient == own && !t[c].read
  }

  /** The entry carries a latest message with that party and the exact unread count. */
  ghost predicate SummaryRight(t: Table, own: Blob, s: Summary, c: Cid) {
    && c in t && Involves(t[c], own) && PeerOf(t[c], own) == s.peer
    && s.lastTimestamp == t[c].timestamp && s.lastAuthor == t[c].author
    && s.content == t[c].content && s.nonce == t[c].nonce
    && (forall d :: d in t && Involves(t[d], own) && PeerOf(t[d], own) == s.peer ==> t[d].timestamp <= s.lastTimestamp)
    && s.unread == |UnreadFrom(t, own, s.peer)|
  }

  ghost predicate EntryRight(t: Table, own: Blob, s: Summary) {
    exists c :: SummaryRight(t, own, s, c)
  }

  ghost predicate HasEntry(out: seq<Summary>, peer: Blob) {
    exists i :: 0 <= i < |out| && out[i].peer == peer
  }

  /** One entry for each other party, newest first. */
  ghost predicate ListRight(t: Table, own: Blob, out: seq<Summary>) {
    && (forall i :: 0 <= i < |out| ==> EntryRight(t, own, out[i]))
    && (forall i, j :: 0 <= i < j < |out| ==> out[i].peer != out[j].peer)
    && (forall c :: c in t && Involves(t[c], own) ==> HasEntry(out, PeerOf(t[c], own)))
    && (forall i, j :: 0 <= i < j < |out| ==> out[i].lastTimestamp >= out[j].lastTimestamp)
  }

  function SummaryOf(row: QueryRow, own: Blob): Summary {
    Summary(Recover((row.peerA, row.peerB), own), row.timestamp, row.author, row.content, row.nonce, row.unread)
  }

  lemma {:induction false} SameUnread(t: Table, own: Blob, c: Cid)
    requires c in t && Involves(t[c], own)
    ensures Unread(t, own, PairOf(t[c])) == UnreadFrom(t, own, PeerOf(t[c], own))
  {
    hide PairOf, PeerOf;
    forall d | d in t && Involves(t[d], own)
      ensures PairOf(t[d]) == PairOf(t[c]) <==> PeerOf(t[d], own) == PeerOf(t[c], own)
    {
      SamePairSamePeer(t[d], t[c], own);
    }
  }

  lemma {:induction false} RowSummaryRight(t: Table, own: Blob, c: Cid)
    requires Newest(t, own, c)
    ensures SummaryRight(t, own, SummaryOf(RowFor(t, own, c), own), c)
    ensures SummaryOf(RowFor(t, own, c), own).peer == PeerOf(t[c], own)
  {
    hide PairOf, PeerOf, Unread, UnreadFrom;
    PairIsPeer(t[c], own);
    SameUnread(t, own, c);
    var p := PairOf(t[c]);
    assert (p.0, p.1) == p;
    forall d | d in t && Involves(t[d], own) && PeerOf(t[d], own) == PeerOf(t[c], own)
      ensures t[d].timestamp <= t[c].timestamp
    {
      SamePairSamePeer(t[d], t[c], own);
    }
  }

  lemma {:induction false} EntryOfRow(t: Table, own: Blob, chosen: seq<Cid>, rows: seq<QueryRow>, i: nat)
    requires IsAnswer(t, own, chosen, rows) && i < |rows|
    ensures i < |chosen| && chosen[i] in t && Involves(t[chosen[i]], own)
    ensures SummaryRight(t, own, SummaryOf(rows[i], own), chosen[i])
    ensures SummaryOf(rows[i], own).peer == PeerOf(t[chosen[i]], own)
  {
    hide PairOf, PeerOf, RowFor, SummaryRight, Involves, SummaryOf;
    RowSummaryRight(t, own, chosen[i]);
  }

  lemma {:induction false} DistinctPeers(t: Table, own: Blob, chosen: seq<Cid>, i: nat, j: nat)
    requires Ranked(t, own, chosen) && i < j < |chosen|
    ensures chosen[i] in t && chosen[j] in t && PeerOf(t[chosen[i]], own) != PeerOf(t[chosen[j]], own)
  {
    hide PairOf, PeerOf, Involves;
    SamePairSamePeer(t[chosen[i]], t[chosen[j]], own);
  }

  lemma {:induction false} PeerListed(t: Table, own: Blob, chosen: seq<Cid>, c: Cid) returns (i: nat)
    requires Ranked(t, own, chosen) && c in t && Involves(t[c], own)
    ensures i < |chosen| && chosen[i] in t && PeerOf(t[chosen[i]], own) == PeerOf(t[c], own)
  {
    hide PairOf, PeerOf, Involves;
    i :| 0 <= i < |chosen| && chosen[i] in t && PairOf(t[chosen[i]]) == PairOf(t[c]);
    SamePairSamePeer(t[chosen[i]], t[c], own);
  }

  /** Whatever answer the query gives, the row loop turns it into the promised list. */
  lemma {:induction false} AnswerGivesList(t: Table, own: Blob, chosen: seq<Cid>, rows: seq<QueryRow>, out: seq<Summary>)
    requires IsAnswer(t, own, chosen, rows)
    requires |out| == |rows| && forall i :: 0 <= i < |rows| ==> out[i] == SummaryOf(rows[i], own)
    ensures ListRight(t, own, out)
  {
    hide PairOf, PeerOf, RowFor, SummaryRight, Involves, Ranked, RowsFor, Recover;
    forall i | 0 <= i < |out| ensures EntryRight(t, own, out[i]) {
      EntryOfRow(t, own, chosen, rows, i);
    }
    forall i, j | 0 <= i < j < |out| ensures out[i].lastTimestamp >= out[j].lastTimestamp {
      assert rows[i].timestamp >= rows[j].timestamp;
    }
    forall i, j | 0 <= i < j < |out| ensures out[i].peer != out[j].peer {
      EntryOfRow(t, own, chosen, rows, i);
      EntryOfRow(t, own, chosen, rows, j);
      DistinctPeers(t, own, chosen, i, j);
    }
    forall c | c in t && Involves(t[c], own) ensures HasEntry(out, PeerOf(t[c], own)) {
      var i := PeerListed(t, own, chosen, c);
      SameLength(t, own, chosen, rows);
      EntryOfRow(t, own, chosen, rows, i);
      assert out[i].peer == PeerOf(t[c], own);
    }
  }

  lemma {:induction false} SameLength(t: Table, own: Blob, chosen: seq<Cid>, rows: seq<QueryRow>)
    requires RowsFor(t, own, chosen, rows)
    ensures |chosen| == |rows|
  {
    hide RowFor;
  }

  // ---------------------------------------------------------------- the code

  /** The row-scanning loop. */
  method ScanRows(rows: seq<QueryRow>, own: Blob) returns (out: seq<Summary>)
    ensures |out| == |rows| && forall i :: 0 <= i < |rows| ==> out[i] == SummaryOf(rows[i], own)
  {
    out := [];
    for i := 0 to |rows|
      invariant |out| == i && forall k :: 0 <= k < i ==> out[k] == SummaryOf(rows[k], own)
    {
      var row := rows[i];
      var peer := if row.peerA == own then row.peerB else row.peerA;
      out := out + [Summary(peer, row.timestamp, row.author, row.content, row.nonce, row.unread)];
    }
  }

  /** The newest message of each partition seen so far. */
  ghost predicate BestSoFar(t: Table, own: Blob, best: map<Pair, Cid>, todo: set<Cid>) {
    && (forall p :: p in best ==> best[p] in t && best[p] !in todo && Involves(t[best[p]], own) && PairOf(t[best[p]]) == p)
    && (forall c :: c in t && c !in todo && Involves(t[c], own) ==>
          PairOf(t[c]) in best && t[c].timestamp <= t[best[PairOf(t[c])]].timestamp)
  }

  /** Partitioning and ranking. */
  method Partition(t: Table, own: Blob) returns (best: map<Pair, Cid>)
    ensures BestSoFar(t, own, best, {})
  {
    hide PairOf;
    best := map[];
    var todo := t.Keys;
    while todo != {}
      invariant todo <= t.Keys && BestSoFar(t, own, best, todo)
      decreases todo
    {
      var c :| c in todo;
      todo := todo - {c};
      if Involves(t[c], own) {
        var p := PairOf(t[c]);
        if p !in best || t[best[p]].timestamp < t[c].timestamp {
          best := best[p := c];
        }
      }
    }
  }

  /** Selecting the rank-one rows, joining the unread counts, ordering. */
  method RunQuery(t: Table, own: Blob) returns (rows: seq<QueryRow>)
    ensures exists chosen :: IsAnswer(t, own, chosen, rows)
  {
    hide PairOf, Unread, BestSoFar, Ranked, RowFor, RowsFor, NewestFirst, NoDup, SortedBy;
    var best := Partition(t, own);
    var pairs := Enumerate(best.Keys);
    var picked := PickAll(t, own, best, pairs);
    var sorted := SortBy(picked, c => Lateness(t, c));
    PickedSorted(t, own, best, pairs, picked, sorted);
    RankedStored(t, own, sorted);
    rows := JoinUnread(t, own, sorted);
    SortedRows(t, own, sorted, rows);
    assert IsAnswer(t, own, sorted, rows);
  }

  function Lateness(t: Table, c: Cid): int {
    if c in t then -t[c].timestamp else 0
  }

  method JoinUnread(t: Table, own: Blob, chosen: seq<Cid>) returns (rows: seq<QueryRow>)
    requires forall c :: c in chosen ==> c in t
    ensures RowsFor(t, own, chosen, rows)
  {
    hide RowFor;
    rows := [];
    for i := 0 to |chosen|
      invariant |rows| == i && forall k :: 0 <= k < i ==> chosen[k] in t && rows[k] == RowFor(t, own, chosen[k])
    {
      assert chosen[i] in chosen;
      rows := rows + [RowFor(t, own, chosen[i])];
    }
  }

  lemma {:induction false} RankedStored(t: Table, own: Blob, chosen: seq<Cid>)
    requires Ranked(t, own, chosen)
    ensures forall c :: c in chosen ==> c in t
  {
    hide PairOf, Involves;
    forall c | c in chosen ensures c in t {
      var i :| 0 <= i < |chosen| && chosen[i] == c;
      assert Newest(t, own, chosen[i]);
    }
  }

  lemma {:induction false} SortedRows(t: Table, own: Blob, chosen: seq<Cid>, rows: seq<QueryRow>)
    requires RowsFor(t, own, chosen, rows) && SortedBy(chosen, c => Lateness(t, c))
    ensures NewestFirst(rows)
  {
    hide PairOf, Unread;
    var key := c => Lateness(t, c);
    forall i, j | 0 <= i < j < |rows| ensures rows[i].timestamp >= rows[j].timestamp {
      assert key(chosen[i]) <= key(chosen[j]);
    }
  }

  method PickAll(t: Table, own: Blob, best: map<Pair, Cid>, pairs: seq<Pair>) returns (picked: seq<Cid>)
    requires BestSoFar(t, own, best, {}) && forall p :: p in pairs ==> p in best
    ensures |picked| == |pairs| && forall i :: 0 <= i < |pairs| ==> picked[i] == best[pairs[i]]
  {
    hide BestSoFar;
    picked := [];
    for i := 0 to |pairs|
      invariant |picked| == i && forall k :: 0 <= k < i ==> picked[k] == best[pairs[k]]
    {
      picked := picked + [best[pairs[i]]];
    }
  }

  /** The ranked messages, in any order, are one newest message for each partition. */
  lemma {:induction false} PickedSorted(
    t: Table, own: Blob, best: map<Pair, Cid>, pairs: seq<Pair>, picked: seq<Cid>, sorted: seq<Cid>)
    requires BestSoFar(t, own, best, {}) && NoDup(pairs) && (forall p :: p in pairs <==> p in best)
    requires |picked| == |pairs| && forall i :: 0 <= i < |pairs| ==> picked[i] == best[pairs[i]]
    requires multiset(sorted) == multiset(picked)
    ensures Ranked(t, own, sorted)
  {
    hide PairOf, Involves;
    forall i | 0 <= i < |picked| ensures picked[i] in t && PairOf(t[picked[i]]) == pairs[i] {
      assert pairs[i] in best;
    }
    assert NoDup(picked);
    PermutedNoDup(picked, sorted);
    forall i | 0 <= i < |sorted| ensures exists k :: 0 <= k < |picked| && picked[k] == sorted[i] {
      assert sorted[i] in sorted;
    }
    forall i | 0 <= i < |sorted| ensures Newest(t, own, sorted[i]) {
      var k :| 0 <= k < |picked| && picked[k] == sorted[i];
      assert pairs[k] in best;
    }
    forall i, j | 0 <= i < j < |sorted| ensures PairOf(t[sorted[i]]) != PairOf(t[sorted[j]]) {
      var k :| 0 <= k < |picked| && picked[k] == sorted[i];
      var l :| 0 <= l < |picked| && picked[l] == sorted[j];
      assert k != l;
    }
    forall c | c in t && Involves(t[c], own) ensures Represented(t, sorted, PairOf(t[c])) {
      var p := PairOf(t[c]);
      assert p in pairs;
      var k :| 0 <= k < |pairs| && pairs[k] == p;
      assert picked[k] in picked;
      assert picked[k] in sorted;
      var i :| 0 <= i < |sorted| && sorted[i] == picked[k];
    }
  }

  /** The list in terms of the messages: an entry for the other end of each, and the unread ones counted by author. */
  lemma {:induction false} ListMeaning(t: Table, own: Blob, out: seq<Summary>)
    requires ListRight(t, own, out)
    ensures forall c :: c in t && t[c].author == own ==> HasEntry(out, t[c].recipient)
    ensures forall c :: c in t && t[c].recipient == own ==> HasEntry(out, t[c].author)
    ensures forall i :: 0 <= i < |out| ==> out[i].unread == |UnreadBy(t, own, out[i].peer)|
  {
    hide HasEntry;
    forall i | 0 <= i < |out| ensures out[i].unread == |UnreadBy(t, own, out[i].peer)| {
      assert EntryRight(t, own, out[i]);
      assert UnreadFrom(t, own, out[i].peer) == UnreadBy(t, own, out[i].peer);
    }
  }

  method GetConversations(t: Table, own: Blob) returns (out: seq<Summary>)
    ensures ListRight(t, own, out)
    ensures forall c :: c in t && t[c].author == own ==> HasEntry(out, t[c].recipient)
    ensures forall c :: c in t && t[c].recipient == own ==> HasEntry(out, t[c].author)
    ensures forall i :: 0 <= i < |out| ==> out[i].unread == |UnreadBy(t, own, out[i].peer)|
  {
    hide ListRight, IsAnswer, HasEntry, UnreadBy;
    var rows := RunQuery(t, own);
    out := ScanRows(rows, own);
    ghost var chosen :| IsAnswer(t, own, chosen, rows);
    AnswerGivesList(t, own, chosen, rows, out);
    ListMeaning(t, own, out);
  }
}
