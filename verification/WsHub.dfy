/**
  The WebSocket hub of `pkg/api/ws.go`: slot reservation, registration, broadcasting and shutdown.

  `hub.mu` is a reader-writer lock. A section under the write lock is one step and is possible only while
  no broadcast reads; a broadcast holds the read lock over many steps, one per client it sends to, so
  broadcasts interleave with each other. A run is any interleaving of any number of connection handlers,
  broadcasts, reader exits and shutdowns.
 */
module WsHub {

  type Client = nat
  type Handler = nat
  type Broadcast = nat

  /** Capacity of a client's send channel. */
  const BUFFER: nat := 256

  /** A send channel: queued messages and how often it was closed. */
  datatype Channel = Channel(queued: nat, closes: nat)

  /** A broadcast under the read lock. */
  datatype Reading = Reading(all: set<Client>, todo: set<Client>, sent: set<Client>, stale: set<Client>)

  datatype Hub = Hub(
    clients: set<Client>,
    pending: int,
    holders: set<Handler>,              // handlers between reservation and registration or release
    channels: map<Client, Channel>,     // the channel of every client ever registered
    readers: map<Broadcast, Reading>,
    reapers: map<Broadcast, set<Client>>, // second halves of broadcasts that found stale clients
    panics: nat)                        // sends on a closed channel

  datatype Step =
    | Reserve(h: Handler)
    | UpgradeFails(h: Handler)
    | Register(h: Handler, c: Client)
    | StartBroadcast(b: Broadcast)
    | Send(b: Broadcast, c: Client)
    | EndRead(b: Broadcast)
    | Reap(b: Broadcast)
    | ReaderExit(c: Client)
    | Close
    | Drain(c: Client)

  predicate WriteLockFree(s: Hub) {
    s.readers == map[]
  }

  predicate Enabled(s: Hub, step: Step) {
    match step
    case Reserve(h) => WriteLockFree(s) && h !in s.holders
    case UpgradeFails(h) => WriteLockFree(s) && h in s.holders
    case Register(h, c) => WriteLockFree(s) && h in s.holders && c !in s.channels
    case StartBroadcast(b) => b !in s.readers && b !in s.reapers
    case Send(b, c) => b in s.readers && c in s.readers[b].todo && c in s.channels
    case EndRead(b) => b in s.readers && s.readers[b].todo == {}
    case Reap(b) => WriteLockFree(s) && b in s.reapers
    case ReaderExit(c) => WriteLockFree(s)
    case Close => WriteLockFree(s)
    case Drain(c) => c in s.channels && s.channels[c].queued > 0
  }

  function CloseAll(channels: map<Client, Channel>, which: set<Client>): map<Client, Channel> {
    map c | c in channels :: if c in which then channels[c].(closes := channels[c].closes + 1) else channels[c]
  }

  function Sent(s: Hub, b: Broadcast, c: Client): Hub
    requires b in s.readers && c in s.channels
  {
    var r := s.readers[b].(todo := s.readers[b].todo - {c});
    var ch := s.channels[c];
    if ch.closes > 0 then s.(panics := s.panics + 1)
    else if ch.queued < BUFFER then
      s.(readers := s.readers[b := r.(sent := r.sent + {c})], channels := s.channels[c := ch.(queued := ch.queued + 1)])
    else s.(readers := s.readers[b := r.(stale := r.stale + {c})])
  }

  function Next(s: Hub, step: Step, max: nat): Hub
    requires Enabled(s, step)
  {
    match step
    case Reserve(h) =>
      if |s.clients| + s.pending >= max then s
      else s.(pending := s.pending + 1, holders := s.holders + {h})
    case UpgradeFails(h) =>
      s.(pending := if s.pending > 0 then s.pending - 1 else s.pending, holders := s.holders - {h})
    case Register(h, c) =>
      s.(pending := s.pending - 1, holders := s.holders - {h}, clients := s.clients + {c},
         channels := s.channels[c := Channel(0, 0)])
    case StartBroadcast(b) => s.(readers := s.readers[b := Reading(s.clients, s.clients, {}, {})])
    case Send(b, c) => Sent(s, b, c)
    case EndRead(b) =>
      var stale := s.readers[b].stale;
      s.(readers := s.readers - {b}, reapers := if stale == {} then s.reapers else s.reapers[b := stale])
    case Reap(b) =>
      var victims := s.reapers[b] * s.clients;
      s.(reapers := s.reapers - {b}, clients := s.clients - victims, channels := CloseAll(s.channels, victims))
    case ReaderExit(c) => s.(clients := s.clients - {c})
    case Close => s.(clients := {}, channels := CloseAll(s.channels, s.clients))
    case Drain(c) => s.(channels := s.channels[c := s.channels[c].(queued := s.channels[c].queued - 1)])
  }

  const INITIAL := Hub({}, 0, {}, map[], map[], map[], 0)

  /** A step that is not enabled does not happen. */
  function Run(steps: seq<Step>, max: nat): Hub {
    if steps == [] then INITIAL
    else
      var s := Run(steps[..|steps| - 1], max);
      var step := steps[|steps| - 1];
      if Enabled(s, step) then Next(s, step, max) else s
  }

  // ---------------------------------------------------------------- the code of the steps

  /** The hub's fields, with the parts of `Hub` that only the other goroutines know as ghost fields. */
  class WSHub {
    const maxClients: nat
    var clients: set<Client>
    var pending: int
    var channels: map<Client, Channel>
    ghost var holders: set<Handler>
    ghost var readers: map<Broadcast, Reading>
    ghost var reapers: map<Broadcast, set<Client>>
    ghost var panics: nat

    ghost function State(): Hub
      reads this
    {
      Hub(clients, pending, holders, channels, readers, reapers, panics)
    }

    constructor (max: nat)
      ensures State() == INITIAL && maxClients == max
    {
      maxClients := max;
      clients, pending, channels := {}, 0, map[];
      holders, readers, reapers, panics := {}, map[], map[], 0;
    }

    method ReserveSlot(ghost h: Handler) returns (ok: bool)
      requires Enabled(State(), Reserve(h))
      modifies this
      ensures State() == Next(old(State()), Reserve(h), maxClients)
      ensures ok <==> h in holders
      ensures ok <==> |old(clients)| + old(pending) < maxClients
      ensures pending == old(pending) + (if ok then 1 else 0) && clients == old(clients) && channels == old(channels)
    {
      if |clients| + pending >= maxClients {
        return false;
      }
      pending := pending + 1;
      holders := holders + {h};
      return true;
    }

    method ReleasePendingSlot(ghost h: Handler)
      requires Enabled(State(), UpgradeFails(h))
      modifies this
      ensures State() == Next(old(State()), UpgradeFails(h), maxClients)
      ensures pending == (if old(pending) > 0 then old(pending) - 1 else old(pending)) && h !in holders
    {
      if pending > 0 {
        pending := pending - 1;
      }
      holders := holders - {h};
    }

    /** The registration at the end of `HandleWebSocket`. */
    method RegisterClient(ghost h: Handler, client: Client)
      requires Enabled(State(), Register(h, client))
      modifies this
      ensures State() == Next(old(State()), Register(h, client), maxClients)
      ensures clients == old(clients) + {client} && pending == old(pending) - 1 && h !in holders
      ensures channels == old(channels)[client := Channel(0, 0)]
    {
      pending := pending - 1;
      channels := channels[client := Channel(0, 0)];
      clients := clients + {client};
      holders := holders - {h};
    }

    /** One turn of the broadcast loop: a send that does not block. */
    method SendOrMarkStale(ghost b: Broadcast, client: Client) returns (stale: bool)
      requires Enabled(State(), Send(b, client)) && ChannelInv(State()) && ReaderInv(State())
      modifies this
      ensures State() == Next(old(State()), Send(b, client), maxClients)
      ensures stale <==> old(channels)[client].queued >= 256
      ensures b in readers && client in (if stale then readers[b].stale else readers[b].sent) && client !in readers[b].todo
      ensures channels == if stale then old(channels)
                          else old(channels)[client := Channel(old(channels)[client].queued + 1, 0)]
    {
      assert ReadingRight(readers[b], clients);
      var channel := channels[client];
      ghost var reading := readers[b].(todo := readers[b].todo - {client});
      stale := channel.queued >= BUFFER;
      if stale {
        readers := readers[b := reading.(stale := reading.stale + {client})];
      } else {
        channels := channels[client := channel.(queued := channel.queued + 1)];
        readers := readers[b := reading.(sent := reading.sent + {client})];
      }
    }

    method CloseChannel(client: Client)
      requires client in channels
      modifies this`channels
      ensures channels == old(channels)[client := old(channels)[client].(closes := old(channels)[client].closes + 1)]
    {
      channels := channels[client := channels[client].(closes := channels[client].closes + 1)];
    }

    /** The second half of a broadcast; the list may name clients that are no longer registered. */
    method RemoveStale(ghost b: Broadcast, stale: seq<Client>)
      requires Enabled(State(), Reap(b)) && ChannelInv(State())
      requires reapers[b] == set c | c in stale
      modifies this
      ensures State() == Next(old(State()), Reap(b), maxClients)
      ensures forall c :: c in clients <==> c in old(clients) && c !in stale
      ensures forall c :: c in old(channels) ==>
        c in channels && channels[c].closes == if c in stale && c in old(clients) then 1 else old(channels)[c].closes
    {
      ghost var before, open := clients, channels;
      for i := 0 to |stale|
        invariant clients == before - Named(stale[..i])
        invariant channels == CloseAll(open, Named(stale[..i]) * before)
        invariant before <= channels.Keys
        invariant pending == old(pending) && holders == old(holders) && panics == old(panics)
        invariant readers == old(readers) && reapers == old(reapers)
      {
        NamedSnoc(stale, i);
        if stale[i] in clients {
          CloseOneMore(open, Named(stale[..i]) * before, stale[i]);
          assert Named(stale[..i + 1]) * before == Named(stale[..i]) * before + {stale[i]};
          CloseChannel(stale[i]);
          clients := clients - {stale[i]};
        } else {
          assert Named(stale[..i + 1]) * before == Named(stale[..i]) * before;
        }
      }
      assert stale[..|stale|] == stale;
      assert Named(stale) == reapers[b];
      reapers := reapers - {b};
    }

    /** The exit of `readPump`; its channel stays open. */
    method Unregister(client: Client)
      requires Enabled(State(), ReaderExit(client))
      modifies this`clients
      ensures State() == Next(old(State()), ReaderExit(client), maxClients)
      ensures clients == old(clients) - {client} && channels == old(channels)
    {
      clients := clients - {client};
    }

    method CloseAllClients()
      requires Enabled(State(), Close) && ChannelInv(State())
      modifies this
      ensures State() == Next(old(State()), Close, maxClients)
      ensures clients == {}
      ensures forall c :: c in old(channels) ==>
        c in channels && channels[c].closes == if c in old(clients) then 1 else old(channels)[c].closes
    {
      ghost var before, open := clients, channels;
      while clients != {}
        invariant clients <= before <= channels.Keys
        invariant channels == CloseAll(open, before - clients)
        invariant pending == old(pending) && holders == old(holders) && panics == old(panics)
        invariant readers == old(readers) && reapers == old(reapers)
        decreases clients
      {
        var client :| client in clients;
        CloseOneMore(open, before - clients, client);
        assert before - (clients - {client}) == before - clients + {client};
        CloseChannel(client);
        clients := clients - {client};
      }
    }
  }

  function Named(s: seq<Client>): set<Client> {
    set c | c in s
  }

  lemma {:induction false} NamedSnoc(s: seq<Client>, i: nat)
    requires i < |s|
    ensures Named(s[..i + 1]) == Named(s[..i]) + {s[i]}
  {
    assert s[..i + 1] == s[..i] + [s[i]];
  }

  lemma {:induction false} CloseOneMore(channels: map<Client, Channel>, which: set<Client>, c: Client)
    requires c in channels && c !in which
    ensures var m := CloseAll(channels, which);
            CloseAll(channels, which + {c}) == m[c := m[c].(closes := m[c].closes + 1)]
  {
  }

  // ---------------------------------------------------------------- invariants

  ghost predicate SlotInv(s: Hub, max: nat) {
    s.pending == |s.holders| && |s.clients| + s.pending <= max
  }

  /** Registered clients have open channels; no channel is closed twice or overfull. */
  ghost predicate ChannelInv(s: Hub) {
    && (forall c :: c in s.clients ==> c in s.channels && s.channels[c].closes == 0)
    && (forall c :: c in s.channels ==> s.channels[c].closes <= 1 && s.channels[c].queued <= BUFFER)
  }

  /** A reading broadcast accounts for each client that was registered when it took the lock. */
  ghost predicate ReadingRight(r: Reading, clients: set<Client>) {
    && r.all == clients && r.all == r.todo + r.sent + r.stale
    && r.todo !! r.sent && r.todo !! r.stale && r.sent !! r.stale
  }

  ghost predicate ReaderInv(s: Hub) {
    forall b :: b in s.readers ==> ReadingRight(s.readers[b], s.clients)
  }

  ghost predicate Inv(s: Hub, max: nat) {
    SlotInv(s, max) && ChannelInv(s) && ReaderInv(s) && s.panics == 0
  }

  lemma {:induction false} RemovedSize(s: set<Client>, t: set<Client>)
    ensures |s - t| <= |s|
    decreases s
  {
    if s != {} {
      var x :| x in s;
      RemovedSize(s - {x}, t);
      if x in t {
        assert s - t == (s - {x}) - t;
      } else {
        assert s - t == ((s - {x}) - t) + {x};
      }
    }
  }

  lemma {:induction false} HolderSizes(holders: set<Handler>, h: Handler)
    ensures h !in holders ==> |holders + {h}| == |holders| + 1
    ensures h in holders ==> |holders - {h}| == |holders| - 1 && |holders| > 0
  {
  }

  lemma {:induction false} SentRest(s: Hub, b: Broadcast, c: Client)
    requires b in s.readers && c in s.channels
    ensures var t := Sent(s, b, c); t.clients == s.clients && t.pending == s.pending && t.holders == s.holders
  {
  }

  lemma {:induction false} ClientIsNew(s: Hub, c: Client)
    requires ChannelInv(s) && c !in s.channels
    ensures c !in s.clients
  {
  }

  lemma {:induction false} StepKeepsSlots(s: Hub, step: Step, max: nat)
    requires Enabled(s, step) && SlotInv(s, max) && ChannelInv(s)
    ensures SlotInv(Next(s, step, max), max)
  {
    hide CloseAll, Sent, ChannelInv;
    match step
    case Reserve(h) => HolderSizes(s.holders, h);
    case UpgradeFails(h) => HolderSizes(s.holders, h);
    case Register(h, c) => HolderSizes(s.holders, h); ClientIsNew(s, c); HolderSizes(s.clients, c);
    case Send(b, c) => SentRest(s, b, c);
    case Reap(b) => RemovedSize(s.clients, s.reapers[b] * s.clients);
    case ReaderExit(c) => RemovedSize(s.clients, {c});
    case _ =>
  }

  lemma {:induction false} StepKeepsChannels(s: Hub, step: Step, max: nat)
    requires Enabled(s, step) && ChannelInv(s)
    ensures ChannelInv(Next(s, step, max))
  {
  }

  lemma {:induction false} StepKeepsReaders(s: Hub, step: Step, max: nat)
    requires Enabled(s, step) && ReaderInv(s) && ChannelInv(s)
    ensures ReaderInv(Next(s, step, max))
    ensures Next(s, step, max).panics == s.panics
  {
    match step
    case Send(b, c) =>
      assert ReadingRight(s.readers[b], s.clients);
      assert c in s.clients;
    case _ =>
  }

  lemma {:induction false} InvHolds(steps: seq<Step>, max: nat)
    ensures Inv(Run(steps, max), max)
    decreases |steps|
  {
    hide SlotInv, ChannelInv, ReaderInv, Next, Enabled;
    if steps == [] {
      InitialInv(max);
    } else {
      var s, step := Run(steps[..|steps| - 1], max), steps[|steps| - 1];
      InvHolds(steps[..|steps| - 1], max);
      if Enabled(s, step) {
        StepKeepsSlots(s, step, max);
        StepKeepsChannels(s, step, max);
        StepKeepsReaders(s, step, max);
      }
    }
  }

  lemma {:induction false} InitialInv(max: nat)
    ensures Inv(INITIAL, max)
  {
  }

  // ---------------------------------------------------------------- theorems

  /** Clients and reservations never exceed the limit, and every reservation is accounted for. */
  lemma {:induction false} SlotsBounded(steps: seq<Step>, max: nat)
    ensures var s := Run(steps, max); |s.clients| + s.pending <= max && s.pending == |s.holders|
  {
    hide Run;
    InvHolds(steps, max);
  }

  /** No channel is closed twice, nothing is sent on a closed channel, and registered clients are open. */
  lemma {:induction false} ChannelsSafe(steps: seq<Step>, max: nat)
    ensures var s := Run(steps, max);
            && s.panics == 0
            && (forall c :: c in s.channels ==> s.channels[c].closes <= 1 && s.channels[c].queued <= 256)
            && (forall c :: c in s.clients ==> c in s.channels && s.channels[c].closes == 0)
  {
    hide Run;
    InvHolds(steps, max);
  }

  /** When a broadcast releases the read lock, each registered client was sent to once or is stale. */
  lemma {:induction false} BroadcastReachesAll(steps: seq<Step>, max: nat, b: Broadcast)
    requires b in Run(steps, max).readers && Run(steps, max).readers[b].todo == {}
    ensures var s := Run(steps, max);
            var r := s.readers[b];
            s.clients == r.sent + r.stale && r.sent !! r.stale
  {
    hide Run;
    InvHolds(steps, max);
    assert ReadingRight(Run(steps, max).readers[b], Run(steps, max).clients);
  }

  /**
    A handler that asks for a slot below the limit gets one and can register; its client is then among those a broadcast
    sends to, and each of them can be sent to until it is sent to or stale.
   */
  lemma {:induction false} RegisteredReceives(s: Hub, h: Handler, c: Client, b: Broadcast, max: nat)
    requires Inv(s, max) && WriteLockFree(s) && h !in s.holders && c !in s.channels && b !in s.reapers
    requires |s.clients| + s.pending < max
    ensures Enabled(s, Reserve(h))
    ensures var s1 := Next(s, Reserve(h), max); Enabled(s1, Register(h, c))
    ensures var s2 := Next(Next(s, Reserve(h), max), Register(h, c), max);
            && c in s2.clients && s2.clients == s.clients + {c} && s2.pending == s.pending
            && Enabled(s2, StartBroadcast(b))
    ensures var s3 := Next(Next(Next(s, Reserve(h), max), Register(h, c), max), StartBroadcast(b), max);
            b in s3.readers && c in s3.readers[b].todo && Enabled(s3, Send(b, c))
  {
  }

  /** A client that a finished broadcast found stale is gone, with its channel closed, after the second half. */
  lemma {:induction false} StaleGoes(s: Hub, b: Broadcast, c: Client, max: nat)
    requires Inv(s, max) && b in s.readers && s.readers[b].todo == {} && c in s.readers[b].stale && s.readers.Keys == {b}
    ensures Enabled(s, EndRead(b)) && Enabled(Next(s, EndRead(b), max), Reap(b))
    ensures var t := Next(Next(s, EndRead(b), max), Reap(b), max);
            c !in t.clients && c in t.channels && t.channels[c].closes == 1
  {
    assert ReadingRight(s.readers[b], s.clients);
    assert (s.readers - {b}).Keys == {};
  }

  /** A writer takes one message off its queue and makes room for another. */
  lemma {:induction false} DrainMakesRoom(s: Hub, c: Client, max: nat)
    requires Inv(s, max) && c in s.channels
    ensures Enabled(s, Drain(c)) <==> s.channels[c].queued > 0
    ensures Enabled(s, Drain(c)) ==>
      Next(s, Drain(c), max).channels == s.channels[c := Channel(s.channels[c].queued - 1, s.channels[c].closes)]
  {
  }
}
