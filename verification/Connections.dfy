/**
 Connection slots: the counter `pending_connects_` against the state of the nodes' connections
 (spns/hive/snode.cpp, and `allow_connect`, `finished_connect`, `make_conns` of spns/hivemind.cpp).

 `links` are the connections whose disconnect callback has not fired yet, whether or not a node
 still points to them: a local `disconnect` drops the pointer and leaves the callback to come.
 */
module Connections {
  import opened Common

  /** Seconds of steady clock. */
  const RECONNECT_WAIT: int := 1
  const CONNECT_COOLDOWN: seq<int> := [10, 30, 60, 120]

  datatype Peer = Peer(conn: Option<nat>, connected: bool, cooldownUntil: Option<int>, fails: nat)

  datatype Link = Link(owner: Key, established: bool)

  /** `up` is `has_quic_out()`. */
  datatype Pool = Pool(pending: int, max: int, up: bool, peers: map<Key, Peer>, links: map<nat, Link>, nextId: nat)

  // ----- the operations -----

  /** `SNode::connect()`, including `allow_connect`. */
  function Connect(p: Pool, k: Key, now: int): Pool
    requires k in p.peers
  {
    var n := p.peers[k];
    if n.conn.Some? || (n.cooldownUntil.Some? && n.cooldownUntil.value > now) then p
    else
      var p1 := p.(peers := p.peers[k := n.(cooldownUntil := None)]);
      if !p.up || p.pending + 1 > p.max then p1
      else
        Pool(p.pending + 1, p.max, p.up, p.peers[k := n.(cooldownUntil := None, conn := Some(p.nextId))],
             p.links[p.nextId := Link(k, false)], p.nextId + 1)
  }

  /** `make_conns` over the nodes in container order. */
  function ConnectAll(p: Pool, order: seq<Key>, now: int): (r: Pool)
    requires forall k :: k in order ==> k in p.peers
    ensures r.peers.Keys == p.peers.Keys
    decreases |order|
  {
    if order == [] || p.pending >= p.max then p
    else ConnectAll(Connect(p, order[0], now), order[1..], now)
  }

  /** `finished_connect`: the counter is read before it is decremented. */
  function FinishedConnect(p: Pool, order: seq<Key>, now: int): Pool
    requires forall k :: k in order ==> k in p.peers
  {
    var p1 := p.(pending := p.pending - 1);
    if p.pending < p.max then ConnectAll(p1, order, now) else p1
  }

  /** A new node object, which connects at once. */
  function AddPeer(p: Pool, k: Key, now: int): Pool
    requires k !in p.peers
  {
    Connect(p.(peers := p.peers[k := Peer(None, false, None, 0)]), k, now)
  }

  /** The node's side of a connect callback; it does not check which connection came up. */
  function CameUp(p: Pool, id: nat): Pool
    requires id in p.links && p.links[id].owner in p.peers
  {
    var k := p.links[id].owner;
    var n := p.peers[k].(fails := 0, cooldownUntil := None);
    p.(links := p.links[id := Link(k, true)], peers := p.peers[k := if n.conn.None? then n else n.(connected := true)])
  }

  function OnConnected(p: Pool, id: nat, order: seq<Key>, now: int): Pool
    requires id in p.links && p.links[id].owner in p.peers && forall k :: k in order ==> k in p.peers
  {
    FinishedConnect(CameUp(p, id), order, now)
  }

  function Cooldown(fails: nat): int {
    if fails >= |CONNECT_COOLDOWN| then CONNECT_COOLDOWN[|CONNECT_COOLDOWN| - 1] else CONNECT_COOLDOWN[fails]
  }

  /** The node after a disconnect callback: the next attempt waits. */
  function Ended(n: Peer, up: bool, now: int): Peer {
    var n1 := if !up then n
              else if !n.connected then n.(cooldownUntil := Some(now + Cooldown(n.fails)), fails := n.fails + 1)
              else n.(cooldownUntil := Some(now + RECONNECT_WAIT), fails := 0);
    n1.(conn := None, connected := false)
  }

  function WentDown(p: Pool, id: nat, now: int): Pool
    requires id in p.links && p.links[id].owner in p.peers
  {
    var k := p.links[id].owner;
    p.(links := p.links - {id}, peers := p.peers[k := Ended(p.peers[k], p.up, now)])
  }

  /** The callback for a connection that ended or never came up: `connected_` decides which. */
  function OnDisconnected(p: Pool, id: nat, order: seq<Key>, now: int): Pool
    requires id in p.links && p.links[id].owner in p.peers && forall k :: k in order ==> k in p.peers
  {
    if p.up && !p.peers[p.links[id].owner].connected then FinishedConnect(WentDown(p, id, now), order, now)
    else WentDown(p, id, now)
  }

  /** A local `disconnect`, as on an address change. */
  function Disconnect(p: Pool, k: Key): Pool
    requires k in p.peers
  {
    p.(peers := p.peers[k := p.peers[k].(conn := None, connected := false)])
  }

  // ----- when an attempt is made -----

  /** Connecting is tried exactly when there is no connection, no cooldown, an endpoint and a free slot. */
  lemma ConnectIff(p: Pool, k: Key, now: int)
    requires k in p.peers
    ensures var n, p' := p.peers[k], Connect(p, k, now);
            var tries := && n.conn.None? && (n.cooldownUntil.None? || n.cooldownUntil.value <= now) && p.up && p.pending < p.max;
            && k in p'.peers && (p'.peers[k].conn.Some? <==> n.conn.Some? || tries)
            && p'.pending == (if tries then p.pending + 1 else p.pending)
            && p'.links.Keys == if tries then p.links.Keys + {p.nextId} else p.links.Keys
  {
  }

  ghost predicate Busy(n: Peer, now: int) {
    n.conn.Some? || (n.cooldownUntil.Some? && n.cooldownUntil.value > now)
  }

  lemma ConnectKeepsBusy(p: Pool, k: Key, now: int, j: Key)
    requires k in p.peers && j in p.peers && Busy(p.peers[j], now)
    ensures Connect(p, k, now).up == p.up && Connect(p, k, now).max == p.max
    ensures j in Connect(p, k, now).peers && Busy(Connect(p, k, now).peers[j], now)
  {
  }

  lemma {:induction false} ConnectAllKeepsBusy(p: Pool, order: seq<Key>, now: int, j: Key)
    requires (forall k :: k in order ==> k in p.peers) && j in p.peers && Busy(p.peers[j], now)
    ensures Busy(ConnectAll(p, order, now).peers[j], now)
    decreases |order|
  {
    if order != [] && p.pending < p.max {
      ConnectKeepsBusy(p, order[0], now, j);
      ConnectAllKeepsBusy(Connect(p, order[0], now), order[1..], now, j);
    }
  }

  /** After `make_conns` the slots are used up, or every node has a connection or is cooling down. */
  lemma {:induction false} ConnectAllFills(p: Pool, order: seq<Key>, now: int, j: Key)
    requires p.up && (forall k :: k in order ==> k in p.peers) && j in order
    ensures ConnectAll(p, order, now).pending >= p.max || Busy(ConnectAll(p, order, now).peers[j], now)
    decreases |order|
  {
    if p.pending < p.max {
      var p' := Connect(p, order[0], now);
      ConnectIff(p, order[0], now);
      if j == order[0] {
        ConnectAllKeepsBusy(p', order[1..], now, j);
      } else {
        ConnectAllFills(p', order[1..], now, j);
      }
    }
  }

  /** The waits after failures in a row: 10, 30 and 60 seconds, then 120; one second after a lost connection. */
  lemma WaitAfter(n: Peer, now: int)
    ensures var n' := Ended(n, true, now);
            && n'.conn.None? && !n'.connected
            && n'.cooldownUntil == Some(now + if n.connected then 1
                                              else if n.fails == 0 then 10 else if n.fails == 1 then 30
                                              else if n.fails == 2 then 60 else 120)
            && n'.fails == if n.connected then 0 else n.fails + 1
  {
  }

  /** A finished attempt gives back its slot; others are tried unless the slots were more than used up. */
  lemma FinishedFills(p: Pool, order: seq<Key>, now: int, j: Key)
    requires p.up && (forall k :: k in order ==> k in p.peers) && j in order
    ensures p.pending >= p.max ==> FinishedConnect(p, order, now) == p.(pending := p.pending - 1)
    ensures p.pending < p.max ==>
              FinishedConnect(p, order, now).pending >= p.max || Busy(FinishedConnect(p, order, now).peers[j], now)
  {
    if p.pending < p.max {
      ConnectAllFills(p.(pending := p.pending - 1), order, now, j);
    }
  }

  /** A new node tries to connect at once. */
  lemma NewPeerTries(p: Pool, k: Key, now: int)
    requires k !in p.peers
    ensures var p' := AddPeer(p, k, now);
            && k in p'.peers && (p'.peers[k].conn.Some? <==> p.up && p.pending < p.max)
            && !p'.peers[k].connected && p'.peers[k].fails == 0
  {
  }

  /** A connection that came up ends the run of failures, and marks the node unless it has let go of its connections. */
  lemma CameUpResets(p: Pool, id: nat)
    requires id in p.links && p.links[id].owner in p.peers
    ensures var n, n' := p.peers[p.links[id].owner], CameUp(p, id).peers[p.links[id].owner];
            && n'.fails == 0 && n'.cooldownUntil.None? && n'.conn == n.conn
            && n'.connected == (n.connected || n.conn.Some?)
  {
  }

  // ----- counting -----

  /** Connection attempts that are still undecided. */
  function Undecided(links: map<nat, Link>): set<nat> {
    set id | id in links && !links[id].established
  }

  /** Nodes with a connection that is not connected. */
  function Trying(peers: map<Key, Peer>): set<Key> {
    set k | k in peers && peers[k].conn.Some? && !peers[k].connected
  }

  /** How far the counter is from the undecided attempts. */
  function Drift(p: Pool): int {
    p.pending - |Undecided(p.links)|
  }

  ghost predicate Wired(p: Pool) {
    forall id :: id in p.links ==> id < p.nextId && p.links[id].owner in p.peers
  }

  /** The counter never exceeds the configured maximum. */
  ghost predicate Bounded(p: Pool) {
    p.pending <= p.max
  }

  lemma OneMoreUndecided(links: map<nat, Link>, id: nat, k: Key)
    requires id !in links
    ensures |Undecided(links[id := Link(k, false)])| == |Undecided(links)| + 1
  {
    assert Undecided(links[id := Link(k, false)]) == Undecided(links) + {id};
  }

  lemma ConnectKeepsDrift(p: Pool, k: Key, now: int)
    requires Wired(p) && k in p.peers
    ensures Wired(Connect(p, k, now)) && Drift(Connect(p, k, now)) == Drift(p)
    ensures Bounded(p) ==> Bounded(Connect(p, k, now))
  {
    if p.nextId !in p.links {
      OneMoreUndecided(p.links, p.nextId, k);
    }
  }

  lemma {:induction false} ConnectAllKeepsDrift(p: Pool, order: seq<Key>, now: int)
    requires Wired(p) && forall k :: k in order ==> k in p.peers
    ensures Wired(ConnectAll(p, order, now)) && Drift(ConnectAll(p, order, now)) == Drift(p)
    ensures Bounded(p) ==> Bounded(ConnectAll(p, order, now))
    decreases |order|
  {
    if order != [] && p.pending < p.max {
      ConnectKeepsDrift(p, order[0], now);
      ConnectAllKeepsDrift(Connect(p, order[0], now), order[1..], now);
    }
  }

  lemma FinishedDrift(p: Pool, order: seq<Key>, now: int)
    requires Wired(p) && forall k :: k in order ==> k in p.peers
    ensures Wired(FinishedConnect(p, order, now)) && Drift(FinishedConnect(p, order, now)) == Drift(p) - 1
    ensures Bounded(p) ==> Bounded(FinishedConnect(p, order, now))
  {
    if p.pending < p.max {
      ConnectAllKeepsDrift(p.(pending := p.pending - 1), order, now);
    }
  }

  /** A connect callback settles exactly one undecided attempt. */
  lemma ConnectedKeepsDrift(p: Pool, id: nat, order: seq<Key>, now: int)
    requires Wired(p) && id in p.links && !p.links[id].established && forall k :: k in order ==> k in p.peers
    ensures Wired(OnConnected(p, id, order, now)) && Drift(OnConnected(p, id, order, now)) == Drift(p)
    ensures Bounded(p) ==> Bounded(OnConnected(p, id, order, now))
  {
    assert Undecided(CameUp(p, id).links) == Undecided(p.links) - {id};
    assert id in Undecided(p.links);
    FinishedDrift(CameUp(p, id), order, now);
  }

  /** A disconnect callback settles an attempt unless it had come up, and gives back a slot unless the flag is set. */
  lemma DisconnectedDrift(p: Pool, id: nat, order: seq<Key>, now: int)
    requires Wired(p) && id in p.links && forall k :: k in order ==> k in p.peers
    ensures Wired(OnDisconnected(p, id, order, now))
    ensures Bounded(p) ==> Bounded(OnDisconnected(p, id, order, now))
    ensures Drift(OnDisconnected(p, id, order, now)) == Drift(p) + (if p.links[id].established then 0 else 1)
            - (if p.up && !p.peers[p.links[id].owner].connected then 1 else 0)
  {
    var p1 := WentDown(p, id, now);
    assert Undecided(p1.links) == Undecided(p.links) - {id};
    assert p.links[id].established <==> id !in Undecided(p.links);
    if p.up && !p.peers[p.links[id].owner].connected {
      FinishedDrift(p1, order, now);
    }
  }

  /**
   A disconnect callback keeps the counter right if and only if the node's `connected_` flag says
   whether this connection had come up (while the endpoint is alive). The two differ only after a
   local disconnect: the flag then speaks of no connection, or of a later one.
   */
  lemma DisconnectedKeepsDriftIff(p: Pool, id: nat, order: seq<Key>, now: int)
    requires Wired(p) && id in p.links && forall k :: k in order ==> k in p.peers
    ensures Drift(OnDisconnected(p, id, order, now)) == Drift(p)
       <==> (p.links[id].established <==> !(p.up && !p.peers[p.links[id].owner].connected))
  {
    DisconnectedDrift(p, id, order, now);
  }

  /** Given back twice: connect, come up, disconnect locally, get the callback. */
  lemma LocalDisconnectDrifts(k: Key)
    ensures var p0 := AddPeer(Pool(0, 1, true, map[], map[], 0), k, 0);
            var p1 := OnConnected(p0, 0, [], 0);
            var p2 := OnDisconnected(Disconnect(p1, k), 0, [], 0);
            p1.pending == 0 && p2.pending == -1 && |Undecided(p2.links)| == 0
  {
    var p0 := AddPeer(Pool(0, 1, true, map[], map[], 0), k, 0);
    var p1 := OnConnected(p0, 0, [], 0);
    var p2 := OnDisconnected(Disconnect(p1, k), 0, [], 0);
    assert p2.links == map[];
    assert Undecided(p2.links) == {};
  }

  /**
   Never given back: an attempt is abandoned by a local disconnect, a second one comes up, and the
   callback of the first finds the flag set. The slot stays taken though nobody is trying.
   */
  lemma AbandonedAttemptDrifts(k: Key)
    ensures var p0 := AddPeer(Pool(0, 2, true, map[], map[], 0), k, 0);
            var p1 := Connect(Disconnect(p0, k), k, 0);
            var p2 := OnDisconnected(OnConnected(p1, 1, [], 0), 0, [], 0);
            p1.pending == 2 && p2.pending == 1 && |Undecided(p2.links)| == 0 && Drift(p2) == 1
  {
    var p0 := AddPeer(Pool(0, 2, true, map[], map[], 0), k, 0);
    var p1 := Connect(Disconnect(p0, k), k, 0);
    assert p1.links == map[0 := Link(k, false), 1 := Link(k, false)];
    var p2 := OnDisconnected(OnConnected(p1, 1, [], 0), 0, [], 0);
    assert p2.links == map[1 := Link(k, true)];
    assert Undecided(p2.links) == {};
  }

  // ----- the ledger of a run -----

  datatype Event =
    | DoAddPeer(k: Key, now: int)
    | DoConnect(k: Key, now: int)
    | DoMakeConns(order: seq<Key>, now: int)
    | DoConnected(id: nat, order: seq<Key>, now: int)
    | DoDisconnected(id: nat, order: seq<Key>, now: int)
    | DoDisconnect(k: Key)

  ghost predicate Enabled(p: Pool, e: Event) {
    match e
    case DoAddPeer(k, now) => k !in p.peers
    case DoConnect(k, now) => k in p.peers
    case DoMakeConns(order, now) => forall k :: k in order ==> k in p.peers
    case DoConnected(id, order, now) =>
      id in p.links && !p.links[id].established && p.links[id].owner in p.peers && forall k :: k in order ==> k in p.peers
    case DoDisconnected(id, order, now) =>
      id in p.links && p.links[id].owner in p.peers && forall k :: k in order ==> k in p.peers
    case DoDisconnect(k) => k in p.peers
  }

  function Step(p: Pool, e: Event): Pool
    requires Enabled(p, e)
  {
    match e
    case DoAddPeer(k, now) => AddPeer(p, k, now)
    case DoConnect(k, now) => Connect(p, k, now)
    case DoMakeConns(order, now) => ConnectAll(p, order, now)
    case DoConnected(id, order, now) => OnConnected(p, id, order, now)
    case DoDisconnected(id, order, now) => OnDisconnected(p, id, order, now)
    case DoDisconnect(k) => Disconnect(p, k)
  }

  /** The callback of an attempt that never came up, without giving back its slot. */
  predicate Loses(p: Pool, e: Event)
    requires e.DoDisconnected? ==> e.id in p.links && p.links[e.id].owner in p.peers
  {
    e.DoDisconnected? && !p.links[e.id].established && p.up && p.peers[p.links[e.id].owner].connected
  }

  /** The callback of a connection that had come up, giving back its slot once more. */
  predicate Doubles(p: Pool, e: Event)
    requires e.DoDisconnected? ==> e.id in p.links && p.links[e.id].owner in p.peers
  {
    e.DoDisconnected? && p.links[e.id].established && p.up && !p.peers[p.links[e.id].owner].connected
  }

  function Balance(p: Pool, e: Event): int
    requires e.DoDisconnected? ==> e.id in p.links && p.links[e.id].owner in p.peers
  {
    (if Loses(p, e) then 1 else 0) - if Doubles(p, e) then 1 else 0
  }

  /** What one event does to the drift, and that it respects the maximum. */
  lemma StepDrift(p: Pool, e: Event)
    requires Wired(p) && p.up && Enabled(p, e)
    ensures Wired(Step(p, e)) && (Bounded(p) ==> Bounded(Step(p, e)))
    ensures Drift(Step(p, e)) == Drift(p) + Balance(p, e)
  {
    match e
    case DoAddPeer(k, now) => ConnectKeepsDrift(p.(peers := p.peers[k := Peer(None, false, None, 0)]), k, now);
    case DoConnect(k, now) => ConnectKeepsDrift(p, k, now);
    case DoMakeConns(order, now) => ConnectAllKeepsDrift(p, order, now);
    case DoConnected(id, order, now) => ConnectedKeepsDrift(p, id, order, now);
    case DoDisconnected(id, order, now) => DisconnectedDrift(p, id, order, now);
    case DoDisconnect(k) =>
  }

  lemma {:induction false} ConnectAllKeepsMax(p: Pool, order: seq<Key>, now: int)
    requires forall k :: k in order ==> k in p.peers
    ensures ConnectAll(p, order, now).max == p.max && ConnectAll(p, order, now).up == p.up
    decreases |order|
  {
    if order != [] && p.pending < p.max {
      ConnectAllKeepsMax(Connect(p, order[0], now), order[1..], now);
    }
  }

  lemma StepKeepsMax(p: Pool, e: Event)
    requires Enabled(p, e)
    ensures Step(p, e).max == p.max && Step(p, e).up == p.up
  {
    match e
    case DoAddPeer(k, now) =>
    case DoConnect(k, now) =>
    case DoMakeConns(order, now) => ConnectAllKeepsMax(p, order, now);
    case DoConnected(id, order, now) => ConnectAllKeepsMax(CameUp(p, id).(pending := p.pending - 1), order, now);
    case DoDisconnected(id, order, now) => ConnectAllKeepsMax(WentDown(p, id, now).(pending := p.pending - 1), order, now);
    case DoDisconnect(k) =>
  }

  /** The hive comes up without nodes; then any events follow, local disconnects included. */
  ghost predicate Run(ps: seq<Pool>, es: seq<Event>) {
    && |ps| == |es| + 1
    && ps[0].pending == 0 && ps[0].up && ps[0].peers == map[] && ps[0].links == map[] && ps[0].max >= 0
    && forall i :: 0 <= i < |es| ==> Enabled(ps[i], es[i]) && ps[i + 1] == Step(ps[i], es[i])
  }

  /** The slots lost minus the slots given back twice by the first `n` events. */
  ghost function Ledger(ps: seq<Pool>, es: seq<Event>, n: nat): int
    requires Run(ps, es) && n <= |es|
  {
    if n == 0 then 0 else Ledger(ps, es, n - 1) + Balance(ps[n - 1], es[n - 1])
  }

  lemma {:induction false} RunKeepsLedger(ps: seq<Pool>, es: seq<Event>, n: nat)
    requires Run(ps, es) && n < |ps|
    ensures Wired(ps[n]) && Bounded(ps[n]) && ps[n].up && ps[n].max == ps[0].max
    ensures Drift(ps[n]) == Ledger(ps, es, n)
  {
    if n == 0 {
      assert Undecided(ps[0].links) == {};
    } else {
      RunKeepsLedger(ps, es, n - 1);
      StepDrift(ps[n - 1], es[n - 1]);
      StepKeepsMax(ps[n - 1], es[n - 1]);
    }
  }

  /**
   The ledger of every run: the counter is the number of undecided attempts, plus the slots that
   were lost, minus those that were given back twice; and it never exceeds the maximum.
   */
  lemma CounterIsLedger(ps: seq<Pool>, es: seq<Event>, n: nat)
    requires Run(ps, es) && n < |ps|
    ensures ps[n].pending == |Undecided(ps[n].links)| + Ledger(ps, es, n)
    ensures ps[n].pending <= ps[0].max
  {
    RunKeepsLedger(ps, es, n);
  }

  // ----- runs without local disconnects -----

  /** Every node points to its one connection and knows whether it came up. */
  ghost predicate Matched(peers: map<Key, Peer>, links: map<nat, Link>) {
    && (forall k :: k in peers && peers[k].conn.Some? ==>
          peers[k].conn.value in links && links[peers[k].conn.value].owner == k)
    && (forall id :: id in links ==> links[id].owner in peers && Knows(peers[links[id].owner], id, links[id]))
    && (forall k :: k in peers && peers[k].connected ==> peers[k].conn.Some?)
  }

  predicate Knows(n: Peer, id: nat, l: Link) {
    n.conn == Some(id) && n.connected == l.established
  }

  ghost predicate Faithful(p: Pool) {
    Wired(p) && p.up && Matched(p.peers, p.links)
  }

  lemma ConnectKeepsFaithful(p: Pool, k: Key, now: int)
    requires Faithful(p) && k in p.peers
    ensures Faithful(Connect(p, k, now))
  {
  }

  lemma {:induction false} ConnectAllKeepsFaithful(p: Pool, order: seq<Key>, now: int)
    requires Faithful(p) && forall k :: k in order ==> k in p.peers
    ensures Faithful(ConnectAll(p, order, now))
    decreases |order|
  {
    if order != [] && p.pending < p.max {
      ConnectKeepsFaithful(p, order[0], now);
      ConnectAllKeepsFaithful(Connect(p, order[0], now), order[1..], now);
    }
  }

  lemma FinishedKeepsFaithful(p: Pool, order: seq<Key>, now: int)
    requires Faithful(p) && forall k :: k in order ==> k in p.peers
    ensures Faithful(FinishedConnect(p, order, now))
  {
    if p.pending < p.max {
      ConnectAllKeepsFaithful(p.(pending := p.pending - 1), order, now);
    }
  }

  lemma CallbacksKeepFaithful(p: Pool, id: nat, now: int)
    requires Faithful(p) && id in p.links
    ensures Faithful(CameUp(p, id)) && Faithful(WentDown(p, id, now))
  {
  }

  lemma StepKeepsFaithful(p: Pool, e: Event)
    requires Faithful(p) && Enabled(p, e) && !e.DoDisconnect?
    ensures Faithful(Step(p, e))
  {
    match e
    case DoAddPeer(k, now) => ConnectKeepsFaithful(p.(peers := p.peers[k := Peer(None, false, None, 0)]), k, now);
    case DoConnect(k, now) => ConnectKeepsFaithful(p, k, now);
    case DoMakeConns(order, now) => ConnectAllKeepsFaithful(p, order, now);
    case DoConnected(id, order, now) =>
      CallbacksKeepFaithful(p, id, now);
      FinishedKeepsFaithful(CameUp(p, id), order, now);
    case DoDisconnected(id, order, now) =>
      CallbacksKeepFaithful(p, id, now);
      FinishedKeepsFaithful(WentDown(p, id, now), order, now);
  }

  /** Where every node knows its connection, the slot accounting balances. */
  lemma FaithfulBalances(p: Pool, e: Event)
    requires Faithful(p) && Enabled(p, e)
    ensures Balance(p, e) == 0
  {
  }

  /** The undecided attempts and the trying nodes are in bijection. */
  lemma {:induction false} SameSize(peers: map<Key, Peer>, ks: set<Key>, ids: set<nat>)
    requires forall k :: k in ks ==> k in peers && peers[k].conn.Some? && peers[k].conn.value in ids
    requires forall id :: id in ids ==> exists k :: k in ks && k in peers && peers[k].conn == Some(id)
    requires forall k, l :: k in ks && l in ks && peers[k].conn == peers[l].conn ==> k == l
    ensures |ks| == |ids|
    decreases |ks|
  {
    if ks == {} {
      assert ids == {};
    } else {
      var k :| k in ks;
      SameSize(peers, ks - {k}, ids - {peers[k].conn.value});
    }
  }

  lemma TryingAreUndecided(p: Pool)
    requires Faithful(p)
    ensures |Trying(p.peers)| == |Undecided(p.links)|
  {
    forall id | id in Undecided(p.links) ensures exists k :: k in Trying(p.peers) && p.peers[k].conn == Some(id) {
      assert p.links[id].owner in Trying(p.peers);
    }
    SameSize(p.peers, Trying(p.peers), Undecided(p.links));
  }

  lemma {:induction false} RunBalances(ps: seq<Pool>, es: seq<Event>, n: nat)
    requires Run(ps, es) && n < |ps| && forall i :: 0 <= i < n ==> !es[i].DoDisconnect?
    ensures Faithful(ps[n]) && Ledger(ps, es, n) == 0
  {
    if n > 0 {
      RunBalances(ps, es, n - 1);
      FaithfulBalances(ps[n - 1], es[n - 1]);
      StepKeepsFaithful(ps[n - 1], es[n - 1]);
    }
  }

  /**
   Slot conservation: while connections have ended only through the callbacks, the counter is the
   number of nodes that are trying to connect, between 0 and the maximum.
   */
  lemma SlotConservation(ps: seq<Pool>, es: seq<Event>, n: nat)
    requires Run(ps, es) && n < |ps| && forall i :: 0 <= i < n ==> !es[i].DoDisconnect?
    ensures ps[n].pending == |Trying(ps[n].peers)|
    ensures 0 <= ps[n].pending <= ps[0].max
  {
    RunBalances(ps, es, n);
    CounterIsLedger(ps, es, n);
    TryingAreUndecided(ps[n]);
  }

  // ----- the objects -----

  /** The counter of the hive and the connection fields of its nodes, updated in place. */
  class ConnectionPool {
    var pending: int
    const max: int
    var up: bool
    var peers: map<Key, Peer>
    var links: map<nat, Link>
    var nextId: nat

    ghost function State(): Pool
      reads this
    {
      Pool(pending, max, up, peers, links, nextId)
    }

    constructor (max: int)
      ensures State() == Pool(0, max, true, map[], map[], 0)
    {
      pending, this.max, up, peers, links, nextId := 0, max, true, map[], map[], 0;
    }

    /** `allow_connect`: takes a slot, and gives it back if that was one too many. */
    method AllowConnect() returns (ok: bool)
      modifies this`pending
      ensures ok <==> up && old(pending) + 1 <= max
      ensures pending == if ok then old(pending) + 1 else old(pending)
    {
      if !up {
        return false;
      }
      pending := pending + 1;
      if pending > max {
        pending := pending - 1;
        return false;
      }
      return true;
    }

    method ConnectNode(k: Key, now: int)
      requires k in peers
      modifies this
      ensures State() == Connect(old(State()), k, now)
    {
      var n := peers[k];
      if n.conn.Some? {
        return;
      }
      if n.cooldownUntil.Some? {
        if n.cooldownUntil.value > now {
          return;
        }
      }
      peers := peers[k := n.(cooldownUntil := None)];
      var ok := AllowConnect();
      if !ok {
        return;
      }
      links := links[nextId := Link(k, false)];
      peers := peers[k := n.(cooldownUntil := None, conn := Some(nextId))];
      nextId := nextId + 1;
    }

    /** `make_conns`. */
    method MakeConns(order: seq<Key>, now: int)
      requires forall k :: k in order ==> k in peers
      modifies this
      ensures State() == ConnectAll(old(State()), order, now)
    {
      for i := 0 to |order|
        invariant forall k :: k in order ==> k in peers
        invariant ConnectAll(State(), order[i..], now) == ConnectAll(old(State()), order, now)
      {
        if pending >= max {
          return;
        }
        assert order[i..][0] == order[i] && order[i..][1..] == order[i + 1..];
        ConnectNode(order[i], now);
      }
    }

    /** `finished_connect`. */
    method FinishConnect(order: seq<Key>, now: int)
      requires forall k :: k in order ==> k in peers
      modifies this
      ensures State() == FinishedConnect(old(State()), order, now)
    {
      var tryMore := pending < max;
      pending := pending - 1;
      if tryMore {
        MakeConns(order, now);
      }
    }

    /** `on_connected`; true when the caller goes on to `check_my_subs`. */
    method ConnectedCallback(id: nat, order: seq<Key>, now: int) returns (check: bool)
      requires id in links && links[id].owner in peers && forall k :: k in order ==> k in peers
      modifies this
      ensures State() == OnConnected(old(State()), id, order, now)
      ensures check <==> old(peers)[old(links)[id].owner].conn.Some?
    {
      var k := links[id].owner;
      links := links[id := Link(k, true)];
      peers := peers[k := peers[k].(fails := 0, cooldownUntil := None)];
      check := peers[k].conn.Some?;
      if check {
        peers := peers[k := peers[k].(connected := true)];
      }
      assert State() == CameUp(old(State()), id);
      FinishConnect(order, now);
    }

    /** `on_disconnected`. */
    method DisconnectedCallback(id: nat, order: seq<Key>, now: int)
      requires id in links && links[id].owner in peers && forall k :: k in order ==> k in peers
      modifies this
      ensures State() == OnDisconnected(old(State()), id, order, now)
    {
      var k := links[id].owner;
      links := links - {id};
      var n := peers[k];
      var failed := !n.connected;
      n := n.(connected := false);
      if up {
        if failed {
          n := n.(cooldownUntil := Some(now + Cooldown(n.fails)), fails := n.fails + 1);
        } else {
          n := n.(cooldownUntil := Some(now + RECONNECT_WAIT), fails := 0);
        }
      }
      peers := peers[k := n.(conn := None)];
      if up && failed {
        FinishConnect(order, now);
      }
    }

    /** `disconnect`. */
    method DisconnectNode(k: Key)
      requires k in peers
      modifies this`peers
      ensures State() == Disconnect(old(State()), k)
    {
      peers := peers[k := peers[k].(connected := false)];
      if peers[k].conn.Some? {
        peers := peers[k := peers[k].(conn := None)];
      }
    }
  }
}
