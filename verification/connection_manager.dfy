/** The connection registry of the relay hub: the set of live connections
    and the shared status document, with the four operations of the
    `ConnectionManager` class (construct, connect, disconnect, broadcast)
    as pure step functions over an immutable `Manager` record.

    Connections are opaque handles; what the transport would report about
    them during a broadcast (is the socket still CONNECTED, does a send
    raise) is passed in as a `Net` oracle. Each operation is atomic: the
    interleaving of other tasks at the `await` points is not modelled. */
module ConnectionManager {

  /** An opaque connection handle; two handles are the same connection
      exactly when they are equal. */
  type ConnId = nat

  /** The shared document `main_json_data`. The values of `custom_data`
      are kept as already-serialised JSON text. */
  datatype SharedData = SharedData(
    status: string,
    usersOnline: int,
    lastUpdated: string,
    customData: map<string, string>)

  /** The whole state of the manager. */
  datatype Manager = Manager(active: set<ConnId>, data: SharedData)

  /** What the transport reports during one broadcast: the clients whose
      state is CONNECTED, and the clients whose `send_text` raises. */
  datatype Net = Net(connected: set<ConnId>, sendFails: set<ConnId>)

  /** One attempted `send_text` of `text` to connection `to`. */
  datatype Send = Send(to: ConnId, text: string)

  /** The operations that change the registry. */
  datatype Op = ConnectOp(c: ConnId) | DisconnectOp(c: ConnId) | BroadcastOp(net: Net)

  /** `users_online` agrees with the size of the connection set. */
  predicate CountInSync(m: Manager) {
    m.data.usersOnline == |m.active|
  }

  /** `users_online` never understates the connection set. */
  predicate CountCovers(m: Manager) {
    |m.active| <= m.data.usersOnline
  }

  /** The document fields other than `users_online` agree. */
  predicate SameBesidesCount(a: SharedData, b: SharedData) {
    && a.status == b.status
    && a.lastUpdated == b.lastUpdated
    && a.customData == b.customData
  }

  // ---------------------------------------------------------------------
  // Construction, connect, disconnect
  // ---------------------------------------------------------------------

  /** The freshly constructed manager; `now` is the clock reading used for
      `last_updated`. */
  function Init(now: string): (m: Manager)
    ensures m.active == {}
    ensures CountInSync(m) && m.data.usersOnline == 0
    ensures m.data.status == "Offline"
    ensures m.data.lastUpdated == now
    ensures m.data.customData == map[]
  {
    Manager({}, SharedData("Offline", 0, now, map[]))
  }

  /** Recompute `users_online` from the connection set; nothing else moves. */
  function UpdateUserCount(m: Manager): (m': Manager)
    ensures CountInSync(m')
    ensures m'.active == m.active
    ensures SameBesidesCount(m'.data, m.data)
  {
    m.(data := m.data.(usersOnline := |m.active|))
  }

  /** Register an accepted connection. */
  function Connect(m: Manager, c: ConnId): (m': Manager)
    ensures m'.active == m.active + {c}
    ensures c in m'.active
    ensures CountInSync(m')
    ensures SameBesidesCount(m'.data, m.data)
  {
    UpdateUserCount(m.(active := m.active + {c}))
  }

  /** Forget a connection (`set.discard`, so an absent one is no error). */
  function Disconnect(m: Manager, c: ConnId): (m': Manager)
    ensures m'.active == m.active - {c}
    ensures c !in m'.active
    ensures CountInSync(m')
    ensures SameBesidesCount(m'.data, m.data)
  {
    UpdateUserCount(m.(active := m.active - {c}))
  }

  lemma DisconnectIdempotent(m: Manager, c: ConnId)
    ensures Disconnect(Disconnect(m, c), c) == Disconnect(m, c)
  {
  }

  /** Discarding an absent connection leaves the set alone, and leaves the
      whole state alone when the count was already right. */
  lemma DisconnectAbsent(m: Manager, c: ConnId)
    requires c !in m.active
    ensures Disconnect(m, c).active == m.active
    ensures CountInSync(m) ==> Disconnect(m, c) == m
  {
  }

  /** Disconnect undoes a connect of a new connection. */
  lemma ConnectThenDisconnect(m: Manager, c: ConnId)
    requires c !in m.active
    requires CountInSync(m)
    ensures Disconnect(Connect(m, c), c) == m
  {
    assert (m.active + {c}) - {c} == m.active;
  }

  /** Connecting an already live connection changes nothing but the count. */
  lemma ConnectPresent(m: Manager, c: ConnId)
    requires c in m.active
    ensures Connect(m, c).active == m.active
    ensures CountInSync(m) ==> Connect(m, c) == m
  {
  }

  // ---------------------------------------------------------------------
  // Broadcast
  // ---------------------------------------------------------------------

  /** The clients of `active` that broadcast collects for removal: those
      not CONNECTED, and the CONNECTED ones whose send raised. */
  function Dropped(active: set<ConnId>, net: Net): set<ConnId>
  {
    set c | c in active && (c !in net.connected || c in net.sendFails)
  }

  /** The clients of `active` that broadcast tries to send to. */
  function Attempted(active: set<ConnId>, net: Net): set<ConnId>
  {
    set c | c in active && c in net.connected
  }

  /** The state broadcast leaves behind. The count is not recomputed. */
  function AfterBroadcast(m: Manager, net: Net): Manager
  {
    m.(active := m.active - Dropped(m.active, net))
  }

  /** A client survives a broadcast exactly when it was live, CONNECTED
      and its send went through. */
  lemma AfterBroadcastMembership(m: Manager, net: Net, c: ConnId)
    ensures c in AfterBroadcast(m, net).active
        <==> c in m.active && c in net.connected && c !in net.sendFails
  {
  }

  /** Broadcast never adds a client and never touches the document. */
  lemma AfterBroadcastShrinks(m: Manager, net: Net)
    ensures AfterBroadcast(m, net).active <= m.active
    ensures AfterBroadcast(m, net).data == m.data
  {
  }

  /** The set of recipients of a list of sends. */
  function Recipients(sends: seq<Send>): set<ConnId>
  {
    set i | 0 <= i < |sends| :: sends[i].to
  }

  lemma RecipientsSnoc(sends: seq<Send>, s: Send)
    ensures Recipients(sends + [s]) == Recipients(sends) + {s.to}
  {
    var all := sends + [s];
    assert all[|sends|] == s;
    forall c | c in Recipients(sends)
      ensures c in Recipients(all)
    {
      var i :| 0 <= i < |sends| && sends[i].to == c;
      assert all[i] == sends[i];
    }
  }

  /** No connection is sent to twice. */
  predicate NoRepeats(sends: seq<Send>) {
    forall i, j :: 0 <= i < j < |sends| ==> sends[i].to != sends[j].to
  }

  /** `ConnectionManager.broadcast`: one pass over the live set sending
      `message` to every CONNECTED client and collecting the clients to
      drop, then a second pass discarding them. Returns the new state and
      the sends attempted, in the order they were made. */
  method Broadcast(m: Manager, message: string, net: Net) returns (m': Manager, sends: seq<Send>)
    ensures m' == AfterBroadcast(m, net)
    ensures m'.active <= m.active
    ensures m'.data == m.data
    ensures Recipients(sends) == Attempted(m.active, net)
    ensures NoRepeats(sends)
    ensures forall i :: 0 <= i < |sends| ==> sends[i].text == message
  {
    var pending := m.active;
    var toRemove: set<ConnId> := {};
    sends := [];
    while pending != {}
      invariant pending <= m.active
      invariant toRemove == Dropped(m.active - pending, net)
      invariant Recipients(sends) == Attempted(m.active - pending, net)
      invariant forall i :: 0 <= i < |sends| ==> sends[i].to !in pending
      invariant NoRepeats(sends)
      invariant forall i :: 0 <= i < |sends| ==> sends[i].text == message
      decreases pending
    {
      var client :| client in pending;
      assert m.active - (pending - {client}) == (m.active - pending) + {client};
      if client in net.connected {
        RecipientsSnoc(sends, Send(client, message));
        sends := sends + [Send(client, message)];
        if client in net.sendFails {
          toRemove := toRemove + {client};
        }
      } else {
        toRemove := toRemove + {client};
      }
      pending := pending - {client};
    }
    var active := m.active;
    var rest := toRemove;
    while rest != {}
      invariant rest <= toRemove
      invariant active == m.active - (toRemove - rest)
      decreases rest
    {
      var client :| client in rest;
      active := active - {client};
      rest := rest - {client};
    }
    m' := m.(active := active);
  }

  /** Because broadcast skips `update_user_count`, a broadcast that drops
      anyone leaves `users_online` too high. */
  lemma BroadcastLeavesCountStale(m: Manager, net: Net)
    requires CountInSync(m)
    requires Dropped(m.active, net) != {}
    ensures !CountInSync(AfterBroadcast(m, net))
    ensures CountCovers(AfterBroadcast(m, net))
  {
    var d := Dropped(m.active, net);
    var c :| c in d;
    var rest := m.active - d;
    assert rest <= m.active - {c};
    SubsetCard(rest, m.active - {c});
  }

  lemma SubsetCard(a: set<ConnId>, b: set<ConnId>)
    requires a <= b
    ensures |a| <= |b|
  {
    assert b == a + (b - a);
  }

  // ---------------------------------------------------------------------
  // Sequences of operations
  // ---------------------------------------------------------------------

  function Step(m: Manager, op: Op): Manager
  {
    match op
    case ConnectOp(c) => Connect(m, c)
    case DisconnectOp(c) => Disconnect(m, c)
    case BroadcastOp(net) => AfterBroadcast(m, net)
  }

  /** Apply the operations left to right. */
  function Apply(m: Manager, ops: seq<Op>): Manager
    decreases |ops|
  {
    if ops == [] then m else Apply(Step(m, ops[0]), ops[1..])
  }

  predicate NoBroadcasts(ops: seq<Op>) {
    forall i :: 0 <= i < |ops| ==> !ops[i].BroadcastOp?
  }

  /** Over connects and disconnects, `users_online` stays equal to the
      number of live connections. */
  lemma {:induction false} CountInvariant(m: Manager, ops: seq<Op>)
    requires CountInSync(m)
    requires NoBroadcasts(ops)
    ensures CountInSync(Apply(m, ops))
    decreases |ops|
  {
    if ops != [] {
      CountInvariant(Step(m, ops[0]), ops[1..]);
    }
  }

  /** With broadcasts mixed in, `users_online` can only overstate the
      number of live connections; the document fields besides the count
      are never changed. */
  lemma {:induction false} CountCoversInvariant(m: Manager, ops: seq<Op>)
    requires CountCovers(m)
    ensures CountCovers(Apply(m, ops))
    ensures SameBesidesCount(Apply(m, ops).data, m.data)
    decreases |ops|
  {
    if ops != [] {
      var m1 := Step(m, ops[0]);
      if ops[0].BroadcastOp? {
        SubsetCard(m1.active, m.active);
      }
      CountCoversInvariant(m1, ops[1..]);
    }
  }

  /** Where a connection stands after a list of operations, judged by the
      last connect or disconnect that names it. */
  datatype Verdict = Untouched | Joined | Left

  function LastVerdict(ops: seq<Op>, c: ConnId): Verdict
    decreases |ops|
  {
    if ops == [] then Untouched
    else
      var last := ops[|ops| - 1];
      if last.ConnectOp? && last.c == c then Joined
      else if last.DisconnectOp? && last.c == c then Left
      else LastVerdict(ops[..|ops| - 1], c)
  }

  lemma {:induction false} ApplySnoc(m: Manager, ops: seq<Op>, op: Op)
    ensures Apply(m, ops + [op]) == Step(Apply(m, ops), op)
    decreases |ops|
  {
    if ops == [] {
      assert [] + [op] == [op];
      assert [op][1..] == [];
    } else {
      assert (ops + [op])[0] == ops[0];
      assert (ops + [op])[1..] == ops[1..] + [op];
      ApplySnoc(Step(m, ops[0]), ops[1..], op);
    }
  }

  /** Without broadcasts, a connection is live at the end exactly when the
      last operation naming it was a connect, or no operation named it
      and it was live at the start. */
  lemma {:induction false} ApplyMembership(m: Manager, ops: seq<Op>, c: ConnId)
    requires NoBroadcasts(ops)
    ensures c in Apply(m, ops).active <==>
      match LastVerdict(ops, c)
      case Untouched => c in m.active
      case Joined => true
      case Left => false
    decreases |ops|
  {
    if ops != [] {
      var init := ops[..|ops| - 1];
      var last := ops[|ops| - 1];
      assert init + [last] == ops;
      ApplySnoc(m, init, last);
      ApplyMembership(m, init, c);
    }
  }
}
