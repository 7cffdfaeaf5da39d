/** The life of one WebSocket endpoint invocation: accept and register the
    connection, run the receive loop over the frames the peer sends, and
    on every way out (peer closed, a failed receive, an exception in the
    loop, or a failed accept) discard the connection in the `finally`
    block.

    The frames the peer sends are given up front, each paired with what
    the transport reports during the broadcast it may trigger, together
    with how the stream ends after the last of them. Other endpoints'
    activity between frames is not part of this model. */
module Handler {
  import opened ConnectionManager
  import opened Router

  /** One inbound text frame and the transport's view during its handling. */
  datatype Inbound = Inbound(text: string, net: Net)

  /** How `receive_text` stops delivering frames: the peer closes the
      socket (`WebSocketDisconnect`), or it raises some other exception. */
  datatype Ending = Closed | ReceiveFailed

  /** How the handler left its `try` block. */
  datatype Exit = AcceptFailed | PeerClosed | ReceiveError | LoopError

  /** The registry after the handler, how it ended, and the texts it
      broadcast in order. */
  datatype Session = Session(manager: Manager, exit: Exit, broadcasts: seq<string>)

  // ---------------------------------------------------------------------
  // Reference description of one run of the loop
  // ---------------------------------------------------------------------

  /** The frames the loop gets to handle: those before the first one on
      which the loop body raises. */
  function Handled(frames: seq<Inbound>, parse: string -> Parsed): seq<Inbound>
    decreases |frames|
  {
    if frames == [] || parse(frames[0].text) == Raises then []
    else [frames[0]] + Handled(frames[1..], parse)
  }

  /** `Handled` is the longest prefix free of frames that raise. */
  lemma {:induction false} HandledIsPrefixBeforeAbort(frames: seq<Inbound>, parse: string -> Parsed)
    ensures |Handled(frames, parse)| <= |frames|
    ensures Handled(frames, parse) == frames[..|Handled(frames, parse)|]
    ensures forall i :: 0 <= i < |Handled(frames, parse)| ==> parse(frames[i].text) != Raises
    ensures |Handled(frames, parse)| < |frames| ==>
      parse(frames[|Handled(frames, parse)|].text) == Raises
    decreases |frames|
  {
    if frames != [] && parse(frames[0].text) != Raises {
      var rest := frames[1..];
      HandledIsPrefixBeforeAbort(rest, parse);
      var h := Handled(rest, parse);
      assert Handled(frames, parse) == [frames[0]] + h;
      assert forall i :: 0 <= i < |h| ==> frames[i + 1] == rest[i];
      assert [frames[0]] + rest[..|h|] == frames[..|h| + 1];
    }
  }

  /** The texts broadcast for a run of handled frames, in order. */
  function RoutedTexts(fs: seq<Inbound>, parse: string -> Parsed, serialize: JsonObj -> string): seq<string>
    decreases |fs|
  {
    if fs == [] then []
    else
      match Route(fs[0].text, parse, serialize)
      case Some(t) => [t] + RoutedTexts(fs[1..], parse, serialize)
      case None => RoutedTexts(fs[1..], parse, serialize)
  }

  /** Client `c` is kept by the handling of frame `f`: the frame broadcasts
      nothing, or `c` is CONNECTED and its send goes through. */
  predicate Keeps(f: Inbound, c: ConnId, parse: string -> Parsed, serialize: JsonObj -> string) {
    Route(f.text, parse, serialize).None? || (c in f.net.connected && c !in f.net.sendFails)
  }

  /** The clients of `active` kept by the handling of frame `f`. */
  function KeptBy(active: set<ConnId>, f: Inbound, parse: string -> Parsed,
                  serialize: JsonObj -> string): set<ConnId>
  {
    set c | c in active && Keeps(f, c, parse, serialize)
  }

  /** The live clients still registered after a run of handled frames. */
  function Survivors(active: set<ConnId>, fs: seq<Inbound>, parse: string -> Parsed,
                     serialize: JsonObj -> string): set<ConnId>
  {
    set c | c in active && forall i :: 0 <= i < |fs| ==> Keeps(fs[i], c, parse, serialize)
  }

  lemma SurvivorsCons(active: set<ConnId>, f: Inbound, fs: seq<Inbound>, parse: string -> Parsed,
                      serialize: JsonObj -> string)
    ensures Survivors(active, [f] + fs, parse, serialize)
         == Survivors(KeptBy(active, f, parse, serialize), fs, parse, serialize)
  {
    var all := [f] + fs;
    assert all[0] == f;
    assert forall i :: 0 <= i < |fs| ==> all[i + 1] == fs[i];
    forall c | c in Survivors(KeptBy(active, f, parse, serialize), fs, parse, serialize)
      ensures forall i :: 0 <= i < |all| ==> Keeps(all[i], c, parse, serialize)
    {
      forall i | 0 <= i < |all|
        ensures Keeps(all[i], c, parse, serialize)
      {
        if i > 0 {
          assert all[i] == fs[i - 1];
        }
      }
    }
  }

  /** Handling one frame removes exactly the clients it does not keep. */
  lemma StepSurvivors(m: Manager, f: Inbound, parse: string -> Parsed, serialize: JsonObj -> string)
    ensures (if Route(f.text, parse, serialize).Some? then AfterBroadcast(m, f.net).active else m.active)
         == KeptBy(m.active, f, parse, serialize)
  {
    if Route(f.text, parse, serialize).Some? {
      forall c
        ensures c in AfterBroadcast(m, f.net).active <==> c in m.active && Keeps(f, c, parse, serialize)
      {
        AfterBroadcastMembership(m, f.net, c);
      }
    }
  }

  // ---------------------------------------------------------------------
  // The receive loop and the endpoint
  // ---------------------------------------------------------------------

  /** The receive loop (the `while True` body), run until the frames run
      out or a frame raises. */
  function Loop(m: Manager, frames: seq<Inbound>, end: Ending, parse: string -> Parsed,
                serialize: JsonObj -> string): (s: Session)
    ensures s.exit == LoopError <==> exists i :: 0 <= i < |frames| && parse(frames[i].text) == Raises
    ensures s.exit != LoopError ==> s.exit == (if end == Closed then PeerClosed else ReceiveError)
    ensures s.broadcasts == RoutedTexts(Handled(frames, parse), parse, serialize)
    ensures s.manager.active == Survivors(m.active, Handled(frames, parse), parse, serialize)
    ensures s.manager.active <= m.active
    ensures s.manager.data == m.data
    ensures |s.broadcasts| <= |frames|
    ensures forall k :: 0 <= k < |s.broadcasts| ==>
      exists i :: 0 <= i < |frames| && Route(frames[i].text, parse, serialize) == Some(s.broadcasts[k])
    decreases |frames|
  {
    if frames == [] then
      Session(m, if end == Closed then PeerClosed else ReceiveError, [])
    else
      var f := frames[0];
      var rest := frames[1..];
      assert forall i :: 0 <= i < |rest| ==> rest[i] == frames[i + 1];
      if Classify(parse(f.text)) == Abort then Session(m, LoopError, [])
      else
        SurvivorsCons(m.active, f, Handled(rest, parse), parse, serialize);
        StepSurvivors(m, f, parse, serialize);
        match Route(f.text, parse, serialize)
        case None => Loop(m, rest, end, parse, serialize)
        case Some(t) =>
          var s := Loop(AfterBroadcast(m, f.net), rest, end, parse, serialize);
          s.(broadcasts := [t] + s.broadcasts)
  }

  /** A frame on which `json.loads` raises `JSONDecodeError` is dropped
      and the loop goes on with the next one, as if it had never arrived. */
  lemma MalformedFrameSkipped(m: Manager, frames: seq<Inbound>, end: Ending, parse: string -> Parsed,
                              serialize: JsonObj -> string)
    requires frames != [] && parse(frames[0].text) == Malformed
    ensures Loop(m, frames, end, parse, serialize) == Loop(m, frames[1..], end, parse, serialize)
  {
  }

  /** Unless some frame makes the loop body raise, the loop runs
      until the frames run out and then ends the way the stream ended. */
  lemma LoopEndsAtEndOfStream(m: Manager, frames: seq<Inbound>, end: Ending, parse: string -> Parsed,
                              serialize: JsonObj -> string)
    requires forall i :: 0 <= i < |frames| ==> parse(frames[i].text) != Raises
    ensures Loop(m, frames, end, parse, serialize).exit == (if end == Closed then PeerClosed else ReceiveError)
  {
  }

  /** `fastapi_websocket_endpoint` for connection `c`. */
  function Serve(m: Manager, c: ConnId, acceptOk: bool, frames: seq<Inbound>, end: Ending,
                 parse: string -> Parsed, serialize: JsonObj -> string): (s: Session)
    ensures c !in s.manager.active
    ensures CountInSync(s.manager)
    ensures s.manager.active <= m.active - {c}
    ensures SameBesidesCount(s.manager.data, m.data)
    ensures !acceptOk ==> s.exit == AcceptFailed && s.manager.active == m.active - {c} && s.broadcasts == []
    ensures acceptOk ==> s.exit != AcceptFailed
    ensures acceptOk ==>
      (s.exit == LoopError <==> exists i :: 0 <= i < |frames| && parse(frames[i].text) == Raises)
    ensures acceptOk && s.exit != LoopError ==>
      s.exit == (if end == Closed then PeerClosed else ReceiveError)
    ensures acceptOk ==> s.broadcasts == RoutedTexts(Handled(frames, parse), parse, serialize)
    ensures acceptOk ==>
      s.manager.active == Survivors(m.active + {c}, Handled(frames, parse), parse, serialize) - {c}
  {
    if !acceptOk then
      Session(Disconnect(m, c), AcceptFailed, [])
    else
      var s := Loop(Connect(m, c), frames, end, parse, serialize);
      s.(manager := Disconnect(s.manager, c))
  }

  /** Client 2 is live; client 1 connects and sends one Boss_Death frame
      while both are CONNECTED and both sends succeed, then closes. The
      re-serialised object is broadcast once; afterwards only client 2 is
      live and the count matches. `Session` records texts, not sends: that
      the send goes to both clients (the sender included) follows from
      `Broadcast`'s `Recipients(sends) == Attempted(...)` and the attempted
      set stated here for the state the broadcast starts from. */
  lemma BossDeathScenario(raw: string, parse: string -> Parsed, serialize: JsonObj -> string)
    requires parse(raw) == Object(JsonObj([("type", Str("Boss_Death"))]))
    ensures var before := Connect(Init(""), 2);
            var net := Net({1, 2}, {});
            var s := Serve(before, 1, true, [Inbound(raw, net)], Closed, parse, serialize);
            && Attempted(Connect(before, 1).active, net) == {1, 2}
            && s.broadcasts == [serialize(JsonObj([("type", Str("Boss_Death"))]))]
            && s.manager.active == {2}
            && s.manager.data.usersOnline == 1
            && s.exit == PeerClosed
  {
    var obj := JsonObj([("type", Str("Boss_Death"))]);
    var net := Net({1, 2}, {});
    var frames := [Inbound(raw, net)];
    var before := Connect(Init(""), 2);
    var both := Connect(before, 1);
    assert both.active == {1, 2};
    assert Attempted(both.active, net) == {1, 2};
    assert Classify(parse(raw)) == BroadcastSerialized(obj);
    assert Route(raw, parse, serialize) == Some(serialize(obj));
    var ab := AfterBroadcast(both, net);
    assert ab.active == {1, 2} by {
      AfterBroadcastMembership(both, net, 1);
      AfterBroadcastMembership(both, net, 2);
    }
    assert frames[1..] == [];
    assert Loop(ab, [], Closed, parse, serialize) == Session(ab, PeerClosed, []);
    assert Loop(both, frames, Closed, parse, serialize) == Session(ab, PeerClosed, [serialize(obj)]);
    assert {1, 2} - {1} == {2};
  }
}
