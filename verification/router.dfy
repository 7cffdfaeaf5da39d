/** The per-frame routing decision of the WebSocket endpoint: a parsed
    inbound text frame is classified by its `type` field into skip,
    broadcast-the-re-serialised-object, broadcast-the-raw-frame, no action,
    or abort.

    `json.loads` is abstracted to the `Parsed` datatype (the caller
    supplies the parse), and `json.dumps` to a `serialize` function
    parameter whose internals are not modelled. */
module Router {

  datatype Option<T> = None | Some(value: T)

  /** The value of the `type` key as `dict.get` sees it: absent or `null`,
      a JSON string, or any other JSON value. */
  datatype TypeField = Missing | Text(name: string) | NotText

  /** A decoded JSON member value: a string, `null`, or any other value,
      kept as opaque JSON text. */
  datatype JsonValue = Str(s: string) | Null | OtherValue(text: string)

  /** A decoded JSON object: the key/value pairs exactly as the frame gave
      them, in order and with any repeated key kept. The `dict` that
      `json.loads` builds collapses a repeated key to one entry, at the
      position of its first occurrence and holding its last value; `Lookup`
      reads values that way, and the opaque `serialize` is taken to see the
      collapsed `dict`. The order matters because `json.dumps` writes keys
      in insertion order. */
  datatype JsonObj = JsonObj(members: seq<(string, JsonValue)>)

  /** The value stored under `key`: the last pair with that key wins, as
      when `json.loads` fills a `dict`. */
  function Lookup(members: seq<(string, JsonValue)>, key: string): (r: Option<JsonValue>)
    ensures r.None? <==> forall i :: 0 <= i < |members| ==> members[i].0 != key
    ensures r.Some? ==> exists i :: 0 <= i < |members| && members[i] == (key, r.value)
                          && forall j :: i < j < |members| ==> members[j].0 != key
    decreases |members|
  {
    if members == [] then None
    else if members[|members| - 1].0 == key then Some(members[|members| - 1].1)
    else
      var r := Lookup(members[..|members| - 1], key);
      assert forall i :: 0 <= i < |members| - 1 ==> members[..|members| - 1][i] == members[i];
      r
  }

  /** What `.get("type")` returns for an object. */
  function TypeOf(o: JsonObj): TypeField
  {
    match Lookup(o.members, "type")
    case None => Missing
    case Some(Null) => Missing
    case Some(Str(name)) => Text(name)
    case Some(OtherValue(_)) => NotText
  }

  /** What `json.loads` makes of a frame, as far as the loop body is
      concerned: `Malformed` when it raises `json.JSONDecodeError` (the
      one exception the loop catches and skips); `Raises` when the rest of
      lines 104-109 raises anything else, that is `json.loads` raising
      another exception (a `ValueError` for an integer literal longer than
      the interpreter's digit limit, a `RecursionError` for deep nesting)
      or the value not being a `dict` so that `.get` raises; and `Object`
      when a `dict` comes back. */
  datatype Parsed = Malformed | Raises | Object(obj: JsonObj)

  /** What the endpoint does with one frame. `Abort` is an exception that
      leaves the receive loop. */
  datatype Action =
    | Skip
    | BroadcastSerialized(obj: JsonObj)
    | BroadcastRaw
    | NoAction
    | Abort

  /** Types relayed after re-serialising the decoded object. */
  const BossTypes: set<string> := {"Sync_Boss_Data", "Boss_Death", "Ack_Sync"}

  /** Signalling and chat types relayed as the original frame text. */
  const SignalingTypes: set<string> := {"offer", "answer", "candidate", "chat_message"}

  predicate HasTypeIn(o: JsonObj, names: set<string>) {
    TypeOf(o).Text? && TypeOf(o).name in names
  }

  /** The two relayed families share no type name, so the order of the
      two tests in the dispatch is immaterial. */
  lemma TypeFamiliesDisjoint()
    ensures BossTypes !! SignalingTypes
  {
  }

  /** The dispatch on one parsed frame. */
  function Classify(p: Parsed): (a: Action)
    ensures a == Skip <==> p == Malformed
    ensures a == Abort <==> p == Raises
    ensures a.BroadcastSerialized? <==> p.Object? && HasTypeIn(p.obj, BossTypes)
    ensures a.BroadcastSerialized? ==> a.obj == p.obj
    ensures a == BroadcastRaw <==> p.Object? && HasTypeIn(p.obj, SignalingTypes)
    ensures a == NoAction <==>
      p.Object? && !HasTypeIn(p.obj, BossTypes + SignalingTypes)
  {
    match p
    case Malformed => Skip
    case Raises => Abort
    case Object(o) =>
      if HasTypeIn(o, BossTypes) then BroadcastSerialized(o)
      else if HasTypeIn(o, SignalingTypes) then BroadcastRaw
      else NoAction
  }

  /** The text handed to `broadcast` for an action on frame `raw`, if any. */
  function Outgoing(raw: string, a: Action, serialize: JsonObj -> string): Option<string>
  {
    match a
    case BroadcastSerialized(o) => Some(serialize(o))
    case BroadcastRaw => Some(raw)
    case _ => None
  }

  /** Route a frame: classify what `parse` makes of it and produce the
      text to broadcast. */
  function Route(raw: string, parse: string -> Parsed, serialize: JsonObj -> string): (r: Option<string>)
    ensures r.Some? <==>
      parse(raw).Object? && HasTypeIn(parse(raw).obj, BossTypes + SignalingTypes)
  {
    Outgoing(raw, Classify(parse(raw)), serialize)
  }

  /** Signalling frames are relayed byte for byte, whatever the
      serialiser would have produced. */
  lemma SignalingRelayedVerbatim(raw: string, parse: string -> Parsed, serialize: JsonObj -> string)
    requires parse(raw).Object? && HasTypeIn(parse(raw).obj, SignalingTypes)
    ensures Route(raw, parse, serialize) == Some(raw)
  {
    TypeFamiliesDisjoint();
  }

  /** Boss and ack frames are relayed as the serialisation of their decoded
      object, not as the received text: two frames that decode to the same
      object with the same key order (differing, say, only in whitespace)
      are relayed as the same text. */
  lemma BossRelayedReserialized(raw1: string, raw2: string, parse: string -> Parsed, serialize: JsonObj -> string)
    requires parse(raw1).Object? && HasTypeIn(parse(raw1).obj, BossTypes)
    requires parse(raw2) == parse(raw1)
    ensures Route(raw1, parse, serialize) == Some(serialize(parse(raw1).obj))
    ensures Route(raw1, parse, serialize) == Route(raw2, parse, serialize)
  {
  }

  /** A frame without a `type`, or with a `type` outside both families,
      produces nothing to send and does not end the loop. */
  lemma UnknownTypeIgnored(p: Parsed)
    requires p.Object?
    requires TypeOf(p.obj).Missing? || TypeOf(p.obj).NotText?
             || TypeOf(p.obj).name !in BossTypes + SignalingTypes
    ensures Classify(p) == NoAction
  {
  }
}
