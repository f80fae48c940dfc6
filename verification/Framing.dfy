/** Messages on the wire: the JSON form of the four message types, and frames with and without identity. */
module Framing {
  import opened JsonValues
  import opened Sequences

  datatype MessageType = GenericType | HeartbeatType | KeyRequestType | KeyResponseType

  datatype Message =
    | GenericMessage(success: bool, id: string)
    | HeartbeatMessage
    | KeyRequestMessage
    | KeyResponseMessage(key: string)

  function TypeOf(m: Message): MessageType {
    match m
    case GenericMessage(_, _) => GenericType
    case HeartbeatMessage => HeartbeatType
    case KeyRequestMessage => KeyRequestType
    case KeyResponseMessage(_) => KeyResponseType
  }

  function TypeNumber(t: MessageType): nat {
    match t
    case GenericType => 0
    case HeartbeatType => 1
    case KeyRequestType => 2
    case KeyResponseType => 3
  }

  /** The JSON library: printing an object and parsing a text, which fails on a text that is no object. */
  datatype Library = Library(render: Fields -> string, parse: string -> Option<Fields>)

  /** What is printed can be parsed again. */
  ghost predicate Faithful(json: Library) {
    forall f :: json.parse(json.render(f)) == Some(f)
  }

  /** `serialize` into an output archive: the type first, then the fields of the message. */
  function Encode(m: Message): Fields {
    var head := map["type" := JNumber(TypeNumber(TypeOf(m)))];
    match m
    case GenericMessage(success, id) => head["m_Success" := JBool(success)]["m_Id" := JString(id)]
    case HeartbeatMessage => head
    case KeyRequestMessage => head
    case KeyResponseMessage(key) => head["m_Key" := JString(key)]
  }

  /** `Message::Serialize`: a missing field, a field of another kind or an unknown type ends the program. */
  function Decode(fields: Fields): Option<Message> {
    if "type" !in fields || !fields["type"].JNumber? then None
    else
      var n := fields["type"].number;
      if n == 0 then
        if "m_Success" in fields && fields["m_Success"].JBool? && "m_Id" in fields && fields["m_Id"].JString? then
          Some(GenericMessage(fields["m_Success"].flag, fields["m_Id"].text))
        else None
      else if n == 1 then Some(HeartbeatMessage)
      else if n == 2 then Some(KeyRequestMessage)
      else if n == 3 then
        if "m_Key" in fields && fields["m_Key"].JString? then Some(KeyResponseMessage(fields["m_Key"].text)) else None
      else None
  }

  /** The fields that the message is written with are there, with its values. */
  ghost predicate Has(fields: Fields, m: Message) {
    forall k :: k in Encode(m) ==> k in fields && fields[k] == Encode(m)[k]
  }

  lemma BareFields(fields: Fields)
    ensures Has(fields, HeartbeatMessage) <==> "type" in fields && fields["type"] == JNumber(1)
    ensures Has(fields, KeyRequestMessage) <==> "type" in fields && fields["type"] == JNumber(2)
  {
    assert Encode(HeartbeatMessage) == map["type" := JNumber(1)];
    assert Encode(KeyRequestMessage) == map["type" := JNumber(2)];
    assert "type" in Encode(HeartbeatMessage) && "type" in Encode(KeyRequestMessage);
  }

  lemma GenericFields(fields: Fields, success: bool, id: string)
    ensures Has(fields, GenericMessage(success, id)) <==>
      && "type" in fields && fields["type"] == JNumber(0) && "m_Success" in fields && "m_Id" in fields
      && fields["m_Success"] == JBool(success) && fields["m_Id"] == JString(id)
  {
    var e := Encode(GenericMessage(success, id));
    assert "type" in e && "m_Success" in e && "m_Id" in e;
  }

  lemma KeyFields(fields: Fields, key: string)
    ensures Has(fields, KeyResponseMessage(key)) <==>
      "type" in fields && fields["type"] == JNumber(3) && "m_Key" in fields && fields["m_Key"] == JString(key)
  {
    var e := Encode(KeyResponseMessage(key));
    assert "type" in e && "m_Key" in e;
  }

  /** Fields are read as a message iff they have all the fields that it is written with; other fields do not matter. */
  lemma ReadIffHasFields(fields: Fields, m: Message)
    ensures Decode(fields) == Some(m) <==> Has(fields, m)
  {
    match m
    case GenericMessage(success, id) => GenericFields(fields, success, id);
    case KeyResponseMessage(key) => KeyFields(fields, key);
    case _ => BareFields(fields);
  }

  function Wire(m: Message, json: Library): string {
    (json.render)(Encode(m))
  }

  function Unwire(frame: string, json: Library): Option<Message> {
    var fields := (json.parse)(frame);
    if fields.None? then None else Decode(fields.value)
  }

  /** Every message comes back from the wire as it was sent. */
  lemma WireRoundTrip(m: Message, json: Library)
    requires Faithful(json)
    ensures Unwire(Wire(m, json), json) == Some(m)
  {
    assert json.parse(json.render(Encode(m))) == Some(Encode(m));
    match m
    case _ =>
  }

  /** Different messages have different texts. */
  lemma WireIsInjective(a: Message, b: Message, json: Library)
    requires Faithful(json) && Wire(a, json) == Wire(b, json)
    ensures a == b
  {
    WireRoundTrip(a, json);
    WireRoundTrip(b, json);
  }

  // ---------------------------------------------------------------- receiving

  /** What `RecvMessage` comes to: a message of the expected type, nothing, or the end of the program. */
  datatype Received = Got(message: Message) | Nothing | Fault

  function Accept(frame: string, expected: MessageType, json: Library): Received {
    var m := Unwire(frame, json);
    if m.None? then Fault
    else if TypeOf(m.value) == expected then Got(m.value)
    else Nothing
  }

  /** A message is got iff the frame parses to its fields and it is expected; a frame that is no message is a fault. */
  lemma AcceptedIff(frame: string, expected: MessageType, m: Message, json: Library)
    ensures Accept(frame, expected, json) == Got(m) <==>
      json.parse(frame).Some? && Has(json.parse(frame).value, m) && TypeOf(m) == expected
    ensures Accept(frame, expected, json) == Fault <==>
      json.parse(frame).None? || forall n :: !Has(json.parse(frame).value, n)
  {
    if fields :| json.parse(frame) == Some(fields) {
      forall n ensures Decode(fields) == Some(n) <==> Has(fields, n) {
        ReadIffHasFields(fields, n);
      }
    }
  }

  /** A socket as the frames that can be received from it, the sender's identity ahead of each message. */
  class Socket {
    var frames: seq<string>

    /** Without an identity: one frame, or a timeout. */
    method RecvMessage(expected: MessageType, json: Library) returns (r: Received)
      modifies this
      ensures old(frames) == [] ==> r == Nothing && frames == []
      ensures old(frames) != [] ==> r == Accept(old(frames)[0], expected, json) && frames == old(frames)[1..]
    {
      if frames == [] {
        return Nothing;
      }
      var message := frames[0];
      frames := frames[1..];
      var fields := (json.parse)(message);
      if fields.None? {
        return Fault;
      }
      var msg := Decode(fields.value);
      if msg.None? {
        return Fault;
      }
      if TypeOf(msg.value) == expected {
        return Got(msg.value);
      }
      r := Nothing;
    }

    /** With an identity: a frame for the identity, then one for the message. */
    method RecvFrom(expected: MessageType, identity: string, json: Library) returns (from: string, r: Received)
      modifies this
      ensures (from, r, frames) == ReadFrom(old(frames), expected, identity, json)
    {
      from := identity;
      if frames == [] {
        return from, Nothing;
      }
      from := frames[0];
      frames := frames[1..];
      r := RecvMessage(expected, json);
    }

    method SendMessage(m: Message, json: Library)
      modifies this
      ensures frames == old(frames) + [Wire(m, json)]
    {
      frames := frames + [(json.render)(Encode(m))];
    }

    method SendTo(m: Message, identity: string, json: Library)
      modifies this
      ensures frames == old(frames) + Frames(Addressed(identity, m), json)
    {
      frames := frames + [identity];
      SendMessage(m, json);
    }
  }

  /** Reading a message with its identity: what is left in the identity, the outcome, the frames left. */
  function ReadFrom(frames: seq<string>, expected: MessageType, identity: string, json: Library)
    : (string, Received, seq<string>)
  {
    if |frames| == 0 then (identity, Nothing, frames)
    else if |frames| == 1 then (frames[0], Nothing, [])
    else (frames[0], Accept(frames[1], expected, json), frames[2..])
  }

  // ---------------------------------------------------------------- streams of messages

  datatype Addressed = Addressed(identity: string, message: Message)

  function Frames(a: Addressed, json: Library): seq<string> {
    [a.identity, Wire(a.message, json)]
  }

  function Flatten(messages: seq<Addressed>, json: Library): seq<string> {
    if messages == [] then [] else Frames(messages[0], json) + Flatten(messages[1..], json)
  }

  /** What a reader that expects these types one after the other gets, and the frames left. */
  function ReadAll(frames: seq<string>, expected: seq<MessageType>, json: Library)
    : (seq<(string, Received)>, seq<string>)
    decreases |expected|
  {
    if expected == [] then ([], frames)
    else
      var (identity, r, rest) := ReadFrom(frames, expected[0], "", json);
      var (more, left) := ReadAll(rest, expected[1..], json);
      ([(identity, r)] + more, left)
  }

  /** What a reader should get: every identity, and the message if it is of the expected type. */
  function Expected(a: Addressed, expected: MessageType): (string, Received) {
    (a.identity, if TypeOf(a.message) == expected then Got(a.message) else Nothing)
  }

  lemma AcceptWire(m: Message, expected: MessageType, json: Library)
    requires Faithful(json)
    ensures Accept(Wire(m, json), expected, json) == if TypeOf(m) == expected then Got(m) else Nothing
  {
    WireRoundTrip(m, json);
  }

  /**
    Whatever is sent and whatever the reader expects, every message is read with its own
    identity, comes back as it was sent if it is of the expected type, and is consumed
    whole if it is not; what follows is left as it is.
   */
  lemma {:induction false} ReadsInStep(messages: seq<Addressed>, expected: seq<MessageType>, after: seq<string>,
                                       json: Library)
    requires Faithful(json) && |messages| == |expected|
    ensures var (readings, left) := ReadAll(Flatten(messages, json) + after, expected, json);
      && |readings| == |messages| && left == after
      && forall i :: 0 <= i < |messages| ==> readings[i] == Expected(messages[i], expected[i])
    decreases |messages|
  {
    if messages == [] {
      assert Flatten(messages, json) + after == after;
    } else {
      var frames, rest := Flatten(messages, json) + after, Flatten(messages[1..], json) + after;
      AcceptWire(messages[0].message, expected[0], json);
      assert frames == [messages[0].identity] + ([Wire(messages[0].message, json)] + rest);
      assert frames[2..] == rest;
      ReadsInStep(messages[1..], expected[1..], after, json);
      forall i | 0 < i < |messages|
        ensures ReadAll(frames, expected, json).0[i] == ReadAll(rest, expected[1..], json).0[i - 1] {
      }
    }
  }
}
