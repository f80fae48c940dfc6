/**
  The server's ROUTER socket.  Two threads send on it without a lock, two frames a message; it
  takes the first frame of a message as the identity of the client that gets the rest.
 */
module Router {
  import opened Sequences
  import opened Framing

  /**
    A frame as it is sent: whether more frames follow, and whether a client of that identity can be routed to.
    The number of its message is kept to speak about it; the socket does not look at it.
   */
  datatype Part = Part(number: nat, text: string, more: bool, routable: bool)

  /**
    Between two messages, or inside one for a client, opened by the identity of the message with that
    number; the frames for an unknown client are dropped.
   */
  datatype Route = Between | Open(client: Option<string>, opener: nat)

  /** A frame that a client receives, the message whose identity it came after, and the message it belongs to. */
  datatype Delivery = Delivery(client: string, text: string, opener: nat, number: nat)

  /** A first frame that nothing follows is ignored. */
  function After(r: Route, p: Part): Route {
    if r.Open? then (if p.more then r else Between)
    else if p.more then Open(if p.routable then Some(p.text) else None, p.number)
    else Between
  }

  function Delivered(r: Route, p: Part): seq<Delivery> {
    if r.Open? && r.client.Some? then [Delivery(r.client.value, p.text, r.opener, p.number)] else []
  }

  function Deliver(r: Route, parts: seq<Part>): seq<Delivery>
    decreases |parts|
  {
    if parts == [] then [] else Delivered(r, parts[0]) + Deliver(After(r, parts[0]), parts[1..])
  }

  /** A numbered message for a client, and whether that client can be routed to when it is sent. */
  datatype Outgoing = Outgoing(number: nat, to: Addressed, routable: bool)

  function Parts(m: Outgoing, json: Library): seq<Part> {
    [Part(m.number, m.to.identity, true, m.routable), Part(m.number, Wire(m.to.message, json), false, true)]
  }

  /** The delivery of a message as it should be. */
  function OwnDelivery(m: Outgoing, json: Library): Delivery {
    Delivery(m.to.identity, Wire(m.to.message, json), m.number, m.number)
  }

  /** The frames of messages that are sent one after the other. */
  function Sending(ms: seq<Outgoing>, json: Library): seq<Part> {
    if ms == [] then [] else Parts(ms[0], json) + Sending(ms[1..], json)
  }

  /** The frames that a client receives. */
  function Inbox(ds: seq<Delivery>, client: string): seq<string> {
    if ds == [] then []
    else (if ds[0].client == client then [ds[0].text] else []) + Inbox(ds[1..], client)
  }

  /** The messages for a client that could be routed to when they were sent. */
  function MessagesFor(ms: seq<Outgoing>, client: string): seq<Message> {
    if ms == [] then []
    else
      (if ms[0].routable && ms[0].to.identity == client then [ms[0].to.message] else []) + MessagesFor(ms[1..], client)
  }

  /** The state after these frames. */
  function RouteFrom(r: Route, parts: seq<Part>): Route
    decreases |parts|
  {
    if parts == [] then r else RouteFrom(After(r, parts[0]), parts[1..])
  }

  lemma {:induction false} DeliverSnoc(r: Route, parts: seq<Part>, p: Part)
    ensures Deliver(r, parts + [p]) == Deliver(r, parts) + Delivered(RouteFrom(r, parts), p)
    decreases |parts|
  {
    if parts == [] {
      assert [p][1..] == [] && parts + [p] == [p];
    } else {
      assert (parts + [p])[0] == parts[0] && (parts + [p])[1..] == parts[1..] + [p];
      DeliverSnoc(After(r, parts[0]), parts[1..], p);
    }
  }

  lemma {:induction false} RouteFromSnoc(r: Route, parts: seq<Part>, p: Part)
    ensures RouteFrom(r, parts + [p]) == After(RouteFrom(r, parts), p)
    decreases |parts|
  {
    if parts == [] {
      assert [p][1..] == [] && parts + [p] == [p];
    } else {
      assert (parts + [p])[0] == parts[0] && (parts + [p])[1..] == parts[1..] + [p];
      RouteFromSnoc(After(r, parts[0]), parts[1..], p);
    }
  }

  /** The server's end of the socket; `sent` is every frame sent on it so far. */
  class RouterSocket {
    var route: Route
    var delivered: seq<Delivery>
    ghost var sent: seq<Part>

    ghost predicate Valid()
      reads this
    {
      route == RouteFrom(Between, sent) && delivered == Deliver(Between, sent)
    }

    constructor ()
      ensures Valid() && sent == [] && route == Between
    {
      route, delivered, sent := Between, [], [];
    }

    method Send(p: Part)
      requires Valid()
      modifies this
      ensures Valid() && sent == old(sent) + [p]
      ensures route == After(old(route), p) && delivered == old(delivered) + Delivered(old(route), p)
    {
      RouteFromSnoc(Between, sent, p);
      DeliverSnoc(Between, sent, p);
      delivered := delivered + Delivered(route, p);
      route := After(route, p);
      sent := sent + [p];
    }

    /** `SendMessage` with an identity: undisturbed, it delivers the message to that client alone, or drops it. */
    method SendTo(m: Outgoing, json: Library)
      requires Valid() && route == Between
      modifies this
      ensures Valid() && sent == old(sent) + Parts(m, json) && route == Between
      ensures delivered == old(delivered) +
        if m.routable then [OwnDelivery(m, json)] else []
    {
      Send(Part(m.number, m.to.identity, true, m.routable));
      Send(Part(m.number, (json.render)(Encode(m.to.message)), false, true));
    }
  }

  // ---------------------------------------------------------------- whole messages

  lemma DeliverTwo(r: Route, p: Part, q: Part, rest: seq<Part>)
    ensures Deliver(r, [p, q] + rest)
         == Delivered(r, p) + Delivered(After(r, p), q) + Deliver(After(After(r, p), q), rest)
  {
    assert ([p, q] + rest)[1..] == [q] + rest && ([q] + rest)[1..] == rest;
  }

  lemma {:induction false} InboxConcat(a: seq<Delivery>, b: seq<Delivery>, client: string)
    ensures Inbox(a + b, client) == Inbox(a, client) + Inbox(b, client)
  {
    if a == [] {
      assert a + b == b;
    } else {
      assert (a + b)[1..] == a[1..] + b;
      InboxConcat(a[1..], b, client);
    }
  }

  function Wires(messages: seq<Message>, json: Library): seq<string> {
    if messages == [] then [] else [Wire(messages[0], json)] + Wires(messages[1..], json)
  }

  lemma {:induction false} WiresAt(messages: seq<Message>, i: nat, json: Library)
    requires i < |messages|
    ensures |Wires(messages, json)| == |messages| && Wires(messages, json)[i] == Wire(messages[i], json)
  {
    if |messages| > 1 {
      WiresAt(messages[1..], if i == 0 then 0 else i - 1, json);
    }
  }

  lemma WiresConcat(first: seq<Message>, more: seq<Message>, json: Library)
    requires |first| <= 1
    ensures Wires(first + more, json) ==
      (if first == [] then [] else [Wire(first[0], json)]) + Wires(more, json)
  {
    if first == [] {
      assert first + more == more;
    } else {
      assert (first + more)[1..] == more;
    }
  }

  lemma DeliverOne(m: Outgoing, ms: seq<Outgoing>, client: string, json: Library)
    ensures Inbox(Deliver(Between, Parts(m, json) + Sending(ms, json)), client) ==
      (if m.routable && m.to.identity == client then [Wire(m.to.message, json)] else [])
      + Inbox(Deliver(Between, Sending(ms, json)), client)
  {
    var p, rest := Parts(m, json), Deliver(Between, Sending(ms, json));
    DeliverTwo(Between, p[0], p[1], Sending(ms, json));
    var first := if m.routable then [OwnDelivery(m, json)] else [];
    assert Deliver(Between, p + Sending(ms, json)) == first + rest;
    InboxConcat(first, rest, client);
  }

  /**
    Messages that are sent whole: every client receives exactly the messages for it that could be
    routed, in order, one frame each.
   */
  lemma {:induction false} WholeMessagesArrive(ms: seq<Outgoing>, client: string, json: Library)
    ensures Inbox(Deliver(Between, Sending(ms, json)), client) == Wires(MessagesFor(ms, client), json)
  {
    if ms != [] {
      DeliverOne(ms[0], ms[1..], client, json);
      WholeMessagesArrive(ms[1..], client, json);
      var first := if ms[0].routable && ms[0].to.identity == client then [ms[0].to.message] else [];
      WiresConcat(first, MessagesFor(ms[1..], client), json);
    }
  }

  /** And `RecvMessage` reads each of them as it was sent. */
  lemma {:induction false} WholeMessagesRead(ms: seq<Outgoing>, client: string, i: nat, expected: MessageType,
                                             json: Library)
    requires Faithful(json) && i < |MessagesFor(ms, client)|
    ensures var inbox, m := Inbox(Deliver(Between, Sending(ms, json)), client), MessagesFor(ms, client)[i];
      i < |inbox| && Accept(inbox[i], expected, json) == if TypeOf(m) == expected then Got(m) else Nothing
  {
    WholeMessagesArrive(ms, client, json);
    WiresAt(MessagesFor(ms, client), i, json);
    AcceptWire(MessagesFor(ms, client)[i], expected, json);
  }

  // ---------------------------------------------------------------- split messages

  /** No client receives a frame that ends its program. */
  ghost predicate NoFault(ds: seq<Delivery>, json: Library) {
    forall d :: d in ds ==> Unwire(d.text, json).Some?
  }

  /** This client receives none. */
  ghost predicate ClientReads(ds: seq<Delivery>, client: string, json: Library) {
    forall d :: d in ds && d.client == client ==> Unwire(d.text, json).Some?
  }

  /** What senders send: identities, which are no messages, with more to follow, and messages, which end. */
  ghost predicate Sendable(parts: seq<Part>, json: Library) {
    forall p :: p in parts ==> (p.more <==> Unwire(p.text, json).None?)
  }

  /** The identity of a message comes inside a message for this client. */
  predicate Intrudes(parts: seq<Part>, i: nat, client: string)
    requires i < |parts|
  {
    parts[i].more && RouteFrom(Between, parts[..i]).Open? && RouteFrom(Between, parts[..i]).client == Some(client)
  }

  lemma DeliveredFails(r: Route, p: Part, client: string, json: Library)
    requires p.more <==> Unwire(p.text, json).None?
    ensures ClientReads(Delivered(r, p), client, json) <==> !(p.more && r.Open? && r.client == Some(client))
  {
    var ds := Delivered(r, p);
    assert ds != [] ==> ds[0] in ds;
  }

  lemma ClientReadsConcat(a: seq<Delivery>, b: seq<Delivery>, client: string, json: Library)
    ensures ClientReads(a + b, client, json) <==> ClientReads(a, client, json) && ClientReads(b, client, json)
  {
    assert forall d :: d in a + b <==> d in a || d in b;
  }

  lemma IntrudesSnoc(parts: seq<Part>, client: string)
    requires parts != []
    ensures var n := |parts| - 1;
      (forall i :: 0 <= i < |parts| ==> !Intrudes(parts, i, client))
      <==> !Intrudes(parts, n, client) && forall i :: 0 <= i < n ==> !Intrudes(parts[..n], i, client)
  {
    var n := |parts| - 1;
    forall i | 0 <= i < n ensures Intrudes(parts, i, client) <==> Intrudes(parts[..n], i, client) {
      assert parts[..i] == parts[..n][..i];
    }
    if forall i :: 0 <= i < |parts| ==> !Intrudes(parts, i, client) {
      forall i | 0 <= i < n ensures !Intrudes(parts[..n], i, client) {
        assert !Intrudes(parts, i, client);
      }
    }
  }

  /**
    However the frames of the two threads are mixed, and whichever clients can be routed to: a client never
    fails iff no identity intrudes into a message for it.
   */
  lemma {:induction false} ClientFailsIffIntrusion(parts: seq<Part>, client: string, json: Library)
    requires Sendable(parts, json)
    ensures ClientReads(Deliver(Between, parts), client, json)
      <==> forall i :: 0 <= i < |parts| ==> !Intrudes(parts, i, client)
    decreases |parts|
  {
    if parts != [] {
      var n := |parts| - 1;
      var rest, last := parts[..n], parts[n];
      assert parts == rest + [last] && last in parts;
      ClientFailsIffIntrusion(rest, client, json);
      DeliverSnoc(Between, rest, last);
      DeliveredFails(RouteFrom(Between, rest), last, client, json);
      ClientReadsConcat(Deliver(Between, rest), Delivered(RouteFrom(Between, rest), last), client, json);
      IntrudesSnoc(parts, client);
    }
  }

  // ---------------------------------------------------------------- two threads, every client routable

  /** `m` has the members of `a` and of `b`, each in their order. */
  ghost predicate Interleaving<T>(a: seq<T>, b: seq<T>, m: seq<T>)
    decreases |m|
  {
    if m == [] then a == [] && b == []
    else
      || (a != [] && a[0] == m[0] && Interleaving(a[1..], b, m[1..]))
      || (b != [] && b[0] == m[0] && Interleaving(a, b[1..], m[1..]))
  }

  lemma {:induction false} InterleavingSwap<T>(a: seq<T>, b: seq<T>, m: seq<T>)
    requires Interleaving(a, b, m)
    ensures Interleaving(b, a, m)
    decreases |m|
  {
    if m != [] {
      if a != [] && a[0] == m[0] && Interleaving(a[1..], b, m[1..]) {
        InterleavingSwap(a[1..], b, m[1..]);
      } else {
        InterleavingSwap(a, b[1..], m[1..]);
      }
    }
  }

  /** All clients can be routed to, and no identity is mistaken for a message. */
  ghost predicate Plain(ms: seq<Outgoing>, json: Library) {
    forall m :: m in ms ==> m.routable && Unwire(m.to.identity, json).None?
  }

  lemma {:induction false} WholeMessagesDoNotFail(ms: seq<Outgoing>, json: Library)
    requires Faithful(json)
    ensures NoFault(Deliver(Between, Sending(ms, json)), json)
  {
    if ms != [] {
      var m := ms[0];
      WireRoundTrip(m.to.message, json);
      DeliverTwo(Between, Parts(m, json)[0], Parts(m, json)[1], Sending(ms[1..], json));
      WholeMessagesDoNotFail(ms[1..], json);
    }
  }

  /** An identity of `a` comes first; if no client fails, its message comes next. */
  lemma FirstWhole(a: seq<Outgoing>, b: seq<Outgoing>, parts: seq<Part>, json: Library)
    requires a != [] && parts != [] && Plain(a, json) && Plain(b, json)
    requires NoFault(Deliver(Between, parts), json)
    requires Sending(a, json)[0] == parts[0] && Interleaving(Sending(a, json)[1..], Sending(b, json), parts[1..])
    ensures |parts| >= 2 && parts[..2] == Parts(a[0], json)
    ensures Interleaving(Sending(a[1..], json), Sending(b, json), parts[2..])
    ensures NoFault(Deliver(Between, parts[2..]), json)
  {
    var body := Sending(a, json)[1..];
    assert a[0] in a && body[0] == Parts(a[0], json)[1] && body[1..] == Sending(a[1..], json);
    assert parts[1..][0] == parts[1] && parts[1..][1..] == parts[2..];
    assert parts == [parts[0], parts[1]] + parts[2..];
    DeliverTwo(Between, parts[0], parts[1], parts[2..]);
    var ds := Deliver(Between, parts);
    assert ds[0] == Delivery(a[0].to.identity, parts[1].text, a[0].number, parts[1].number) && ds[0] in ds;
    if b != [] {
      assert b[0] in b && Sending(b, json)[0].text == b[0].to.identity;
    }
    assert parts[1] == body[0];
    assert forall d :: d in Deliver(Between, parts[2..]) ==> d in ds;
  }

  lemma Prefixed(x: Outgoing, more: seq<Outgoing>, a: seq<Outgoing>, b: seq<Outgoing>, parts: seq<Part>, json: Library)
    returns (merged: seq<Outgoing>)
    requires Interleaving(a, b, more) && |parts| >= 2
    requires parts[..2] == Parts(x, json) && parts[2..] == Sending(more, json)
    ensures Interleaving([x] + a, b, merged) && parts == Sending(merged, json)
  {
    merged := [x] + more;
    assert ([x] + a)[1..] == a && merged[1..] == more;
    assert parts == parts[..2] + parts[2..];
  }

  lemma {:induction false} MergedMessages(a: seq<Outgoing>, b: seq<Outgoing>, parts: seq<Part>, json: Library)
    returns (merged: seq<Outgoing>)
    requires Plain(a, json) && Plain(b, json) && Interleaving(Sending(a, json), Sending(b, json), parts)
    requires NoFault(Deliver(Between, parts), json)
    ensures Interleaving(a, b, merged) && parts == Sending(merged, json)
    decreases |parts|
  {
    if parts == [] {
      assert a == [] && b == [];
      merged := [];
    } else if a != [] && Sending(a, json)[0] == parts[0]
           && Interleaving(Sending(a, json)[1..], Sending(b, json), parts[1..]) {
      FirstWhole(a, b, parts, json);
      var more := MergedMessages(a[1..], b, parts[2..], json);
      merged := Prefixed(a[0], more, a[1..], b, parts, json);
      assert a == [a[0]] + a[1..];
    } else {
      InterleavingSwap(Sending(a, json), Sending(b, json)[1..], parts[1..]);
      FirstWhole(b, a, parts, json);
      InterleavingSwap(Sending(b[1..], json), Sending(a, json), parts[2..]);
      var more := MergedMessages(a, b[1..], parts[2..], json);
      InterleavingSwap(a, b[1..], more);
      merged := Prefixed(b[0], more, b[1..], a, parts, json);
      assert b == [b[0]] + b[1..];
      InterleavingSwap(b, a, merged);
    }
  }

  /**
    While every client can be routed to: no client fails iff no message was split, that is, iff the frames
    are those of an interleaving of the two threads' messages.
   */
  lemma {:induction false} SplitMessagesFault(a: seq<Outgoing>, b: seq<Outgoing>, parts: seq<Part>, json: Library)
    requires Faithful(json) && Plain(a, json) && Plain(b, json)
    requires Interleaving(Sending(a, json), Sending(b, json), parts)
    ensures NoFault(Deliver(Between, parts), json)
      <==> exists merged :: Interleaving(a, b, merged) && parts == Sending(merged, json)
  {
    if NoFault(Deliver(Between, parts), json) {
      var merged := MergedMessages(a, b, parts, json);
    }
    if merged :| Interleaving(a, b, merged) && parts == Sending(merged, json) {
      WholeMessagesDoNotFail(merged, json);
    }
  }

  // ---------------------------------------------------------------- correct delivery

  /**
    Every frame that a client gets belongs to the message whose identity opened the way to it, and
    every message whose client can be routed to gets to that client.
   */
  ghost predicate Correct(parts: seq<Part>) {
    CorrectFrom(Between, parts)
  }

  ghost predicate CorrectFrom(r: Route, parts: seq<Part>) {
    && NoneMisled(Deliver(r, parts))
    && forall p :: p in parts && p.more && p.routable ==> Arrives(Deliver(r, parts), p)
  }

  ghost predicate NoneMisled(ds: seq<Delivery>) {
    forall d :: d in ds ==> d.opener == d.number
  }

  ghost predicate Arrives(ds: seq<Delivery>, p: Part) {
    exists d :: d in ds && d.client == p.text && d.number == p.number
  }

  /** Every message whose client can be routed to is begun between two messages and ended at once. */
  ghost predicate Whole(parts: seq<Part>) {
    WholeFrom(Between, parts)
  }

  ghost predicate WholeFrom(r: Route, parts: seq<Part>) {
    forall i :: 0 <= i < |parts| ==> SentWhole(r, parts, i)
  }

  predicate SentWhole(r: Route, parts: seq<Part>, i: nat)
    requires i < |parts|
  {
    parts[i].more && parts[i].routable ==>
      && RouteFrom(r, parts[..i]) == Between
      && i + 1 < |parts| && parts[i + 1].number == parts[i].number && !parts[i + 1].more
  }

  /** Of every message first the identity, once, then the rest, once; `pending` is begun, `used` are all so far. */
  ghost predicate WellSent(parts: seq<Part>, pending: set<nat>, used: set<nat>)
    decreases |parts|
  {
    if parts == [] then pending == {}
    else
      var n := parts[0].number;
      if parts[0].more then n !in used && WellSent(parts[1..], pending + {n}, used + {n})
      else n in pending && WellSent(parts[1..], pending - {n}, used)
  }

  lemma WholeStep(r: Route, parts: seq<Part>)
    requires parts != []
    ensures WholeFrom(r, parts) <==> SentWhole(r, parts, 0) && WholeFrom(After(r, parts[0]), parts[1..])
  {
    var t, rest := After(r, parts[0]), parts[1..];
    forall i | 0 <= i < |rest| ensures SentWhole(r, parts, i + 1) <==> SentWhole(t, rest, i) {
      assert parts[..i + 1][1..] == rest[..i];
    }
    if WholeFrom(r, parts) {
      forall i | 0 <= i < |rest| ensures SentWhole(t, rest, i) {
        assert SentWhole(r, parts, i + 1);
      }
    }
    if SentWhole(r, parts, 0) && WholeFrom(t, rest) {
      forall i | 0 <= i < |parts| ensures SentWhole(r, parts, i) {
        assert i > 0 ==> SentWhole(t, rest, i - 1);
      }
    }
  }

  /** No delivery. */
  predicate Idle(r: Route) {
    r == Between || r.client.None?
  }

  /** What is delivered later has been opened by an identity that is still to come. */
  lemma {:induction false} OpenedLater(r: Route, parts: seq<Part>, pending: set<nat>, used: set<nat>, d: Delivery)
    requires WellSent(parts, pending, used) && d in Deliver(r, parts)
    ensures d.opener !in used || (!Idle(r) && d.opener == r.opener)
    decreases |parts|
  {
    var p, rest := parts[0], parts[1..];
    if d !in Delivered(r, p) {
      assert d in Deliver(After(r, p), rest);
      if p.more {
        OpenedLater(After(r, p), rest, pending + {p.number}, used + {p.number}, d);
      } else {
        OpenedLater(After(r, p), rest, pending - {p.number}, used, d);
      }
    }
  }

  lemma {:induction false} IdentitiesAreNew(parts: seq<Part>, pending: set<nat>, used: set<nat>, p: Part)
    requires WellSent(parts, pending, used) && p in parts && p.more
    ensures p.number !in used
    decreases |parts|
  {
    if parts[0] != p {
      assert p in parts[1..];
      var n := parts[0].number;
      if parts[0].more {
        IdentitiesAreNew(parts[1..], pending + {n}, used + {n}, p);
      } else {
        IdentitiesAreNew(parts[1..], pending - {n}, used, p);
      }
    }
  }

  /** A frame that is dropped and is no identity of a client that can be routed to makes no difference. */
  lemma DroppedFrame(r: Route, parts: seq<Part>)
    requires parts != [] && Idle(r) && !(parts[0].more && parts[0].routable)
    ensures Idle(After(r, parts[0]))
    ensures CorrectFrom(r, parts) <==> CorrectFrom(After(r, parts[0]), parts[1..])
    ensures WholeFrom(r, parts) <==> WholeFrom(After(r, parts[0]), parts[1..])
  {
    WholeStep(r, parts);
    assert Deliver(r, parts) == Deliver(After(r, parts[0]), parts[1..]);
    assert forall p :: p in parts <==> p == parts[0] || p in parts[1..];
  }

  /** An identity inside a message that is dropped is lost. */
  lemma LostIdentity(r: Route, parts: seq<Part>, pending: set<nat>, used: set<nat>)
    requires WellSent(parts, pending, used) && parts != [] && parts[0].more && parts[0].routable
    requires r.Open? && r.client.None?
    ensures !CorrectFrom(r, parts) && !WholeFrom(r, parts)
  {
    var p := parts[0];
    assert !SentWhole(r, parts, 0);
    if CorrectFrom(r, parts) {
      assert p in parts && Arrives(Deliver(r, parts), p);
      var d :| d in Deliver(r, parts) && d.client == p.text && d.number == p.number;
      assert Deliver(r, parts) == Deliver(r, parts[1..]);
      OpenedLater(r, parts[1..], pending + {p.number}, used + {p.number}, d);
      assert false;
    }
  }

  /** After an identity that opens the way: its own message comes next, and the rest is right in itself. */
  lemma OpenedWay(parts: seq<Part>, pending: set<nat>, used: set<nat>)
    requires WellSent(parts, pending, used) && pending <= used
    requires parts != [] && parts[0].more && parts[0].routable
    ensures |parts| >= 2
    ensures var own := parts[1].number == parts[0].number && !parts[1].more;
      && (CorrectFrom(Between, parts) <==> own && CorrectFrom(Between, parts[2..]))
      && (WholeFrom(Between, parts) <==> own && WholeFrom(Between, parts[2..]))
      && (own ==> WellSent(parts[2..], pending, used + {parts[0].number}))
  {
    var p, n := parts[0], parts[0].number;
    assert |parts| >= 2 by {
      assert n in pending + {n};
    }
    var q, rest := parts[1], parts[2..];
    assert parts == [p, q] + rest && parts[1..][1..] == rest;
    DeliverTwo(Between, p, q, rest);
    var first := Delivery(p.text, q.text, n, q.number);
    assert q.more ==> q.number != n;
    if !(q.number == n && !q.more) {
      assert first in Deliver(Between, parts);
      assert !SentWhole(Between, parts, 0);
    } else {
      assert pending + {n} - {n} == pending;
      OwnMessage(p, q, rest, pending, used + {n});
      WholeStep(Between, parts);
      WholeStep(After(Between, p), parts[1..]);
      assert SentWhole(Between, parts, 0) && SentWhole(After(Between, p), parts[1..], 0);
    }
  }

  lemma OwnMessage(p: Part, q: Part, rest: seq<Part>, pending: set<nat>, used: set<nat>)
    requires p.more && p.routable && !q.more && q.number == p.number && p.number in used
    requires WellSent(rest, pending, used)
    ensures CorrectFrom(Between, [p, q] + rest) <==> CorrectFrom(Between, rest)
  {
    var parts, first := [p, q] + rest, Delivery(p.text, q.text, p.number, q.number);
    var ds, more := Deliver(Between, parts), Deliver(Between, rest);
    DeliverTwo(Between, p, q, rest);
    assert ds == [first] + more;
    assert forall d :: d in ds <==> d == first || d in more;
    forall x | x in rest && x.more && x.routable ensures Arrives(ds, x) <==> Arrives(more, x) {
      IdentitiesAreNew(rest, pending, used, x);
    }
    assert Arrives(ds, p) by {
      assert first in ds;
    }
    assert forall x :: x in parts <==> x == p || x == q || x in rest;
    if CorrectFrom(Between, parts) {
      assert forall x :: x in rest && x.more && x.routable ==> x in parts && Arrives(ds, x);
    }
  }

  lemma {:induction false} CorrectIffWholeFrom(r: Route, parts: seq<Part>, pending: set<nat>, used: set<nat>)
    requires WellSent(parts, pending, used) && pending <= used && Idle(r)
    ensures CorrectFrom(r, parts) <==> WholeFrom(r, parts)
    decreases |parts|
  {
    if parts != [] {
      var p := parts[0];
      if !(p.more && p.routable) {
        DroppedFrame(r, parts);
        if p.more {
          CorrectIffWholeFrom(After(r, p), parts[1..], pending + {p.number}, used + {p.number});
        } else {
          CorrectIffWholeFrom(After(r, p), parts[1..], pending - {p.number}, used);
        }
      } else if r.Open? {
        LostIdentity(r, parts, pending, used);
      } else {
        OpenedWay(parts, pending, used);
        if parts[1].number == p.number && !parts[1].more {
          CorrectIffWholeFrom(Between, parts[2..], pending, used + {p.number});
        }
      }
    }
  }

  // ---------------------------------------------------------------- the frames of two threads

  /** All messages have different numbers, and none of these. */
  ghost predicate Apart(a: seq<Outgoing>, b: seq<Outgoing>, used: set<nat>) {
    && (forall i, j :: 0 <= i < j < |a| ==> a[i].number != a[j].number)
    && (forall i, j :: 0 <= i < j < |b| ==> b[i].number != b[j].number)
    && (forall i, j :: 0 <= i < |a| && 0 <= j < |b| ==> a[i].number != b[j].number)
    && (forall i :: 0 <= i < |a| ==> a[i].number !in used)
    && (forall i :: 0 <= i < |b| ==> b[i].number !in used)
  }

  /** What a thread still has to send: perhaps the rest of a message, and then messages. */
  datatype Thread = Thread(begun: Option<Outgoing>, next: seq<Outgoing>)
  {
    function Frames(json: Library): seq<Part> {
      (if begun.Some? then [Parts(begun.value, json)[1]] else []) + Sending(next, json)
    }

    function Pending(): set<nat> {
      if begun.Some? then {begun.value.number} else {}
    }

    /** After its next frame. */
    function Advanced(): Thread
      requires begun.Some? || next != []
    {
      if begun.Some? then Thread(None, next) else Thread(Some(next[0]), next[1..])
    }
  }

  lemma ThreadSends(t: Thread, json: Library)
    requires t.Frames(json) != []
    ensures t.begun.Some? || t.next != []
    ensures t.Frames(json)[1..] == t.Advanced().Frames(json)
    ensures var p := t.Frames(json)[0];
      if t.begun.Some? then !p.more && p.number == t.begun.value.number
      else p.more && p.number == t.next[0].number
  {
    if t.begun.None? {
      assert t.Frames(json) == Sending(t.next, json);
      assert t.Frames(json)[1..] == [Parts(t.next[0], json)[1]] + Sending(t.next[1..], json);
    }
  }

  ghost predicate Ready(t: Thread, u: Thread, used: set<nat>) {
    Apart(t.next, u.next, used) && t.Pending() !! u.Pending() && t.Pending() + u.Pending() <= used
  }

  lemma ReadyAfter(t: Thread, u: Thread, used: set<nat>)
    requires Ready(t, u, used) && (t.begun.Some? || t.next != [])
    ensures t.begun.Some? ==> Ready(t.Advanced(), u, used)
    ensures t.begun.None? ==> Ready(t.Advanced(), u, used + {t.next[0].number})
  {
  }

  lemma {:induction false} ThreadsWellSent(t: Thread, u: Thread, parts: seq<Part>, used: set<nat>, json: Library)
    requires Interleaving(t.Frames(json), u.Frames(json), parts) && Ready(t, u, used)
    ensures WellSent(parts, t.Pending() + u.Pending(), used)
    decreases |parts|
  {
    if parts == [] {
      assert t.begun.None? && u.begun.None?;
    } else if t.Frames(json) != [] && t.Frames(json)[0] == parts[0]
           && Interleaving(t.Frames(json)[1..], u.Frames(json), parts[1..]) {
      OneSends(t, u, parts, used, json);
    } else {
      InterleavingSwap(t.Frames(json), u.Frames(json)[1..], parts[1..]);
      OneSends(u, t, parts, used, json);
      assert t.Pending() + u.Pending() == u.Pending() + t.Pending();
    }
  }

  lemma {:induction false} OneSends(t: Thread, u: Thread, parts: seq<Part>, used: set<nat>, json: Library)
    requires parts != [] && t.Frames(json) != [] && t.Frames(json)[0] == parts[0]
    requires Interleaving(t.Frames(json)[1..], u.Frames(json), parts[1..])
    requires Ready(t, u, used)
    ensures WellSent(parts, t.Pending() + u.Pending(), used)
    decreases |parts|, 0
  {
    var n, both := parts[0].number, t.Pending() + u.Pending();
    ThreadSends(t, json);
    ReadyAfter(t, u, used);
    if t.begun.Some? {
      ThreadsWellSent(t.Advanced(), u, parts[1..], used, json);
      assert t.Advanced().Pending() + u.Pending() == both - {n};
    } else {
      ThreadsWellSent(t.Advanced(), u, parts[1..], used + {n}, json);
      assert t.Advanced().Pending() + u.Pending() == both + {n};
    }
  }

  lemma TwoThreadsWellSent(a: seq<Outgoing>, b: seq<Outgoing>, parts: seq<Part>, json: Library)
    requires Interleaving(Sending(a, json), Sending(b, json), parts) && Apart(a, b, {})
    ensures WellSent(parts, {}, {})
  {
    var t, u := Thread(None, a), Thread(None, b);
    assert t.Frames(json) == Sending(a, json) && u.Frames(json) == Sending(b, json);
    assert t.Pending() + u.Pending() == {};
    ThreadsWellSent(t, u, parts, {}, json);
  }

  /**
    The frames of two threads in any mix, with any clients that can be routed to: every frame reaches the
    client of its own message, and every message whose client can be routed to arrives, if and only if
    no such message is begun inside another one and none is interrupted.
   */
  lemma {:induction false} CorrectIffWhole(a: seq<Outgoing>, b: seq<Outgoing>, parts: seq<Part>, json: Library)
    requires Interleaving(Sending(a, json), Sending(b, json), parts) && Apart(a, b, {})
    ensures Correct(parts) <==> Whole(parts)
  {
    TwoThreadsWellSent(a, b, parts, json);
    CorrectIffWholeFrom(Between, parts, {}, {});
  }

  // ---------------------------------------------------------------- what correct delivery delivers

  /** The delivery is that of one of the messages, as it should be. */
  ghost predicate IsOwnDelivery(d: Delivery, ms: seq<Outgoing>, json: Library) {
    exists m :: m in ms && m.routable && d == OwnDelivery(m, json)
  }

  /** The clients get just the messages for those of them that can be routed to. */
  ghost predicate ExactlyOwnDeliveries(ds: seq<Delivery>, ms: seq<Outgoing>, json: Library) {
    forall d :: d in ds <==> IsOwnDelivery(d, ms, json)
  }

  ghost predicate FrameOf(p: Part, m: Outgoing, json: Library) {
    p == Parts(m, json)[0] || p == Parts(m, json)[1]
  }

  lemma {:induction false} SendingMembers(ms: seq<Outgoing>, p: Part, json: Library)
    ensures p in Sending(ms, json) <==> exists m :: m in ms && FrameOf(p, m, json)
  {
    if ms != [] {
      SendingMembers(ms[1..], p, json);
      assert ms == [ms[0]] + ms[1..];
      assert p in Parts(ms[0], json) <==> FrameOf(p, ms[0], json);
    }
  }

  lemma {:induction false} InterleavingMembers<T>(a: seq<T>, b: seq<T>, m: seq<T>, x: T)
    requires Interleaving(a, b, m)
    ensures x in m <==> x in a || x in b
    decreases |m|
  {
    if m != [] {
      if a != [] && a[0] == m[0] && Interleaving(a[1..], b, m[1..]) {
        InterleavingMembers(a[1..], b, m[1..], x);
      } else {
        InterleavingMembers(a, b[1..], m[1..], x);
      }
    }
  }

  lemma FramesOfMessages(a: seq<Outgoing>, b: seq<Outgoing>, parts: seq<Part>, p: Part, json: Library)
    requires Interleaving(Sending(a, json), Sending(b, json), parts)
    ensures p in parts <==> exists m :: m in a + b && FrameOf(p, m, json)
  {
    InterleavingMembers(Sending(a, json), Sending(b, json), parts, p);
    SendingMembers(a, p, json);
    SendingMembers(b, p, json);
    assert forall m :: m in a + b <==> m in a || m in b;
  }

  /** A delivery comes from two frames: an identity, or the open route, and another one. */
  ghost predicate Origin(d: Delivery, p: Part, q: Part) {
    && p.more && p.routable && d.client == p.text && d.opener == p.number
    && d.text == q.text && d.number == q.number && (q.more ==> q.number != p.number)
  }

  lemma {:induction false} DeliveryOrigin(r: Route, parts: seq<Part>, pending: set<nat>, used: set<nat>, d: Delivery,
                                          from: Part)
    returns (p: Part, q: Part)
    requires WellSent(parts, pending, used) && d in Deliver(r, parts)
    requires Idle(r) || (from.more && from.routable && r == Open(Some(from.text), from.number) && from.number in used)
    ensures (p in parts || (!Idle(r) && p == from)) && q in parts && Origin(d, p, q)
    decreases |parts|
  {
    var first, rest := parts[0], parts[1..];
    if d in Delivered(r, first) {
      p, q := from, first;
    } else {
      assert d in Deliver(After(r, first), rest);
      var way := if r == Between then first else from;
      if first.more {
        p, q := DeliveryOrigin(After(r, first), rest, pending + {first.number}, used + {first.number}, d, way);
      } else {
        p, q := DeliveryOrigin(After(r, first), rest, pending - {first.number}, used, d, way);
      }
    }
  }

  lemma SameMessage(a: seq<Outgoing>, b: seq<Outgoing>, m: Outgoing, n: Outgoing)
    requires Apart(a, b, {}) && m in a + b && n in a + b && m.number == n.number
    ensures m == n
  {
    var i :| 0 <= i < |a + b| && (a + b)[i] == m;
    var j :| 0 <= j < |a + b| && (a + b)[j] == n;
    assert i < |a| ==> a[i] == m;
    assert j < |a| ==> a[j] == n;
    assert i >= |a| ==> b[i - |a|] == m;
    assert j >= |a| ==> b[j - |a|] == n;
  }

  lemma OwnDeliveryArrives(a: seq<Outgoing>, b: seq<Outgoing>, parts: seq<Part>, d: Delivery, json: Library)
    requires Interleaving(Sending(a, json), Sending(b, json), parts) && Apart(a, b, {})
    requires d in Deliver(Between, parts) && d.opener == d.number
    ensures IsOwnDelivery(d, a + b, json)
  {
    TwoThreadsWellSent(a, b, parts, json);
    var p, q := DeliveryOrigin(Between, parts, {}, {}, d, parts[0]);
    FramesOfMessages(a, b, parts, p, json);
    FramesOfMessages(a, b, parts, q, json);
    var m :| m in a + b && FrameOf(p, m, json);
    var n :| n in a + b && FrameOf(q, n, json);
    SameMessage(a, b, m, n);
    assert d == OwnDelivery(m, json);
  }

  lemma CorrectIffExact(a: seq<Outgoing>, b: seq<Outgoing>, parts: seq<Part>, json: Library)
    requires Interleaving(Sending(a, json), Sending(b, json), parts) && Apart(a, b, {})
    ensures Correct(parts) <==> ExactlyOwnDeliveries(Deliver(Between, parts), a + b, json)
  {
    var ds := Deliver(Between, parts);
    if Correct(parts) {
      forall d ensures d in ds <==> IsOwnDelivery(d, a + b, json) {
        if d in ds {
          OwnDeliveryArrives(a, b, parts, d, json);
        }
        if m :| m in a + b && m.routable && d == OwnDelivery(m, json) {
          MessageArrives(a, b, parts, m, json);
        }
      }
    }
    if ExactlyOwnDeliveries(ds, a + b, json) {
      assert NoneMisled(ds);
      forall p | p in parts && p.more && p.routable ensures Arrives(ds, p) {
        FramesOfMessages(a, b, parts, p, json);
        var m :| m in a + b && FrameOf(p, m, json);
        assert IsOwnDelivery(OwnDelivery(m, json), a + b, json);
      }
    }
  }

  lemma MessageArrives(a: seq<Outgoing>, b: seq<Outgoing>, parts: seq<Part>, m: Outgoing, json: Library)
    requires Interleaving(Sending(a, json), Sending(b, json), parts) && Apart(a, b, {})
    requires Correct(parts) && m in a + b && m.routable
    ensures OwnDelivery(m, json) in Deliver(Between, parts)
  {
    var ds, p := Deliver(Between, parts), Parts(m, json)[0];
    assert FrameOf(p, m, json);
    FramesOfMessages(a, b, parts, p, json);
    assert Arrives(ds, p);
    var d :| d in ds && d.client == p.text && d.number == p.number;
    OwnDeliveryArrives(a, b, parts, d, json);
    var n :| n in a + b && n.routable && d == OwnDelivery(n, json);
    SameMessage(a, b, m, n);
  }

  /**
    The frames of two threads in any mix, with any clients that can be routed to: the clients get exactly the
    messages for those of them that can be routed to, each as it was sent, if and only if no such
    message is begun inside another one and none is interrupted.
   */
  lemma {:induction false} DeliveredIffWhole(a: seq<Outgoing>, b: seq<Outgoing>, parts: seq<Part>, json: Library)
    requires Interleaving(Sending(a, json), Sending(b, json), parts) && Apart(a, b, {})
    ensures ExactlyOwnDeliveries(Deliver(Between, parts), a + b, json) <==> Whole(parts)
  {
    CorrectIffExact(a, b, parts, json);
    CorrectIffWhole(a, b, parts, json);
  }

  // ---------------------------------------------------------------- what splitting does

  lemma DeliverFour(p: Part, q: Part, r: Part, s: Part)
    requires p.more && q.more && !r.more && !s.more
    ensures Deliver(Between, [p, q, r, s])
         == if p.routable then
              [Delivery(p.text, q.text, p.number, q.number), Delivery(p.text, r.text, p.number, r.number)]
            else []
  {
    assert [p, q, r, s] == [p, q] + [r, s] && [r, s] == [r, s] + [];
    DeliverTwo(Between, p, q, [r, s]);
    DeliverTwo(After(After(Between, p), q), r, s, []);
  }

  /** The frames of two messages, the second inside the first. */
  function SplitFrames(x: Outgoing, y: Outgoing, json: Library): seq<Part> {
    [Parts(x, json)[0], Parts(y, json)[0], Parts(y, json)[1], Parts(x, json)[1]]
  }

  lemma SplitIsPossible(x: Outgoing, y: Outgoing, json: Library)
    ensures Interleaving(Sending([x], json), Sending([y], json), SplitFrames(x, y, json))
  {
    var p, q := Parts(x, json), Parts(y, json);
    var parts := SplitFrames(x, y, json);
    assert Sending([x], json) == p && Sending([y], json) == q;
    assert parts[1..] == [q[0], q[1], p[1]] && parts[2..] == [q[1], p[1]] && parts[3..] == [p[1]] && parts[4..] == [];
    assert p[1..] == [p[1]] && q[1..] == [q[1]] && [p[1]][1..] == [] && [q[1]][1..] == [];
    assert Interleaving([p[1]], [], [p[1]]);
    assert [q[1], p[1]][1..] == [p[1]] && Interleaving([p[1]], [q[1]], [q[1], p[1]]);
    assert [q[0], q[1], p[1]][1..] == [q[1], p[1]] && Interleaving([p[1]], q, [q[0], q[1], p[1]]);
  }

  /** A split that ends a client: it gets the other identity as a message, and the other client gets nothing. */
  lemma {:induction false} SplitEndsClient(x: Outgoing, y: Outgoing, json: Library)
    requires x.routable && Unwire(y.to.identity, json).None? && x.to.identity != y.to.identity
    ensures Interleaving(Sending([x], json), Sending([y], json), SplitFrames(x, y, json))
    ensures var ds := Deliver(Between, SplitFrames(x, y, json));
      && !NoFault(ds, json)
      && Inbox(ds, x.to.identity) == [y.to.identity, Wire(y.to.message, json)] && Inbox(ds, y.to.identity) == []
  {
    SplitIsPossible(x, y, json);
    var p, q := Parts(x, json), Parts(y, json);
    DeliverFour(p[0], q[0], q[1], p[1]);
    var ds := Deliver(Between, SplitFrames(x, y, json));
    assert ds[0] in ds;
    assert ds == [ds[0]] + [ds[1]];
    InboxConcat([ds[0]], [ds[1]], x.to.identity);
    InboxConcat([ds[0]], [ds[1]], y.to.identity);
  }

  /** A split that nobody notices: with the first client gone, the message for the second is lost as well. */
  lemma {:induction false} SplitVanishes(x: Outgoing, y: Outgoing, json: Library)
    requires !x.routable
    ensures Interleaving(Sending([x], json), Sending([y], json), SplitFrames(x, y, json))
    ensures Deliver(Between, SplitFrames(x, y, json)) == []
    ensures y.routable && x.number != y.number ==> !Whole(SplitFrames(x, y, json)) && !Correct(SplitFrames(x, y, json))
  {
    SplitIsPossible(x, y, json);
    var p, q, parts := Parts(x, json), Parts(y, json), SplitFrames(x, y, json);
    DeliverFour(p[0], q[0], q[1], p[1]);
    if y.routable && x.number != y.number {
      CorrectIffWhole([x], [y], parts, json);
      assert parts[..1] == [p[0]] && [p[0]][1..] == [];
      assert !SentWhole(Between, parts, 1);
    }
  }

  /** The frames of three messages of which the second and third come inside the first and each other. */
  function MixedFrames(x: Outgoing, y: Outgoing, z: Outgoing, json: Library): seq<Part> {
    var p, q, r := Parts(x, json), Parts(y, json), Parts(z, json);
    [p[0], q[0], q[1], r[0], p[1], r[1]]
  }

  lemma MixIsPossible(x: Outgoing, y: Outgoing, z: Outgoing, json: Library)
    ensures Interleaving(Sending([x], json), Sending([y, z], json), MixedFrames(x, y, z, json))
  {
    var p, q, r := Parts(x, json), Parts(y, json), Parts(z, json);
    assert Sending([x], json) == p;
    assert [y, z][1..] == [z] && Sending([z], json) == r && Sending([y, z], json) == [q[0], q[1], r[0], r[1]];
    assert p[1..] == [p[1]] && [p[1]][1..] == [] && [r[1]][1..] == [];
    assert Interleaving([], [r[1]], [r[1]]);
    assert [p[1], r[1]][1..] == [r[1]] && Interleaving([p[1]], [r[1]], [p[1], r[1]]);
    assert [r[0], p[1], r[1]][1..] == [p[1], r[1]] && [r[0], r[1]][1..] == [r[1]];
    assert Interleaving([p[1]], [r[0], r[1]], [r[0], p[1], r[1]]);
    assert [q[1], r[0], p[1], r[1]][1..] == [r[0], p[1], r[1]] && [q[1], r[0], r[1]][1..] == [r[0], r[1]];
    assert Interleaving([p[1]], [q[1], r[0], r[1]], [q[1], r[0], p[1], r[1]]);
    var rest := [q[0], q[1], r[0], p[1], r[1]];
    assert rest[1..] == [q[1], r[0], p[1], r[1]] && [q[0], q[1], r[0], r[1]][1..] == [q[1], r[0], r[1]];
    assert Interleaving([p[1]], [q[0], q[1], r[0], r[1]], rest);
    assert MixedFrames(x, y, z, json)[1..] == rest;
  }

  lemma DeliverSix(p: Part, q: Part, r: Part, s: Part, t: Part, u: Part)
    requires p.more && q.more && !r.more && s.more && !t.more && !u.more && !p.routable && s.routable
    ensures Deliver(Between, [p, q, r, s, t, u]) == [Delivery(s.text, t.text, s.number, t.number)]
  {
    assert [p, q, r, s, t, u] == [p, q] + [r, s, t, u] && [r, s, t, u] == [r, s] + [t, u] && [t, u] == [t, u] + [];
    DeliverTwo(Between, p, q, [r, s, t, u]);
    DeliverTwo(Open(None, p.number), r, s, [t, u]);
    DeliverTwo(Open(Some(s.text), s.number), t, u, []);
  }

  /** And one that misleads: with the first client gone, its message is read by the client that comes third. */
  lemma {:induction false} SplitMisleads(x: Outgoing, y: Outgoing, z: Outgoing, json: Library)
    requires Faithful(json) && !x.routable && z.routable
    ensures Interleaving(Sending([x], json), Sending([y, z], json), MixedFrames(x, y, z, json))
    ensures var ds := Deliver(Between, MixedFrames(x, y, z, json));
      ds == [Delivery(z.to.identity, Wire(x.to.message, json), z.number, x.number)] && NoFault(ds, json)
    ensures x.number != y.number && x.number != z.number && y.number != z.number ==>
      !Whole(MixedFrames(x, y, z, json)) && !Correct(MixedFrames(x, y, z, json))
  {
    var p, q, r, parts := Parts(x, json), Parts(y, json), Parts(z, json), MixedFrames(x, y, z, json);
    MixIsPossible(x, y, z, json);
    WireRoundTrip(x.to.message, json);
    DeliverSix(p[0], q[0], q[1], r[0], p[1], r[1]);
    if x.number != y.number && x.number != z.number && y.number != z.number {
      CorrectIffWhole([x], [y, z], parts, json);
      assert !SentWhole(Between, parts, 3);
    }
  }
}
