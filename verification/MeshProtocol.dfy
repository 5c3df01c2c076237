/**
 * What one node of the mesh does with one message: RHRouter's sending and forwarding with RHMesh's
 * overrides, as functions from the node before to the node after and the frames it hands to the link.
 *
 * The link's answers are an argument: acks holds, in order, whether each unicast send of the call is
 * acknowledged (a missing answer counts as "no").
 */
module MeshProtocol {
  import opened Octets
  import opened RouteTable

  // ---------------------------------------------------------------- messages

  /** RHRouter::RoutedMessage. Its length on the link is HEADER + |data|. */
  datatype Routed = Routed(dest: uint8, source: uint8, hops: uint8, id: uint8, flags: uint8, data: seq<uint8>)

  /** sizeof(RoutedMessageHeader) */
  const HEADER: nat := 5
  /** maxMessageLength() of the RF95 driver */
  const DRIVER_MAX: nat := 251
  /** RH_ROUTER_MAX_MESSAGE_LEN and RH_MESH_MAX_MESSAGE_LEN */
  const ROUTER_MAX: nat := 250
  const MESH_MAX: nat := 249

  const APPLICATION: uint8 := 0
  const REQUEST: uint8 := 1
  const RESPONSE: uint8 := 2
  const FAILURE: uint8 := 3

  /** A message as one node hands it to the link layer of another. */
  datatype Frame = Frame(to: uint8, from: uint8, message: Routed)

  /** One call of RHReliableDatagram::sendtoWait, and what it returned. */
  datatype LinkSend = LinkSend(to: uint8, message: Routed, acked: bool)

  /** Long enough for its type, short enough for the radio. */
  predicate WellFormed(data: seq<uint8>) {
    && 1 <= |data| <= DRIVER_MAX - HEADER
    && (data[0] in {REQUEST, RESPONSE} ==> |data| >= 3)
    && (data[0] == FAILURE ==> |data| >= 2)
  }

  // ---------------------------------------------------------------- nodes

  datatype Node = Node(addr: uint8, maxHops: uint8, routes: Slots, e2e: uint8)

  datatype Code = NoError | InvalidLength | NoRoute | UnableToDeliver

  datatype Sent = Sent(node: Node, code: Code, sends: seq<LinkSend>)

  function Answer(acks: seq<bool>): bool { acks != [] && acks[0] }
  function Later(acks: seq<bool>, sends: seq<LinkSend>): seq<bool> {
    if |sends| <= |acks| then acks[|sends|..] else []
  }

  /** RHRouter::route */
  function RouterRoute(n: Node, m: Routed, acks: seq<bool>): (Code, seq<LinkSend>) {
    var next := if m.dest == BROADCAST then Some(BROADCAST) else Lookup(n.routes, m.dest);
    match next
    case None => (NoRoute, [])
    case Some(hop) =>
      var ok := hop == BROADCAST || Answer(acks);
      (if ok then NoError else UnableToDeliver, [LinkSend(hop, m, ok)])
  }

  /** RHMesh::route for a message of this node: a failure only forgets the route. */
  function OwnRoute(n: Node, m: Routed, acks: seq<bool>): Sent {
    var (code, sends) := RouterRoute(n, m, acks);
    Sent(if code == NoError then n else n.(routes := Delete(n.routes, m.dest)), code, sends)
  }

  /** RHRouter::sendtoWait */
  function SendOwn(n: Node, data: seq<uint8>, dest: uint8, flags: uint8, acks: seq<bool>): Sent {
    if |data| + HEADER > DRIVER_MAX then Sent(n, InvalidLength, []) else
    OwnRoute(n.(e2e := Wrap8(n.e2e + 1)), Routed(dest, n.addr, 0, n.e2e, flags, data), acks)
  }

  /**
   * RHMesh::route. A node that cannot pass a message on forgets the route; for another node's message
   * it also makes sure of a route to that node through `from`, and tells it.
   */
  function MeshRoute(n: Node, m: Routed, from: uint8, acks: seq<bool>): Sent {
    var own := OwnRoute(n, m, acks);
    if own.code == NoError || m.source == n.addr then own else
    var back := own.node.(routes := Add(own.node.routes, m.source, from, Valid));
    var report := SendOwn(back, [FAILURE, m.dest], m.source, 0, Later(acks, own.sends));
    report.(sends := own.sends + report.sends)
  }

  /** RHRouter::sendtoFromSourceWait */
  function SendFrom(n: Node, data: seq<uint8>, dest: uint8, source: uint8, flags: uint8, from: uint8,
                    acks: seq<bool>): Sent {
    if |data| + HEADER > DRIVER_MAX then Sent(n, InvalidLength, []) else
    MeshRoute(n.(e2e := Wrap8(n.e2e + 1)), Routed(dest, source, 0, n.e2e, flags, data), from, acks)
  }

  // ---------------------------------------------------------------- peeking at passing messages

  function IndexOf(list: seq<uint8>, a: uint8): (i: nat)
    ensures i <= |list|
  {
    if list == [] || list[0] == a then 0 else 1 + IndexOf(list[1..], a)
  }

  lemma {:induction false} IndexOfFinds(list: seq<uint8>, a: uint8)
    ensures IndexOf(list, a) < |list| ==> list[IndexOf(list, a)] == a
    ensures forall j :: 0 <= j < IndexOf(list, a) ==> list[j] != a
    ensures IndexOf(list, a) == |list| <==> a !in list
  {
    if list != [] && list[0] != a {
      IndexOfFinds(list[1..], a);
      assert forall j :: 0 < j < |list| ==> list[j] == list[1..][j - 1];
    }
  }

  /**
   * The list members RHMesh::peekAtMessage adds routes to. It means the nodes after this one, but
   * starts two past it and ends with `past`, the buffer's octet just beyond the message.
   */
  function Scraped(list: seq<uint8>, me: uint8, past: uint8): seq<uint8> {
    var p := IndexOf(list, me);
    if p + 1 < |list| then list[p + 2..] + [past] else []
  }

  function Peek(t: Slots, me: uint8, m: Routed, from: uint8, past: uint8): Slots
    requires WellFormed(m.data)
  {
    if m.data[0] == RESPONSE then AddAll(Add(t, m.data[2], from, Valid), Scraped(m.data[3..], me, past), from)
    else if m.data[0] == FAILURE then Delete(t, m.data[1])
    else t
  }

  // ---------------------------------------------------------------- receiving

  datatype Routing = Routing(node: Node, sends: seq<LinkSend>, delivered: Option<Routed>)

  /** RHRouter::recvfromAck once the link has accepted a frame. */
  function RouterReceive(n: Node, f: Frame, past: uint8, acks: seq<bool>): Routing
    requires WellFormed(f.message.data)
  {
    var m := f.message;
    var peeked := n.(routes := Peek(n.routes, n.addr, m, f.from, past));
    if m.dest == n.addr || m.dest == BROADCAST then Routing(peeked, [], Some(m))
    else if m.hops < n.maxHops then
      var out := MeshRoute(peeked, m.(hops := Wrap8(m.hops + 1)), f.from, acks);
      Routing(out.node, out.sends, None)
    else Routing(peeked, [], None)
  }

  /** An application message as RHMesh::recvfromAck returns it. */
  datatype Delivery = Delivery(payload: seq<uint8>, source: uint8, dest: uint8, id: uint8, flags: uint8)

  datatype Handled = Handled(node: Node, sends: seq<LinkSend>, delivered: Option<Delivery>)

  predicate IsRequest(m: Routed) {
    m.dest == BROADCAST && |m.data| > 1 && m.data[0] == REQUEST
  }

  /** A discovery request this node acts on: not its own, and not one that came past before. */
  predicate Fresh(n: Node, m: Routed)
    requires WellFormed(m.data)
  {
    IsRequest(m) && m.source != n.addr && n.addr !in m.data[3..]
  }

  /** RHMesh::recvfromAck's treatment of a discovery request. */
  function HandleRequest(n: Node, m: Routed, from: uint8, acks: seq<bool>): Sent
    requires WellFormed(m.data) && IsRequest(m)
  {
    var list := m.data[3..];
    if !Fresh(n, m) then Sent(n, NoError, []) else
    var knows := n.(routes := AddAll(n.routes, [m.source] + list, from));
    if m.data[1] == 1 && m.data[2] == n.addr then
      SendOwn(knows, m.data[0 := RESPONSE], m.source, 0, acks)
    else if |list| < n.maxHops then
      SendFrom(knows, m.data + [n.addr], BROADCAST, m.source, 0, from, acks)
    else Sent(knows, NoError, [])
  }

  /** RHMesh::recvfromAck once the link has accepted a frame, with room for `space` octets. */
  function MeshReceive(n: Node, f: Frame, space: nat, past: uint8, acks: seq<bool>): Handled
    requires WellFormed(f.message.data)
  {
    var r := RouterReceive(n, f, past, acks);
    match r.delivered
    case None => Handled(r.node, r.sends, None)
    case Some(m) =>
      if m.data[0] == APPLICATION then
        Handled(r.node, r.sends,
                Some(Delivery(m.data[1..1 + Min(space, |m.data| - 1)], m.source, m.dest, m.id, m.flags)))
      else if IsRequest(m) then
        var out := HandleRequest(r.node, m, f.from, acks);
        Handled(out.node, out.sends, None)
      else Handled(r.node, r.sends, None)
  }

  // ---------------------------------------------------------------- discovering a route

  /** RHMesh::doArp's broadcast. */
  function Ask(n: Node, address: uint8): Sent {
    SendOwn(n, [REQUEST, 1, address], BROADCAST, 0, [])
  }

  /** What doArp's loop keeps: `room` is its messageLen, which never grows back. */
  datatype Asking = Asking(node: Node, room: nat, sends: seq<LinkSend>, found: bool)

  /** A frame that the link accepts during the wait, with the answers and the octet it may need. */
  datatype Heard = Heard(frame: Frame, past: uint8, acks: seq<bool>)

  /** One pass of doArp's loop that receives a frame; after a response there are no more. */
  function Hear(a: Asking, address: uint8, h: Heard): Asking
    requires WellFormed(h.frame.message.data)
  {
    if a.found then a else
    var r := RouterReceive(a.node, h.frame, h.past, h.acks);
    var sends := a.sends + r.sends;
    match r.delivered
    case None => Asking(r.node, a.room, sends, false)
    case Some(m) =>
      var len := Min(a.room, |m.data|);
      if len > 1 && m.data[0] == RESPONSE then
        Asking(r.node.(routes := Add(r.node.routes, address, h.frame.from, Valid)), len, sends, true)
      else Asking(r.node, len, sends, false)
  }

  predicate AllWellFormed(inbox: seq<Heard>) {
    forall h :: h in inbox ==> WellFormed(h.frame.message.data)
  }

  /** doArp's wait: the frames heard before the timeout. */
  function Listen(a: Asking, address: uint8, inbox: seq<Heard>): Asking
    requires AllWellFormed(inbox)
    decreases |inbox|
  {
    if inbox == [] then a else
    assert inbox[0] in inbox;
    Listen(Hear(a, address, inbox[0]), address, inbox[1..])
  }

  /** RHMesh::doArp */
  function Discover(n: Node, address: uint8, inbox: seq<Heard>): Asking
    requires AllWellFormed(inbox)
  {
    var asked := Ask(n, address);
    var a := Asking(asked.node, ROUTER_MAX, asked.sends, false);
    if asked.code != NoError then a else Listen(a, address, inbox)
  }

  /** RHMesh::sendtoWait */
  function MeshSend(n: Node, payload: seq<uint8>, address: uint8, flags: uint8, inbox: seq<Heard>,
                    acks: seq<bool>): Sent
    requires AllWellFormed(inbox)
  {
    if |payload| > MESH_MAX then Sent(n, InvalidLength, []) else
    var known := address == BROADCAST || Lookup(n.routes, address) != None;
    var a := if known then Asking(n, ROUTER_MAX, [], true) else Discover(n, address, inbox);
    if !a.found then Sent(a.node, NoRoute, a.sends) else
    var out := SendOwn(a.node, [APPLICATION] + payload, address, flags, acks);
    out.(sends := a.sends + out.sends)
  }
}
