/** A payload's way through every layer: mesh octet, router header, radio drivers, relays, and back. */
module EndToEnd {
  import opened Octets
  import opened RouteTable
  import opened MeshProtocol
  import opened MeshNodeTheory
  import Rf95

  /** A RoutedMessage as it lies in memory: the five header octets, then the data. */
  function RoutedOctets(m: Routed): seq<uint8> {
    [m.dest, m.source, m.hops, m.id, m.flags] + m.data
  }

  function ReadRouted(octets: seq<uint8>): Routed
    requires |octets| >= HEADER
  {
    Routed(octets[0], octets[1], octets[2], octets[3], octets[4], octets[HEADER..])
  }

  lemma ReadBack(m: Routed)
    ensures |RoutedOctets(m)| >= HEADER && ReadRouted(RoutedOctets(m)) == m
  {
    assert RoutedOctets(m)[HEADER..] == m.data;
  }

  // ---------------------------------------------------------------- one hop

  /** Two drivers, what the sender's serial line brings while it waits, and the receiver's interrupt. */
  datatype Hop = Hop(sender: Rf95.Radio, sending: seq<Rf95.Event>, receiver: Rf95.Radio, irq: bv8)

  /** send() at the one driver, the packet on the air, recv() at the other. */
  function Cross(hop: Hop, m: Routed): Option<Frame> {
    var (result, sent, _) := Rf95.Send(hop.sender, RoutedOctets(m), hop.sending);
    if result != Rf95.Queued || sent.onAir == [] then None else
    var (got, after) := Rf95.Receive(hop.receiver, 255, [Rf95.Interrupt(hop.irq, sent.onAir[|sent.onAir| - 1])]);
    if got == None || |got.value| < HEADER then None
    else Some(Frame(after.rx.to, after.rx.from, ReadRouted(got.value)))
  }

  /** A packet without errors has come in while the radio was listening. */
  predicate Hears(irq: bv8) {
    irq & Rf95.RX_DONE != 0 && irq & (Rf95.RX_TIMEOUT | Rf95.PAYLOAD_CRC_ERROR) == 0
  }

  /** The message is queued, and the receiver hears it without error and is meant by it. */
  predicate Crosses(hop: Hop, m: Routed) {
    && Rf95.Send(hop.sender, RoutedOctets(m), hop.sending).0 == Rf95.Queued
    && hop.receiver.mode == Rf95.Rx && Hears(hop.irq) && Rf95.Accepts(hop.receiver, hop.sender.tx.to)
  }

  /** What one radio transmits of a router message, another that accepts it hands to its router, unchanged. */
  lemma OverTheAir(hop: Hop, m: Routed)
    requires !hop.receiver.valid
    ensures Cross(hop, m) != None <==> Crosses(hop, m)
    ensures Cross(hop, m) != None ==>
            Cross(hop, m).value == Frame(hop.sender.tx.to, hop.sender.tx.from, m)
  {
    if Rf95.Send(hop.sender, RoutedOctets(m), hop.sending).0 == Rf95.Queued {
      if hop.receiver.mode == Rf95.Rx && Hears(hop.irq) {
        Rf95.PacketRoundTrip(hop.sender, RoutedOctets(m), hop.sending, hop.receiver, hop.irq, 255);
        ReadBack(m);
        assert RoutedOctets(m)[..Min(255, |RoutedOctets(m)|)] == RoutedOctets(m);
      }
    }
  }

  // ---------------------------------------------------------------- any number of hops

  /** How a hop carries a message: Cross, or any other way that brings nothing but the message. */
  type Medium = (Hop, Routed) -> Option<Frame>

  ghost predicate Faithful(cross: Medium) {
    forall hop: Hop, m: Routed :: !hop.receiver.valid && cross(hop, m) != None ==>
      cross(hop, m).value == Frame(hop.sender.tx.to, hop.sender.tx.from, m)
  }

  lemma CrossIsFaithful()
    ensures Faithful(Cross)
  {
    forall hop: Hop, m: Routed | !hop.receiver.valid && Cross(hop, m) != None
      ensures Cross(hop, m).value == Frame(hop.sender.tx.to, hop.sender.tx.from, m)
    {
      OverTheAir(hop, m);
    }
  }

  /** A node that passes the message on, and the transmission in which it does. */
  datatype Relay = Relay(node: Node, past: uint8, acks: seq<bool>, onward: Hop)

  /** What the relay sends on of a frame that has reached it. */
  function PassOn(x: Relay, f: Frame): Option<Routed> {
    if !WellFormed(f.message.data) then None else
    var r := RouterReceive(x.node, f, x.past, x.acks);
    if r.sends == [] || r.sends[0].message.data != f.message.data then None else Some(r.sends[0].message)
  }

  /** The frame that reaches the last receiver, or None if the message gets stuck. */
  function Carry(cross: Medium, hop: Hop, m: Routed, relays: seq<Relay>): Option<Frame>
    decreases |relays|
  {
    var arrived := cross(hop, m);
    if arrived == None || relays == [] then arrived else
    var next := PassOn(relays[0], arrived.value);
    if next == None then None else Carry(cross, relays[0].onward, next.value, relays[1..])
  }

  function LastHop(hop: Hop, relays: seq<Relay>): Hop
    decreases |relays|
  {
    if relays == [] then hop else LastHop(relays[0].onward, relays[1..])
  }

  /** Each receiver has collected the packet before. */
  predicate Collected(hop: Hop, relays: seq<Relay>) {
    !hop.receiver.valid && forall x :: x in relays ==> !x.onward.receiver.valid
  }

  /** A relay passes on what is for someone else, within its limit, if it has a route. */
  predicate Routes(x: Node, m: Routed) {
    m.dest != x.addr && m.dest != BROADCAST && m.hops < x.maxHops && Lookup(x.routes, m.dest) != None
  }

  lemma RelayChangesOnlyHops(x: Relay, f: Frame)
    requires WellFormed(f.message.data) && f.message.data[0] == APPLICATION
    ensures PassOn(x, f) != None <==> Routes(x.node, f.message)
    ensures PassOn(x, f) != None ==>
              f.message.hops < 0xff && PassOn(x, f) == Some(f.message.(hops := f.message.hops + 1))
  {
  }

  /** Every hop carries the message and every relay has a route for it. */
  predicate GetsThrough(cross: Medium, hop: Hop, m: Routed, relays: seq<Relay>)
    decreases |relays|
  {
    && cross(hop, m) != None
    && (relays == []
        || (Routes(relays[0].node, m) && GetsThrough(cross, relays[0].onward, m.(hops := m.hops + 1), relays[1..])))
  }

  /** One hop further: the message as it was, counted once more, or stuck. */
  lemma OneHopOn(cross: Medium, hop: Hop, m: Routed, relays: seq<Relay>)
    requires WellFormed(m.data) && m.data[0] == APPLICATION && !hop.receiver.valid && Faithful(cross)
    requires relays != [] && cross(hop, m) != None
    ensures Carry(cross, hop, m, relays) ==
            if !Routes(relays[0].node, m) then None
            else Carry(cross, relays[0].onward, m.(hops := m.hops + 1), relays[1..])
  {
    RelayChangesOnlyHops(relays[0], cross(hop, m).value);
  }

  /** Exactly then it arrives at the last receiver. */
  lemma {:induction false} ArrivesIff(cross: Medium, hop: Hop, m: Routed, relays: seq<Relay>)
    requires WellFormed(m.data) && m.data[0] == APPLICATION && Collected(hop, relays) && Faithful(cross)
    ensures Carry(cross, hop, m, relays) != None <==> GetsThrough(cross, hop, m, relays)
    decreases |relays|
  {
    if cross(hop, m) == None || relays == [] {
    } else {
      OneHopOn(cross, hop, m, relays);
      assert relays[0] in relays;
      if Routes(relays[0].node, m) {
        ArrivesIff(cross, relays[0].onward, m.(hops := m.hops + 1), relays[1..]);
      }
    }
  }

  /** Relays change the hop count and the radio header, and nothing else. */
  lemma {:induction false} RelaysChangeOnlyHops(cross: Medium, hop: Hop, m: Routed, relays: seq<Relay>)
    requires WellFormed(m.data) && m.data[0] == APPLICATION && Collected(hop, relays) && Faithful(cross)
    ensures var out, last := Carry(cross, hop, m, relays), LastHop(hop, relays).sender.tx;
            out != None ==>
              && m.hops + |relays| <= 0xff
              && out.value == Frame(last.to, last.from, m.(hops := m.hops + |relays|))
    decreases |relays|
  {
    if cross(hop, m) == None {
    } else if relays == [] {
      assert m.(hops := m.hops + 0) == m;
    } else {
      OneHopOn(cross, hop, m, relays);
      assert relays[0] in relays;
      if Routes(relays[0].node, m) {
        var relayed, rest := m.(hops := m.hops + 1), relays[1..];
        RelaysChangeOnlyHops(cross, relays[0].onward, relayed, rest);
        assert m.hops + |relays| <= 0xff ==>
                 relayed.(hops := relayed.hops + |rest|) == m.(hops := m.hops + |relays|);
      }
    }
  }

  lemma ApplicationMessageIsDelivered(b: Node, f: Frame, payload: seq<uint8>, space: nat, past: uint8)
    requires f.message.data == [APPLICATION] + payload && WellFormed(f.message.data)
    requires f.message.dest == b.addr || f.message.dest == BROADCAST
    ensures var m := f.message;
            MeshReceive(b, f, space, past, []).delivered
            == Some(Delivery(payload[..Min(space, |payload|)], m.source, m.dest, m.id, m.flags))
  {
    var k := Min(space, |payload|);
    assert f.message.data[1..1 + k] == payload[..k];
  }

  /**
   * Any payload the radio can take gets through the drivers of any number of relays exactly if every hop
   * carries it and every relay has a route, and then it arrives as the prefix the receiver has room for,
   * with the sender's address, the destination, the sequence number and the flags it was sent with.
   */
  lemma PayloadArrives(a: Node, payload: seq<uint8>, dest: uint8, flags: uint8, acks: seq<bool>, hop: Hop,
                       relays: seq<Relay>, b: Node, space: nat, past: uint8)
    requires |payload| <= PAYLOAD_MAX && Collected(hop, relays)
    requires dest == b.addr || dest == BROADCAST
    requires SendOwn(a, [APPLICATION] + payload, dest, flags, acks).sends != []
    ensures var first := SendOwn(a, [APPLICATION] + payload, dest, flags, acks).sends[0].message;
            var out := Carry(Cross, hop, first, relays);
            && (out != None <==> GetsThrough(Cross, hop, first, relays))
            && (out != None ==>
              && WellFormed(out.value.message.data)
              && MeshReceive(b, out.value, space, past, []).delivered
                 == Some(Delivery(payload[..Min(space, |payload|)], a.addr, dest, a.e2e, flags)))
  {
    var data := [APPLICATION] + payload;
    var m := Routed(dest, a.addr, 0, a.e2e, flags, data);
    assert SendOwn(a, data, dest, flags, acks).sends[0].message == m && WellFormed(data);
    CrossIsFaithful();
    ArrivesIff(Cross, hop, m, relays);
    RelaysChangeOnlyHops(Cross, hop, m, relays);
    var out := Carry(Cross, hop, m, relays);
    if out != None {
      ApplicationMessageIsDelivered(b, out.value, payload, space, past);
    }
  }
}
