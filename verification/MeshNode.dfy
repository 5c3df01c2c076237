/** RHMesh on top of RHRouter as the object the sketches declare: its buffers and table change in place. */
module MeshNode {
  import opened Octets
  import opened RouteTable
  import opened MeshProtocol
  import P = MeshProtocol

  lemma {:induction false} ListenStopsAtReply(a: Asking, address: uint8, inbox: seq<Heard>)
    requires AllWellFormed(inbox) && a.found
    ensures P.Listen(a, address, inbox) == a
    decreases |inbox|
  {
    if inbox == [] {
    } else {
      assert inbox[0] in inbox;
      ListenStopsAtReply(a, address, inbox[1..]);
    }
  }

  class MeshNode {
    const table: RoutingTable
    const tmpMessage: array<uint8>  // RHMesh::_tmpMessage
    var routerMessage: Routed       // RHRouter::_tmpMessage
    var thisAddress: uint8
    var maxHops: uint8
    var lastE2E: uint8

    // The link below: the sender of the last frame, the answers still to come, everything sent.
    var rxFrom: uint8
    var acks: seq<bool>
    var sent: seq<LinkSend>

    ghost predicate Valid()
      reads this
    {
      table.Valid() && tmpMessage.Length == ROUTER_MAX
    }

    ghost function State(): Node
      requires Valid()
      reads this, table.routes
    {
      Node(thisAddress, maxHops, table.Slots(), lastE2E)
    }

    constructor (address: uint8, hops: uint8)
      ensures Valid() && fresh(table.routes) && fresh(tmpMessage)
      ensures State() == Node(address, hops, ZERO, 0) && sent == []
    {
      table := new RoutingTable();
      tmpMessage := new uint8[ROUTER_MAX](_ => 0);
      routerMessage := Routed(0, 0, 0, 0, 0, []);
      thisAddress, maxHops, lastE2E := address, hops, 0;
      rxFrom, acks, sent := 0, [], [];
    }

    /**
     * RHReliableDatagram::sendtoWait: a broadcast always counts as delivered. Frames heard during the wait
     * overwrite the receive headers.
     */
    method LinkSendtoWait(m: Routed, to: uint8) returns (ok: bool)
      modifies `acks, `sent, `rxFrom
      ensures ok <==> to == BROADCAST || Answer(old(acks))
      ensures sent == old(sent) + [LinkSend(to, m, ok)]
      ensures acks == Later(old(acks), [LinkSend(to, m, ok)])
    {
      ok := to == BROADCAST || Answer(acks);
      sent := sent + [LinkSend(to, m, ok)];
      acks := if acks == [] then [] else acks[1..];
      rxFrom := *;
    }

    /** RHRouter::route, on the message in the router's buffer. */
    method RouterRoute() returns (code: Code)
      requires Valid()
      modifies `acks, `sent, `rxFrom
      ensures var (c, s) := P.RouterRoute(State(), routerMessage, old(acks));
              code == c && sent == old(sent) + s && acks == Later(old(acks), s)
    {
      var nextHop := BROADCAST;
      if routerMessage.dest != BROADCAST {
        var route := table.GetRouteTo(routerMessage.dest);
        if route == None {
          return NoRoute;
        }
        nextHop := route.value;
      }
      var ok := LinkSendtoWait(routerMessage, nextHop);
      if !ok {
        return UnableToDeliver;
      }
      return NoError;
    }

    /** RHMesh::route. It and SendtoFromSourceWait call each other, but only one level deep. */
    method Route() returns (code: Code)
      requires Valid()
      modifies `acks, `sent, `routerMessage, `lastE2E, `rxFrom, tmpMessage, table.routes
      ensures var out := P.MeshRoute(old(State()), old(routerMessage), old(rxFrom), old(acks));
              State() == out.node && code == out.code && sent == old(sent) + out.sends
      decreases if routerMessage.source == thisAddress then 0 else 1, 0
    {
      var from := rxFrom;
      var message := routerMessage;
      code := RouterRoute();
      if code == NoRoute || code == UnableToDeliver {
        var _ := table.DeleteRouteTo(message.dest);
        if message.source != thisAddress {
          tmpMessage[0] := FAILURE;
          tmpMessage[1] := message.dest;
          table.AddRouteTo(message.source, from, RouteState.Valid);
          assert tmpMessage[..2] == [FAILURE, message.dest];
          code := RouterSendtoWait(2, message.source, 0);
        }
      }
    }

    /** RHRouter::sendtoFromSourceWait, sending the first len octets of the mesh buffer. */
    method SendtoFromSourceWait(len: nat, dest: uint8, source: uint8, flags: uint8) returns (code: Code)
      requires Valid() && len <= ROUTER_MAX
      modifies `acks, `sent, `routerMessage, `lastE2E, `rxFrom, tmpMessage, table.routes
      ensures var out := P.SendFrom(old(State()), old(tmpMessage[..len]), dest, source, flags, old(rxFrom), old(acks));
              State() == out.node && code == out.code && sent == old(sent) + out.sends
      decreases if source == thisAddress then 0 else 1, 1
    {
      if len + HEADER > DRIVER_MAX {
        return InvalidLength;
      }
      routerMessage := Routed(dest, source, 0, lastE2E, flags, tmpMessage[..len]);
      lastE2E := Wrap8(lastE2E + 1);
      code := Route();
    }

    /** RHRouter::sendtoWait */
    method RouterSendtoWait(len: nat, dest: uint8, flags: uint8) returns (code: Code)
      requires Valid() && len <= ROUTER_MAX
      modifies `acks, `sent, `routerMessage, `lastE2E, `rxFrom, tmpMessage, table.routes
      ensures var out := P.SendOwn(old(State()), old(tmpMessage[..len]), dest, flags, old(acks));
              State() == out.node && code == out.code && sent == old(sent) + out.sends
      decreases 0, 2
    {
      code := SendtoFromSourceWait(len, dest, thisAddress, flags);
    }

    /** peekAtMessage's two loops over the numRoutes nodes of the list in a response. */
    method ScrapeRoutes(numRoutes: uint8, past: uint8)
      requires Valid() && |routerMessage.data| == 3 + numRoutes
      modifies table.routes
      ensures table.Slots()
           == AddAll(old(table.Slots()), Scraped(routerMessage.data[3..], thisAddress, past), rxFrom)
    {
      ghost var base := table.Slots();
      var list := routerMessage.data[3..];
      ghost var p := IndexOf(list, thisAddress);
      IndexOfFinds(list, thisAddress);
      // Find this node in the list.
      var i := 0;
      while i < numRoutes
        invariant 0 <= i <= p
      {
        if list[i] == thisAddress {
          break;
        }
        i := i + 1;
      }
      assert i == p;
      i := i + 1;
      ghost var scraped := Scraped(list, thisAddress, past);
      ghost var done := 0;
      // The guard advances i before the body uses it.
      while i < numRoutes
        invariant i == p + 1 + done && done <= |scraped|
        invariant i < numRoutes ==> done < |scraped|
        invariant p + 1 < numRoutes ==> (i >= numRoutes ==> done == |scraped|)
        invariant table.Slots() == AddAll(base, scraped[..done], rxFrom)
      {
        i := i + 1;
        var hop := if i < numRoutes then list[i] else past;
        assert scraped[..done + 1] == scraped[..done] + [hop];
        AddAllOneMore(base, scraped[..done], hop, rxFrom);
        table.AddRouteTo(hop, rxFrom, RouteState.Valid);
        done := done + 1;
      }
      assert scraped[..done] == scraped;
    }

    /** RHMesh::peekAtMessage. `past` is the buffer's octet just beyond the message. */
    method PeekAtMessage(past: uint8)
      requires Valid() && WellFormed(routerMessage.data)
      modifies table.routes
      ensures State() == old(State()).(routes := Peek(old(State()).routes, thisAddress, routerMessage, rxFrom, past))
    {
      var data := routerMessage.data;
      var messageLen: uint8 := Wrap8(HEADER + |data|);
      if messageLen > 1 && data[0] == RESPONSE {
        table.AddRouteTo(data[2], rxFrom, RouteState.Valid);
        var numRoutes: uint8 := Wrap8(messageLen - HEADER - 1 - 2);
        ScrapeRoutes(numRoutes, past);
      } else if messageLen > 1 && data[0] == FAILURE {
        var _ := table.DeleteRouteTo(data[1]);
      }
    }

    /** RHRouter::recvfromAck for an accepted frame, copying what it delivers into the mesh buffer. */
    method RouterRecvfromAck(f: Frame, past: uint8, room: nat)
      returns (got: bool, len: nat, source: uint8, dest: uint8, id: uint8, flags: uint8)
      requires Valid() && WellFormed(f.message.data) && room <= ROUTER_MAX
      modifies `acks, `sent, `routerMessage, `lastE2E, `rxFrom, tmpMessage, table.routes
      ensures var r := P.RouterReceive(old(State()), f, past, old(acks));
              && State() == r.node && sent == old(sent) + r.sends
              && (got <==> r.delivered.Some?)
              && (got ==> len == Min(room, |f.message.data|) && tmpMessage[..len] == f.message.data[..len])
              && (got ==> (source, dest, id, flags) ==
                          (f.message.source, f.message.dest, f.message.id, f.message.flags))
      ensures got ==> acks == old(acks) && rxFrom == f.from
    {
      got, len, source, dest, id, flags := false, 0, 0, 0, 0, 0;
      routerMessage := f.message;
      rxFrom := f.from;
      PeekAtMessage(past);
      var m := routerMessage;
      if m.dest == thisAddress || m.dest == BROADCAST {
        source, dest, id, flags := m.source, m.dest, m.id, m.flags;
        var msgLen := Wrap8(HEADER + |m.data|) - HEADER;
        len := Min(room, msgLen);
        forall k | 0 <= k < len {
          tmpMessage[k] := m.data[k];
        }
        got := true;
      } else {
        routerMessage := m.(hops := Wrap8(m.hops + 1));
        if m.hops < maxHops {
          var _ := Route();
        }
      }
    }

    /** One pass of doArp's loop, for a wait that stands at a; left is its messageLen afterwards. */
    method HearOne(h: Heard, address: uint8, messageLen: nat, ghost a: Asking, ghost began: seq<LinkSend>)
      returns (found: bool, left: nat)
      requires Valid() && WellFormed(h.frame.message.data) && messageLen <= ROUTER_MAX
      requires a == Asking(State(), messageLen, a.sends, false) && sent == began + a.sends
      modifies `acks, `sent, `routerMessage, `lastE2E, `rxFrom, tmpMessage, table.routes
      ensures left <= messageLen
      ensures var b := P.Hear(a, address, h);
              b == Asking(State(), left, b.sends, found) && sent == began + b.sends
    {
      acks := h.acks;
      found, left := false, messageLen;
      ghost var r := P.RouterReceive(State(), h.frame, h.past, h.acks);
      assert began + a.sends + r.sends == began + (a.sends + r.sends);
      var got, len, _, _, _, _ := RouterRecvfromAck(h.frame, h.past, messageLen);
      if got {
        left := len;
        assert len > 0 ==> tmpMessage[0] == tmpMessage[..len][0];
        if left > 1 && tmpMessage[0] == RESPONSE {
          table.AddRouteTo(address, rxFrom, RouteState.Valid);
          found := true;
        }
      }
    }

    /** doArp's wait, up to the first response or the end of what is heard before the timeout. */
    method ListenForReply(address: uint8, inbox: seq<Heard>, ghost began: seq<LinkSend>, ghost asked: seq<LinkSend>)
      returns (found: bool)
      requires Valid() && AllWellFormed(inbox) && sent == began + asked
      modifies `acks, `sent, `routerMessage, `lastE2E, `rxFrom, tmpMessage, table.routes
      ensures var a := P.Listen(Asking(old(State()), ROUTER_MAX, asked, false), address, inbox);
              found == a.found && State() == a.node && sent == began + a.sends
    {
      var messageLen: nat := ROUTER_MAX;
      found := false;
      ghost var start := Asking(State(), ROUTER_MAX, asked, false);
      ghost var a := start;
      var k := 0;
      assert inbox[0..] == inbox;
      while k < |inbox| && !found
        invariant 0 <= k <= |inbox| && messageLen <= ROUTER_MAX
        invariant a == Asking(State(), messageLen, a.sends, found) && sent == began + a.sends
        invariant P.Listen(start, address, inbox) == P.Listen(a, address, inbox[k..])
      {
        assert inbox[k..][0] == inbox[k] && inbox[k..][1..] == inbox[k + 1..];
        found, messageLen := HearOne(inbox[k], address, messageLen, a, began);
        a, k := P.Hear(a, address, inbox[k]), k + 1;
      }
      if found {
        ListenStopsAtReply(a, address, inbox[k..]);
      }
    }

    /** doArp's broadcast. */
    method SendRequest(address: uint8) returns (error: Code)
      requires Valid()
      modifies `acks, `sent, `routerMessage, `lastE2E, `rxFrom, tmpMessage, table.routes
      ensures var out := P.Ask(old(State()), address);
              State() == out.node && error == out.code && sent == old(sent) + out.sends
    {
      acks := [];
      tmpMessage[0], tmpMessage[1], tmpMessage[2] := REQUEST, 1, address;
      assert tmpMessage[..3] == [REQUEST, 1, address];
      error := RouterSendtoWait(3, BROADCAST, 0);
    }

    /** RHMesh::doArp: ask everyone, then listen. */
    method DoArp(address: uint8, inbox: seq<Heard>) returns (found: bool)
      requires Valid() && AllWellFormed(inbox)
      modifies `acks, `sent, `routerMessage, `lastE2E, `rxFrom, tmpMessage, table.routes
      ensures var a := P.Discover(old(State()), address, inbox);
              found == a.found && State() == a.node && sent == old(sent) + a.sends
    {
      ghost var asked := P.Ask(State(), address);
      ghost var began := sent;
      var error := SendRequest(address);
      if error != NoError {
        return false;
      }
      found := ListenForReply(address, inbox, began, asked.sends);
    }

    method LoadApplicationMessage(payload: seq<uint8>)
      requires Valid() && |payload| <= MESH_MAX
      modifies tmpMessage
      ensures tmpMessage[..1 + |payload|] == [APPLICATION] + payload
    {
      tmpMessage[0] := APPLICATION;
      forall k | 0 <= k < |payload| {
        tmpMessage[1 + k] := payload[k];
      }
    }

    /** RHMesh::sendtoWait; inbox is what it would hear while discovering, answers what its send gets. */
    method SendtoWait(payload: seq<uint8>, address: uint8, flags: uint8, inbox: seq<Heard>, answers: seq<bool>)
      returns (code: Code)
      requires Valid() && AllWellFormed(inbox)
      modifies `acks, `sent, `routerMessage, `lastE2E, `rxFrom, tmpMessage, table.routes
      ensures var out := P.MeshSend(old(State()), payload, address, flags, inbox, answers);
              code == out.code && State() == out.node && sent == old(sent) + out.sends
    {
      if |payload| > MESH_MAX {
        return InvalidLength;
      }
      if address != BROADCAST {
        var route := table.GetRouteTo(address);
        if route == None {
          var found := DoArp(address, inbox);
          if !found {
            return NoRoute;
          }
        }
      }
      acks := answers;
      LoadApplicationMessage(payload);
      code := RouterSendtoWait(1 + |payload|, address, flags);
    }

    /** RHMesh::recvfromAck for an accepted frame; space is the caller's *len. */
    method RecvfromAck(f: Frame, past: uint8, space: nat, answers: seq<bool>) returns (delivery: Option<Delivery>)
      requires Valid() && WellFormed(f.message.data)
      modifies `acks, `sent, `routerMessage, `lastE2E, `rxFrom, tmpMessage, table.routes
      ensures var out := P.MeshReceive(old(State()), f, space, past, answers);
              delivery == out.delivered && State() == out.node && sent == old(sent) + out.sends
    {
      acks := answers;
      delivery := None;
      var got, len, source, dest, id, flags := RouterRecvfromAck(f, past, ROUTER_MAX);
      if got {
        ghost var data := f.message.data;
        assert tmpMessage[..len] == data;
        assert tmpMessage[0] == data[0];
        var msgType := tmpMessage[0];
        if len >= 1 && msgType == APPLICATION {
          var copied := Min(space, len - 1);
          assert tmpMessage[1..1 + copied] == data[1..1 + copied];
          delivery := Some(Delivery(tmpMessage[1..1 + copied], source, dest, id, flags));
        } else if dest == BROADCAST && len > 1 && msgType == REQUEST {
          var _ := HandleDiscoveryRequest(len, source, f.message);
        }
      }
    }

    /** Is this node among the numRoutes nodes of the list in the mesh buffer? */
    method Mentioned(numRoutes: uint8) returns (found: bool)
      requires Valid() && 3 + numRoutes <= ROUTER_MAX
      ensures found <==> thisAddress in tmpMessage[3..3 + numRoutes]
    {
      var i := 0;
      while i < numRoutes
        invariant 0 <= i <= numRoutes
        invariant thisAddress !in tmpMessage[3..3 + i]
      {
        if tmpMessage[3 + i] == thisAddress {
          assert tmpMessage[3..3 + numRoutes][i] == thisAddress;
          return true;
        }
        i := i + 1;
      }
      return false;
    }

    /** Routes back to the originator and to the numRoutes nodes of the list in the mesh buffer. */
    method RecordRoutesBack(source: uint8, numRoutes: uint8)
      requires Valid() && 3 + numRoutes <= ROUTER_MAX
      modifies table.routes
      ensures table.Slots() == AddAll(old(table.Slots()), [source] + tmpMessage[3..3 + numRoutes], rxFrom)
    {
      ghost var base := table.Slots();
      ghost var learnt := [source] + tmpMessage[3..3 + numRoutes];
      assert learnt[..1] == [] + [source];
      AddAllOneMore(base, [], source, rxFrom);
      table.AddRouteTo(source, rxFrom, RouteState.Valid);
      var i := 0;
      while i < numRoutes
        invariant 0 <= i <= numRoutes
        invariant table.Slots() == AddAll(base, learnt[..1 + i], rxFrom)
      {
        assert learnt[..2 + i] == learnt[..1 + i] + [tmpMessage[3 + i]];
        AddAllOneMore(base, learnt[..1 + i], tmpMessage[3 + i], rxFrom);
        table.AddRouteTo(tmpMessage[3 + i], rxFrom, RouteState.Valid);
        i := i + 1;
      }
      assert learnt[..1 + i] == learnt;
    }

    /** The discovery request in the first len octets of the mesh buffer. */
    method HandleDiscoveryRequest(len: nat, source: uint8, ghost m: Routed) returns (code: Code)
      requires Valid() && len <= ROUTER_MAX && WellFormed(tmpMessage[..len]) && len > 1 && tmpMessage[0] == REQUEST
      requires m.data == tmpMessage[..len] && m.source == source && m.dest == BROADCAST
      modifies `acks, `sent, `routerMessage, `lastE2E, `rxFrom, tmpMessage, table.routes
      ensures var out := P.HandleRequest(old(State()), m, old(rxFrom), old(acks));
              State() == out.node && sent == old(sent) + out.sends
    {
      code := NoError;
      if source == thisAddress {
        return;
      }
      var numRoutes: uint8 := Wrap8(len - 1 - 2);
      assert tmpMessage[3..3 + numRoutes] == m.data[3..];
      var mentioned := Mentioned(numRoutes);
      if mentioned {
        return;
      }
      // It has not been past this node yet.
      RecordRoutesBack(source, numRoutes);
      assert m.data[1] == tmpMessage[1] && m.data[2] == tmpMessage[2];
      if tmpMessage[1] == 1 && tmpMessage[2] == thisAddress {
        tmpMessage[0] := RESPONSE;
        assert tmpMessage[..len] == m.data[0 := RESPONSE];
        code := RouterSendtoWait(len, source, 0);
      } else if numRoutes < maxHops {
        tmpMessage[3 + numRoutes] := thisAddress;
        assert tmpMessage[..len + 1] == m.data + [thisAddress];
        code := SendtoFromSourceWait(len + 1, BROADCAST, source, 0);
      }
    }
  }
}
