/**
 * What sendtoWait and recvfromAck of one node have to do with the steps of the network, and what an
 * application is ever handed.
 */
module MeshDelivery {
  import opened Octets
  import opened RouteTable
  import opened RouteTableTheory
  import opened MeshProtocol
  import opened MeshNodeTheory
  import opened MeshNetwork
  import opened Graphs

  // ---------------------------------------------------------------- what a send hands to the link

  /** The flood that looks for a node. */
  function Question(n: Node, address: uint8): LinkSend {
    LinkSend(BROADCAST, Routed(BROADCAST, n.addr, 0, n.e2e, 0, [REQUEST, 1, address]), true)
  }

  lemma {:induction false} ListenSendsMore(a: Asking, address: uint8, inbox: seq<Heard>)
    requires AllWellFormed(inbox)
    ensures a.sends <= Listen(a, address, inbox).sends
    decreases |inbox|
  {
    if inbox == [] {
    } else {
      assert inbox[0] in inbox;
      ListenSendsMore(Hear(a, address, inbox[0]), address, inbox[1..]);
    }
  }

  /** A discovery first floods a request for the node it looks for. */
  lemma DiscoveryAsks(n: Node, address: uint8, inbox: seq<Heard>)
    requires AllWellFormed(inbox)
    ensures [Question(n, address)] <= Discover(n, address, inbox).sends
  {
    var asked := Ask(n, address);
    assert asked.sends == [Question(n, address)];
    ListenSendsMore(Asking(asked.node, ROUTER_MAX, asked.sends, false), address, inbox);
  }

  /** A send with a route is one message on it and nothing else; one without asks for the node first. */
  lemma SendBeginsWith(n: Node, payload: seq<uint8>, address: uint8, flags: uint8, inbox: seq<Heard>, acks: seq<bool>)
    requires AllWellFormed(inbox) && |payload| <= MESH_MAX
    ensures var out := MeshSend(n, payload, address, flags, inbox, acks);
            && (!Known(n, address) ==> out.sends != [] && out.sends[0] == Question(n, address))
            && (Known(n, address) && |payload| > PAYLOAD_MAX ==> out.sends == [])
            && (Known(n, address) && |payload| <= PAYLOAD_MAX ==>
                  var hop := if address == BROADCAST then BROADCAST else Lookup(n.routes, address).value;
                  var m := Routed(address, n.addr, 0, n.e2e, flags, [APPLICATION] + payload);
                  out.sends == [LinkSend(hop, m, hop == BROADCAST || Answer(acks))])
  {
    if !Known(n, address) {
      DiscoveryAsks(n, address, inbox);
    }
  }

  // ---------------------------------------------------------------- sendtoWait is a run of network steps

  /** The frames heard, one after the other, by a site that is waiting, until it is not. */
  function TakeAll(t: Turn, inbox: seq<Heard>, answers: seq<bool>): Turn
    requires AllWellFormed(inbox)
    decreases |inbox|
  {
    if inbox == [] || t.site.waiting == None then t else
    assert inbox[0] in inbox;
    var on := Take(t.site, inbox[0].frame, inbox[0].past, inbox[0].acks, answers);
    TakeAll(Turn(on.site, t.sends + on.sends), inbox[1..], answers)
  }

  /** How doArp's loop looks as a site of the network, once it has sent the message it waited for. */
  function AsTurn(a: Asking, w: Waiting, answers: seq<bool>): Turn {
    if !a.found then Turn(Site(a.node, Some(w.(room := a.room))), a.sends) else
    var out := SendOwn(a.node, [APPLICATION] + w.payload, w.address, w.flags, answers);
    Turn(Site(out.node, None), a.sends + out.sends)
  }

  /** The sends of a pass come after those before it. */
  lemma HearAddsSends(a: Asking, address: uint8, h: Heard)
    requires WellFormed(h.frame.message.data) && !a.found
    ensures var quiet := Hear(Asking(a.node, a.room, [], false), address, h);
            Hear(a, address, h) == Asking(quiet.node, quiet.room, a.sends + quiet.sends, quiet.found)
  {
    var r := RouterReceive(a.node, h.frame, h.past, h.acks);
    assert [] + r.sends == r.sends;
  }

  lemma TakeAsTurn(site: Site, w: Waiting, h: Heard, answers: seq<bool>)
    requires WellFormed(h.frame.message.data) && site.waiting == Some(w)
    ensures Take(site, h.frame, h.past, h.acks, answers)
         == AsTurn(Hear(Asking(site.node, w.room, [], false), w.address, h), w, answers)
  {
  }

  lemma AsTurnAddsSends(a: Asking, before: seq<LinkSend>, w: Waiting, answers: seq<bool>)
    ensures var t := AsTurn(a, w, answers);
            AsTurn(a.(sends := before + a.sends), w, answers) == Turn(t.site, before + t.sends)
  {
    var out := SendOwn(a.node, [APPLICATION] + w.payload, w.address, w.flags, answers);
    assert before + a.sends + out.sends == before + (a.sends + out.sends);
  }

  lemma TakeIsHear(a: Asking, w: Waiting, h: Heard, answers: seq<bool>)
    requires WellFormed(h.frame.message.data) && !a.found && w.room == a.room
    ensures var on := Take(Site(a.node, Some(w)), h.frame, h.past, h.acks, answers);
            AsTurn(Hear(a, w.address, h), w, answers) == Turn(on.site, a.sends + on.sends)
  {
    HearAddsSends(a, w.address, h);
    TakeAsTurn(Site(a.node, Some(w)), w, h, answers);
    AsTurnAddsSends(Hear(Asking(a.node, w.room, [], false), w.address, h), a.sends, w, answers);
  }

  lemma {:induction false} ListenAfterAll(a: Asking, address: uint8, inbox: seq<Heard>)
    requires AllWellFormed(inbox) && a.found
    ensures Listen(a, address, inbox) == a
    decreases |inbox|
  {
    if inbox == [] {
    } else {
      assert inbox[0] in inbox;
      ListenAfterAll(a, address, inbox[1..]);
    }
  }

  lemma {:induction false} ListenIsTakeAll(a: Asking, w: Waiting, inbox: seq<Heard>, answers: seq<bool>)
    requires AllWellFormed(inbox) && (!a.found ==> w.room == a.room)
    ensures AsTurn(Listen(a, w.address, inbox), w, answers) == TakeAll(AsTurn(a, w, answers), inbox, answers)
    decreases |inbox|
  {
    if a.found {
      ListenAfterAll(a, w.address, inbox);
    } else if inbox == [] {
    } else {
      assert inbox[0] in inbox;
      var b := Hear(a, w.address, inbox[0]);
      TakeIsHear(a, w, inbox[0], answers);
      assert AsTurn(a, w, answers) == Turn(Site(a.node, Some(w)), a.sends);
      ListenIsTakeAll(b, w.(room := b.room), inbox[1..], answers);
      assert AsTurn(b, w.(room := b.room), answers) == AsTurn(b, w, answers);
    }
  }

  /**
   * sendtoWait is the network's Begin followed by Take for each frame heard, and it has found no route
   * exactly if the site is still waiting at the end.
   */
  lemma MeshSendIsSteps(n: Node, payload: seq<uint8>, address: uint8, flags: uint8, inbox: seq<Heard>,
                        answers: seq<bool>)
    requires AllWellFormed(inbox) && Sound(n.routes)
    ensures var out := MeshSend(n, payload, address, flags, inbox, answers);
            var t := TakeAll(Begin(n, payload, address, flags, answers), inbox, answers);
            out.node == t.site.node && out.sends == t.sends && (out.code == NoRoute <==> t.site.waiting != None)
  {
    SendResultAndTableAgree(n, payload, address, flags, inbox, answers);
    if |payload| <= MESH_MAX && !Known(n, address) {
      var asked := Ask(n, address);
      var a := Asking(asked.node, ROUTER_MAX, asked.sends, false);
      ListenIsTakeAll(a, Waiting(address, ROUTER_MAX, payload, flags), inbox, answers);
    }
  }

  // ---------------------------------------------------------------- what applications receive

  /** Exactly the application messages for this node, or for all, are handed out. */
  lemma DeliveredIff(n: Node, f: Frame, space: nat, past: uint8, acks: seq<bool>)
    requires WellFormed(f.message.data)
    ensures MeshReceive(n, f, space, past, acks).delivered != None <==>
            f.message.data[0] == APPLICATION && (f.message.dest == n.addr || f.message.dest == BROADCAST)
  {
  }

  lemma Tail(data: seq<uint8>)
    requires data != []
    ensures data[1..1 + (|data| - 1)] == data[1..]
  {
    assert 1 + (|data| - 1) == |data|;
  }

  /** With room for any message the caller gets all of the payload, and the message's own headers. */
  lemma DeliveredWhole(n: Node, f: Frame, past: uint8, acks: seq<bool>)
    requires WellFormed(f.message.data) && MeshReceive(n, f, MESH_MAX, past, acks).delivered != None
    ensures var m := f.message;
            && MeshReceive(n, f, MESH_MAX, past, acks).delivered ==
                 Some(Delivery(m.data[1..], m.source, m.dest, m.id, m.flags))
            && m.data[0] == APPLICATION && (m.dest == n.addr || m.dest == BROADCAST)
  {
    Tail(f.message.data);
  }

  /** A payload that comes for a node that is looking for a route is lost: it only shrinks the room. */
  lemma SearchSwallowsPayload(a: Asking, address: uint8, h: Heard)
    requires WellFormed(h.frame.message.data) && h.frame.message.data[0] == APPLICATION && !a.found
    requires Addressed(a.node.addr, h)
    ensures Hear(a, address, h) == a.(room := Min(a.room, |h.frame.message.data|))
  {
    assert a.sends + [] == a.sends;
  }

  /** One sendtoWait of an application. */
  datatype Sending = Sending(source: uint8, payload: seq<uint8>, dest: uint8, flags: uint8)

  function SendingOf(step: Step): set<Sending> {
    match step
    case Send(x, payload, address, flags, _) => {Sending(x, payload, address, flags)}
    case _ => {}
  }

  function Sendings(steps: seq<Step>): set<Sending> {
    if steps == [] then {} else SendingOf(steps[0]) + Sendings(steps[1..])
  }

  /** What recvfromAck hands to its caller in a step. */
  function Delivered(s: Net, step: Step): Option<Delivery>
    requires Enabled(s, step)
  {
    match step
    case Receive(k, past, acks, _) =>
      var site := s.sites[s.pending[k].at];
      if site.waiting != None then None
      else MeshReceive(site.node, s.pending[k].frame, MESH_MAX, past, acks).delivered
    case _ => None
  }

  predicate IsSent(m: Routed, sent: set<Sending>) {
    m.data != [] && m.data[0] == APPLICATION ==> Sending(m.source, m.data[1..], m.dest, m.flags) in sent
  }

  predicate AllSent(sends: seq<LinkSend>, sent: set<Sending>) {
    forall s :: s in sends ==> IsSent(s.message, sent)
  }

  predicate SiteSent(x: uint8, site: Site, sent: set<Sending>) {
    site.waiting.Some? ==>
      var w := site.waiting.value;
      Sending(x, w.payload, w.address, w.flags) in sent
  }

  /** Every application message in the air and every one that waits for a route was sent by an application. */
  ghost predicate Genuine(s: Net, sent: set<Sending>) {
    && (forall c :: c in s.pending ==> IsSent(c.frame.message, sent))
    && (forall x :: x in s.sites ==> SiteSent(x, s.sites[x], sent))
  }

  lemma PassedOnIsSent(n: Node, f: Frame, past: uint8, acks: seq<bool>, sent: set<Sending>)
    requires WellFormed(f.message.data) && IsSent(f.message, sent)
    ensures AllSent(RouterReceive(n, f, past, acks).sends, sent)
  {
    var r, m := RouterReceive(n, f, past, acks), f.message;
    var peeked := n.(routes := Peek(n.routes, n.addr, m, f.from, past));
    forall s | s in r.sends
      ensures IsSent(s.message, sent)
    {
      RoutedOrReport(peeked, m.(hops := Wrap8(m.hops + 1)), f.from, acks, s);
    }
  }

  lemma RequestSendsNoPayload(n: Node, m: Routed, from: uint8, acks: seq<bool>, sent: set<Sending>)
    requires WellFormed(m.data) && IsRequest(m)
    ensures AllSent(HandleRequest(n, m, from, acks).sends, sent)
  {
    var longer := m.data + [n.addr];
    assert longer[0] == REQUEST && longer[1..] == m.data[1..] + [n.addr];
    forall s | s in HandleRequest(n, m, from, acks).sends
      ensures s.message.data[0] != APPLICATION
    {
    }
  }

  lemma OwnIsSent(n: Node, payload: seq<uint8>, address: uint8, flags: uint8, acks: seq<bool>, sent: set<Sending>)
    requires Sending(n.addr, payload, address, flags) in sent
    ensures AllSent(SendOwn(n, [APPLICATION] + payload, address, flags, acks).sends, sent)
  {
    assert ([APPLICATION] + payload)[1..] == payload;
  }

  lemma BeginIsSent(n: Node, payload: seq<uint8>, address: uint8, flags: uint8, acks: seq<bool>, sent: set<Sending>)
    requires Sending(n.addr, payload, address, flags) in sent
    ensures var t := Begin(n, payload, address, flags, acks);
            AllSent(t.sends, sent) && SiteSent(n.addr, t.site, sent)
  {
    OwnIsSent(n, payload, address, flags, acks, sent);
  }

  lemma TakeIsSent(site: Site, f: Frame, past: uint8, acks: seq<bool>, answers: seq<bool>, sent: set<Sending>)
    requires WellFormed(f.message.data) && IsSent(f.message, sent) && SiteSent(site.node.addr, site, sent)
    ensures var t := Take(site, f, past, acks, answers);
            AllSent(t.sends, sent) && SiteSent(site.node.addr, t.site, sent)
  {
    PassedOnIsSent(site.node, f, past, acks, sent);
    match site.waiting
    case None =>
      var r := RouterReceive(site.node, f, past, acks);
      if r.delivered.Some? && IsRequest(f.message) {
        RequestSendsNoPayload(r.node, f.message, f.from, acks, sent);
      }
    case Some(w) =>
      var h := Heard(f, past, acks);
      var a := Hear(Asking(site.node, w.room, [], false), w.address, h);
      HearKeepsAddress(Asking(site.node, w.room, [], false), w.address, h);
      OwnIsSent(a.node, w.payload, w.address, w.flags, answers, sent);
  }

  lemma LaunchIsSent(g: Graph, x: uint8, sends: seq<LinkSend>, sent: set<Sending>)
    requires AllSent(sends, sent)
    ensures forall c :: c in Launch(g, x, sends) ==> IsSent(c.frame.message, sent)
  {
    forall c | c in Launch(g, x, sends)
      ensures IsSent(c.frame.message, sent)
    {
      var s := LaunchedFrom(g, x, sends, c);
    }
  }

  lemma StepKeepsGenuine(g: Graph, H: nat, s: Net, step: Step, sent: set<Sending>)
    requires Inv(g, H, s) && Enabled(s, step) && Genuine(s, sent)
    ensures Genuine(Next(g, s, step), sent + SendingOf(step))
  {
    var after := sent + SendingOf(step);
    match step
    case Send(x, payload, address, flags, acks) =>
      BeginIsSent(s.sites[x].node, payload, address, flags, acks, after);
      LaunchIsSent(g, x, Begin(s.sites[x].node, payload, address, flags, acks).sends, after);
    case Receive(k, past, acks, answers) =>
      var c := s.pending[k];
      TakeIsSent(s.sites[c.at], c.frame, past, acks, answers, after);
      LaunchIsSent(g, c.at, Take(s.sites[c.at], c.frame, past, acks, answers).sends, after);
    case Lose(k) =>
    case GiveUp(x) =>
  }

  lemma {:induction false} RunKeepsGenuine(g: Graph, H: nat, s: Net, steps: seq<Step>, sent: set<Sending>)
    requires Inv(g, H, s) && Legal(g, s, steps) && Genuine(s, sent)
    ensures Genuine(End(g, s, steps), sent + Sendings(steps))
    decreases |steps|
  {
    if steps == [] {
      assert sent + Sendings(steps) == sent;
    } else {
      StepKeepsInv(g, H, s, steps[0]);
      StepKeepsGenuine(g, H, s, steps[0], sent);
      var on := sent + SendingOf(steps[0]);
      RunKeepsGenuine(g, H, Next(g, s, steps[0]), steps[1..], on);
      assert on + Sendings(steps[1..]) == sent + Sendings(steps);
    }
  }

  /**
   * Whatever an application is handed, after any run, is the whole payload that the named source's
   * application gave to sendtoWait for this node or for all, with its flags: never protocol data.
   */
  lemma OnlyPayloadsAreDelivered(g: Graph, H: nat, s: Net, steps: seq<Step>, step: Step)
    requires Initial(g, H, s) && (forall x :: x in s.sites ==> s.sites[x].waiting == None)
    requires Legal(g, s, steps) && Enabled(End(g, s, steps), step)
    ensures var d := Delivered(End(g, s, steps), step);
            d.Some? ==>
              && Sending(d.value.source, d.value.payload, d.value.dest, d.value.flags) in Sendings(steps)
              && d.value.dest in {End(g, s, steps).pending[step.k].at, BROADCAST}
  {
    EveryRunKeepsInv(g, H, s, steps);
    var sent: set<Sending> := {};
    RunKeepsGenuine(g, H, s, steps, sent);
    assert sent + Sendings(steps) == Sendings(steps);
    var end := End(g, s, steps);
    if Delivered(end, step) != None {
      var c := end.pending[step.k];
      DeliveredWhole(end.sites[c.at].node, c.frame, step.past, step.acks);
    }
  }
}
