/** What one call on one node guarantees: failures, results, and what discovery leaves in the table. */
module MeshNodeTheory {
  import opened Octets
  import opened RouteTable
  import opened RouteTableTheory
  import opened RouteFifo
  import opened MeshProtocol
  import opened Graphs

  // ---------------------------------------------------------------- the table stays a map

  ghost predicate Kept(before: Node, after: Node) {
    Sound(after.routes) && after.addr == before.addr && after.maxHops == before.maxHops
  }

  lemma OwnRouteKeeps(n: Node, m: Routed, acks: seq<bool>)
    requires Sound(n.routes)
    ensures Kept(n, OwnRoute(n, m, acks).node)
    ensures |OwnRoute(n, m, acks).sends| <= 1
  {
    DeleteIsRemoval(n.routes, m.dest);
  }

  lemma MeshRouteKeeps(n: Node, m: Routed, from: uint8, acks: seq<bool>)
    requires Sound(n.routes)
    ensures Kept(n, MeshRoute(n, m, from, acks).node)
  {
    OwnRouteKeeps(n, m, acks);
    var own := OwnRoute(n, m, acks);
    AddIsUpdate(own.node.routes, m.source, from, Valid);
    var back := own.node.(routes := Add(own.node.routes, m.source, from, Valid));
    var numbered := back.(e2e := Wrap8(back.e2e + 1));
    OwnRouteKeeps(numbered, Routed(m.source, n.addr, 0, back.e2e, 0, [FAILURE, m.dest]), Later(acks, own.sends));
  }

  lemma SendFromKeeps(n: Node, data: seq<uint8>, dest: uint8, source: uint8, flags: uint8, from: uint8, acks: seq<bool>)
    requires Sound(n.routes)
    ensures Kept(n, SendFrom(n, data, dest, source, flags, from, acks).node)
    ensures Kept(n, SendOwn(n, data, dest, flags, acks).node)
  {
    var numbered := n.(e2e := Wrap8(n.e2e + 1));
    MeshRouteKeeps(numbered, Routed(dest, source, 0, n.e2e, flags, data), from, acks);
    OwnRouteKeeps(numbered, Routed(dest, n.addr, 0, n.e2e, flags, data), acks);
  }

  lemma PeekKeeps(t: Slots, me: uint8, m: Routed, from: uint8, past: uint8)
    requires Sound(t) && WellFormed(m.data)
    ensures Sound(Peek(t, me, m, from, past))
  {
    if m.data[0] == RESPONSE {
      AddIsUpdate(t, m.data[2], from, Valid);
      AddAllSound(Add(t, m.data[2], from, Valid), Scraped(m.data[3..], me, past), from);
    } else if m.data[0] == FAILURE {
      DeleteIsRemoval(t, m.data[1]);
    }
  }

  lemma RouterReceiveKeeps(n: Node, f: Frame, past: uint8, acks: seq<bool>)
    requires Sound(n.routes) && WellFormed(f.message.data)
    ensures Kept(n, RouterReceive(n, f, past, acks).node)
  {
    var m := f.message;
    PeekKeeps(n.routes, n.addr, m, f.from, past);
    var peeked := n.(routes := Peek(n.routes, n.addr, m, f.from, past));
    MeshRouteKeeps(peeked, m.(hops := Wrap8(m.hops + 1)), f.from, acks);
  }

  lemma HandleRequestKeeps(n: Node, m: Routed, from: uint8, acks: seq<bool>)
    requires Sound(n.routes) && WellFormed(m.data) && IsRequest(m)
    ensures Kept(n, HandleRequest(n, m, from, acks).node)
  {
    AddAllSound(n.routes, [m.source] + m.data[3..], from);
    var knows := n.(routes := AddAll(n.routes, [m.source] + m.data[3..], from));
    SendFromKeeps(knows, m.data[0 := RESPONSE], m.source, n.addr, 0, from, acks);
    SendFromKeeps(knows, m.data + [n.addr], BROADCAST, m.source, 0, from, acks);
  }

  lemma MeshReceiveKeeps(n: Node, f: Frame, space: nat, past: uint8, acks: seq<bool>)
    requires Sound(n.routes) && WellFormed(f.message.data)
    ensures Kept(n, MeshReceive(n, f, space, past, acks).node)
  {
    RouterReceiveKeeps(n, f, past, acks);
    var r := RouterReceive(n, f, past, acks);
    if r.delivered.Some? && IsRequest(r.delivered.value) {
      HandleRequestKeeps(r.node, f.message, f.from, acks);
    }
  }

  lemma HearKeeps(a: Asking, address: uint8, h: Heard)
    requires Sound(a.node.routes) && WellFormed(h.frame.message.data)
    ensures Kept(a.node, Hear(a, address, h).node)
    ensures Hear(a, address, h).found && !a.found ==>
              Lookup(Hear(a, address, h).node.routes, address) == Some(h.frame.from)
  {
    var r := RouterReceive(a.node, h.frame, h.past, h.acks);
    RouterReceiveKeeps(a.node, h.frame, h.past, h.acks);
    AddIsUpdate(r.node.routes, address, h.frame.from, Valid);
  }

  /** A wait that ends with a response ends with a route. */
  lemma {:induction false} ListenFindsRoute(a: Asking, address: uint8, inbox: seq<Heard>)
    requires Sound(a.node.routes) && AllWellFormed(inbox)
    requires a.found ==> Lookup(a.node.routes, address) != None
    ensures Kept(a.node, Listen(a, address, inbox).node)
    ensures Listen(a, address, inbox).found ==> Lookup(Listen(a, address, inbox).node.routes, address) != None
    decreases |inbox|
  {
    if inbox == [] {
    } else {
      assert inbox[0] in inbox;
      HearKeeps(a, address, inbox[0]);
      ListenFindsRoute(Hear(a, address, inbox[0]), address, inbox[1..]);
    }
  }

  // ---------------------------------------------------------------- failures

  /** Whether the first attempt to pass m on fails. */
  predicate Fails(n: Node, m: Routed, acks: seq<bool>) {
    RouterRoute(n, m, acks).0 != NoError
  }

  /**
   * One failed hop costs at most two link-level sends. Afterwards there is no route to the failed
   * destination, unless the message was another node's message to itself and the report got away.
   */
  lemma FailureForgetsRoute(n: Node, m: Routed, from: uint8, acks: seq<bool>)
    requires Sound(n.routes)
    ensures var out := MeshRoute(n, m, from, acks);
            && |out.sends| <= 2
            && (!Fails(n, m, acks) ==> out.node == n && out.code == NoError && |out.sends| == 1)
            && (Fails(n, m, acks) ==>
                  (Lookup(out.node.routes, m.dest) == None <==>
                   m.source == n.addr || m.source != m.dest
                   || (from != BROADCAST && !Answer(Later(acks, RouterRoute(n, m, acks).1)))))
  {
    var own := OwnRoute(n, m, acks);
    DeleteIsRemoval(n.routes, m.dest);
    if Fails(n, m, acks) && m.source != n.addr {
      AddIsUpdate(own.node.routes, m.source, from, Valid);
      var back := own.node.(routes := Add(own.node.routes, m.source, from, Valid));
      DeleteIsRemoval(back.routes, m.source);
    }
  }

  /** The node whose message was lost is told through the neighbour it came from, or forgotten too. */
  lemma FailureIsReported(n: Node, m: Routed, from: uint8, acks: seq<bool>)
    requires Sound(n.routes) && Fails(n, m, acks) && m.source != n.addr
    requires m.source != BROADCAST && from != BROADCAST
    ensures var out := MeshRoute(n, m, from, acks);
            var told := Answer(Later(acks, RouterRoute(n, m, acks).1));
            && out.sends != []
            && out.sends[|out.sends| - 1] ==
                 LinkSend(from, Routed(m.source, n.addr, 0, n.e2e, 0, [FAILURE, m.dest]), told)
            && Lookup(out.node.routes, m.source) == (if told then Some(from) else None)
            && out.code == (if told then NoError else UnableToDeliver)
  {
    var own := OwnRoute(n, m, acks);
    DeleteIsRemoval(n.routes, m.dest);
    AddIsUpdate(own.node.routes, m.source, from, Valid);
    var back := own.node.(routes := Add(own.node.routes, m.source, from, Valid));
    DeleteIsRemoval(back.routes, m.source);
  }

  /** The i-th link-level send is a broadcast or gets the i-th answer. */
  predicate AnsweredInOrder(sends: seq<LinkSend>, acks: seq<bool>) {
    forall i :: 0 <= i < |sends| ==> sends[i].acked == (sends[i].to == BROADCAST || (i < |acks| && acks[i]))
  }

  lemma RouteAnsweredInOrder(n: Node, m: Routed, from: uint8, acks: seq<bool>)
    ensures AnsweredInOrder(MeshRoute(n, m, from, acks).sends, acks)
  {
  }

  /** A report is not confused with what it reports: every send of one call has its own answer. */
  lemma ReceiveAnsweredInOrder(n: Node, f: Frame, space: nat, past: uint8, acks: seq<bool>)
    requires WellFormed(f.message.data)
    ensures AnsweredInOrder(MeshReceive(n, f, space, past, acks).sends, acks)
  {
    var m := f.message;
    var peeked := n.(routes := Peek(n.routes, n.addr, m, f.from, past));
    if m.dest != n.addr && m.dest != BROADCAST {
      RouteAnsweredInOrder(peeked, m.(hops := Wrap8(m.hops + 1)), f.from, acks);
    } else if Fresh(n, m) {
      var knows := peeked.(routes := AddAll(peeked.routes, [m.source] + m.data[3..], f.from));
      var relayed := Routed(BROADCAST, m.source, 0, knows.e2e, 0, m.data + [n.addr]);
      RouteAnsweredInOrder(knows.(e2e := Wrap8(knows.e2e + 1)), relayed, f.from, acks);
    }
  }

  // ---------------------------------------------------------------- the result of a send

  /** Payloads that fit a mesh message may still be too long for the radio. */
  const PAYLOAD_MAX: nat := DRIVER_MAX - HEADER - 1

  predicate Known(n: Node, address: uint8) {
    address == BROADCAST || Lookup(n.routes, address) != None
  }

  /** RHMesh::sendtoWait's result says what happened, and a failure leaves no route behind. */
  lemma SendResultAndTableAgree(n: Node, payload: seq<uint8>, address: uint8, flags: uint8, inbox: seq<Heard>,
                                acks: seq<bool>)
    requires Sound(n.routes) && AllWellFormed(inbox)
    ensures var out := MeshSend(n, payload, address, flags, inbox, acks);
            var reached := Known(n, address) || Discover(n, address, inbox).found;
            && (out.code == NoRoute <==> |payload| <= MESH_MAX && !reached)
            && (out.code == InvalidLength <==> |payload| > MESH_MAX || (reached && |payload| > PAYLOAD_MAX))
            && (out.code == UnableToDeliver ==> !Known(out.node, address))
            && (out.code == NoError ==>
                  && out.sends != []
                  && var last := out.sends[|out.sends| - 1];
                     && last.acked && Known(out.node, address)
                     && last.to == (if address == BROADCAST then BROADCAST else Lookup(out.node.routes, address).value)
                     && last.message.data == [APPLICATION] + payload && last.message.dest == address
                     && last.message.source == n.addr && last.message.flags == flags && last.message.hops == 0)
  {
    var asked := Ask(n, address);
    SendFromKeeps(n, [REQUEST, 1, address], BROADCAST, n.addr, 0, n.addr, []);
    ListenFindsRoute(Asking(asked.node, ROUTER_MAX, asked.sends, false), address, inbox);
    var a := if Known(n, address) then Asking(n, ROUTER_MAX, [], true) else Discover(n, address, inbox);
    DeleteIsRemoval(a.node.routes, address);
  }

  // ---------------------------------------------------------------- when a discovery hears its answer

  predicate Addressed(addr: uint8, h: Heard) {
    h.frame.message.dest == addr || h.frame.message.dest == BROADCAST
  }

  /** The k-th frame is a response for this node, and no empty message for it came before. */
  predicate AnswerAt(addr: uint8, inbox: seq<Heard>, k: nat) {
    && k < |inbox| && Addressed(addr, inbox[k])
    && |inbox[k].frame.message.data| > 1 && inbox[k].frame.message.data[0] == RESPONSE
    && forall j :: 0 <= j < k && Addressed(addr, inbox[j]) ==> |inbox[j].frame.message.data| > 1
  }

  lemma HearKeepsAddress(a: Asking, address: uint8, h: Heard)
    requires WellFormed(h.frame.message.data)
    ensures Hear(a, address, h).node.addr == a.node.addr
  {
  }

  lemma AnswerAtSplit(addr: uint8, inbox: seq<Heard>)
    requires inbox != []
    ensures (exists k :: AnswerAt(addr, inbox, k)) <==>
            AnswerAt(addr, inbox, 0)
            || ((Addressed(addr, inbox[0]) ==> |inbox[0].frame.message.data| > 1)
                && exists k :: AnswerAt(addr, inbox[1..], k))
  {
    var rest := inbox[1..];
    forall k: nat | k > 0
      ensures AnswerAt(addr, inbox, k) <==>
              (Addressed(addr, inbox[0]) ==> |inbox[0].frame.message.data| > 1) && AnswerAt(addr, rest, k - 1)
    {
      assert forall j :: 0 <= j < |rest| ==> rest[j] == inbox[j + 1];
      assert forall j :: 0 < j < |inbox| ==> inbox[j] == rest[j - 1];
    }
    if (Addressed(addr, inbox[0]) ==> |inbox[0].frame.message.data| > 1) && exists k: nat :: AnswerAt(addr, rest, k) {
      var k: nat :| AnswerAt(addr, rest, k);
      assert AnswerAt(addr, rest, (k + 1) - 1) && AnswerAt(addr, inbox, k + 1);
    }
  }

  /** doArp's messageLen never grows back, so the wait finds the response only if no empty message came before. */
  lemma {:induction false} ListenFindsIff(a: Asking, address: uint8, inbox: seq<Heard>)
    requires AllWellFormed(inbox) && !a.found
    ensures Listen(a, address, inbox).found <==> a.room > 1 && exists k :: AnswerAt(a.node.addr, inbox, k)
    decreases |inbox|
  {
    if inbox == [] {
    } else {
      assert inbox[0] in inbox;
      var b := Hear(a, address, inbox[0]);
      HearKeepsAddress(a, address, inbox[0]);
      AnswerAtSplit(a.node.addr, inbox);
      if b.found {
        ListenKeepsFound(b, address, inbox[1..]);
      } else {
        ListenFindsIff(b, address, inbox[1..]);
      }
    }
  }

  lemma {:induction false} ListenKeepsFound(a: Asking, address: uint8, inbox: seq<Heard>)
    requires AllWellFormed(inbox) && a.found
    ensures Listen(a, address, inbox).found
    decreases |inbox|
  {
    if inbox == [] {
    } else {
      assert inbox[0] in inbox;
      ListenKeepsFound(Hear(a, address, inbox[0]), address, inbox[1..]);
    }
  }

  /** Exactly when doArp succeeds. */
  lemma DiscoverFindsIff(n: Node, address: uint8, inbox: seq<Heard>)
    requires AllWellFormed(inbox)
    ensures Discover(n, address, inbox).found <==> exists k :: AnswerAt(n.addr, inbox, k)
  {
    var asked := Ask(n, address);
    ListenFindsIff(Asking(asked.node, ROUTER_MAX, asked.sends, false), address, inbox);
  }

  lemma DeafAfterEmptyMessage(a: Asking, address: uint8, inbox: seq<Heard>)
    requires AllWellFormed(inbox) && a.room <= 1 && !a.found
    ensures !Listen(a, address, inbox).found
  {
    ListenFindsIff(a, address, inbox);
  }

  /** An application message of length 0, which anyone may send, hides the response that comes after it. */
  lemma EmptyMessageHidesAnswer(n: Node, address: uint8, empty: Heard, answer: Heard)
    requires Addressed(n.addr, empty) && empty.frame.message.data == [APPLICATION]
    requires WellFormed(answer.frame.message.data) && AnswerAt(n.addr, [answer], 0)
    ensures Discover(n, address, [answer]).found && !Discover(n, address, [empty, answer]).found
  {
    DiscoverFindsIff(n, address, [answer]);
    DiscoverFindsIff(n, address, [empty, answer]);
    assert [empty, answer][0] == empty;
  }

  // ---------------------------------------------------------------- what a request leads to

  /** A new request for this node: one address, and that is its own. */
  predicate Seeks(n: Node, m: Routed)
    requires WellFormed(m.data)
  {
    Fresh(n, m) && m.data[1] == 1 && m.data[2] == n.addr
  }

  /** A new request for another node that this one may still add itself to. */
  predicate Floods(n: Node, m: Routed)
    requires WellFormed(m.data)
  {
    Fresh(n, m) && !Seeks(n, m) && |m.data[3..]| < n.maxHops && |m.data| < DRIVER_MAX - HEADER
  }

  /**
   * A request that is no news changes nothing. One for this node is answered with its list, over the
   * route there is then; one for another goes on in its originator's name, with this node at the end of
   * the list, exactly if that is shorter than the limit and the radio's. Nothing else is ever sent.
   */
  lemma RequestLeadsTo(n: Node, m: Routed, from: uint8, acks: seq<bool>)
    requires WellFormed(m.data) && IsRequest(m)
    ensures var out := HandleRequest(n, m, from, acks);
            var longer := Routed(BROADCAST, m.source, 0, n.e2e, 0, m.data + [n.addr]);
            var reply := Routed(m.source, n.addr, 0, n.e2e, 0, m.data[0 := RESPONSE]);
            && (!Fresh(n, m) ==> out.node == n)
            && (Floods(n, m) ==> out.sends == [LinkSend(BROADCAST, longer, true)])
            && (Seeks(n, m) && out.sends != [] ==> |out.sends| == 1 && out.sends[0].message == reply)
            && (Seeks(n, m) && out.sends == [] ==> out.code == NoRoute)
            && (!Floods(n, m) && !Seeks(n, m) ==> out.sends == [])
            && out.node.e2e == Wrap8(n.e2e + if Floods(n, m) || Seeks(n, m) then 1 else 0)
  {
  }

  /** A request that is not for all is nobody's business: it is passed on or dropped, and that is all. */
  lemma UnicastRequestIsIgnored(n: Node, f: Frame, space: nat, past: uint8, acks: seq<bool>)
    requires WellFormed(f.message.data) && f.message.data[0] == REQUEST && f.message.dest == n.addr != BROADCAST
    ensures MeshReceive(n, f, space, past, acks) == Handled(n, [], None)
  {
  }

  // ---------------------------------------------------------------- capacity

  /**
   * When the table and the request together name at most ten nodes, handling the request leaves
   * routes to all the nodes it names, through the neighbour it came from, and a reply has a route.
   */
  lemma RequestTeachesAllItNames(n: Node, m: Routed, from: uint8, acks: seq<bool>, S: set<uint8>)
    requires Sound(n.routes) && WellFormed(m.data) && Fresh(n, m)
    requires LiveWithin(n.routes, S) && |S| <= SIZE
    requires m.source in S && forall d :: d in m.data[3..] ==> d in S
    requires m.source != BROADCAST && from != BROADCAST
    ensures var out := HandleRequest(n, m, from, acks);
            var named := [m.source] + m.data[3..];
            var target := m.data[1] == 1 && m.data[2] == n.addr;
            && out.code != NoRoute
            && (forall d :: d in named && (target && d == m.source ==> out.code != UnableToDeliver) ==>
                  Lookup(out.node.routes, d) == Some(from))
            && (forall d :: d !in named ==> Lookup(out.node.routes, d) == Lookup(n.routes, d))
            && (target ==> |out.sends| == 1 && out.sends[0].to == from
                           && out.sends[0].message.data == m.data[0 := RESPONSE])
  {
    var named := [m.source] + m.data[3..];
    AddAllLearns(n.routes, named, from, S);
    var knows := n.(routes := AddAll(n.routes, named, from));
    DeleteIsRemoval(knows.routes, m.source);
    assert m.source in named;
  }

  /** What peekAtMessage takes out of a response's list: from two past this node on, and the octet after. */
  predicate PeekAdds(list: seq<uint8>, me: uint8, past: uint8, d: uint8) {
    var p := IndexOf(list, me);
    p + 1 < |list| && (d in list[p + 2..] || d == past)
  }

  /** With room, a passing response teaches routes to exactly those and the sought node. */
  lemma ResponseTeachesExactly(t: Slots, me: uint8, m: Routed, from: uint8, past: uint8, S: set<uint8>)
    requires Sound(t) && LiveWithin(t, S) && |S| <= SIZE && WellFormed(m.data) && m.data[0] == RESPONSE
    requires m.data[2] in S && forall d :: PeekAdds(m.data[3..], me, past, d) ==> d in S
    ensures forall d :: Lookup(Peek(t, me, m, from, past), d) ==
                        if d == m.data[2] || PeekAdds(m.data[3..], me, past, d) then Some(from) else Lookup(t, d)
  {
    var list := m.data[3..];
    var scraped := Scraped(list, me, past);
    AddAllLearns(t, [m.data[2]], from, S);
    assert [m.data[2]][1..] == [] && AddAll(t, [m.data[2]], from) == Add(t, m.data[2], from, Valid);
    assert forall d :: d in scraped <==> PeekAdds(list, me, past, d);
    AddAllLearns(Add(t, m.data[2], from, Valid), scraped, from, S);
  }

  /** The nodes the comment promises: all between this one and the one that answered. */
  function Onward(list: seq<uint8>, me: uint8): seq<uint8> {
    if me in list then IndexOfFinds(list, me); list[IndexOf(list, me) + 1..] else list
  }

  /**
   * A node on the list gets them all exactly when the next one, which the code skips, is the octet past the
   * list or has its route already.
   */
  lemma RelayCoverageIff(t: Slots, me: uint8, m: Routed, from: uint8, past: uint8, S: set<uint8>)
    requires Sound(t) && LiveWithin(t, S) && |S| <= SIZE && WellFormed(m.data) && m.data[0] == RESPONSE
    requires m.data[2] in S && forall d :: PeekAdds(m.data[3..], me, past, d) ==> d in S
    requires NoDup(m.data[3..]) && m.data[2] !in m.data[3..] && me in m.data[3..]
    ensures var onward := Onward(m.data[3..], me);
            (forall d :: d in onward ==> Lookup(Peek(t, me, m, from, past), d) == Some(from)) <==>
            onward == [] || onward[0] == past || Lookup(t, onward[0]) == Some(from)
  {
    var list := m.data[3..];
    var onward := Onward(list, me);
    ResponseTeachesExactly(t, me, m, from, past, S);
    IndexOfFinds(list, me);
    if onward != [] {
      var next, rest := onward[0], list[IndexOf(list, me) + 2..];
      assert next == list[IndexOf(list, me) + 1] && onward == [next] + rest;
      assert next in list && next !in rest;
      assert forall d :: d in onward <==> d == next || d in rest;
      assert forall d :: d in rest ==> PeekAdds(list, me, past, d);
    }
  }

  /** The node that asked gets none of them from peeking: it learns the sought node, and nothing else changes. */
  lemma AskerLearnsOnlyTheSought(t: Slots, me: uint8, m: Routed, from: uint8, past: uint8, d: uint8)
    requires Sound(t) && WellFormed(m.data) && m.data[0] == RESPONSE && me !in m.data[3..] && d != m.data[2]
    ensures Lookup(Peek(t, me, m, from, past), m.data[2]) == Some(from)
    ensures Lookup(Peek(t, me, m, from, past), d) ==
            if Evicts(t, m.data[2]) && d == t[0].dest then None else Lookup(t, d)
  {
    IndexOfFinds(m.data[3..], me);
    AddIsUpdate(t, m.data[2], from, Valid);
  }

  // ---------------------------------------------------------------- without that bound

  /** A whole list learnt through h, on the list of routes that the table stands for. */
  function Learn(q: Queue, ds: seq<uint8>, h: uint8): Queue
    decreases |ds|
  {
    if ds == [] then q else Learn(QueueApply(q, OpAdd(ds[0], h, Valid)), ds[1..], h)
  }

  lemma {:induction false} LearnRefines(t: Slots, q: Queue, ds: seq<uint8>, h: uint8)
    requires Represents(t, q)
    ensures Represents(AddAll(t, ds, h), Learn(q, ds, h))
    decreases |ds|
  {
    if ds == [] {
    } else {
      AddRefines(t, q, ds[0], h, Valid);
      LearnRefines(Add(t, ds[0], h, Valid), QueueApply(q, OpAdd(ds[0], h, Valid)), ds[1..], h);
    }
  }

  /** How many of ds have no route when their turn comes, and so go to the end of the list. */
  function Pushes(q: Queue, ds: seq<uint8>, h: uint8): nat
    decreases |ds|
  {
    if ds == [] then 0 else
    (if FindKey(q, ds[0]) < |q| then 0 else 1) + Pushes(QueueApply(q, OpAdd(ds[0], h, Valid)), ds[1..], h)
  }

  predicate HasRoute(q: Queue, d: uint8) { FindKey(q, d) < |q| }

  ghost predicate OneEach(q: Queue) {
    |q| <= SIZE && forall i, j :: 0 <= i < j < |q| ==> q[i].dest != q[j].dest
  }

  lemma PlaceIs(q: Queue, d: uint8, i: nat)
    requires OneEach(q) && i < |q| && q[i].dest == d
    ensures FindKey(q, d) == i
  {
  }

  lemma AfterRenewal(q: Queue, d: uint8, h: uint8, e: uint8)
    requires OneEach(q) && e != d && HasRoute(q, d)
    ensures var r := QueueApply(q, OpAdd(d, h, Valid));
            OneEach(r) && |r| == |q| && FindKey(r, e) == FindKey(q, e)
  {
    var r, k := QueueApply(q, OpAdd(d, h, Valid)), FindKey(q, e);
    assert forall j :: 0 <= j < |r| ==> r[j].dest == q[j].dest;
    if k < |q| {
      PlaceIs(r, e, k);
    }
  }

  lemma AfterPush(q: Queue, d: uint8, h: uint8, e: uint8)
    requires OneEach(q) && e != d && !HasRoute(q, d)
    ensures var r := QueueApply(q, OpAdd(d, h, Valid));
            var shift := if |q| == SIZE then 1 else 0;
            && OneEach(r) && |r| == |q| + 1 - shift
            && (HasRoute(r, e) <==> HasRoute(q, e) && FindKey(q, e) >= shift)
            && (HasRoute(r, e) ==> FindKey(r, e) == FindKey(q, e) - shift)
  {
    var shift := if |q| == SIZE then 1 else 0;
    var r, k := QueueApply(q, OpAdd(d, h, Valid)), FindKey(q, e);
    assert r == q[shift..] + [Entry(d, h, Valid)];
    assert forall j :: 0 <= j < |r| - 1 ==> r[j] == q[j + shift];
    if shift <= k < |q| {
      PlaceIs(r, e, k - shift);
    }
  }

  /** Where the route of e stands after one more is learnt: the same place, one place on, or gone. */
  lemma AfterOneMore(q: Queue, d: uint8, h: uint8, e: uint8)
    requires OneEach(q) && e != d
    ensures var r := QueueApply(q, OpAdd(d, h, Valid));
            var shift := if |q| == SIZE && !HasRoute(q, d) then 1 else 0;
            && OneEach(r) && |r| == |q| + (if HasRoute(q, d) then 0 else 1) - shift
            && (HasRoute(r, e) <==> HasRoute(q, e) && FindKey(q, e) >= shift)
            && (HasRoute(r, e) ==> FindKey(r, e) == FindKey(q, e) - shift)
  {
    if HasRoute(q, d) {
      AfterRenewal(q, d, h, e);
    } else {
      AfterPush(q, d, h, e);
    }
  }

  lemma {:induction false} GoneStaysGone(q: Queue, ds: seq<uint8>, h: uint8, e: uint8)
    requires OneEach(q) && !HasRoute(q, e) && e !in ds
    ensures !HasRoute(Learn(q, ds, h), e)
    decreases |ds|
  {
    if ds == [] {
    } else {
      AfterOneMore(q, ds[0], h, e);
      GoneStaysGone(QueueApply(q, OpAdd(ds[0], h, Valid)), ds[1..], h, e);
    }
  }

  /** A route in place k outlives a list exactly when the list pushes no more than k routes out. */
  lemma {:induction false} SurvivesIff(q: Queue, ds: seq<uint8>, h: uint8, e: uint8)
    requires OneEach(q) && HasRoute(q, e) && e !in ds
    ensures HasRoute(Learn(q, ds, h), e) <==> |q| + Pushes(q, ds, h) <= SIZE + FindKey(q, e)
    decreases |ds|
  {
    if ds == [] {
    } else {
      var r := QueueApply(q, OpAdd(ds[0], h, Valid));
      AfterOneMore(q, ds[0], h, e);
      if HasRoute(r, e) {
        SurvivesIff(r, ds[1..], h, e);
      } else {
        GoneStaysGone(r, ds[1..], h, e);
      }
    }
  }

  /** How many of ds have no route yet. */
  function Missing(q: Queue, ds: seq<uint8>): nat {
    if ds == [] then 0 else (if HasRoute(q, ds[0]) then 0 else 1) + Missing(q, ds[1..])
  }

  /** How many of ds have no route yet or one in a place before k, that may be pushed out before it is renewed. */
  function AtRisk(q: Queue, k: nat, ds: seq<uint8>): nat
    decreases |ds|
  {
    if ds == [] then 0 else (if HasRoute(q, ds[0]) && FindKey(q, ds[0]) >= k then 0 else 1) + AtRisk(q, k, ds[1..])
  }

  lemma {:induction false} MissingStay(q: Queue, d: uint8, h: uint8, ds: seq<uint8>)
    requires OneEach(q) && d !in ds
    ensures Missing(q, ds) <= Missing(QueueApply(q, OpAdd(d, h, Valid)), ds)
  {
    if ds == [] {
    } else {
      AfterOneMore(q, d, h, ds[0]);
      MissingStay(q, d, h, ds[1..]);
    }
  }

  lemma {:induction false} SafeStay(q: Queue, d: uint8, h: uint8, e: uint8, ds: seq<uint8>)
    requires OneEach(q) && d !in ds && e != d && e !in ds && HasRoute(q, e)
    requires HasRoute(QueueApply(q, OpAdd(d, h, Valid)), e)
    ensures var r := QueueApply(q, OpAdd(d, h, Valid));
            AtRisk(r, FindKey(r, e), ds) <= AtRisk(q, FindKey(q, e), ds)
    decreases |ds|
  {
    if ds == [] {
    } else {
      AfterOneMore(q, d, h, e);
      AfterOneMore(q, d, h, ds[0]);
      SafeStay(q, d, h, e, ds[1..]);
    }
  }

  lemma {:induction false} PushesAtLeast(q: Queue, ds: seq<uint8>, h: uint8)
    requires OneEach(q) && NoDup(ds)
    ensures Missing(q, ds) <= Pushes(q, ds, h) <= |ds|
    decreases |ds|
  {
    if ds == [] {
    } else {
      var r, rest := QueueApply(q, OpAdd(ds[0], h, Valid)), ds[1..];
      assert forall i :: 0 <= i < |rest| ==> rest[i] == ds[i + 1];
      AfterOneMore(q, ds[0], h, if ds[0] == 0 then 1 else 0);
      MissingStay(q, ds[0], h, rest);
      PushesAtLeast(r, rest, h);
    }
  }

  lemma {:induction false} PushesAtMost(q: Queue, ds: seq<uint8>, h: uint8, e: uint8)
    requires OneEach(q) && NoDup(ds) && HasRoute(q, e) && e !in ds
    requires |q| + AtRisk(q, FindKey(q, e), ds) <= SIZE + FindKey(q, e)
    ensures Pushes(q, ds, h) <= AtRisk(q, FindKey(q, e), ds)
    decreases |ds|
  {
    if ds == [] {
    } else {
      var r, rest := QueueApply(q, OpAdd(ds[0], h, Valid)), ds[1..];
      assert forall i :: 0 <= i < |rest| ==> rest[i] == ds[i + 1];
      AfterOneMore(q, ds[0], h, e);
      SafeStay(q, ds[0], h, e, rest);
      PushesAtMost(r, rest, h, e);
    }
  }

  /** The originator's place after its route is recorded, and the list to follow. */
  lemma SourceIsIn(t: Slots, q: Queue, source: uint8, from: uint8)
    requires Represents(t, q)
    ensures var p := QueueApply(q, OpAdd(source, from, Valid));
            Represents(Add(t, source, from, Valid), p) && OneEach(p) && HasRoute(p, source)
  {
    AddRefines(t, q, source, from, Valid);
    var p, i := QueueApply(q, OpAdd(source, from, Valid)), FindKey(q, source);
    assert p[if i < |q| then i else |p| - 1].dest == source;
  }

  lemma RouteBackSurvivesIff(t: Slots, q: Queue, source: uint8, list: seq<uint8>, from: uint8)
    requires Represents(t, q) && source !in list
    ensures var p := QueueApply(q, OpAdd(source, from, Valid));
            Lookup(AddAll(t, [source] + list, from), source) != None <==>
            |p| + Pushes(p, list, from) <= SIZE + FindKey(p, source)
  {
    var named, p := [source] + list, QueueApply(q, OpAdd(source, from, Valid));
    assert named[0] == source && named[1..] == list;
    SourceIsIn(t, q, source, from);
    LearnRefines(Add(t, source, from, Valid), p, list, from);
    SeenAsQueue(AddAll(t, named, from), Learn(p, list, from), source);
    SurvivesIff(p, list, from, source);
  }

  /**
   * The target of a discovery is not certain to have the route back that it has just learnt: recording
   * the listed nodes can evict it again. The reply finds a route exactly when the listed nodes that find
   * none of their own are no more than there is room for behind the originator.
   */
  lemma ReplyHasRouteIff(n: Node, q: Queue, m: Routed, from: uint8, acks: seq<bool>)
    requires Represents(n.routes, q) && WellFormed(m.data) && Fresh(n, m)
    requires m.data[1] == 1 && m.data[2] == n.addr && m.source != BROADCAST && m.source !in m.data[3..]
    ensures var p := QueueApply(q, OpAdd(m.source, from, Valid));
            HandleRequest(n, m, from, acks).code != NoRoute <==>
            |p| + Pushes(p, m.data[3..], from) <= SIZE + FindKey(p, m.source)
  {
    RouteBackSurvivesIff(n.routes, q, m.source, m.data[3..], from);
  }

  /** So it fails with too many unknown nodes, and not if those and the ones before the originator fit. */
  lemma ReplyRouteBounds(n: Node, q: Queue, m: Routed, from: uint8, acks: seq<bool>)
    requires Represents(n.routes, q) && WellFormed(m.data) && Fresh(n, m)
    requires m.data[1] == 1 && m.data[2] == n.addr && m.source != BROADCAST
    requires NoDup(m.data[3..]) && m.source !in m.data[3..]
    ensures var p := QueueApply(q, OpAdd(m.source, from, Valid));
            var room := SIZE + FindKey(p, m.source) - |p|;
            && (Missing(p, m.data[3..]) > room ==> HandleRequest(n, m, from, acks).code == NoRoute)
            && (AtRisk(p, FindKey(p, m.source), m.data[3..]) <= room ==>
                  HandleRequest(n, m, from, acks).code != NoRoute)
  {
    var p := QueueApply(q, OpAdd(m.source, from, Valid));
    SourceIsIn(n.routes, q, m.source, from);
    ReplyHasRouteIff(n, q, m, from, acks);
    PushesAtLeast(p, m.data[3..], from);
    if AtRisk(p, FindKey(p, m.source), m.data[3..]) <= SIZE + FindKey(p, m.source) - |p| {
      PushesAtMost(p, m.data[3..], from, m.source);
    }
  }

  lemma {:induction false} AllMissing(q: Queue, ds: seq<uint8>)
    requires forall d :: d in ds ==> !HasRoute(q, d)
    ensures Missing(q, ds) == |ds|
  {
    if ds == [] {
    } else {
      assert ds[0] in ds;
      AllMissing(q, ds[1..]);
    }
  }

  /** On a node that knows nothing yet the tenth listed relay is the one too many. */
  lemma FirstReplyHasRouteIff(n: Node, m: Routed, from: uint8, acks: seq<bool>)
    requires n.routes == ZERO && WellFormed(m.data) && Fresh(n, m)
    requires m.data[1] == 1 && m.data[2] == n.addr && m.source != BROADCAST
    requires NoDup(m.data[3..]) && m.source !in m.data[3..]
    ensures HandleRequest(n, m, from, acks).code != NoRoute <==> |m.data[3..]| < SIZE
  {
    var p := [Entry(m.source, from, Valid)];
    assert QueueApply([], OpAdd(m.source, from, Valid)) == p;
    ReplyHasRouteIff(n, [], m, from, acks);
    AllMissing(p, m.data[3..]);
    PushesAtLeast(p, m.data[3..], from);
  }
}
