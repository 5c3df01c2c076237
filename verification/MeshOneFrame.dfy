/**
 * Routes learnt by discovery when every receiver keeps one frame, as the RF95 driver does: two nodes never
 * point at each other, and longer loops are possible for exactly the destinations that have two ways to a cycle.
 */
module MeshOneFrame {
  import opened Octets
  import opened RouteTable
  import opened RouteTableTheory
  import opened MeshProtocol
  import opened MeshNodeTheory
  import opened Graphs
  import opened MeshNetwork
  import opened MeshRoutes
  import opened MeshRuns
  import opened MeshLoops

  /** Runs of discovery steps between receivers that keep one frame. */
  const SINGLE: Kind := Kind(true, true)

  // ---------------------------------------------------------------- what handling a request does

  function Named(m: Routed): seq<uint8>
    requires |m.data| >= 3
  {
    [m.source] + m.data[3..]
  }

  /** A copy of a request that names d and has not been past its receiver. */
  predicate NewsOf(c: Copy, d: uint8) {
    var m := c.frame.message;
    WellFormed(m.data) && IsRequest(m) && d in Named(m) && c.at !in Named(m)
  }

  lemma {:induction false} AddAllEffect(t: Slots, ds: seq<uint8>, h: uint8, d: uint8)
    requires Sound(t)
    ensures var r := Lookup(AddAll(t, ds, h), d);
            r == None || (if d in ds then r == Some(h) else r == Lookup(t, d))
    decreases |ds|
  {
    if ds == [] {
    } else {
      AddIsUpdate(t, ds[0], h, Valid);
      AddAllEffect(Add(t, ds[0], h, Valid), ds[1..], h, d);
    }
  }

  /** What may become of the route to d at a node that takes the request m from h. */
  ghost predicate Moved(before: Option<uint8>, after: Option<uint8>, news: bool, d: uint8, m: Routed, h: uint8)
    requires |m.data| >= 3
  {
    || after == None
    || (if news && d in Named(m) then after == Some(h) else after == before)
  }

  lemma HandledEffect(n: Node, m: Routed, h: uint8, acks: seq<bool>, d: uint8)
    requires Sound(n.routes) && WellFormed(m.data) && IsRequest(m)
    ensures Moved(Lookup(n.routes, d), Lookup(HandleRequest(n, m, h, acks).node.routes, d), Fresh(n, m), d, m, h)
  {
    if Fresh(n, m) {
      var learnt := AddAll(n.routes, Named(m), h);
      AddAllEffect(n.routes, Named(m), h, d);
      AddAllSound(n.routes, Named(m), h);
      DeleteIsRemoval(learnt, m.source);
      DeleteIsRemoval(learnt, BROADCAST);
    }
  }

  lemma HandledSends(n: Node, m: Routed, h: uint8, acks: seq<bool>, s: LinkSend)
    requires WellFormed(m.data) && IsRequest(m) && s in HandleRequest(n, m, h, acks).sends
    ensures Fresh(n, m)
    ensures s.message.data != [] && s.message.data[0] == REQUEST ==>
              |s.message.data| >= 3 && Named(s.message) == Named(m) + [n.addr]
  {
    if s.message.data[0] == REQUEST {
      assert s.message.data == m.data + [n.addr];
      assert (m.data + [n.addr])[3..] == m.data[3..] + [n.addr];
    }
  }

  /** The same for a site, which may be waiting in doArp and then discards the request. */
  lemma TakeEffect(site: Site, f: Frame, past: uint8, acks: seq<bool>, answers: seq<bool>, d: uint8)
    requires Sound(site.node.routes) && WellFormed(f.message.data) && IsRequest(f.message)
    ensures var t := Take(site, f, past, acks, answers);
            var news := site.waiting == None && Fresh(site.node, f.message);
            && Moved(Lookup(site.node.routes, d), Lookup(t.site.node.routes, d), news, d, f.message, f.from)
            && (t.sends != [] ==> news)
  {
    var n := site.node;
    assert n.(routes := n.routes) == n;
    if site.waiting == None {
      HandledEffect(n, f.message, f.from, acks, d);
      var out := HandleRequest(n, f.message, f.from, acks);
      if out.sends != [] {
        HandledSends(n, f.message, f.from, acks, out.sends[0]);
      }
    }
  }

  lemma TakeSends(site: Site, f: Frame, past: uint8, acks: seq<bool>, answers: seq<bool>, s: LinkSend)
    requires WellFormed(f.message.data) && IsRequest(f.message) && s in Take(site, f, past, acks, answers).sends
    ensures s.message.data != [] && s.message.data[0] == REQUEST ==>
              |s.message.data| >= 3 && Named(s.message) == Named(f.message) + [site.node.addr]
  {
    var n := site.node;
    assert n.(routes := n.routes) == n;
    assert site.waiting == None;
    HandledSends(n, f.message, f.from, acks, s);
  }

  // ---------------------------------------------------------------- no two nodes point at each other

  ghost predicate RouteIs(s: Net, x: uint8, d: uint8, h: uint8) {
    x in s.sites && Lookup(s.sites[x].node.routes, d) == Some(h)
  }

  /** Two requests that name d on their way past each other. */
  ghost predicate Cross(c: Copy, e: Copy, d: uint8) {
    NewsOf(c, d) && NewsOf(e, d) && c.at == e.frame.from && e.at == c.frame.from
  }

  /** The sender of news of d has its own route to d through the receiver. */
  ghost predicate Backward(s: Net, c: Copy, d: uint8) {
    NewsOf(c, d) && RouteIs(s, c.frame.from, d, c.at)
  }

  ghost predicate NoPairs(s: Net) {
    && (forall c, e, d :: c in s.pending && e in s.pending ==> !Cross(c, e, d))
    && (forall c, d :: c in s.pending ==> !Backward(s, c, d))
    && (forall x, y, d :: !PointAtEachOther(s, x, y, d))
  }

  ghost predicate OneFrameInv(g: Graph, H: nat, s: Net) {
    Inv(g, H, s) && NetCorrect(g, s) && NoPairs(s)
  }

  lemma NoRouteToSelf(g: Graph, H: nat, s: Net, x: uint8, h: uint8)
    requires Inv(g, H, s) && NetCorrect(g, s)
    ensures !RouteIs(s, x, x, h)
  {
    if RouteIs(s, x, x, h) {
      LookupCorrect(g, x, s.sites[x].node.routes, x);
      FirstHopIsNeighbour(g, x, x, h);
    }
  }

  lemma LeftOver(s: Net, k: nat, c: Copy)
    requires Uncrowded(s) && k < |s.pending| && c in Without(s.pending, k)
    ensures c in s.pending && c.at != s.pending[k].at
  {
    var rest := Without(s.pending, k);
    var i :| 0 <= i < |rest| && rest[i] == c;
    assert c == s.pending[if i < k then i else i + 1];
  }

  /** A copy in the air after x has taken one: left over, at another node, or sent by x just now. */
  lemma WhereFrom(g: Graph, H: nat, s: Net, k: nat, past: uint8, acks: seq<bool>, answers: seq<bool>, c: Copy)
    requires Inv(g, H, s) && Uncrowded(s) && k < |s.pending| && IsRequest(s.pending[k].frame.message)
    requires Enabled(s, Receive(k, past, acks, answers)) && c in Next(g, s, Receive(k, past, acks, answers)).pending
    ensures var x, m := s.pending[k].at, s.pending[k].frame.message;
            || (c in s.pending && c.at != x)
            || (c.frame.from == x && c.at != x && Take(s.sites[x], s.pending[k].frame, past, acks, answers).sends != []
                && (forall d :: NewsOf(c, d) ==> Named(c.frame.message) == Named(m) + [x]))
  {
    var x := s.pending[k].at;
    var turn := Take(s.sites[x], s.pending[k].frame, past, acks, answers);
    var rest := Without(s.pending, k);
    if c in rest {
      LeftOver(s, k, c);
    } else {
      assert c in Launch(g, x, turn.sends);
      var send := LaunchedFrom(g, x, turn.sends, c);
      TakeSends(s.sites[x], s.pending[k].frame, past, acks, answers, send);
    }
  }

  /** Everything the proof needs to know about one request taken by x. */
  ghost predicate Took(g: Graph, s: Net, t: Net, x: uint8, f: Frame) {
    && Copy(x, f) in s.pending && WellFormed(f.message.data) && IsRequest(f.message) && f.from in Named(f.message)
    && (forall y :: y in t.sites <==> y in s.sites) && x in s.sites
    && (forall y :: y in s.sites && y != x ==> t.sites[y] == s.sites[y])
    && (exists news: bool :: (news ==> x !in Named(f.message)) && TookAs(g, s, t, x, f, news))
  }

  ghost predicate TookAs(g: Graph, s: Net, t: Net, x: uint8, f: Frame, news: bool)
    requires WellFormed(f.message.data) && IsRequest(f.message) && x in s.sites && x in t.sites
  {
    && (forall d ::
          Moved(Lookup(s.sites[x].node.routes, d), Lookup(t.sites[x].node.routes, d), news, d, f.message, f.from))
    && (forall c :: c in t.pending ==>
          || (c in s.pending && c.at != x)
          || (news && c.frame.from == x && c.at != x
              && forall d :: NewsOf(c, d) ==> Named(c.frame.message) == Named(f.message) + [x]))
  }

  lemma ReceiveTakes(g: Graph, H: nat, s: Net, k: nat, past: uint8, acks: seq<bool>, answers: seq<bool>)
    requires Inv(g, H, s) && Uncrowded(s) && k < |s.pending| && IsRequest(s.pending[k].frame.message)
    requires Enabled(s, Receive(k, past, acks, answers))
    ensures Took(g, s, Next(g, s, Receive(k, past, acks, answers)), s.pending[k].at, s.pending[k].frame)
  {
    var x, f := s.pending[k].at, s.pending[k].frame;
    var t := Next(g, s, Receive(k, past, acks, answers));
    var site := s.sites[x];
    var news := site.waiting == None && Fresh(site.node, f.message);
    assert s.pending[k] in s.pending && FrameOk(g, H, f);
    assert f.from == Last(Named(f.message));
    forall d
      ensures Moved(Lookup(s.sites[x].node.routes, d), Lookup(t.sites[x].node.routes, d), news, d, f.message, f.from)
    {
      TakeEffect(site, f, past, acks, answers, d);
    }
    forall c | c in t.pending
      ensures || (c in s.pending && c.at != x)
              || (news && c.frame.from == x && c.at != x
                  && forall d :: NewsOf(c, d) ==> Named(c.frame.message) == Named(f.message) + [x])
    {
      WhereFrom(g, H, s, k, past, acks, answers, c);
      TakeEffect(site, f, past, acks, answers, 0);
    }
    assert TookAs(g, s, t, x, f, news);
  }

  lemma TookNoCross(g: Graph, s: Net, t: Net, x: uint8, f: Frame, c: Copy, e: Copy, d: uint8)
    requires NoPairs(s) && Took(g, s, t, x, f) && c in t.pending && e in t.pending
    ensures !Cross(c, e, d)
  {
  }

  lemma TookNoBackward(g: Graph, s: Net, t: Net, x: uint8, f: Frame, c: Copy, d: uint8)
    requires NoPairs(s) && Took(g, s, t, x, f) && c in t.pending && !RouteIs(t, x, x, c.at)
    ensures !Backward(t, c, d)
  {
    var news: bool :| (news ==> x !in Named(f.message)) && TookAs(g, s, t, x, f, news);
    assert Moved(Lookup(s.sites[x].node.routes, d), Lookup(t.sites[x].node.routes, d), news, d, f.message, f.from);
    assert c in s.pending ==> !Backward(s, c, d) && !Cross(Copy(x, f), c, d);
  }

  lemma TookNoPair(g: Graph, s: Net, t: Net, x: uint8, f: Frame, y: uint8, d: uint8)
    requires NoPairs(s) && Took(g, s, t, x, f)
    ensures !PointAtEachOther(t, x, y, d)
  {
    var news: bool :| (news ==> x !in Named(f.message)) && TookAs(g, s, t, x, f, news);
    assert Moved(Lookup(s.sites[x].node.routes, d), Lookup(t.sites[x].node.routes, d), news, d, f.message, f.from);
    assert !Backward(s, Copy(x, f), d) && !PointAtEachOther(s, x, y, d);
  }

  lemma ReceiveKeepsNoPairs(g: Graph, H: nat, s: Net, t: Net, x: uint8, f: Frame)
    requires NoPairs(s) && Took(g, s, t, x, f) && Inv(g, H, t) && NetCorrect(g, t)
    ensures NoPairs(t)
  {
    forall c, e, d | c in t.pending && e in t.pending
      ensures !Cross(c, e, d)
    {
      TookNoCross(g, s, t, x, f, c, e, d);
    }
    forall c, d | c in t.pending
      ensures !Backward(t, c, d)
    {
      NoRouteToSelf(g, H, t, x, c.at);
      TookNoBackward(g, s, t, x, f, c, d);
    }
    forall y, z, d
      ensures !PointAtEachOther(t, y, z, d)
    {
      if y == x {
        TookNoPair(g, s, t, x, f, z, d);
      } else if z == x {
        TookNoPair(g, s, t, x, f, y, d);
      } else {
        assert !PointAtEachOther(s, y, z, d);
      }
    }
  }

  /** What a node sends on its own account names no other node, and teaches it nothing. */
  lemma BeginEffect(g: Graph, s: Net, x: uint8, payload: seq<uint8>, address: uint8, flags: uint8, acks: seq<bool>)
    requires x in s.sites && s.sites[x].node.addr == x && Sound(s.sites[x].node.routes)
    ensures var turn := Begin(s.sites[x].node, payload, address, flags, acks);
            && (forall d, h :: Lookup(turn.site.node.routes, d) == Some(h) ==> RouteIs(s, x, d, h))
            && (forall c, d :: c in Launch(g, x, turn.sends) && NewsOf(c, d) ==> d == x == c.frame.from)
  {
    var n := s.sites[x].node;
    var turn := Begin(n, payload, address, flags, acks);
    DeleteIsRemoval(n.routes, address);
    DeleteIsRemoval(n.routes, BROADCAST);
    forall c, d | c in Launch(g, x, turn.sends) && NewsOf(c, d)
      ensures d == x == c.frame.from
    {
      var send := LaunchedFrom(g, x, turn.sends, c);
    }
  }

  lemma SendKeepsNoPairs(g: Graph, H: nat, s: Net, x: uint8, payload: seq<uint8>, address: uint8, flags: uint8,
                         acks: seq<bool>)
    requires Inv(g, H, s) && NetCorrect(g, s) && NoPairs(s) && Enabled(s, Send(x, payload, address, flags, acks))
    ensures NoPairs(Next(g, s, Send(x, payload, address, flags, acks)))
  {
    var t := Next(g, s, Send(x, payload, address, flags, acks));
    BeginEffect(g, s, x, payload, address, flags, acks);
    assert forall y, d, h :: RouteIs(t, y, d, h) ==> RouteIs(s, y, d, h);
    forall c, d | c in t.pending
      ensures !Backward(t, c, d)
    {
      NoRouteToSelf(g, H, s, x, c.at);
      assert c in s.pending ==> !Backward(s, c, d);
    }
    forall y, z, d
      ensures !PointAtEachOther(t, y, z, d)
    {
      assert !PointAtEachOther(s, y, z, d);
      assert PointAtEachOther(t, y, z, d) ==> RouteIs(t, y, d, z) && RouteIs(t, z, d, y);
    }
  }

  lemma DropKeepsNoPairs(s: Net, t: Net)
    requires NoPairs(s) && (forall c :: c in t.pending ==> c in s.pending)
    requires forall y, d, h :: RouteIs(t, y, d, h) ==> RouteIs(s, y, d, h)
    ensures NoPairs(t)
  {
    forall c, d | c in t.pending
      ensures !Backward(t, c, d)
    {
      assert !Backward(s, c, d);
    }
    forall y, z, d
      ensures !PointAtEachOther(t, y, z, d)
    {
      assert !PointAtEachOther(s, y, z, d);
      assert PointAtEachOther(t, y, z, d) ==> RouteIs(t, y, d, z) && RouteIs(t, z, d, y);
    }
  }

  lemma StepKeepsOneFrameInv(g: Graph, H: nat, s: Net, e: Step)
    requires OneFrameInv(g, H, s) && Enabled(s, e) && Allowed(SINGLE, s, e)
    ensures OneFrameInv(g, H, Next(g, s, e))
  {
    var t := Next(g, s, e);
    StepKeepsInv(g, H, s, e);
    DiscoveryStepKeepsCorrect(g, H, s, e);
    match e
    case Send(x, payload, address, flags, acks) => SendKeepsNoPairs(g, H, s, x, payload, address, flags, acks);
    case Receive(k, past, acks, answers) =>
      ReceiveTakes(g, H, s, k, past, acks, answers);
      ReceiveKeepsNoPairs(g, H, s, t, s.pending[k].at, s.pending[k].frame);
    case Lose(_) => DropKeepsNoPairs(s, t);
    case GiveUp(_) => DropKeepsNoPairs(s, t);
  }

  lemma {:induction false} RunKeepsOneFrameInv(g: Graph, H: nat, s: Net, es: seq<Step>, t: Net)
    requires OneFrameInv(g, H, s) && Runs(g, SINGLE, s, es, t)
    ensures OneFrameInv(g, H, t)
    decreases |es|
  {
    if es == [] {
    } else {
      StepKeepsOneFrameInv(g, H, s, es[0]);
      RunKeepsOneFrameInv(g, H, Next(g, s, es[0]), es[1..], t);
    }
  }

  /** Nodes that know nothing yet, in any number and with any limits. */
  ghost predicate Unlearnt(g: Graph, H: nat, s: Net) {
    Initial(g, H, s) && forall x :: x in s.sites ==> AllInvalid(s.sites[x].node.routes)
  }

  lemma UnlearntInv(g: Graph, H: nat, s: Net)
    requires Unlearnt(g, H, s)
    ensures OneFrameInv(g, H, s)
  {
    forall x, d | x in s.sites
      ensures Lookup(s.sites[x].node.routes, d) == None
    {
      NothingLive(s.sites[x].node.routes);
    }
  }

  /** Between receivers that keep one frame, on any graph, discovery never leaves two nodes pointing at each other. */
  lemma OneFrameNeverPairs(g: Graph, H: nat, s: Net, es: seq<Step>, t: Net, x: uint8, y: uint8, d: uint8)
    requires Unlearnt(g, H, s) && Runs(g, SINGLE, s, es, t)
    ensures !PointAtEachOther(t, x, y, d)
  {
    UnlearntInv(g, H, s);
    RunKeepsOneFrameInv(g, H, s, es, t);
  }
}
