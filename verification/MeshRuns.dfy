/** Runs built step by step: a request that travels along a path, and the answer that travels back. */
module MeshRuns {
  import opened Octets
  import opened RouteTable
  import opened RouteTableTheory
  import opened MeshProtocol
  import opened MeshNodeTheory
  import opened Graphs
  import opened MeshNetwork
  import opened MeshRoutes

  // ---------------------------------------------------------------- runs

  /** What a run is restricted to: discovery steps, and receivers that keep one frame. */
  datatype Kind = Kind(discovery: bool, single: bool)

  /** No receiver has two frames: a driver has one buffer, and what comes on top of it is lost. */
  predicate Uncrowded(s: Net) {
    forall i, j :: 0 <= i < j < |s.pending| ==> s.pending[i].at != s.pending[j].at
  }

  predicate Allowed(kind: Kind, s: Net, e: Step) {
    && (kind.discovery ==> DiscoveryStep(s, e))
    && (kind.single && (e.Send? || e.Receive?) ==> Uncrowded(s))
  }

  /** The run es of that kind leads from s to t. */
  ghost predicate Runs(g: Graph, kind: Kind, s: Net, es: seq<Step>, t: Net)
    decreases |es|
  {
    if es == [] then s == t
    else Enabled(s, es[0]) && Allowed(kind, s, es[0]) && Runs(g, kind, Next(g, s, es[0]), es[1..], t)
  }

  lemma {:induction false} RunsLegally(g: Graph, kind: Kind, s: Net, es: seq<Step>, t: Net)
    requires Runs(g, kind, s, es, t)
    ensures Legal(g, s, es) && End(g, s, es) == t
    ensures kind.discovery ==> DiscoveryRun(g, s, es)
    decreases |es|
  {
    if es == [] {
    } else {
      RunsLegally(g, kind, Next(g, s, es[0]), es[1..], t);
    }
  }

  lemma OneStep(g: Graph, kind: Kind, s: Net, e: Step)
    requires Enabled(s, e) && Allowed(kind, s, e)
    ensures Runs(g, kind, s, [e], Next(g, s, e))
  {
    assert [e][1..] == [];
  }

  lemma {:induction false} ThenRuns(g: Graph, kind: Kind, s: Net, es: seq<Step>, t: Net, fs: seq<Step>, u: Net)
    requires Runs(g, kind, s, es, t) && Runs(g, kind, t, fs, u)
    ensures Runs(g, kind, s, es + fs, u)
    decreases |es|
  {
    if es == [] {
      assert es + fs == fs;
    } else {
      assert (es + fs)[0] == es[0] && (es + fs)[1..] == es[1..] + fs;
      ThenRuns(g, kind, Next(g, s, es[0]), es[1..], t, fs, u);
    }
  }

  // ---------------------------------------------------------------- copies in the air

  lemma {:induction false} EveryHearerGetsACopy(g: Graph, f: Frame, nodes: seq<uint8>, y: uint8)
    requires y in nodes && Hears(g, f, y)
    ensures Copy(y, f) in Copies(g, f, nodes)
  {
    if nodes[0] != y {
      EveryHearerGetsACopy(g, f, nodes[1..], y);
    }
  }

  lemma LaunchReaches(g: Graph, x: uint8, s: LinkSend, y: uint8)
    requires Adj(g, x, y) && (s.to == BROADCAST || s.to == y)
    ensures Copy(y, FrameOf(x, s)) in Launch(g, x, [s])
  {
    EveryHearerGetsACopy(g, FrameOf(x, s), g.nodes, y);
  }

  function IndexIn<T(==)>(q: seq<T>, c: T): (k: nat)
    requires c in q
    ensures k < |q| && q[k] == c
  {
    if q[0] == c then 0 else 1 + IndexIn(q[1..], c)
  }

  /** What a step that takes one copy c leaves of the others. */
  ghost predicate OthersLeft(s: Net, t: Net, c: Copy) {
    && (forall d :: d in s.pending && d != c ==> d in t.pending)
    && (forall y :: y in s.sites && y != c.at ==> y in t.sites && t.sites[y] == s.sites[y])
  }

  /** Taking a copy out of the air, when the turn it causes makes one transmission. */
  lemma TurnStep(g: Graph, s: Net, c: Copy, past: uint8, acks: seq<bool>, answers: seq<bool>, send: LinkSend)
    requires c in s.pending && c.at in s.sites && WellFormed(c.frame.message.data)
    requires Take(s.sites[c.at], c.frame, past, acks, answers).sends == [send]
    ensures var e := Receive(IndexIn(s.pending, c), past, acks, answers);
            && Enabled(s, e)
            && var t := Next(g, s, e);
               && c.at in t.sites && t.sites[c.at] == Take(s.sites[c.at], c.frame, past, acks, answers).site
               && OthersLeft(s, t, c)
               && (forall y :: Adj(g, c.at, y) && (send.to == BROADCAST || send.to == y) ==>
                     Copy(y, FrameOf(c.at, send)) in t.pending)
  {
    var k := IndexIn(s.pending, c);
    var t := Next(g, s, Receive(k, past, acks, answers));
    assert t.pending == Without(s.pending, k) + Launch(g, c.at, [send]);
    forall d | d in s.pending && d != c
      ensures d in t.pending
    {
      StillThere(s.pending, k, d);
    }
    forall y | Adj(g, c.at, y) && (send.to == BROADCAST || send.to == y)
      ensures Copy(y, FrameOf(c.at, send)) in t.pending
    {
      LaunchReaches(g, c.at, send, y);
    }
  }

  /** Exactly the copies of W are in the air, once each. */
  ghost predicate InAir(s: Net, W: set<Copy>) {
    && (forall c :: c in s.pending <==> c in W)
    && (forall i, j :: 0 <= i < j < |s.pending| ==> s.pending[i] != s.pending[j])
  }

  /** One frame for each receiver. */
  ghost predicate OnePerReceiver(W: set<Copy>) {
    forall c, d :: c in W && d in W && c.at == d.at ==> c == d
  }

  lemma InAirUncrowded(s: Net, W: set<Copy>)
    requires InAir(s, W) && OnePerReceiver(W)
    ensures Uncrowded(s)
  {
    forall i, j | 0 <= i < j < |s.pending|
      ensures s.pending[i].at != s.pending[j].at
    {
      assert s.pending[i] in W && s.pending[j] in W;
    }
  }

  /** Everything else can get lost. */
  lemma {:induction false} OnlyThese(g: Graph, kind: Kind, s: Net, W: set<Copy>) returns (es: seq<Step>, t: Net)
    requires forall c :: c in W ==> c in s.pending
    ensures Runs(g, kind, s, es, t) && InAir(t, W) && t.sites == s.sites
    decreases |s.pending|
  {
    if InAir(s, W) {
      es, t := [], s;
    } else {
      var k := Spare(s, W);
      var s1 := Next(g, s, Lose(k));
      forall c | c in W
        ensures c in s1.pending
      {
        StillThere(s.pending, k, c);
      }
      var fs;
      fs, t := OnlyThese(g, kind, s1, W);
      OneStep(g, kind, s, Lose(k));
      es := [Lose(k)] + fs;
      ThenRuns(g, kind, s, [Lose(k)], s1, fs, t);
    }
  }

  /** A copy that is not wanted, or there twice. */
  lemma Spare(s: Net, W: set<Copy>) returns (k: nat)
    requires (forall c :: c in W ==> c in s.pending) && !InAir(s, W)
    ensures k < |s.pending|
    ensures forall c :: c in W ==> exists i :: 0 <= i < |s.pending| && i != k && s.pending[i] == c
  {
    if exists i :: 0 <= i < |s.pending| && s.pending[i] !in W {
      k :| 0 <= k < |s.pending| && s.pending[k] !in W;
    } else {
      var i, j :| 0 <= i < j < |s.pending| && s.pending[i] == s.pending[j];
      k := j;
    }
    forall c | c in W
      ensures exists i :: 0 <= i < |s.pending| && i != k && s.pending[i] == c
    {
      var i :| 0 <= i < |s.pending| && s.pending[i] == c;
    }
  }

  lemma StillThere<T>(q: seq<T>, k: nat, c: T)
    requires k < |q| && exists i :: 0 <= i < |q| && i != k && q[i] == c
    ensures c in Without(q, k)
  {
    var i :| 0 <= i < |q| && i != k && q[i] == c;
    assert Without(q, k)[if i < k then i else i - 1] == c;
  }

  // ---------------------------------------------------------------- asking

  /** a's request for z, with the nodes of list on it so far. */
  ghost predicate Requests(f: Frame, a: uint8, list: seq<uint8>, z: uint8) {
    && f.to == BROADCAST && f.from == Last([a] + list)
    && f.message.dest == BROADCAST && f.message.source == a && f.message.data == [REQUEST, 1, z] + list
  }

  lemma AskStep(g: Graph, s: Net, a: uint8, z: uint8, payload: seq<uint8>, flags: uint8)
    returns (e: Step, t: Net, f: Frame)
    requires a in s.sites && s.sites[a].waiting == None && s.sites[a].node.addr == a
    requires !Known(s.sites[a].node, z) && |payload| <= MESH_MAX
    ensures Enabled(s, e) && DiscoveryStep(s, e) && t == Next(g, s, e) && Requests(f, a, [], z)
    ensures a in t.sites && t.sites[a] == Site(s.sites[a].node.(e2e := Wrap8(s.sites[a].node.e2e + 1)),
                                               Some(Waiting(z, ROUTER_MAX, payload, flags)))
    ensures forall y :: y in s.sites && y != a ==> y in t.sites && t.sites[y] == s.sites[y]
    ensures forall d :: d in s.pending ==> d in t.pending
    ensures forall y :: Adj(g, a, y) ==> Copy(y, f) in t.pending
  {
    var n := s.sites[a].node;
    e := Send(a, payload, z, flags, []);
    t := Next(g, s, e);
    var send := LinkSend(BROADCAST, Routed(BROADCAST, a, 0, n.e2e, 0, [REQUEST, 1, z]), true);
    f := FrameOf(a, send);
    assert Begin(n, payload, z, flags, []).sends == [send];
    assert [REQUEST, 1, z] + [] == [REQUEST, 1, z];
    forall y | Adj(g, a, y)
      ensures Copy(y, f) in Launch(g, a, [send])
    {
      LaunchReaches(g, a, send, y);
    }
  }

  // ---------------------------------------------------------------- passing a request on

  /**
   * x waits for nothing, may relay after up to hops - 1 others, and has routes to other nodes of S at most.
   * Eleven nodes fit, for no node needs a route to itself.
   */
  ghost predicate Ready(s: Net, x: uint8, S: set<uint8>, hops: nat) {
    && x in S && |S| <= SIZE + 1
    && x in s.sites && s.sites[x].waiting == None && s.sites[x].node.addr == x && s.sites[x].node.maxHops >= hops
    && Sound(s.sites[x].node.routes) && LiveWithin(s.sites[x].node.routes, S - {x})
  }

  lemma LearnsWithin(t: Slots, x: uint8, m: Routed, from: uint8, S: set<uint8>)
    requires Sound(t) && LiveWithin(t, S - {x}) && x in S && |S| <= SIZE + 1 && |m.data| >= 3
    requires m.source in S && m.source != x && forall d :: d in m.data[3..] ==> d in S && d != x
    ensures var u := AddAll(t, [m.source] + m.data[3..], from);
            Sound(u) && LiveWithin(u, S - {x}) && Lookup(u, m.source) == Some(from)
  {
    var named := [m.source] + m.data[3..];
    assert named[0] == m.source;
    AddAllLearns(t, named, from, S - {x});
  }

  /** x hears a request that is for someone else, takes its sender for the way to a, and passes it on. */
  lemma RelayStep(g: Graph, s: Net, x: uint8, f: Frame, a: uint8, list: seq<uint8>, z: uint8, S: set<uint8>, hops: nat)
    returns (e: Step, t: Net, h: Frame)
    requires Ready(s, x, S, hops) && Copy(x, f) in s.pending && Requests(f, a, list, z)
    requires x !in [a] + list && x != z && |list| < hops && |list| <= SIZE && forall d :: d in [a] + list ==> d in S
    ensures Enabled(s, e) && DiscoveryStep(s, e) && t == Next(g, s, e) && OthersLeft(s, t, Copy(x, f))
    ensures Ready(t, x, S, hops) && Lookup(t.sites[x].node.routes, a) == Some(f.from)
    ensures Requests(h, a, list + [x], z) && forall y :: Adj(g, x, y) ==> Copy(y, h) in t.pending
  {
    var n, m := s.sites[x].node, f.message;
    assert m.data[3..] == list && a == ([a] + list)[0];
    LearnsWithin(n.routes, x, m, f.from, S);
    var learnt := AddAll(n.routes, [a] + list, f.from);
    var send := LinkSend(BROADCAST, Routed(BROADCAST, a, 0, n.e2e, 0, m.data + [x]), true);
    var after := n.(routes := learnt, e2e := Wrap8(n.e2e + 1));
    assert RouterReceive(n, f, 0, []) == Routing(n, [], Some(m));
    assert HandleRequest(n, m, f.from, []) == Sent(after, NoError, [send]);
    assert Take(s.sites[x], f, 0, [], []) == Turn(Site(after, None), [send]);
    TurnStep(g, s, Copy(x, f), 0, [], [], send);
    e := Receive(IndexIn(s.pending, Copy(x, f)), 0, [], []);
    t := Next(g, s, e);
    h := FrameOf(x, send);
    assert m.data + [x] == [REQUEST, 1, z] + (list + [x]);
  }

  /** What the nodes have learnt once path[k] and all that follow, but the last, have passed a request on. */
  ghost predicate LearntAlong(s: Net, t: Net, path: seq<uint8>, k: nat, S: set<uint8>, hops: nat)
    requires 0 < k < |path|
  {
    && (forall y :: Ready(s, y, S, hops) ==> Ready(t, y, S, hops))
    && (forall y :: y in s.sites && y !in path[k..|path| - 1] ==> y in t.sites && t.sites[y] == s.sites[y])
    && (forall i :: k <= i < |path| - 1 ==>
          path[i] in t.sites && Lookup(t.sites[path[i]].node.routes, path[0]) == Some(path[i - 1]))
  }

  lemma LearntOneMore(s: Net, s1: Net, t: Net, path: seq<uint8>, k: nat, S: set<uint8>, hops: nat)
    requires 0 < k < |path| - 1 && NoDup(path) && Ready(s1, path[k], S, hops)
    requires forall y :: y in s.sites && y != path[k] ==> y in s1.sites && s1.sites[y] == s.sites[y]
    requires Lookup(s1.sites[path[k]].node.routes, path[0]) == Some(path[k - 1])
    requires LearntAlong(s1, t, path, k + 1, S, hops)
    ensures LearntAlong(s, t, path, k, S, hops)
  {
    var x := path[k];
    assert path[k..|path| - 1] == [x] + path[k + 1..|path| - 1];
    assert x !in path[k + 1..|path| - 1];
    forall y | Ready(s, y, S, hops)
      ensures Ready(t, y, S, hops)
    {
      assert y != x ==> s1.sites[y] == s.sites[y];
      assert Ready(s1, y, S, hops);
    }
  }

  /** Copies that wait while a request goes along path from path[k] on, and are not used up by it. */
  ghost predicate Wait(kept: set<Copy>, path: seq<uint8>, k: nat, kind: Kind)
    requires 0 < k <= |path|
  {
    && (forall c, i :: c in kept && k <= i < |path| - 1 && c.at == path[i] ==> c.frame.from != path[i - 1])
    && (kind.single ==> OnePerReceiver(kept) && forall c :: c in kept ==> c.at !in path[k..])
  }

  /** One more node of the path has passed the request on: its copy at the next is the only new one left. */
  lemma PassOn(g: Graph, kind: Kind, s: Net, path: seq<uint8>, k: nat, f: Frame, z: uint8, kept: set<Copy>,
               S: set<uint8>, hops: nat) returns (es: seq<Step>, t: Net, h: Frame)
    requires Simple(g, path) && 0 < k < |path| - 1 <= hops + 1 && |path| <= SIZE + 1 && z !in path[..|path| - 1]
    requires InAir(s, kept + {Copy(path[k], f)}) && Wait(kept, path, k, kind) && Requests(f, path[0], path[1..k], z)
    requires Ready(s, path[k], S, hops) && forall d :: d in path ==> d in S
    ensures Runs(g, kind, s, es, t) && InAir(t, kept + {Copy(path[k + 1], h)})
    ensures Requests(h, path[0], path[1..k + 1], z)
    ensures Ready(t, path[k], S, hops) && Lookup(t.sites[path[k]].node.routes, path[0]) == Some(path[k - 1])
    ensures forall y :: y in s.sites && y != path[k] ==> y in t.sites && t.sites[y] == s.sites[y]
  {
    var x, W := path[k], kept + {Copy(path[k], f)};
    assert [path[0]] + path[1..k] == path[..k] && x == path[..|path| - 1][k] && x == path[k..][0];
    assert f.from == path[k - 1];
    if kind.single {
      InAirUncrowded(s, W);
    }
    var e, s1;
    e, s1, h := RelayStep(g, s, x, f, path[0], path[1..k], z, S, hops);
    assert path[1..k] + [x] == path[1..k + 1] && Adj(g, x, path[k + 1]);
    assert Copy(x, f) !in kept;
    var fs;
    fs, t := OnlyThese(g, kind, s1, kept + {Copy(path[k + 1], h)});
    OneStep(g, kind, s, e);
    es := [e] + fs;
    ThenRuns(g, kind, s, [e], s1, fs, t);
  }

  lemma WaitOn(kept: set<Copy>, path: seq<uint8>, k: nat, kind: Kind)
    requires 0 < k < |path| && Wait(kept, path, k, kind)
    ensures Wait(kept, path, k + 1, kind)
  {
    assert forall d :: d in path[k + 1..] ==> d in path[k..];
  }

  /**
   * A request goes all the way along a simple path, from path[k], which has a copy, to the last node,
   * while other copies wait and all that it leaves elsewhere gets lost.
   */
  lemma {:induction false} TravelAlong(g: Graph, kind: Kind, s: Net, path: seq<uint8>, k: nat, f: Frame, z: uint8,
                                       kept: set<Copy>, S: set<uint8>, hops: nat)
    returns (es: seq<Step>, t: Net, h: Frame)
    requires Simple(g, path) && 0 < k < |path| <= hops + 2 && |path| <= SIZE + 1 && z !in path[..|path| - 1]
    requires InAir(s, kept + {Copy(path[k], f)}) && Wait(kept, path, k, kind) && Requests(f, path[0], path[1..k], z)
    requires forall d :: d in path ==> d in S
    requires forall i :: k <= i < |path| - 1 ==> Ready(s, path[i], S, hops)
    ensures Runs(g, kind, s, es, t) && LearntAlong(s, t, path, k, S, hops)
    ensures InAir(t, kept + {Copy(Last(path), h)}) && Requests(h, path[0], path[1..|path| - 1], z)
    decreases |path| - k
  {
    if k == |path| - 1 {
      es, t, h := [], s, f;
    } else {
      var es1, s1, f1 := PassOn(g, kind, s, path, k, f, z, kept, S, hops);
      WaitOn(kept, path, k, kind);
      forall i | k + 1 <= i < |path| - 1
        ensures Ready(s1, path[i], S, hops)
      {
        assert Ready(s, path[i], S, hops) && path[i] != path[k];
      }
      var fs;
      fs, t, h := TravelAlong(g, kind, s1, path, k + 1, f1, z, kept, S, hops);
      LearntOneMore(s, s1, t, path, k, S, hops);
      es := es1 + fs;
      ThenRuns(g, kind, s, es1, s1, fs, t);
    }
  }

  // ---------------------------------------------------------------- answering

  /** z's answer to a, with the relays of list between them, on its way from h to x. */
  ghost predicate Answers(f: Frame, x: uint8, h: uint8, a: uint8, list: seq<uint8>, z: uint8) {
    && f.to == x && f.from == h && f.message.dest == a && f.message.source == z
    && f.message.data == [RESPONSE, 1, z] + list
  }

  /** The node that is sought answers through the neighbour it heard the request from. */
  lemma AnswerStep(g: Graph, s: Net, z: uint8, f: Frame, a: uint8, list: seq<uint8>, S: set<uint8>, hops: nat)
    returns (e: Step, t: Net, h: Frame)
    requires Ready(s, z, S, hops) && Copy(z, f) in s.pending && Requests(f, a, list, z) && Adj(g, z, f.from)
    requires z !in [a] + list && |list| <= SIZE && forall d :: d in [a] + list ==> d in S
    requires a != BROADCAST && f.from != BROADCAST
    ensures Enabled(s, e) && t == Next(g, s, e) && OthersLeft(s, t, Copy(z, f))
    ensures Answers(h, f.from, z, a, list, z) && h.message.hops == 0 && Copy(f.from, h) in t.pending
  {
    var n, m := s.sites[z].node, f.message;
    assert m.data[3..] == list && a == ([a] + list)[0];
    LearnsWithin(n.routes, z, m, f.from, S);
    var reply := m.data[0 := RESPONSE];
    var send := LinkSend(f.from, Routed(a, z, 0, n.e2e, 0, reply), true);
    assert RouterReceive(n, f, 0, [true]) == Routing(n, [], Some(m));
    assert HandleRequest(n, m, f.from, [true]).sends == [send];
    TurnStep(g, s, Copy(z, f), 0, [true], [], send);
    e := Receive(IndexIn(s.pending, Copy(z, f)), 0, [true], []);
    t := Next(g, s, e);
    h := FrameOf(z, send);
    assert reply == [RESPONSE, 1, z] + list;
  }

  /** x, on the list, passes the answer on towards a, unless the octet past the list is a's own address. */
  lemma ReturnStep(g: Graph, s: Net, x: uint8, f: Frame, a: uint8, list: seq<uint8>, z: uint8, back: uint8,
                   past: uint8, S: set<uint8>, hops: nat) returns (e: Step, t: Net, h: Frame)
    requires Ready(s, x, S, hops) && Copy(x, f) in s.pending && Answers(f, x, f.from, a, list, z) && Adj(g, x, back)
    requires Lookup(s.sites[x].node.routes, a) == Some(back) && back != BROADCAST && a != BROADCAST
    requires x !in {a, z} && a != z && a !in list && x in list && NoDup(list) && |list| <= SIZE
    requires z in S && (forall d :: d in list ==> d in S) && f.message.hops < hops <= 0xff
    requires past in S && past != x && past != a
    ensures Enabled(s, e) && t == Next(g, s, e) && OthersLeft(s, t, Copy(x, f))
    ensures Answers(h, back, x, a, list, z) && h.message.hops == f.message.hops + 1 && Copy(back, h) in t.pending
  {
    var n, m := s.sites[x].node, f.message;
    assert m.data[3..] == list && m.data[2] == z;
    IndexOfFinds(list, x);
    ResponseTeachesExactly(n.routes, x, m, f.from, past, S - {x});
    var peeked := n.(routes := Peek(n.routes, x, m, f.from, past));
    var onward := m.(hops := m.hops + 1);
    var send := LinkSend(back, onward, true);
    assert Lookup(peeked.routes, a) == Some(back);
    assert MeshRoute(peeked, onward, f.from, [true]) == Sent(peeked, NoError, [send]);
    assert RouterReceive(n, f, past, [true]) == Routing(peeked, [send], None);
    TurnStep(g, s, Copy(x, f), past, [true], [], send);
    e := Receive(IndexIn(s.pending, Copy(x, f)), past, [true], []);
    t := Next(g, s, e);
    h := FrameOf(x, send);
  }

  /** A waiting node takes any response that comes home for the one it waits for, and sends. */
  lemma TakeAnswerStep(g: Graph, s: Net, x: uint8, f: Frame, list: seq<uint8>, z: uint8, past: uint8)
    returns (e: Step, t: Net)
    requires x in s.sites && s.sites[x].waiting.Some? && s.sites[x].node.addr == x && Sound(s.sites[x].node.routes)
    requires Copy(x, f) in s.pending && Answers(f, x, f.from, x, list, z) && |list| <= SIZE && Adj(g, x, f.from)
    requires var w := s.sites[x].waiting.value;
             w.address != BROADCAST && w.room > 1 && |w.payload| <= PAYLOAD_MAX && f.from != BROADCAST
    ensures Enabled(s, e) && t == Next(g, s, e) && OthersLeft(s, t, Copy(x, f))
    ensures var w := s.sites[x].waiting.value;
            && x in t.sites && t.sites[x].waiting == None
            && Lookup(t.sites[x].node.routes, w.address) == Some(f.from)
            && exists id ::
                 var m := Routed(w.address, x, 0, id, w.flags, [APPLICATION] + w.payload);
                 Copy(f.from, Frame(f.from, x, m)) in t.pending
  {
    var n, m, w := s.sites[x].node, f.message, s.sites[x].waiting.value;
    var start := Asking(n, w.room, [], false);
    HearKeeps(start, w.address, Heard(f, past, []));
    var a := Hear(start, w.address, Heard(f, past, []));
    assert a.found && a.sends == [];
    var send := LinkSend(f.from, Routed(w.address, x, 0, a.node.e2e, w.flags, [APPLICATION] + w.payload), true);
    assert SendOwn(a.node, [APPLICATION] + w.payload, w.address, w.flags, [true]).sends == [send];
    assert [] + [send] == [send];
    TurnStep(g, s, Copy(x, f), past, [], [true], send);
    e := Receive(IndexIn(s.pending, Copy(x, f)), past, [], [true]);
    t := Next(g, s, e);
    assert Copy(f.from, FrameOf(x, send)) in t.pending;
  }
}
