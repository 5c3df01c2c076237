/** Every discovery flood dies out. */
module MeshFlood {
  import opened Octets
  import opened RouteTable
  import opened MeshProtocol
  import opened MeshNodeTheory
  import opened Graphs
  import opened MeshNetwork

  function Pow(b: nat, e: nat): (r: nat)
    ensures b > 0 ==> r > 0
  {
    if e == 0 then 1 else b * Pow(b, e - 1)
  }

  /** A request with a list of l nodes can still grow into this many handlings, on N nodes with limit H. */
  function Weight(N: nat, H: nat, m: Routed): nat {
    if m.data != [] && m.data[0] == REQUEST && 3 <= |m.data| <= H + 3 then Pow(N + 1, H - (|m.data| - 3)) else 0
  }

  function Potential(N: nat, H: nat, pending: seq<Copy>): nat {
    if pending == [] then 0 else Weight(N, H, pending[0].frame.message) + Potential(N, H, pending[1..])
  }

  lemma {:induction false} PotentialAdds(N: nat, H: nat, a: seq<Copy>, b: seq<Copy>)
    ensures Potential(N, H, a + b) == Potential(N, H, a) + Potential(N, H, b)
  {
    if a == [] {
      assert a + b == b;
    } else {
      assert (a + b)[1..] == a[1..] + b;
      PotentialAdds(N, H, a[1..], b);
    }
  }

  lemma PotentialWithout(N: nat, H: nat, q: seq<Copy>, k: nat)
    requires k < |q|
    ensures Potential(N, H, q) == Potential(N, H, Without(q, k)) + Weight(N, H, q[k].frame.message)
  {
    assert q == q[..k] + ([q[k]] + q[k + 1..]);
    assert ([q[k]] + q[k + 1..])[1..] == q[k + 1..];
    PotentialAdds(N, H, q[..k], [q[k]] + q[k + 1..]);
    PotentialAdds(N, H, q[..k], q[k + 1..]);
  }

  lemma OneMoreTimes(k: nat, w: nat)
    ensures (k + 1) * w == k * w + w
  {
  }

  /** One transmission makes at most one copy a node. */
  lemma {:induction false} CopiesBound(N: nat, H: nat, g: Graph, f: Frame, nodes: seq<uint8>)
    ensures Potential(N, H, Copies(g, f, nodes)) <= |nodes| * Weight(N, H, f.message)
  {
    if nodes == [] {
    } else {
      var w := Weight(N, H, f.message);
      CopiesBound(N, H, g, f, nodes[1..]);
      OneMoreTimes(|nodes[1..]|, w);
      if Hears(g, f, nodes[0]) {
        assert Copies(g, f, nodes) == [Copy(nodes[0], f)] + Copies(g, f, nodes[1..]);
        assert Copies(g, f, nodes)[1..] == Copies(g, f, nodes[1..]);
      } else {
        assert Copies(g, f, nodes) == Copies(g, f, nodes[1..]);
      }
    }
  }

  lemma {:induction false} QuietLaunch(N: nat, H: nat, g: Graph, x: uint8, sends: seq<LinkSend>)
    requires forall s :: s in sends ==> Weight(N, H, s.message) == 0
    ensures Potential(N, H, Launch(g, x, sends)) == 0
    decreases |sends|
  {
    if sends == [] {
    } else {
      assert sends[0] in sends;
      CopiesBound(N, H, g, FrameOf(x, sends[0]), g.nodes);
      QuietLaunch(N, H, g, x, sends[1..]);
      PotentialAdds(N, H, Copies(g, FrameOf(x, sends[0]), g.nodes), Launch(g, x, sends[1..]));
      assert |g.nodes| * 0 == 0;
    }
  }

  lemma SingleLaunch(N: nat, H: nat, g: Graph, x: uint8, s: LinkSend)
    ensures Potential(N, H, Launch(g, x, [s])) <= |g.nodes| * Weight(N, H, s.message)
  {
    CopiesBound(N, H, g, FrameOf(x, s), g.nodes);
    assert Launch(g, x, [s]) == Copies(g, FrameOf(x, s), g.nodes) + Launch(g, x, []);
    assert Launch(g, x, [s]) == Copies(g, FrameOf(x, s), g.nodes);
  }

  // ---------------------------------------------------------------- what one turn adds

  /** No send of the call is a discovery request. */
  ghost predicate Quiet(sends: seq<LinkSend>) {
    forall s :: s in sends ==> s.message.data != [] && s.message.data[0] != REQUEST
  }

  lemma QuietWeighsNothing(g: Graph, H: nat, x: uint8, sends: seq<LinkSend>)
    requires Quiet(sends)
    ensures Potential(|g.nodes|, H, Launch(g, x, sends)) == 0
  {
    QuietLaunch(|g.nodes|, H, g, x, sends);
  }

  lemma PassingOnIsQuiet(g: Graph, H: nat, n: Node, f: Frame, past: uint8, acks: seq<bool>)
    requires FrameOk(g, H, f)
    ensures Quiet(RouterReceive(n, f, past, acks).sends)
  {
    var r := RouterReceive(n, f, past, acks);
    var m := f.message;
    if r.sends != [] {
      var peeked := n.(routes := Peek(n.routes, n.addr, m, f.from, past));
      forall s | s in r.sends
        ensures s.message.data != [] && s.message.data[0] != REQUEST
      {
        RoutedOrReport(peeked, m.(hops := Wrap8(m.hops + 1)), f.from, acks, s);
      }
    }
  }

  lemma OwnIsQuiet(n: Node, data: seq<uint8>, dest: uint8, flags: uint8, acks: seq<bool>)
    requires data != [] && data[0] != REQUEST
    ensures Quiet(SendOwn(n, data, dest, flags, acks).sends)
  {
  }

  /** Handling a request spawns copies that together weigh less than the one it uses up. */
  lemma RequestShrinks(g: Graph, H: nat, n: Node, f: Frame, acks: seq<bool>)
    requires FrameOk(g, H, f) && IsRequest(f.message) && n.maxHops <= H
    ensures Potential(|g.nodes|, H, Launch(g, n.addr, HandleRequest(n, f.message, f.from, acks).sends))
            < Weight(|g.nodes|, H, f.message)
  {
    var N := |g.nodes|;
    var m := f.message;
    var list := m.data[3..];
    var knows := n.(routes := AddAll(n.routes, [m.source] + list, f.from));
    var out := HandleRequest(n, m, f.from, acks);
    if Fresh(n, m) && m.data[2] != n.addr && |list| < n.maxHops && out.sends != [] {
      var s := out.sends[0];
      assert out.sends == [s] && s.message.data == m.data + [n.addr];
      SingleLaunch(N, H, g, n.addr, s);
      var w := Pow(N + 1, H - |list| - 1);
      assert Weight(N, H, s.message) == w;
      assert Weight(N, H, m) == (N + 1) * w == N * w + w;
    } else {
      OwnIsQuiet(knows, m.data[0 := RESPONSE], m.source, 0, acks);
      QuietWeighsNothing(g, H, n.addr, out.sends);
    }
  }

  lemma TakeShrinks(g: Graph, H: nat, site: Site, f: Frame, past: uint8, acks: seq<bool>, answers: seq<bool>)
    requires FrameOk(g, H, f) && site.node.maxHops <= H && site.node.addr in g.nodes
    ensures var added := Potential(|g.nodes|, H, Launch(g, site.node.addr, Take(site, f, past, acks, answers).sends));
            if f.message.data[0] == REQUEST then added < Weight(|g.nodes|, H, f.message) else added == 0
  {
    var n := site.node;
    var t := Take(site, f, past, acks, answers);
    PassingOnIsQuiet(g, H, n, f, past, acks);
    if site.waiting == None && IsRequest(f.message) {
      var r := RouterReceive(n, f, past, acks);
      RequestShrinks(g, H, r.node, f, acks);
    } else {
      if site.waiting.Some? {
        var w := site.waiting.value;
        var a := Hear(Asking(n, w.room, [], false), w.address, Heard(f, past, acks));
        assert a.sends == RouterReceive(n, f, past, acks).sends;
        OwnIsQuiet(a.node, [APPLICATION] + w.payload, w.address, w.flags, answers);
      }
      QuietWeighsNothing(g, H, n.addr, t.sends);
    }
  }

  // ---------------------------------------------------------------- whole runs

  /** A step that uses up a copy of a discovery request. */
  predicate TakesRequest(s: Net, step: Step) {
    match step
    case Receive(k, _, _, _) => k < |s.pending| && IsRequest(s.pending[k].frame.message)
    case Lose(k) => k < |s.pending| && IsRequest(s.pending[k].frame.message)
    case _ => false
  }

  /** A step that starts a discovery. */
  predicate Asks(s: Net, step: Step) {
    step.Send? && step.x in s.sites && |step.payload| <= MESH_MAX && !Known(s.sites[step.x].node, step.address)
  }

  /** What one discovery's first broadcast can weigh. */
  function Flood(g: Graph, H: nat): nat { |g.nodes| * Pow(|g.nodes| + 1, H) }

  lemma BeginBound(g: Graph, H: nat, n: Node, payload: seq<uint8>, address: uint8, flags: uint8, acks: seq<bool>)
    ensures var added := Potential(|g.nodes|, H, Launch(g, n.addr, Begin(n, payload, address, flags, acks).sends));
            added <= if |payload| <= MESH_MAX && !Known(n, address) then Flood(g, H) else 0
  {
    var t := Begin(n, payload, address, flags, acks);
    if |payload| <= MESH_MAX && !Known(n, address) {
      var data := [REQUEST, 1, address];
      assert |t.sends| == 1 && t.sends == [t.sends[0]] && t.sends[0].message.data == data;
      SingleLaunch(|g.nodes|, H, g, n.addr, t.sends[0]);
    } else {
      OwnIsQuiet(n, [APPLICATION] + payload, address, flags, acks);
      QuietWeighsNothing(g, H, n.addr, t.sends);
    }
  }

  lemma StepSpendsPotential(g: Graph, H: nat, s: Net, step: Step)
    requires Inv(g, H, s) && Enabled(s, step)
    ensures Potential(|g.nodes|, H, Next(g, s, step).pending) + (if TakesRequest(s, step) then 1 else 0)
         <= Potential(|g.nodes|, H, s.pending) + (if Asks(s, step) then Flood(g, H) else 0)
  {
    var N := |g.nodes|;
    match step
    case Send(x, payload, address, flags, acks) =>
      var t := Begin(s.sites[x].node, payload, address, flags, acks);
      BeginBound(g, H, s.sites[x].node, payload, address, flags, acks);
      PotentialAdds(N, H, s.pending, Launch(g, x, t.sends));
    case Receive(k, past, acks, answers) =>
      var c := s.pending[k];
      var t := Take(s.sites[c.at], c.frame, past, acks, answers);
      TakeShrinks(g, H, s.sites[c.at], c.frame, past, acks, answers);
      PotentialWithout(N, H, s.pending, k);
      PotentialAdds(N, H, Without(s.pending, k), Launch(g, c.at, t.sends));
    case Lose(k) =>
      PotentialWithout(N, H, s.pending, k);
      assert FrameOk(g, H, s.pending[k].frame);
    case GiveUp(x) =>
  }

  ghost function RequestsTaken(g: Graph, s: Net, steps: seq<Step>): nat
    requires Legal(g, s, steps)
    decreases |steps|
  {
    if steps == [] then 0
    else (if TakesRequest(s, steps[0]) then 1 else 0) + RequestsTaken(g, Next(g, s, steps[0]), steps[1..])
  }

  ghost function Discoveries(g: Graph, s: Net, steps: seq<Step>): nat
    requires Legal(g, s, steps)
    decreases |steps|
  {
    if steps == [] then 0
    else (if Asks(s, steps[0]) then 1 else 0) + Discoveries(g, Next(g, s, steps[0]), steps[1..])
  }

  lemma Telescope(a: nat, b: nat, flood: nat)
    ensures (a + b) * flood == a * flood + b * flood
  {
  }

  /**
   * However a run interleaves, losing, delaying and reordering as it likes, each discovery it starts
   * accounts for at most Flood(g, H) copies ever taken out of the air: no flood goes on for ever.
   */
  lemma {:induction false} EveryFloodDiesOut(g: Graph, H: nat, s: Net, steps: seq<Step>)
    requires Inv(g, H, s) && Legal(g, s, steps)
    ensures RequestsTaken(g, s, steps) + Potential(|g.nodes|, H, End(g, s, steps).pending)
         <= Potential(|g.nodes|, H, s.pending) + Discoveries(g, s, steps) * Flood(g, H)
    decreases |steps|
  {
    if steps == [] {
    } else {
      var s', rest := Next(g, s, steps[0]), steps[1..];
      StepSpendsPotential(g, H, s, steps[0]);
      StepKeepsInv(g, H, s, steps[0]);
      EveryFloodDiesOut(g, H, s', rest);
      var taken, asked := RequestsTaken(g, s', rest), Discoveries(g, s', rest);
      var allowed := if Asks(s, steps[0]) then 1 else 0;
      assert RequestsTaken(g, s, steps) == (if TakesRequest(s, steps[0]) then 1 else 0) + taken;
      assert Discoveries(g, s, steps) == allowed + asked;
      Telescope(allowed, asked, Flood(g, H));
    }
  }
}
