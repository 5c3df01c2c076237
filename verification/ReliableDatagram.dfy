/**
 * RHReliableDatagram: acknowledged datagrams with retransmission and duplicate suppression, over headers
 * that the driver keeps from one transmission to the next.
 */
module ReliableDatagram {
  import opened Octets

  /** RH_FLAGS_ACK and RH_FLAGS_NONE */
  const ACK: bv8 := 0x80
  const NONE: bv8 := 0

  /** RH_DEFAULT_RETRIES */
  const DEFAULT_RETRIES: uint8 := 3

  /** A frame with its four headers. */
  datatype Wire = Wire(to: uint8, from: uint8, id: uint8, flags: bv8, data: seq<uint8>)

  predicate IsAck(w: Wire) { w.flags & ACK != 0 }

  type SeenIds = s: seq<uint8> | |s| == 256 witness seq(256, _ => 0)

  /** The manager's fields and the driver's transmit headers (FROM is always addr). */
  datatype Station = Station(addr: uint8, lastSeq: uint8, seen: SeenIds, retries: uint8, retransmissions: uint32,
                             txTo: uint8, txId: uint8, txFlags: bv8)

  /** RHGenericDriver::setHeaderFlags */
  function SetFlags(flags: bv8, bits: bv8, clear: bv8): bv8 { (flags & !clear) | bits }

  function SendTo(s: Station, to: uint8, data: seq<uint8>): (Station, Wire) {
    (s.(txTo := to), Wire(to, s.addr, s.txId, s.txFlags, data))
  }

  /** acknowledge */
  function Acknowledge(s: Station, id: uint8, to: uint8): (Station, Wire) {
    SendTo(s.(txId := id, txFlags := SetFlags(s.txFlags, ACK, NONE)), to, ['!' as int])
  }

  /** One data transmission of sendtoWait. */
  function Transmit(s: Station, id: uint8, to: uint8, data: seq<uint8>): (Station, Wire) {
    SendTo(s.(txId := id, txFlags := SetFlags(s.txFlags, NONE, ACK)), to, data)
  }

  /** recvfromAck on a frame that has come: the station after, the acknowledgement, and whether it is new. */
  datatype Received = Received(station: Station, acks: seq<Wire>, accepted: bool)

  function RecvfromAck(s: Station, w: Wire): Received {
    if IsAck(w) then Received(s, [], false) else
    var (t, acks) := if w.to == BROADCAST then (s, []) else var (t, a) := Acknowledge(s, w.id, w.from); (t, [a]);
    if w.id != t.seen[w.from] then Received(t.(seen := t.seen[w.from := w.id]), acks, true)
    else Received(t, acks, false)
  }

  /** A sendtoWait under way: what it has transmitted, and whether it has succeeded. */
  datatype Sending = Sending(station: Station, sent: seq<Wire>, done: bool)

  predicate Matches(s: Station, address: uint8, id: uint8, w: Wire) {
    w.from == address && w.to == s.addr && IsAck(w) && w.id == id
  }

  /** A frame heard while waiting for the acknowledgement of id. */
  function HearWaiting(x: Sending, address: uint8, id: uint8, w: Wire): Sending {
    if x.done then x
    else if Matches(x.station, address, id, w) then x.(done := true)
    else if !IsAck(w) && w.id == x.station.seen[w.from] then
      var (t, a) := Acknowledge(x.station, w.id, w.from);
      Sending(t, x.sent + [a], false)
    else x
  }

  function Window(x: Sending, address: uint8, id: uint8, heard: seq<Wire>): Sending
    decreases |heard|
  {
    if heard == [] then x else Window(HearWaiting(x, address, id, heard[0]), address, id, heard[1..])
  }

  /** What is heard after the k-th transmission, before it times out. */
  function HeardAfter(windows: seq<seq<Wire>>, k: nat): seq<Wire> {
    if k < |windows| then windows[k] else []
  }

  /** Whether a pass counts as a retransmission: the counter is an octet. */
  predicate Counts(k: nat) { Wrap8(k + 1) > 1 }

  /** The k-th pass of the retry loop, counting from 0. */
  function Attempt(x: Sending, address: uint8, id: uint8, data: seq<uint8>, windows: seq<seq<Wire>>, k: nat): Sending {
    var (t, w) := Transmit(x.station, id, address, data);
    if address == BROADCAST then Sending(t, x.sent + [w], true) else
    var counted := if Counts(k) then t.(retransmissions := Wrap32(t.retransmissions + 1)) else t;
    Window(Sending(counted, x.sent + [w], false), address, id, HeardAfter(windows, k))
  }

  /** The retry loop after so many passes. */
  datatype Retrying = Retrying(x: Sending, passes: nat)

  /** The acknowledgement came, or the loop's guard fails. */
  predicate Returns(t: Retrying) {
    t.x.done || Wrap8(t.passes) > t.x.station.retries
  }

  function Pass(t: Retrying, address: uint8, id: uint8, data: seq<uint8>, windows: seq<seq<Wire>>): Retrying {
    Retrying(Attempt(t.x, address, id, data, windows, t.passes), t.passes + 1)
  }

  /** The loop, followed for up to n more passes. */
  function Follow(t: Retrying, address: uint8, id: uint8, data: seq<uint8>, windows: seq<seq<Wire>>, n: nat): Retrying
    decreases n
  {
    if n == 0 || Returns(t) then t else Follow(Pass(t, address, id, data, windows), address, id, data, windows, n - 1)
  }

  lemma FollowOneMore(t: Retrying, address: uint8, id: uint8, data: seq<uint8>, windows: seq<seq<Wire>>, n: nat)
    requires n > 0 && !Returns(t)
    ensures Follow(t, address, id, data, windows, n)
         == Follow(Pass(t, address, id, data, windows), address, id, data, windows, n - 1)
  {
  }

  /** sendtoWait, followed for up to n transmissions. */
  function SendtoWait(s: Station, data: seq<uint8>, address: uint8, windows: seq<seq<Wire>>, n: nat): Retrying {
    var id := Wrap8(s.lastSeq + 1);
    Follow(Retrying(Sending(s.(lastSeq := id), [], false), 0), address, id, data, windows, n)
  }

  // ---------------------------------------------------------------- the manager as an object

  class Manager {
    var thisAddress: uint8
    var lastSequenceNumber: uint8
    const seenIds: array<uint8>
    var retries: uint8
    var retransmissions: uint32
    var txHeaderTo: uint8
    var txHeaderId: uint8
    var txHeaderFlags: bv8
    var sent: seq<Wire>

    ghost predicate Valid() { seenIds.Length == 256 }

    ghost function State(): Station
      requires Valid()
      reads this, seenIds
    {
      Station(thisAddress, lastSequenceNumber, seenIds[..], retries, retransmissions,
              txHeaderTo, txHeaderId, txHeaderFlags)
    }

    constructor (address: uint8)
      ensures Valid() && fresh(seenIds) && sent == []
      ensures State() == Station(address, 0, seq(256, _ => 0), DEFAULT_RETRIES, 0, BROADCAST, 0, 0)
    {
      thisAddress, lastSequenceNumber, retries, retransmissions := address, 0, DEFAULT_RETRIES, 0;
      seenIds := new uint8[256](_ => 0);
      txHeaderTo, txHeaderId, txHeaderFlags := BROADCAST, 0, 0;
      sent := [];
    }

    method SetHeaderFlags(bits: bv8, clear: bv8)
      modifies `txHeaderFlags
      ensures txHeaderFlags == SetFlags(old(txHeaderFlags), bits, clear)
    {
      txHeaderFlags := txHeaderFlags & !clear;
      txHeaderFlags := txHeaderFlags | bits;
    }

    method Sendto(data: seq<uint8>, address: uint8)
      requires Valid()
      modifies `txHeaderTo, `sent
      ensures var (s, w) := SendTo(old(State()), address, data);
              State() == s && sent == old(sent) + [w]
    {
      txHeaderTo := address;
      sent := sent + [Wire(txHeaderTo, thisAddress, txHeaderId, txHeaderFlags, data)];
    }

    method SendAcknowledgement(id: uint8, from: uint8)
      requires Valid()
      modifies `txHeaderTo, `txHeaderId, `txHeaderFlags, `sent
      ensures var (s, w) := Acknowledge(old(State()), id, from);
              State() == s && sent == old(sent) + [w]
    {
      txHeaderId := id;
      SetHeaderFlags(ACK, NONE);
      Sendto(['!' as int], from);
    }

    method RecvAck(w: Wire) returns (accepted: bool)
      requires Valid()
      modifies `txHeaderTo, `txHeaderId, `txHeaderFlags, `sent, seenIds
      ensures var r := RecvfromAck(old(State()), w);
              State() == r.station && sent == old(sent) + r.acks && accepted == r.accepted
    {
      if !IsAck(w) {
        if w.to != BROADCAST {
          SendAcknowledgement(w.id, w.from);
        }
        if w.id != seenIds[w.from] {
          seenIds[w.from] := w.id;
          return true;
        }
      }
      return false;
    }

    /** The wait after one transmission, over the frames heard before its timeout. */
    method AwaitAck(address: uint8, id: uint8, heard: seq<Wire>, ghost x: Sending, ghost began: seq<Wire>)
      returns (done: bool)
      requires Valid() && x == Sending(State(), x.sent, false) && sent == began + x.sent
      modifies `txHeaderTo, `txHeaderId, `txHeaderFlags, `sent
      ensures var y := Window(x, address, id, heard);
              y == Sending(State(), y.sent, done) && sent == began + y.sent
    {
      ghost var y := x;
      var k := 0;
      done := false;
      assert heard[0..] == heard;
      while k < |heard| && !done
        invariant 0 <= k <= |heard|
        invariant y == Sending(State(), y.sent, done) && sent == began + y.sent
        invariant Window(x, address, id, heard) == Window(y, address, id, heard[k..])
      {
        var w := heard[k];
        assert heard[k..][0] == w && heard[k..][1..] == heard[k + 1..];
        y := HearWaiting(y, address, id, w);
        if w.from == address && w.to == thisAddress && IsAck(w) && w.id == id {
          done := true;
        } else if !IsAck(w) && w.id == seenIds[w.from] {
          SendAcknowledgement(w.id, w.from);
        }
        k := k + 1;
      }
      if done {
        WindowStops(y, address, id, heard[k..]);
      }
    }

    /** One pass of the retry loop, up to the acknowledgement or its timeout. */
    method TryOnce(data: seq<uint8>, address: uint8, id: uint8, heard: seq<Wire>, tries: uint8,
                   ghost windows: seq<seq<Wire>>, ghost t: Retrying, ghost began: seq<Wire>, ghost n: nat)
      returns (done: bool, ghost u: Retrying)
      requires Valid() && t.x == Sending(State(), t.x.sent, false) && sent == began + t.x.sent && n > 0 && !Returns(t)
      requires tries == Wrap8(t.passes + 1) && heard == HeardAfter(windows, t.passes)
      modifies `retransmissions, `txHeaderTo, `txHeaderId, `txHeaderFlags, `sent
      ensures Follow(t, address, id, data, windows, n) == Follow(u, address, id, data, windows, n - 1)
      ensures u.passes == t.passes + 1 && u.x == Sending(State(), u.x.sent, done) && sent == began + u.x.sent
    {
      u := Pass(t, address, id, data, windows);
      FollowOneMore(t, address, id, data, windows, n);
      txHeaderId := id;
      SetHeaderFlags(NONE, ACK);
      Sendto(data, address);
      ghost var w := Transmit(t.x.station, id, address, data).1;
      assert began + t.x.sent + [w] == began + (t.x.sent + [w]);
      if address == BROADCAST {
        return true, u;
      }
      if tries > 1 {
        retransmissions := Wrap32(retransmissions + 1);
      }
      done := AwaitAck(address, id, heard, Sending(State(), t.x.sent + [w], false), began);
    }

    /** The retry loop, followed for up to n passes. */
    method TryUntilDone(data: seq<uint8>, address: uint8, id: uint8, windows: seq<seq<Wire>>, n: nat,
                        ghost start: Retrying) returns (returned: bool, ok: bool)
      requires Valid() && start == Retrying(Sending(State(), [], false), 0)
      modifies `retransmissions, `txHeaderTo, `txHeaderId, `txHeaderFlags, `sent
      ensures var t := Follow(start, address, id, data, windows, n);
              returned == Returns(t) && t.x == Sending(State(), t.x.sent, ok) && sent == old(sent) + t.x.sent
    {
      ghost var began := sent;
      ghost var t := start;
      var tries: uint8 := 0;
      var k, left := 0, n;
      ok := false;
      while left > 0 && tries <= retries && !ok
        invariant k == t.passes && tries == Wrap8(k)
        invariant t.x == Sending(State(), t.x.sent, ok) && sent == began + t.x.sent
        invariant Follow(t, address, id, data, windows, left) == Follow(start, address, id, data, windows, n)
        decreases left
      {
        NextOctet(k);
        tries := Wrap8(tries + 1);
        ok, t := TryOnce(data, address, id, HeardAfter(windows, k), tries, windows, t, began, left);
        k, left := k + 1, left - 1;
      }
      returned := ok || tries > retries;
    }

    /** sendtoWait; windows[k] is what is heard after the k-th transmission. */
    method SendAndWait(data: seq<uint8>, address: uint8, windows: seq<seq<Wire>>, n: nat)
      returns (returned: bool, ok: bool)
      requires Valid()
      modifies `lastSequenceNumber, `retransmissions, `txHeaderTo, `txHeaderId, `txHeaderFlags, `sent
      ensures var t := SendtoWait(old(State()), data, address, windows, n);
              returned == Returns(t) && t.x == Sending(State(), t.x.sent, ok) && sent == old(sent) + t.x.sent
    {
      lastSequenceNumber := Wrap8(lastSequenceNumber + 1);
      returned, ok := TryUntilDone(data, address, lastSequenceNumber, windows, n,
                                   Retrying(Sending(State(), [], false), 0));
    }
  }

  lemma NextOctet(k: nat)
    ensures Wrap8(Wrap8(k) + 1) == Wrap8(k + 1)
  {
  }

  lemma {:induction false} WindowKeeps(x: Sending, address: uint8, id: uint8, heard: seq<Wire>)
    ensures var y := Window(x, address, id, heard);
            && y.station.retries == x.station.retries && y.station.addr == x.station.addr
            && y.station.seen == x.station.seen && y.station.lastSeq == x.station.lastSeq
            && y.station.retransmissions == x.station.retransmissions
    decreases |heard|
  {
    if heard == [] {
    } else {
      WindowKeeps(HearWaiting(x, address, id, heard[0]), address, id, heard[1..]);
    }
  }

  lemma {:induction false} WindowStops(x: Sending, address: uint8, id: uint8, heard: seq<Wire>)
    requires x.done
    ensures Window(x, address, id, heard) == x
    decreases |heard|
  {
    if heard == [] {
    } else {
      WindowStops(x, address, id, heard[1..]);
    }
  }

  // ---------------------------------------------------------------- the retry loop

  function CountAcks(ws: seq<Wire>): (n: nat)
    ensures n <= |ws|
  {
    if ws == [] then 0 else (if IsAck(ws[0]) then 1 else 0) + CountAcks(ws[1..])
  }

  function CountPlain(ws: seq<Wire>): nat { |ws| - CountAcks(ws) }

  lemma {:induction false} CountAppend(a: seq<Wire>, b: seq<Wire>)
    ensures CountAcks(a + b) == CountAcks(a) + CountAcks(b)
  {
    if a == [] {
      assert a + b == b;
    } else {
      assert (a + b)[1..] == a[1..] + b;
      CountAppend(a[1..], b);
    }
  }

  /** The ACK bit comes and goes; the other flags stay. */
  lemma FlagsKept(flags: bv8)
    ensures SetFlags(flags, ACK, NONE) & ACK != 0 && SetFlags(flags, NONE, ACK) & ACK == 0
    ensures SetFlags(SetFlags(flags, ACK, NONE), NONE, ACK) == SetFlags(flags, NONE, ACK)
    ensures SetFlags(SetFlags(flags, NONE, ACK), NONE, ACK) == SetFlags(flags, NONE, ACK)
  {
  }

  /** The bits to clear go before those to set come, and no others change. */
  lemma FlagsAre(flags: bv8, bits: bv8, clear: bv8)
    ensures var f := SetFlags(flags, bits, clear);
            f & bits == bits && f & clear & !bits == 0 && f & !(bits | clear) == flags & !(bits | clear)
  {
  }

  /** The driver's transmit headers are those of the frame w. */
  predicate Left(s: Station, w: Wire) {
    w == Wire(s.txTo, s.addr, s.txId, s.txFlags, w.data)
  }

  predicate LeftByLast(x: Sending) {
    x.sent != [] ==> Left(x.station, x.sent[|x.sent| - 1])
  }

  lemma {:induction false} WindowLeaves(x: Sending, address: uint8, id: uint8, heard: seq<Wire>)
    requires LeftByLast(x)
    ensures LeftByLast(Window(x, address, id, heard))
    decreases |heard|
  {
    if heard == [] {
    } else {
      WindowLeaves(HearWaiting(x, address, id, heard[0]), address, id, heard[1..]);
    }
  }

  lemma AttemptLeaves(x: Sending, address: uint8, id: uint8, data: seq<uint8>, windows: seq<seq<Wire>>, k: nat)
    ensures LeftByLast(Attempt(x, address, id, data, windows, k))
  {
    var (t, w) := Transmit(x.station, id, address, data);
    var counted := if Counts(k) then t.(retransmissions := Wrap32(t.retransmissions + 1)) else t;
    WindowLeaves(Sending(counted, x.sent + [w], false), address, id, HeardAfter(windows, k));
  }

  lemma {:induction false} FollowLeaves(t: Retrying, address: uint8, id: uint8, data: seq<uint8>,
                                        windows: seq<seq<Wire>>, n: nat)
    requires LeftByLast(t.x)
    ensures LeftByLast(Follow(t, address, id, data, windows, n).x)
    decreases n
  {
    if n == 0 || Returns(t) {
    } else {
      AttemptLeaves(t.x, address, id, data, windows, t.passes);
      FollowLeaves(Pass(t, address, id, data, windows), address, id, data, windows, n - 1);
    }
  }

  /** What sendtoWait and recvfromAck leave in the transmit headers are those of the last frame they sent. */
  lemma HeadersOfLastFrame(s: Station, data: seq<uint8>, address: uint8, windows: seq<seq<Wire>>, n: nat, w: Wire)
    ensures LeftByLast(SendtoWait(s, data, address, windows, n).x)
    ensures var r := RecvfromAck(s, w);
            if r.acks == [] then r.station.(seen := s.seen) == s else Left(r.station, r.acks[0])
  {
    var id := Wrap8(s.lastSeq + 1);
    FollowLeaves(Retrying(Sending(s.(lastSeq := id), [], false), 0), address, id, data, windows, n);
  }

  // ---------------------------------------------------------------- an acknowledgement is the one waited for

  /** What acknowledge() puts on the air for frame id of station to: one octet, and this station's other flags. */
  lemma AcknowledgementIs(s: Station, id: uint8, to: uint8)
    ensures Acknowledge(s, id, to).1 == Wire(to, s.addr, id, s.txFlags | ACK, [0x21])
    ensures IsAck(Acknowledge(s, id, to).1)
  {
  }

  /** Data sent by a to b is answered by b with exactly what a's sendtoWait waits for. */
  lemma AckIsAwaited(a: Station, b: Station, id: uint8, data: seq<uint8>)
    requires a.addr != b.addr && b.addr != BROADCAST
    ensures var w := Transmit(a, id, b.addr, data).1;
            var r := RecvfromAck(b, w);
            && |r.acks| == 1 && Matches(a, b.addr, id, r.acks[0])
            && (r.accepted <==> id != b.seen[a.addr]) && r.station.seen == b.seen[a.addr := id]
  {
    FlagsKept(a.txFlags);
    FlagsKept(b.txFlags);
  }

  /** So is a frame b has had already, if it is inside a sendtoWait of its own. */
  lemma AckInsideWaitIsAwaited(a: Station, b: Station, id: uint8, data: seq<uint8>, address: uint8, other: uint8)
    requires a.addr != b.addr && b.addr != BROADCAST
    ensures var w := Transmit(a, id, b.addr, data).1;
            var x := HearWaiting(Sending(b, [], false), address, other, w);
            && !x.done && x.station.seen == b.seen
            && if id == b.seen[a.addr] then |x.sent| == 1 && Matches(a, b.addr, id, x.sent[0]) else x.sent == []
  {
    FlagsKept(a.txFlags);
    FlagsKept(b.txFlags);
  }

  /** A broadcast is answered by nothing, and an acknowledgement neither. */
  lemma NoAnswer(b: Station, w: Wire)
    requires w.to == BROADCAST || IsAck(w)
    ensures RecvfromAck(b, w).acks == []
    ensures RecvfromAck(b, w).accepted <==> !IsAck(w) && w.id != b.seen[w.from]
  {
  }

  lemma CountOneMore(ws: seq<Wire>, w: Wire)
    ensures CountAcks(ws + [w]) == CountAcks(ws) + if IsAck(w) then 1 else 0
  {
    CountAppend(ws, [w]);
    assert [w][1..] == [];
  }

  /** The data frame that s sends now: the ACK flag cleared, whatever else the headers hold. */
  function DataFrame(s: Station, address: uint8, id: uint8, data: seq<uint8>): Wire {
    Wire(address, s.addr, id, SetFlags(s.txFlags, NONE, ACK), data)
  }

  /** Apart from acknowledgements everything sent so far is the frame d, which x would send again. */
  ghost predicate Repeats(x: Sending, d: Wire) {
    && d == DataFrame(x.station, d.to, d.id, d.data)
    && (forall i :: 0 <= i < |x.sent| ==> IsAck(x.sent[i]) || x.sent[i] == d)
  }

  lemma HearKeeps(x: Sending, address: uint8, id: uint8, w: Wire, d: Wire)
    requires Repeats(x, d)
    ensures var y := HearWaiting(x, address, id, w);
            && Repeats(y, d)
            && CountPlain(y.sent) == CountPlain(x.sent)
            && CountAcks(y.sent) <= CountAcks(x.sent) + if IsAck(w) then 0 else 1
  {
    FlagsKept(x.station.txFlags);
    CountOneMore(x.sent, Acknowledge(x.station, w.id, w.from).1);
  }

  /** Waiting answers known frames, no more of them than come, and leaves the data frame as it was. */
  lemma {:induction false} WindowCounts(x: Sending, address: uint8, id: uint8, heard: seq<Wire>, d: Wire)
    requires Repeats(x, d)
    ensures var y := Window(x, address, id, heard);
            && Repeats(y, d)
            && CountPlain(y.sent) == CountPlain(x.sent)
            && CountAcks(y.sent) <= CountAcks(x.sent) + CountPlain(heard)
    decreases |heard|
  {
    if heard == [] {
    } else {
      HearKeeps(x, address, id, heard[0], d);
      WindowCounts(HearWaiting(x, address, id, heard[0]), address, id, heard[1..], d);
    }
  }

  predicate Heard(addr: uint8, address: uint8, id: uint8, heard: seq<Wire>) {
    exists w :: w in heard && w.from == address && w.to == addr && IsAck(w) && w.id == id
  }

  /** A wait ends with success exactly if the acknowledgement comes. */
  lemma {:induction false} WindowEndsIff(x: Sending, address: uint8, id: uint8, heard: seq<Wire>)
    requires !x.done
    ensures Window(x, address, id, heard).done <==> Heard(x.station.addr, address, id, heard)
    decreases |heard|
  {
    if heard == [] {
    } else {
      var z := HearWaiting(x, address, id, heard[0]);
      assert heard[0] in heard;
      if z.done {
        WindowStops(z, address, id, heard[1..]);
      } else {
        WindowEndsIff(z, address, id, heard[1..]);
        assert forall w :: w in heard <==> w == heard[0] || w in heard[1..];
      }
    }
  }

  /** The non-ACK frames in all the windows from the k-th on. */
  function PlainHeard(windows: seq<seq<Wire>>, k: nat): nat
    decreases |windows| - k
  {
    if k >= |windows| then 0 else CountPlain(windows[k]) + PlainHeard(windows, k + 1)
  }

  /** The retransmissions among the first n passes. */
  function Retransmitted(n: nat): nat {
    if n == 0 then 0 else (if Counts(n - 1) then 1 else 0) + Retransmitted(n - 1)
  }

  lemma {:induction false} AllButTheFirst(n: nat)
    requires 0 < n <= 0xff
    ensures Retransmitted(n) == n - 1
  {
    if n == 1 {
      assert Retransmitted(0) == 0;
    } else {
      AllButTheFirst(n - 1);
    }
  }

  lemma PassCounts(t: Retrying, address: uint8, id: uint8, data: seq<uint8>, windows: seq<seq<Wire>>)
    requires Repeats(t.x, DataFrame(t.x.station, address, id, data)) && address != BROADCAST
    ensures var x, k := t.x, t.passes;
            var y := Attempt(x, address, id, data, windows, k);
            && Repeats(y, DataFrame(x.station, address, id, data))
            && y.station.addr == x.station.addr && y.station.retries == x.station.retries
            && y.station.seen == x.station.seen && y.station.lastSeq == x.station.lastSeq
            && CountPlain(y.sent) == CountPlain(x.sent) + 1
            && CountAcks(y.sent) + PlainHeard(windows, k + 1) <= CountAcks(x.sent) + PlainHeard(windows, k)
            && y.station.retransmissions == Wrap32(x.station.retransmissions + if Counts(k) then 1 else 0)
            && (y.done <==> Heard(x.station.addr, address, id, HeardAfter(windows, k)))
  {
    var x, k := t.x, t.passes;
    var d := DataFrame(x.station, address, id, data);
    var (s, w) := Transmit(x.station, id, address, data);
    FlagsKept(x.station.txFlags);
    assert w == d;
    CountOneMore(x.sent, w);
    var counted := if Counts(k) then s.(retransmissions := Wrap32(s.retransmissions + 1)) else s;
    var start := Sending(counted, x.sent + [w], false);
    WindowCounts(start, address, id, HeardAfter(windows, k), d);
    WindowKeeps(start, address, id, HeardAfter(windows, k));
    WindowEndsIff(start, address, id, HeardAfter(windows, k));
  }

  /** What n more passes may leave alone, and how many they can be. */
  lemma {:induction false} FollowCounts(t: Retrying, address: uint8, id: uint8, data: seq<uint8>,
                                        windows: seq<seq<Wire>>, n: nat)
    requires Repeats(t.x, DataFrame(t.x.station, address, id, data)) && address != BROADCAST
    ensures var u := Follow(t, address, id, data, windows, n);
            && Repeats(u.x, DataFrame(t.x.station, address, id, data))
            && u.passes <= t.passes + n && (u.passes == t.passes + n || Returns(u))
            && CountPlain(u.x.sent) - CountPlain(t.x.sent) == u.passes - t.passes >= 0
            && CountAcks(u.x.sent) + PlainHeard(windows, u.passes)
               <= CountAcks(t.x.sent) + PlainHeard(windows, t.passes)
            && u.x.station.retries == t.x.station.retries && u.x.station.addr == t.x.station.addr
            && u.x.station.seen == t.x.station.seen && u.x.station.lastSeq == t.x.station.lastSeq
    decreases n
  {
    if n == 0 || Returns(t) {
    } else {
      PassCounts(t, address, id, data, windows);
      FollowCounts(Pass(t, address, id, data, windows), address, id, data, windows, n - 1);
    }
  }

  lemma WrapTwice(a: int, b: int)
    ensures Wrap32(Wrap32(a) + b) == Wrap32(a + b)
  {
  }

  lemma {:induction false} FollowRetransmits(t: Retrying, address: uint8, id: uint8, data: seq<uint8>,
                                             windows: seq<seq<Wire>>, n: nat)
    requires Repeats(t.x, DataFrame(t.x.station, address, id, data)) && address != BROADCAST
    ensures var u := Follow(t, address, id, data, windows, n);
            u.x.station.retransmissions ==
            Wrap32(t.x.station.retransmissions + Retransmitted(u.passes) - Retransmitted(t.passes))
    decreases n
  {
    if n == 0 || Returns(t) {
      assert Follow(t, address, id, data, windows, n) == t;
    } else {
      var p := Pass(t, address, id, data, windows);
      PassCounts(t, address, id, data, windows);
      FollowRetransmits(p, address, id, data, windows, n - 1);
      var u := Follow(p, address, id, data, windows, n - 1);
      var one := if Counts(t.passes) then 1 else 0;
      assert Retransmitted(p.passes) == one + Retransmitted(t.passes);
      WrapTwice(t.x.station.retransmissions + one, Retransmitted(u.passes) - Retransmitted(p.passes));
    }
  }

  /** An acknowledgement is heard after one of the transmissions from the k-th up to the n-th. */
  ghost predicate AckComes(addr: uint8, address: uint8, id: uint8, windows: seq<seq<Wire>>, k: nat, n: nat) {
    exists j :: k <= j < n && Heard(addr, address, id, HeardAfter(windows, j))
  }

  lemma AckComesSplit(addr: uint8, address: uint8, id: uint8, windows: seq<seq<Wire>>, k: nat, n: nat)
    requires k < n
    ensures AckComes(addr, address, id, windows, k, n) <==>
            Heard(addr, address, id, HeardAfter(windows, k)) || AckComes(addr, address, id, windows, k + 1, n)
  {
  }

  /** Each pass is made only if the guard still holds, and the last one ends the loop if it is answered. */
  lemma {:induction false} FollowEnds(t: Retrying, address: uint8, id: uint8, data: seq<uint8>,
                                      windows: seq<seq<Wire>>, n: nat)
    requires Repeats(t.x, DataFrame(t.x.station, address, id, data)) && address != BROADCAST && !t.x.done
    ensures var u := Follow(t, address, id, data, windows, n);
            && t.passes <= u.passes
            && (u.x.done <==> AckComes(t.x.station.addr, address, id, windows, t.passes, u.passes))
            && (forall j :: t.passes <= j < u.passes ==> Wrap8(j) <= t.x.station.retries)
    decreases n
  {
    if n == 0 || Returns(t) {
    } else {
      var p := Pass(t, address, id, data, windows);
      PassCounts(t, address, id, data, windows);
      if p.x.done {
        assert Follow(p, address, id, data, windows, n - 1) == p;
      } else {
        FollowEnds(p, address, id, data, windows, n - 1);
        var u := Follow(p, address, id, data, windows, n - 1);
        AckComesSplit(t.x.station.addr, address, id, windows, t.passes, u.passes);
      }
    }
  }

  /** The octet counter lets a limit below 255 count, and 255 never. */
  lemma GuardOverPasses(retries: uint8, n: nat)
    requires forall j :: 0 <= j < n ==> Wrap8(j) <= retries
    ensures retries < 0xff ==> n <= retries + 1
    ensures Wrap8(n) > retries <==> retries < 0xff && n == retries + 1
  {
    assert n > retries + 1 ==> Wrap8(retries + 1) <= retries;
  }

  /** The start of a unicast sendtoWait, and all there is to know about the state it has got to. */
  lemma SendFacts(s: Station, data: seq<uint8>, address: uint8, windows: seq<seq<Wire>>, n: nat)
    requires address != BROADCAST
    ensures var t := SendtoWait(s, data, address, windows, n);
            var id := Wrap8(s.lastSeq + 1);
            && t.passes <= n && (t.passes < n ==> Returns(t))
            && t.x.station.lastSeq == id && t.x.station.seen == s.seen && t.x.station.retries == s.retries
            && Repeats(t.x, DataFrame(s, address, id, data))
            && CountPlain(t.x.sent) == t.passes && CountAcks(t.x.sent) <= PlainHeard(windows, 0)
            && (t.x.done <==> AckComes(s.addr, address, id, windows, 0, t.passes))
            && (s.retries < 0xff ==> t.passes <= s.retries + 1)
            && (Returns(t) <==> t.x.done || (s.retries < 0xff && t.passes == s.retries + 1))
  {
    var id := Wrap8(s.lastSeq + 1);
    var start := Retrying(Sending(s.(lastSeq := id), [], false), 0);
    FollowCounts(start, address, id, data, windows, n);
    FollowEnds(start, address, id, data, windows, n);
    GuardOverPasses(s.retries, SendtoWait(s, data, address, windows, n).passes);
  }

  lemma BroadcastOnce(s: Station, data: seq<uint8>, windows: seq<seq<Wire>>, n: nat)
    requires n > 0
    ensures var t := SendtoWait(s, data, BROADCAST, windows, n);
            var id := Wrap8(s.lastSeq + 1);
            t.x.done && t.passes == 1 && t.x.sent == [DataFrame(s, BROADCAST, id, data)]
            && t.x.station.lastSeq == id && t.x.station.seen == s.seen && t.x.station.retries == s.retries
            && t.x.station.retransmissions == s.retransmissions && CountPlain(t.x.sent) == 1
            && Repeats(t.x, DataFrame(s, BROADCAST, id, data))
  {
    var id := Wrap8(s.lastSeq + 1);
    var start := Retrying(Sending(s.(lastSeq := id), [], false), 0);
    var p := Pass(start, BROADCAST, id, data, windows);
    assert Follow(p, BROADCAST, id, data, windows, n - 1) == p;
    FlagsKept(s.txFlags);
    CountOneMore([], DataFrame(s, BROADCAST, id, data));
  }

  /**
   * Every transmission of sendtoWait is the same frame, with this send's id and without the ACK flag
   * whatever acknowledgements went out between; all passes but the first count as retransmissions as
   * long as the octet counter does not wrap; it is done exactly when the acknowledgement is heard. With
   * a limit below 255 it transmits no more than retries + 1 times. A broadcast goes out once.
   */
  lemma RetryLoop(s: Station, data: seq<uint8>, address: uint8, windows: seq<seq<Wire>>, n: nat)
    requires n > 0
    ensures var t := SendtoWait(s, data, address, windows, n);
            var id := Wrap8(s.lastSeq + 1);
            && t.x.station.lastSeq == id && t.x.station.seen == s.seen && t.x.station.retries == s.retries
            && Repeats(t.x, DataFrame(s, address, id, data)) && !IsAck(DataFrame(s, address, id, data))
            && 1 <= CountPlain(t.x.sent) == t.passes <= n
            && (address == BROADCAST ==> |t.x.sent| == 1)
            && (s.retries < 0xff ==> t.passes <= s.retries + 1)
            && t.x.station.retransmissions == Wrap32(s.retransmissions + Retransmitted(t.passes))
            && (t.passes <= 0xff ==> Retransmitted(t.passes) == t.passes - 1)
            && CountAcks(t.x.sent) <= PlainHeard(windows, 0)
            && (t.x.done <==> address == BROADCAST || AckComes(s.addr, address, id, windows, 0, t.passes))
            && (Returns(t) && !t.x.done ==> t.passes == s.retries + 1)
  {
    var id := Wrap8(s.lastSeq + 1);
    var start := Retrying(Sending(s.(lastSeq := id), [], false), 0);
    FlagsKept(s.txFlags);
    if address == BROADCAST {
      BroadcastOnce(s, data, windows, n);
      AllButTheFirst(1);
    } else {
      SendFacts(s, data, address, windows, n);
      FollowRetransmits(start, address, id, data, windows, n);
      FirstPassIsMade(start, address, id, data, windows, n);
      if SendtoWait(s, data, address, windows, n).passes <= 0xff {
        AllButTheFirst(SendtoWait(s, data, address, windows, n).passes);
      }
    }
  }

  lemma FirstPassIsMade(t: Retrying, address: uint8, id: uint8, data: seq<uint8>, windows: seq<seq<Wire>>, n: nat)
    requires n > 0 && t.passes == 0 && !t.x.done && address != BROADCAST
    requires Repeats(t.x, DataFrame(t.x.station, address, id, data))
    ensures Follow(t, address, id, data, windows, n).passes >= 1
  {
    PassCounts(t, address, id, data, windows);
    FollowCounts(Pass(t, address, id, data, windows), address, id, data, windows, n - 1);
  }

  /** After n transmissions without an answer it goes on up to the limit, and for ever if that is 255. */
  lemma GoesOnIff(s: Station, data: seq<uint8>, address: uint8, windows: seq<seq<Wire>>, n: nat)
    requires address != BROADCAST && !AckComes(s.addr, address, Wrap8(s.lastSeq + 1), windows, 0, n)
    ensures var t := SendtoWait(s, data, address, windows, n);
            && (!Returns(t) <==> n <= s.retries || s.retries == 0xff)
            && (!Returns(t) ==> t.passes == n)
  {
    SendFacts(s, data, address, windows, n);
  }

  /** sendtoWait ends exactly if its limit is below 255, it need not wait, or the acknowledgement is heard. */
  lemma ReturnsIff(s: Station, data: seq<uint8>, address: uint8, windows: seq<seq<Wire>>)
    ensures (exists n :: Returns(SendtoWait(s, data, address, windows, n))) <==>
            s.retries < 0xff || address == BROADCAST
            || exists j: nat :: Heard(s.addr, address, Wrap8(s.lastSeq + 1), HeardAfter(windows, j))
  {
    var id := Wrap8(s.lastSeq + 1);
    if address == BROADCAST {
      BroadcastOnce(s, data, windows, 1);
      assert Returns(SendtoWait(s, data, address, windows, 1));
    } else if s.retries < 0xff {
      SendFacts(s, data, address, windows, s.retries + 1);
      assert Returns(SendtoWait(s, data, address, windows, s.retries + 1));
    } else {
      forall n: nat
        ensures Returns(SendtoWait(s, data, address, windows, n)) ==> AckComes(s.addr, address, id, windows, 0, n)
      {
        SendFacts(s, data, address, windows, n);
      }
      if exists j: nat :: Heard(s.addr, address, id, HeardAfter(windows, j)) {
        var j: nat :| Heard(s.addr, address, id, HeardAfter(windows, j));
        SendFacts(s, data, address, windows, j + 1);
        assert Returns(SendtoWait(s, data, address, windows, j + 1));
      }
    }
  }

  // ---------------------------------------------------------------- acknowledgements over whole runs

  datatype Op = OpSend(data: seq<uint8>, address: uint8, windows: seq<seq<Wire>>, n: nat) | OpReceive(w: Wire)

  function Apply(s: Station, op: Op): (Station, seq<Wire>) {
    match op
    case OpSend(data, address, windows, n) =>
      var x := SendtoWait(s, data, address, windows, n).x;
      (x.station, x.sent)
    case OpReceive(w) =>
      var r := RecvfromAck(s, w);
      (r.station, r.acks)
  }

  function SentBy(s: Station, ops: seq<Op>): seq<Wire>
    decreases |ops|
  {
    if ops == [] then [] else
    var (t, ws) := Apply(s, ops[0]);
    ws + SentBy(t, ops[1..])
  }

  function PlainIn(ops: seq<Op>): nat {
    if ops == [] then 0 else
    (match ops[0]
     case OpSend(_, _, windows, _) => PlainHeard(windows, 0)
     case OpReceive(w) => if IsAck(w) then 0 else 1) + PlainIn(ops[1..])
  }

  /** An ACK is never answered: over any run a station acknowledges no more than it is asked to. */
  lemma {:induction false} AcksNeverExceedRequests(s: Station, ops: seq<Op>)
    ensures CountAcks(SentBy(s, ops)) <= PlainIn(ops)
    decreases |ops|
  {
    if ops == [] {
    } else {
      var (t, ws) := Apply(s, ops[0]);
      match ops[0] {
        case OpSend(data, address, windows, n) =>
          if n > 0 {
            RetryLoop(s, data, address, windows, n);
          }
        case OpReceive(w) => assert |RecvfromAck(s, w).acks| <= 1 && (IsAck(w) ==> RecvfromAck(s, w).acks == []);
      }
      AcksNeverExceedRequests(t, ops[1..]);
      CountAppend(ws, SentBy(t, ops[1..]));
    }
  }
}
