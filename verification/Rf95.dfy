/** The RF95 driver: packets with a four-octet header, and a mode polled from available(). */
module Rf95 {
  import opened Octets

  /** RH_RF95_FIFO_SIZE, RH_RF95_HEADER_LEN and RH_RF95_MAX_MESSAGE_LEN */
  const FIFO_SIZE: nat := 255
  const HEADER_LEN: nat := 4
  const MAX_MESSAGE_LEN: nat := FIFO_SIZE - HEADER_LEN

  const RX_TIMEOUT: bv8 := 0x80
  const RX_DONE: bv8 := 0x40
  const PAYLOAD_CRC_ERROR: bv8 := 0x20
  const TX_DONE: bv8 := 0x08

  datatype Mode = Initialising | Sleeping | Idle | Tx | Rx
  datatype Header = Header(to: uint8, from: uint8, id: uint8, flags: uint8)

  type Packet = p: seq<uint8> | |p| <= FIFO_SIZE

  /** What one call of available() finds on the serial line; an 'I' goes with the radio's registers. */
  datatype Event = Silence | OtherOctet | Interrupt(irq: bv8, packet: Packet)

  /** The driver's fields; packet is _buf[.._bufLen], onAir the packets given to the transmitter. */
  datatype Radio = Radio(addr: uint8, promiscuous: bool, mode: Mode, txGood: uint16, rxGood: uint16, rxBad: uint16,
                         packet: Packet, valid: bool, rx: Header, tx: Header, onAir: seq<Packet>)

  function Validate(r: Radio): Radio {
    if |r.packet| < 4 then r else
    var seen := r.(rx := Header(r.packet[0], r.packet[1], r.packet[2], r.packet[3]));
    if r.promiscuous || seen.rx.to == r.addr || seen.rx.to == BROADCAST
    then seen.(rxGood := Wrap16(r.rxGood + 1), valid := true)
    else seen
  }

  function OnInterrupt(r: Radio, irq: bv8, packet: Packet): Radio {
    if r.mode == Rx && irq & (RX_TIMEOUT | PAYLOAD_CRC_ERROR) != 0 then r.(rxBad := Wrap16(r.rxBad + 1))
    else if r.mode == Rx && irq & RX_DONE != 0 then
      var got := Validate(r.(packet := packet));
      if got.valid then got.(mode := Idle) else got
    else if r.mode == Tx && irq & TX_DONE != 0 then r.(txGood := Wrap16(r.txGood + 1), mode := Idle)
    else r
  }

  /** available(): it turns the receiver on again unless a transmission is under way. */
  function Poll(r: Radio, e: Event): Radio {
    var s := if e.Interrupt? then OnInterrupt(r, e.irq, e.packet) else r;
    if s.mode == Tx then s else s.(mode := Rx)
  }

  predicate IsAvailable(r: Radio) { r.mode != Tx && r.valid }

  function NextEvent(events: seq<Event>): Event { if events == [] then Silence else events[0] }
  function Rest(events: seq<Event>): seq<Event> { if events == [] then [] else events[1..] }

  /** waitPacketSent(), as far as the events reach. */
  function Wait(r: Radio, events: seq<Event>): (Radio, seq<Event>)
    decreases |events|
  {
    if r.mode != Tx || events == [] then (r, events) else Wait(Poll(r, events[0]), events[1..])
  }

  datatype SendResult = Queued | TooLong | StillWaiting

  function PacketOf(h: Header, data: seq<uint8>): seq<uint8> {
    [h.to, h.from, h.id, h.flags] + data
  }

  /** send(); StillWaiting stands for not having come back yet. */
  function Send(r: Radio, data: seq<uint8>, events: seq<Event>): (SendResult, Radio, seq<Event>) {
    if |data| > MAX_MESSAGE_LEN then (TooLong, r, events) else
    var (s, rest) := Wait(r, events);
    if s.mode == Tx then (StillWaiting, s, rest)
    else (Queued, s.(mode := Tx, onAir := s.onAir + [PacketOf(s.tx, data)]), rest)
  }

  function Payload(r: Radio): seq<uint8> {
    if |r.packet| >= HEADER_LEN then r.packet[HEADER_LEN..] else []
  }

  /** recv() with room for `space` octets. */
  function Receive(r: Radio, space: nat, events: seq<Event>): (Option<seq<uint8>>, Radio) {
    var s := Poll(r, NextEvent(events));
    if !IsAvailable(s) then (None, s)
    else (Some(Payload(s)[..Min(space, |Payload(s)|)]), s.(valid := false, packet := []))
  }

  /** sleep() */
  function Sleep(r: Radio): Radio {
    if r.mode != Sleeping then r.(mode := Sleeping) else r
  }

  /** A packet shorter than its header overwrites one that has not been collected and still counts as valid. */
  predicate Truncates(r: Radio, e: Event) {
    && r.valid && r.mode == Rx && e.Interrupt? && |e.packet| < HEADER_LEN
    && e.irq & RX_DONE != 0 && e.irq & (RX_TIMEOUT | PAYLOAD_CRC_ERROR) == 0
  }

  /** Then, and only then, the length that recv() computes for the data is negative. */
  lemma LengthNegativeIff(r: Radio, e: Event)
    requires r.valid ==> |r.packet| >= HEADER_LEN
    ensures IsAvailable(Poll(r, e)) && |Poll(r, e).packet| - HEADER_LEN < 0 <==> Truncates(r, e)
  {
  }

  class Driver {
    var thisAddress: uint8
    var promiscuous: bool
    var mode: Mode
    var txGood: uint16
    var rxGood: uint16
    var rxBad: uint16
    const buf: array<uint8>
    var bufLen: nat
    var rxBufValid: bool
    var rxHeader: Header
    var txHeader: Header
    var onAir: seq<Packet>
    var events: seq<Event>  // what the serial line will bring

    ghost predicate Valid()
      reads this
    {
      buf.Length == FIFO_SIZE && bufLen <= FIFO_SIZE
    }

    ghost function State(): Radio
      requires Valid()
      reads this, buf
    {
      Radio(thisAddress, promiscuous, mode, txGood, rxGood, rxBad, buf[..bufLen], rxBufValid, rxHeader, txHeader, onAir)
    }

    constructor (address: uint8)
      ensures Valid() && fresh(buf) && events == []
      ensures mode == Initialising && txGood == 0 && !rxBufValid && onAir == [] && thisAddress == address
    {
      thisAddress, promiscuous, mode := address, false, Initialising;
      txGood, rxGood, rxBad := 0, 0, 0;
      buf := new uint8[FIFO_SIZE](_ => 0);
      bufLen, rxBufValid := 0, false;
      rxHeader := Header(0, 0, 0, 0);
      txHeader := Header(BROADCAST, address, 0, 0);
      onAir, events := [], [];
    }

    method ValidateRxBuf()
      requires Valid()
      modifies `rxHeader, `rxGood, `rxBufValid
      ensures State() == Validate(old(State()))
    {
      if bufLen < 4 {
        return;
      }
      rxHeader := Header(buf[0], buf[1], buf[2], buf[3]);
      if promiscuous || rxHeader.to == thisAddress || rxHeader.to == BROADCAST {
        rxGood := Wrap16(rxGood + 1);
        rxBufValid := true;
      }
    }

    method HandleInterrupt(irq: bv8, packet: Packet)
      requires Valid()
      modifies `mode, `txGood, `rxGood, `rxBad, `bufLen, `rxBufValid, `rxHeader, buf
      ensures Valid() && State() == OnInterrupt(old(State()), irq, packet)
    {
      if mode == Rx && irq & (RX_TIMEOUT | PAYLOAD_CRC_ERROR) != 0 {
        rxBad := Wrap16(rxBad + 1);
      } else if mode == Rx && irq & RX_DONE != 0 {
        forall k | 0 <= k < |packet| {
          buf[k] := packet[k];
        }
        bufLen := |packet|;
        assert buf[..bufLen] == packet;
        ValidateRxBuf();
        if rxBufValid {
          mode := Idle;
        }
      } else if mode == Tx && irq & TX_DONE != 0 {
        txGood := Wrap16(txGood + 1);
        mode := Idle;
      }
    }

    method Available() returns (ready: bool)
      requires Valid()
      modifies `mode, `txGood, `rxGood, `rxBad, `bufLen, `rxBufValid, `rxHeader, `events, buf
      ensures Valid() && events == Rest(old(events))
      ensures State() == Poll(old(State()), NextEvent(old(events)))
      ensures ready <==> IsAvailable(State())
    {
      var e := NextEvent(events);
      events := Rest(events);
      if e.Interrupt? {
        HandleInterrupt(e.irq, e.packet);
      }
      if mode == Tx {
        return false;
      }
      mode := Rx;
      return rxBufValid;
    }

    /** Blocks while transmitting; the loop ends early only where the known events end. */
    method WaitPacketSent()
      requires Valid()
      modifies `mode, `txGood, `rxGood, `rxBad, `bufLen, `rxBufValid, `rxHeader, `events, buf
      ensures Valid() && (State(), events) == Wait(old(State()), old(events))
      ensures mode == Tx ==> events == []
    {
      ghost var goal := Wait(State(), events);
      while mode == Tx && events != []
        invariant Valid() && Wait(State(), events) == goal
        invariant txHeader == old(txHeader) && onAir == old(onAir) && thisAddress == old(thisAddress)
        decreases |events|
      {
        var _ := Available();
      }
    }

    method SendPacket(data: seq<uint8>) returns (result: SendResult)
      requires Valid()
      modifies `mode, `txGood, `rxGood, `rxBad, `bufLen, `rxBufValid, `rxHeader, `events, `onAir, buf
      ensures Valid() && (result, State(), events) == Send(old(State()), data, old(events))
    {
      if |data| > MAX_MESSAGE_LEN {
        return TooLong;
      }
      WaitPacketSent();
      if mode == Tx {
        return StillWaiting;
      }
      mode := Idle;
      var packet := [txHeader.to, txHeader.from, txHeader.id, txHeader.flags] + data;
      onAir := onAir + [packet];
      mode := Tx;
      return Queued;
    }

    /** recv(); a packet that came on top of an uncollected one takes its place, but must not be a fragment. */
    method Recv(space: nat) returns (data: Option<seq<uint8>>)
      requires Valid() && (rxBufValid ==> bufLen >= HEADER_LEN)
      requires !Truncates(State(), NextEvent(events))
      modifies `mode, `txGood, `rxGood, `rxBad, `bufLen, `rxBufValid, `rxHeader, `events, buf
      ensures Valid() && events == Rest(old(events)) && (rxBufValid ==> bufLen >= HEADER_LEN)
      ensures (data, State()) == Receive(old(State()), space, old(events))
    {
      var ready := Available();
      if !ready {
        return None;
      }
      var len := Min(space, bufLen - HEADER_LEN);
      assert buf[..bufLen][HEADER_LEN..][..len] == buf[HEADER_LEN..HEADER_LEN + len];
      data := Some(buf[HEADER_LEN..HEADER_LEN + len]);
      rxBufValid := false;
      bufLen := 0;
    }

    method GoToSleep()
      requires Valid()
      modifies `mode
      ensures Valid() && State() == Sleep(old(State()))
    {
      if mode != Sleeping {
        mode := Sleeping;
      }
    }
  }

  // ---------------------------------------------------------------- one call each

  predicate Failed(irq: bv8) { irq & (RX_TIMEOUT | PAYLOAD_CRC_ERROR) != 0 }

  /** The interrupt ends a transmission. */
  predicate Finishes(e: Event) { e.Interrupt? && e.irq & TX_DONE != 0 }

  /** The interrupt brings a packet that counts, complete, without error, and meant for this driver. */
  predicate Brings(r: Radio, e: Event) {
    && r.mode == Rx && e.Interrupt? && !Failed(e.irq) && e.irq & RX_DONE != 0
    && |e.packet| >= HEADER_LEN && (r.promiscuous || e.packet[0] == r.addr || e.packet[0] == BROADCAST)
  }

  /** After available() the receiver is on, unless a transmission is still under way. */
  lemma PollTurnsReceiverOn(r: Radio, e: Event)
    ensures Poll(r, e).mode == if r.mode == Tx && !Finishes(e) then Tx else Rx
  {
  }

  /** Each interrupt is counted once, in the counter it belongs to, or not at all. */
  lemma PollCounts(r: Radio, e: Event)
    ensures var s := Poll(r, e);
            && s.txGood == Wrap16(r.txGood + if r.mode == Tx && Finishes(e) then 1 else 0)
            && s.rxBad == Wrap16(r.rxBad + if r.mode == Rx && e.Interrupt? && Failed(e.irq) then 1 else 0)
            && s.rxGood == Wrap16(r.rxGood + if Brings(r, e) then 1 else 0)
            && s.tx == r.tx && s.addr == r.addr && s.promiscuous == r.promiscuous && s.onAir == r.onAir
  {
  }

  /** What there is to collect: a packet that has come now, or one from before. */
  lemma PollKeepsPacket(r: Radio, e: Event)
    ensures var s := Poll(r, e);
            && (s.valid <==> r.valid || Brings(r, e))
            && (Brings(r, e) ==> s.packet == e.packet
                                 && s.rx == Header(e.packet[0], e.packet[1], e.packet[2], e.packet[3]))
            && (!(r.mode == Rx && e.Interrupt? && !Failed(e.irq) && e.irq & RX_DONE != 0) ==>
                  s.packet == r.packet && s.rx == r.rx)
  {
  }

  /** waitPacketSent() ends exactly when the transmission does. */
  lemma {:induction false} WaitEndsIff(r: Radio, events: seq<Event>)
    ensures Wait(r, events).0.mode == Tx <==> r.mode == Tx && forall e :: e in events ==> !Finishes(e)
    ensures r.mode != Tx ==> Wait(r, events) == (r, events)
    decreases |events|
  {
    if r.mode != Tx || events == [] {
    } else {
      assert forall e :: e in events <==> e == events[0] || e in events[1..];
      PollTurnsReceiverOn(r, events[0]);
      WaitEndsIff(Poll(r, events[0]), events[1..]);
    }
  }

  /** send() refuses exactly what is too long, touching nothing, and otherwise transmits after the one before. */
  lemma SendQueuesIff(r: Radio, data: seq<uint8>, events: seq<Event>)
    ensures var (result, s, rest) := Send(r, data, events);
            && (result == TooLong <==> |data| > MAX_MESSAGE_LEN)
            && (result == TooLong ==> s == r && rest == events)
            && (result == Queued <==>
                  |data| <= MAX_MESSAGE_LEN && (r.mode != Tx || exists e :: e in events && Finishes(e)))
            && (result == Queued ==>
                  s.mode == Tx && s.onAir == r.onAir + [[r.tx.to, r.tx.from, r.tx.id, r.tx.flags] + data])
            && (result != Queued ==> s.onAir == r.onAir)
  {
    WaitEndsIff(r, events);
    WaitKeepsAir(r, events);
  }

  lemma {:induction false} WaitKeepsAir(r: Radio, events: seq<Event>)
    ensures Wait(r, events).0.tx == r.tx && Wait(r, events).0.onAir == r.onAir
    decreases |events|
  {
    if r.mode != Tx || events == [] {
    } else {
      WaitKeepsAir(Poll(r, events[0]), events[1..]);
    }
  }

  /** The interrupt handler itself turns the receiver off only with a packet to collect. */
  lemma InterruptMode(r: Radio, irq: bv8, packet: Packet)
    ensures var s := OnInterrupt(r, irq, packet);
            s.mode == if r.mode == Tx && irq & TX_DONE != 0 then Idle
                      else if r.mode == Rx && !Failed(irq) && irq & RX_DONE != 0 && s.valid then Idle
                      else r.mode
  {
  }

  /** recv() has something exactly if a packet is there, from now or before, and nothing is being transmitted. */
  lemma CollectsIff(r: Radio, space: nat, e: Event)
    ensures Receive(r, space, [e]).0 != None <==> (r.valid || Brings(r, e)) && (r.mode == Tx ==> Finishes(e))
  {
    PollKeepsPacket(r, e);
    PollTurnsReceiverOn(r, e);
  }

  /** recv() empties the buffer: until another packet comes there is nothing more. */
  lemma CollectedOnce(r: Radio, space: nat, e: Event, e': Event)
    requires Receive(r, space, [e]).0 != None
    ensures var s := Receive(r, space, [e]).1;
            s.packet == [] && (Receive(s, space, [e']).0 != None <==> Brings(s, e'))
  {
    var s := Receive(r, space, [e]).1;
    PollKeepsPacket(s, e');
    PollTurnsReceiverOn(s, e');
  }

  // ---------------------------------------------------------------- conservation of transmissions

  datatype Op = OpSend(data: seq<uint8>, events: seq<Event>) | OpReceive(space: nat, event: Event)
              | OpPoll(event: Event) | OpWait(events: seq<Event>)

  function Apply(r: Radio, op: Op): Radio {
    match op
    case OpSend(data, events) => Send(r, data, events).1
    case OpReceive(space, e) => Receive(r, space, [e]).1
    case OpPoll(e) => Poll(r, e)
    case OpWait(events) => Wait(r, events).0
  }

  function Queues(r: Radio, op: Op): nat {
    if op.OpSend? && Send(r, op.data, op.events).0 == Queued then 1 else 0
  }

  function Run(r: Radio, ops: seq<Op>): Radio
    decreases |ops|
  {
    if ops == [] then r else Run(Apply(r, ops[0]), ops[1..])
  }

  function Successes(r: Radio, ops: seq<Op>): nat
    decreases |ops|
  {
    if ops == [] then 0 else Queues(r, ops[0]) + Successes(Apply(r, ops[0]), ops[1..])
  }

  /** n successful sends are all either counted in txGood or still being transmitted. */
  predicate Balanced(r: Radio, n: nat) {
    r.txGood == Wrap16(n - (if r.mode == Tx then 1 else 0)) && (r.mode == Tx ==> n > 0)
  }

  lemma PollKeepsBalance(r: Radio, e: Event, n: nat)
    requires Balanced(r, n)
    ensures Balanced(Poll(r, e), n) && Poll(r, e).onAir == r.onAir && Poll(r, e).tx == r.tx
  {
  }

  lemma {:induction false} WaitKeepsBalance(r: Radio, events: seq<Event>, n: nat)
    requires Balanced(r, n)
    ensures Balanced(Wait(r, events).0, n) && Wait(r, events).0.onAir == r.onAir && Wait(r, events).0.tx == r.tx
    decreases |events|
  {
    if r.mode == Tx && events != [] {
      PollKeepsBalance(r, events[0], n);
      WaitKeepsBalance(Poll(r, events[0]), events[1..], n);
    }
  }

  lemma ApplyKeepsBalance(r: Radio, op: Op, n: nat)
    requires Balanced(r, n)
    ensures Balanced(Apply(r, op), n + Queues(r, op))
    ensures |Apply(r, op).onAir| == |r.onAir| + Queues(r, op)
  {
    match op
    case OpSend(data, events) => WaitKeepsBalance(r, events, n);
    case OpReceive(space, e) => PollKeepsBalance(r, e, n);
    case OpPoll(e) => PollKeepsBalance(r, e, n);
    case OpWait(events) => WaitKeepsBalance(r, events, n);
  }

  /** In every run after init, successful sends = txGood (mod 65536) + one exactly while transmitting. */
  lemma {:induction false} TransmissionsAreConserved(r: Radio, ops: seq<Op>, n: nat)
    requires Balanced(r, n)
    ensures Balanced(Run(r, ops), n + Successes(r, ops))
    ensures |Run(r, ops).onAir| == |r.onAir| + Successes(r, ops)
    decreases |ops|
  {
    if ops == [] {
    } else {
      ApplyKeepsBalance(r, ops[0], n);
      TransmissionsAreConserved(Apply(r, ops[0]), ops[1..], n + Queues(r, ops[0]));
    }
  }

  /** sleep() is outside that law: it drops the count exactly when it interrupts a transmission. */
  lemma SleepKeepsBalanceIff(r: Radio, n: nat)
    requires Balanced(r, n)
    ensures Balanced(Sleep(r), n) <==> r.mode != Tx
    ensures Sleep(r).(mode := r.mode) == r && Sleep(r).mode == Sleeping
  {
  }

  // ---------------------------------------------------------------- one packet there and back

  predicate Accepts(r: Radio, to: uint8) {
    r.promiscuous || to == r.addr || to == BROADCAST
  }

  /** What one driver queues, another that receives it hands on: the data's prefix and the headers. */
  lemma PacketRoundTrip(a: Radio, data: seq<uint8>, sending: seq<Event>, b: Radio, irq: bv8, space: nat)
    requires Send(a, data, sending).0 == Queued
    requires b.mode == Rx && !b.valid
    requires irq & RX_DONE != 0 && irq & (RX_TIMEOUT | PAYLOAD_CRC_ERROR) == 0
    ensures var air := Send(a, data, sending).1.onAir;
            && air != []
            && var (got, after) := Receive(b, space, [Interrupt(irq, air[|air| - 1])]);
               && (got != None <==> Accepts(b, a.tx.to))
               && after.rx == a.tx
               && (got != None ==> got.value == data[..Min(space, |data|)] && after.rxGood == Wrap16(b.rxGood + 1)
                                   && !after.valid)
  {
    assert Wait(a, sending).0.tx == a.tx by {
      WaitKeepsAir(a, sending);
    }
  }
}
