/**
 * Two stations over a medium that loses frames but keeps their order: A's messages reach B's application
 * at most once, in order, and exactly once when A's sendtoWait succeeds, behind eight-bit sequence numbers.
 */
module ExactlyOnce {
  import opened Octets
  import opened ReliableDatagram

  /** A frame, and which of A's sends it carries or acknowledges. The number is not on the air. */
  datatype Tagged = Tagged(n: nat, wire: Wire)

  /**
   * msgs[n - 1] is the data of A's n-th send, waiting the address its sendtoWait is waiting for, ab and ba
   * the frames under way, accepted what B's application got, confirmed A's sends to B that returned true.
   */
  datatype Link = Link(a: Station, b: Station, msgs: seq<seq<uint8>>, waiting: Option<uint8>,
                       ab: seq<Tagged>, ba: seq<Tagged>, accepted: seq<Tagged>, confirmed: seq<nat>)

  /** The send that B accepted last, or 0. */
  function LastAccepted(s: Link): nat {
    if s.accepted == [] then 0 else s.accepted[|s.accepted| - 1].n
  }

  datatype Event =
    | Start(address: uint8, data: seq<uint8>)   // A calls sendtoWait
    | Transmission                              // A transmits its message, for the first time or again
    | GiveUp                                    // A's sendtoWait ends without an acknowledgement from B
    | LoseAB(i: nat) | LoseBA(i: nat)
    | BTakes                                    // B's recvfromAck
    | BHearsWaiting(address: uint8, id: uint8)  // B is inside a sendtoWait of its own
    | AHearsWaiting
    | ATakes
    | ASendsAck(id: uint8)                      // traffic of the other direction
    | BSendsData(id: uint8, to: uint8, data: seq<uint8>)
    | ATakesOther(w: Wire) | BTakesOther(w: Wire)   // frames from third stations
    | AHearsOther(w: Wire) | BHearsOther(address: uint8, id: uint8, w: Wire)

  predicate Enabled(s: Link, e: Event) {
    match e
    case Start(_, _) => s.waiting == None
    case Transmission => s.waiting != None && s.msgs != []
    case GiveUp => s.waiting != None
    case LoseAB(i) => i < |s.ab|
    case LoseBA(i) => i < |s.ba|
    case BTakes => s.ab != []
    case BHearsWaiting(_, _) => s.ab != []
    case AHearsWaiting => s.waiting != None && s.ba != []
    case ATakes => s.waiting == None && s.ba != []
    case ASendsAck(_) => true
    case BSendsData(_, _, _) => true
    case ATakesOther(w) => s.waiting == None && w.from != s.b.addr
    case AHearsOther(w) => s.waiting != None && w.from != s.b.addr
    case BTakesOther(w) => w.from != s.a.addr
    case BHearsOther(_, _, w) => w.from != s.a.addr
  }

  /**
   * Frames are heard within fewer than 256 of A's sends: a data frame counted from the last message B
   * accepted, an acknowledgement counted up to the message A is waiting for.
   */
  predicate Timely(s: Link, e: Event)
    requires Enabled(s, e)
  {
    match e
    case BTakes => !IsAck(s.ab[0].wire) ==> s.ab[0].n < LastAccepted(s) + 0x100
    case BHearsWaiting(_, _) => !IsAck(s.ab[0].wire) ==> s.ab[0].n < LastAccepted(s) + 0x100
    case AHearsWaiting => IsAck(s.ba[0].wire) ==> |s.msgs| < s.ba[0].n + 0x100
    case _ => true
  }

  function Tag(n: nat, ws: seq<Wire>): seq<Tagged> {
    seq(|ws|, i requires 0 <= i < |ws| => Tagged(n, ws[i]))
  }

  function Drop(q: seq<Tagged>, i: nat): seq<Tagged>
    requires i < |q|
  {
    q[..i] + q[i + 1..]
  }

  function Next(s: Link, e: Event): Link
    requires Enabled(s, e)
  {
    match e
    case Start(address, data) =>
      s.(a := s.a.(lastSeq := Wrap8(s.a.lastSeq + 1)), msgs := s.msgs + [data], waiting := Some(address))
    case Transmission =>
      var to := s.waiting.value;
      var (a, w) := Transmit(s.a, s.a.lastSeq, to, s.msgs[|s.msgs| - 1]);
      s.(a := a, ab := if to == s.b.addr || to == BROADCAST then s.ab + [Tagged(|s.msgs|, w)] else s.ab,
         waiting := if to == BROADCAST then None else s.waiting)
    case GiveUp => s.(waiting := None)
    case LoseAB(i) => s.(ab := Drop(s.ab, i))
    case LoseBA(i) => s.(ba := Drop(s.ba, i))
    case BTakes =>
      var f := s.ab[0];
      var r := RecvfromAck(s.b, f.wire);
      s.(b := r.station, ab := s.ab[1..], ba := s.ba + Tag(f.n, r.acks),
         accepted := if r.accepted then s.accepted + [f] else s.accepted)
    case BHearsWaiting(address, id) =>
      var f := s.ab[0];
      var x := HearWaiting(Sending(s.b, [], false), address, id, f.wire);
      s.(b := x.station, ab := s.ab[1..], ba := s.ba + Tag(f.n, x.sent))
    case AHearsWaiting =>
      var x := HearWaiting(Sending(s.a, [], false), s.waiting.value, s.a.lastSeq, s.ba[0].wire);
      var t := s.(a := x.station, ba := s.ba[1..], ab := s.ab + Tag(0, x.sent));
      if x.done then t.(waiting := None, confirmed := s.confirmed + [|s.msgs|]) else t
    case ATakes =>
      var r := RecvfromAck(s.a, s.ba[0].wire);
      s.(a := r.station, ba := s.ba[1..], ab := s.ab + Tag(0, r.acks))
    case ASendsAck(id) =>
      var (a, w) := Acknowledge(s.a, id, s.b.addr);
      s.(a := a, ab := s.ab + [Tagged(0, w)])
    case BSendsData(id, to, data) =>
      var (b, w) := Transmit(s.b, id, to, data);
      s.(b := b, ba := if to == s.a.addr || to == BROADCAST then s.ba + [Tagged(0, w)] else s.ba)
    case ATakesOther(w) => s.(a := RecvfromAck(s.a, w).station)
    case BTakesOther(w) => s.(b := RecvfromAck(s.b, w).station)
    case AHearsOther(w) =>
      var x := HearWaiting(Sending(s.a, [], false), s.waiting.value, s.a.lastSeq, w);
      s.(a := x.station, waiting := if x.done then None else s.waiting)
    case BHearsOther(address, id, w) => s.(b := HearWaiting(Sending(s.b, [], false), address, id, w).station)
  }

  // ---------------------------------------------------------------- the invariant

  ghost predicate Got(accepted: seq<Tagged>, n: nat) {
    exists i :: 0 <= i < |accepted| && accepted[i].n == n
  }

  /** A data frame of A's n-th send carries the data and the low eight bits of n. */
  predicate Carries(addr: uint8, msgs: seq<seq<uint8>>, f: Tagged) {
    1 <= f.n <= |msgs| && f.wire.from == addr && f.wire.id == Wrap8(f.n) && f.wire.data == msgs[f.n - 1]
  }

  /** The data frames under way from A: none older than the last accepted, and in the order of sending. */
  ghost predicate Forth(addr: uint8, msgs: seq<seq<uint8>>, last: nat, q: seq<Tagged>) {
    && (forall i :: 0 <= i < |q| ==> IsAck(q[i].wire) || (Carries(addr, msgs, q[i]) && last <= q[i].n))
    && (forall i, j :: 0 <= i < j < |q| && !IsAck(q[i].wire) && !IsAck(q[j].wire) ==> q[i].n <= q[j].n)
  }

  /** An acknowledgement is for a send that B accepted. */
  ghost predicate Confirms(sends: nat, accepted: seq<Tagged>, f: Tagged) {
    IsAck(f.wire) ==> 1 <= f.n <= sends && f.wire.id == Wrap8(f.n) && Got(accepted, f.n)
  }

  ghost predicate Back(sends: nat, accepted: seq<Tagged>, q: seq<Tagged>) {
    forall i :: 0 <= i < |q| ==> Confirms(sends, accepted, q[i])
  }

  /** B's application got each message at most once, in the order of sending, with its own data. */
  ghost predicate InOrder(msgs: seq<seq<uint8>>, accepted: seq<Tagged>) {
    && (forall i, j :: 0 <= i < j < |accepted| ==> accepted[i].n < accepted[j].n)
    && (forall i :: 0 <= i < |accepted| ==> 1 <= accepted[i].n <= |msgs|
                                            && accepted[i].wire.data == msgs[accepted[i].n - 1])
  }

  ghost predicate Settled(accepted: seq<Tagged>, confirmed: seq<nat>) {
    forall i :: 0 <= i < |confirmed| ==> Got(accepted, confirmed[i])
  }

  ghost predicate Inv(s: Link) {
    && s.a.addr != s.b.addr && s.a.addr != BROADCAST && s.b.addr != BROADCAST
    && s.a.lastSeq == Wrap8(|s.msgs|) && (s.waiting != None ==> s.msgs != [])
    && s.b.seen[s.a.addr] == Wrap8(LastAccepted(s))
    && Forth(s.a.addr, s.msgs, LastAccepted(s), s.ab)
    && Back(|s.msgs|, s.accepted, s.ba)
    && InOrder(s.msgs, s.accepted)
    && Settled(s.accepted, s.confirmed)
  }

  // ---------------------------------------------------------------- eight bits against the real numbers

  /** B's test on the octets is right about the real numbers unless a positive multiple of 256 went by. */
  lemma SuppressionRightIff(last: nat, n: nat)
    requires last <= n
    ensures (Wrap8(n) != Wrap8(last) <==> n > last) <==> !(n > last && (n - last) % 0x100 == 0)
  {
  }

  /** So 256 sends after the last one heard, a message is acknowledged and thrown away. */
  lemma WrappedMessageIsLost(b: Station, w: Wire, last: nat, n: nat)
    requires !IsAck(w) && w.to != BROADCAST && w.id == Wrap8(n) && b.seen[w.from] == Wrap8(last) && last < n
    ensures (n - last) % 0x100 == 0 <==> !RecvfromAck(b, w).accepted
    ensures |RecvfromAck(b, w).acks| == 1 && IsAck(RecvfromAck(b, w).acks[0])
  {
  }

  lemma SameOctetSameSend(last: nat, n: nat)
    requires last <= n < last + 0x100
    ensures Wrap8(n) == Wrap8(last) <==> n == last
  {
  }

  // ---------------------------------------------------------------- the parts of the invariant

  lemma ForthDrop(addr: uint8, msgs: seq<seq<uint8>>, last: nat, q: seq<Tagged>, k: nat)
    requires Forth(addr, msgs, last, q) && k < |q|
    ensures Forth(addr, msgs, last, Drop(q, k))
  {
  }

  /** Once B has accepted the data frame in front, nothing older than it is under way. */
  lemma ForthAdvance(addr: uint8, msgs: seq<seq<uint8>>, last: nat, q: seq<Tagged>)
    requires Forth(addr, msgs, last, q) && q != [] && !IsAck(q[0].wire)
    ensures Forth(addr, msgs, q[0].n, q[1..])
  {
  }

  lemma ForthAppend(addr: uint8, msgs: seq<seq<uint8>>, last: nat, q: seq<Tagged>, f: Tagged)
    requires Forth(addr, msgs, last, q) && last <= |msgs|
    requires IsAck(f.wire) || (Carries(addr, msgs, f) && f.n == |msgs|)
    ensures Forth(addr, msgs, last, q + [f])
  {
  }

  lemma ForthMoreSent(addr: uint8, msgs: seq<seq<uint8>>, last: nat, q: seq<Tagged>, data: seq<uint8>)
    requires Forth(addr, msgs, last, q)
    ensures Forth(addr, msgs + [data], last, q)
  {
  }

  lemma BackAppend(sends: nat, accepted: seq<Tagged>, q: seq<Tagged>, f: Tagged)
    requires Back(sends, accepted, q) && Confirms(sends, accepted, f)
    ensures Back(sends, accepted, q + [f])
  {
  }

  lemma BackMoreSent(sends: nat, accepted: seq<Tagged>, q: seq<Tagged>)
    requires Back(sends, accepted, q)
    ensures Back(sends + 1, accepted, q)
  {
  }

  lemma GotMore(accepted: seq<Tagged>, f: Tagged, n: nat)
    requires Got(accepted, n)
    ensures Got(accepted + [f], n)
  {
    var i :| 0 <= i < |accepted| && accepted[i].n == n;
    assert (accepted + [f])[i].n == n;
  }

  lemma GotNewest(accepted: seq<Tagged>, f: Tagged)
    ensures Got(accepted + [f], f.n)
  {
    assert (accepted + [f])[|accepted|] == f;
  }

  lemma BackMoreAccepted(sends: nat, accepted: seq<Tagged>, f: Tagged, q: seq<Tagged>)
    requires Back(sends, accepted, q)
    ensures Back(sends, accepted + [f], q)
  {
    forall i | 0 <= i < |q|
      ensures Confirms(sends, accepted + [f], q[i])
    {
      assert Confirms(sends, accepted, q[i]);
      if IsAck(q[i].wire) {
        GotMore(accepted, f, q[i].n);
      }
    }
  }

  lemma SettledMoreAccepted(accepted: seq<Tagged>, f: Tagged, confirmed: seq<nat>)
    requires Settled(accepted, confirmed)
    ensures Settled(accepted + [f], confirmed)
  {
    forall i | 0 <= i < |confirmed|
      ensures Got(accepted + [f], confirmed[i])
    {
      GotMore(accepted, f, confirmed[i]);
    }
  }

  /** What B accepts is the next message for its application. */
  lemma AcceptInOrder(s: Link, f: Tagged)
    requires InOrder(s.msgs, s.accepted) && f.n > LastAccepted(s) && Carries(s.a.addr, s.msgs, f)
    ensures InOrder(s.msgs, s.accepted + [f])
  {
    forall i | 0 <= i < |s.accepted|
      ensures s.accepted[i].n < f.n
    {
      assert s.accepted[i].n <= LastAccepted(s);
    }
  }

  lemma LastWasSent(s: Link)
    requires Inv(s)
    ensures LastAccepted(s) <= |s.msgs|
    ensures LastAccepted(s) > 0 ==> Got(s.accepted, LastAccepted(s))
  {
  }

  // ---------------------------------------------------------------- every event keeps the invariant

  lemma BTakesAckKeeps(s: Link)
    requires Inv(s) && Enabled(s, BTakes) && IsAck(s.ab[0].wire)
    ensures Inv(Next(s, BTakes))
  {
    assert Drop(s.ab, 0) == s.ab[1..] && s.ba + Tag(s.ab[0].n, []) == s.ba;
    ForthDrop(s.a.addr, s.msgs, LastAccepted(s), s.ab, 0);
    assert Next(s, BTakes) == s.(ab := s.ab[1..]);
  }

  /** B's reply to a data frame of A that it does not refuse. */
  function Reply(s: Link): seq<Tagged>
    requires s.ab != []
  {
    Tag(s.ab[0].n, RecvfromAck(s.b, s.ab[0].wire).acks)
  }

  lemma ReplyConfirms(s: Link, accepted: seq<Tagged>)
    requires s.ab != [] && Carries(s.a.addr, s.msgs, s.ab[0]) && !IsAck(s.ab[0].wire)
    requires Back(|s.msgs|, accepted, s.ba) && Got(accepted, s.ab[0].n)
    ensures Back(|s.msgs|, accepted, s.ba + Reply(s))
  {
  }

  lemma BTakesAgainKeeps(s: Link)
    requires Inv(s) && Enabled(s, BTakes) && !IsAck(s.ab[0].wire) && s.ab[0].n == LastAccepted(s)
    ensures Inv(Next(s, BTakes))
  {
    var f := s.ab[0];
    var r := RecvfromAck(s.b, f.wire);
    assert Drop(s.ab, 0) == s.ab[1..] && Carries(s.a.addr, s.msgs, f);
    ForthDrop(s.a.addr, s.msgs, LastAccepted(s), s.ab, 0);
    LastWasSent(s);
    ReplyConfirms(s, s.accepted);
    assert Next(s, BTakes) == s.(b := r.station, ab := s.ab[1..], ba := s.ba + Reply(s));
  }

  lemma BTakesNewKeeps(s: Link)
    requires Inv(s) && Enabled(s, BTakes) && !IsAck(s.ab[0].wire)
    requires s.ab[0].n > LastAccepted(s) && Wrap8(s.ab[0].n) != Wrap8(LastAccepted(s))
    ensures Inv(Next(s, BTakes))
  {
    var f := s.ab[0];
    var r := RecvfromAck(s.b, f.wire);
    var t := s.(b := r.station, ab := s.ab[1..], ba := s.ba + Reply(s), accepted := s.accepted + [f]);
    assert Carries(s.a.addr, s.msgs, f);
    assert Next(s, BTakes) == t && LastAccepted(t) == f.n;
    ForthAdvance(s.a.addr, s.msgs, LastAccepted(s), s.ab);
    BackMoreAccepted(|s.msgs|, s.accepted, f, s.ba);
    GotNewest(s.accepted, f);
    ReplyConfirms(s, s.accepted + [f]);
    AcceptInOrder(s, f);
    SettledMoreAccepted(s.accepted, f, s.confirmed);
  }

  lemma BTakesKeeps(s: Link)
    requires Inv(s) && Enabled(s, BTakes) && Timely(s, BTakes)
    ensures Inv(Next(s, BTakes))
  {
    var f := s.ab[0];
    if IsAck(f.wire) {
      BTakesAckKeeps(s);
    } else {
      assert Carries(s.a.addr, s.msgs, f);
      SameOctetSameSend(LastAccepted(s), f.n);
      if f.n == LastAccepted(s) {
        BTakesAgainKeeps(s);
      } else {
        BTakesNewKeeps(s);
      }
    }
  }

  /** What B has seen already is its last accepted message, and acknowledging it again is right. */
  lemma SeenWasAccepted(s: Link, f: Tagged)
    requires Inv(s) && s.ab != [] && f == s.ab[0] && !IsAck(f.wire)
    requires f.n < LastAccepted(s) + 0x100 && f.wire.id == s.b.seen[f.wire.from]
    ensures Confirms(|s.msgs|, s.accepted, Tagged(f.n, Acknowledge(s.b, f.wire.id, f.wire.from).1))
  {
    assert Carries(s.a.addr, s.msgs, f) && LastAccepted(s) <= f.n;
    SameOctetSameSend(LastAccepted(s), f.n);
    LastWasSent(s);
  }

  lemma BHearsWaitingKeeps(s: Link, address: uint8, id: uint8)
    requires Inv(s) && Enabled(s, BHearsWaiting(address, id)) && Timely(s, BHearsWaiting(address, id))
    ensures Inv(Next(s, BHearsWaiting(address, id)))
  {
    var f := s.ab[0];
    var z := s.(ab := s.ab[1..]);
    var t := Next(s, BHearsWaiting(address, id));
    assert Drop(s.ab, 0) == s.ab[1..];
    ForthDrop(s.a.addr, s.msgs, LastAccepted(s), s.ab, 0);
    if !IsAck(f.wire) && f.wire.id == s.b.seen[f.wire.from] {
      var (b, w) := Acknowledge(s.b, f.wire.id, f.wire.from);
      SeenWasAccepted(s, f);
      BackAppend(|s.msgs|, s.accepted, s.ba, Tagged(f.n, w));
      assert Tag(f.n, [w]) == [Tagged(f.n, w)];
      assert t == z.(b := b, ba := s.ba + [Tagged(f.n, w)]);
    } else {
      assert s.ba + Tag(f.n, []) == s.ba;
      assert t == z;
    }
  }

  lemma ASendsAckKeeps(s: Link, id: uint8, to: uint8)
    requires Inv(s)
    ensures var (a, w) := Acknowledge(s.a, id, to);
            Inv(s.(a := a, ab := s.ab + [Tagged(0, w)]))
  {
  }

  lemma LoseBAKeeps(s: Link, i: nat)
    requires Inv(s) && i < |s.ba|
    ensures Inv(s.(ba := Drop(s.ba, i)))
  {
  }

  /** An acknowledgement with the awaited octet is for the awaited message, which B has accepted. */
  lemma AHearsWaitingKeeps(s: Link)
    requires Inv(s) && Enabled(s, AHearsWaiting) && Timely(s, AHearsWaiting)
    ensures Inv(Next(s, AHearsWaiting))
  {
    var t := Next(s, AHearsWaiting);
    var f := s.ba[0];
    var z := s.(ba := s.ba[1..]);
    assert Drop(s.ba, 0) == s.ba[1..];
    LoseBAKeeps(s, 0);
    if Matches(s.a, s.waiting.value, s.a.lastSeq, f.wire) {
      assert Confirms(|s.msgs|, s.accepted, f);
      SameOctetSameSend(f.n, |s.msgs|);
      assert s.ab + Tag(0, []) == s.ab;
      assert t == z.(waiting := None, confirmed := s.confirmed + [|s.msgs|]);
    } else if !IsAck(f.wire) && f.wire.id == s.a.seen[f.wire.from] {
      var (a, w) := Acknowledge(s.a, f.wire.id, f.wire.from);
      ASendsAckKeeps(z, f.wire.id, f.wire.from);
      assert Tag(0, [w]) == [Tagged(0, w)];
      assert t == z.(a := a, ab := s.ab + [Tagged(0, w)]);
    } else {
      assert s.ab + Tag(0, []) == s.ab;
      assert t == z;
    }
  }

  lemma SameOctetIff(m: nat, n: nat)
    ensures Wrap8(n) == Wrap8(m) <==> (n - m) % 0x100 == 0
  {
  }

  /** Without that bound it is for the awaited message exactly if a multiple of 256 sends went by since. */
  lemma StaleAckConfirmsIff(s: Link)
    requires Inv(s) && Enabled(s, AHearsWaiting) && s.waiting == Some(s.b.addr)
    requires IsAck(s.ba[0].wire) && s.ba[0].wire.from == s.b.addr && s.ba[0].wire.to == s.a.addr
    ensures var n := s.ba[0].n;
            && n <= |s.msgs| && Got(s.accepted, n)
            && ((|s.msgs| - n) % 0x100 == 0 ==> Next(s, AHearsWaiting).confirmed == s.confirmed + [|s.msgs|])
            && ((|s.msgs| - n) % 0x100 != 0 ==> Next(s, AHearsWaiting).confirmed == s.confirmed)
  {
    var f := s.ba[0];
    assert Confirms(|s.msgs|, s.accepted, f);
    SameOctetIff(f.n, |s.msgs|);
  }

  lemma ATakesKeeps(s: Link)
    requires Inv(s) && Enabled(s, ATakes)
    ensures Inv(Next(s, ATakes))
  {
    var t := Next(s, ATakes);
    var f := s.ba[0];
    var z := s.(ba := s.ba[1..]);
    assert Drop(s.ba, 0) == s.ba[1..];
    LoseBAKeeps(s, 0);
    if IsAck(f.wire) || f.wire.to == BROADCAST {
      assert s.ab + Tag(0, []) == s.ab;
      assert t == z.(a := t.a);
    } else {
      var (a, w) := Acknowledge(s.a, f.wire.id, f.wire.from);
      ASendsAckKeeps(z, f.wire.id, f.wire.from);
      assert Tag(0, [w]) == [Tagged(0, w)];
      assert t == z.(a := t.a, ab := s.ab + [Tagged(0, w)]);
    }
  }

  lemma StartKeeps(s: Link, address: uint8, data: seq<uint8>)
    requires Inv(s) && Enabled(s, Start(address, data))
    ensures Inv(Next(s, Start(address, data)))
  {
    ForthMoreSent(s.a.addr, s.msgs, LastAccepted(s), s.ab, data);
    BackMoreSent(|s.msgs|, s.accepted, s.ba);
  }

  lemma TransmissionKeeps(s: Link)
    requires Inv(s) && Enabled(s, Transmission)
    ensures Inv(Next(s, Transmission))
  {
    var (a, w) := Transmit(s.a, s.a.lastSeq, s.waiting.value, s.msgs[|s.msgs| - 1]);
    LastWasSent(s);
    FlagsKept(s.a.txFlags);
    ForthAppend(s.a.addr, s.msgs, LastAccepted(s), s.ab, Tagged(|s.msgs|, w));
  }

  lemma BSendsDataKeeps(s: Link, id: uint8, to: uint8, data: seq<uint8>)
    requires Inv(s)
    ensures Inv(Next(s, BSendsData(id, to, data)))
  {
    var (b, w) := Transmit(s.b, id, to, data);
    FlagsKept(s.b.txFlags);
    BackAppend(|s.msgs|, s.accepted, s.ba, Tagged(0, w));
  }

  lemma EventKeeps(s: Link, e: Event)
    requires Inv(s) && Enabled(s, e) && Timely(s, e)
    ensures Inv(Next(s, e))
  {
    match e
    case BTakes => BTakesKeeps(s);
    case BHearsWaiting(address, id) => BHearsWaitingKeeps(s, address, id);
    case AHearsWaiting => AHearsWaitingKeeps(s);
    case ATakes => ATakesKeeps(s);
    case LoseAB(i) => ForthDrop(s.a.addr, s.msgs, LastAccepted(s), s.ab, i);
    case LoseBA(i) => LoseBAKeeps(s, i);
    case Start(address, data) => StartKeeps(s, address, data);
    case Transmission => TransmissionKeeps(s);
    case GiveUp =>
    case ASendsAck(id) => ASendsAckKeeps(s, id, s.b.addr);
    case BSendsData(id, to, data) => BSendsDataKeeps(s, id, to, data);
    case ATakesOther(_) =>
    case AHearsOther(_) =>
    case BTakesOther(_) =>
    case BHearsOther(_, _, _) =>
  }

  // ---------------------------------------------------------------- what is heard is confirmed

  /** One transmission, heard by B, and its acknowledgement, heard by A, and A's sendtoWait returns true. */
  lemma HeardIsConfirmed(s: Link)
    requires Inv(s) && s.waiting == Some(s.b.addr) && s.ab == [] && s.ba == []
    ensures var sent := Next(s, Transmission);
            && Enabled(s, Transmission) && Enabled(sent, BTakes)
            && var heard := Next(sent, BTakes);
               && Enabled(heard, AHearsWaiting)
               && var t := Next(heard, AHearsWaiting);
                  t.confirmed == s.confirmed + [|s.msgs|] && t.waiting == None && t.ab == [] && t.ba == []
  {
    var data := s.msgs[|s.msgs| - 1];
    var w := Transmit(s.a, s.a.lastSeq, s.b.addr, data).1;
    AckIsAwaited(s.a, s.b, s.a.lastSeq, data);
    var ack := RecvfromAck(s.b, w).acks[0];
    var sent := Next(s, Transmission);
    assert sent.ab == [Tagged(|s.msgs|, w)];
    var heard := Next(sent, BTakes);
    assert heard.ba == [Tagged(|s.msgs|, ack)] && heard.ab == [];
    assert heard.ab + Tag(0, []) == heard.ab;
  }

  /** The same if B has had the message before and is waiting for an acknowledgement of its own. */
  lemma HeardAgainIsConfirmed(s: Link, address: uint8, id: uint8)
    requires Inv(s) && s.waiting == Some(s.b.addr) && s.ab == [] && s.ba == []
    requires s.b.seen[s.a.addr] == s.a.lastSeq
    ensures var sent := Next(s, Transmission);
            && Enabled(s, Transmission) && Enabled(sent, BHearsWaiting(address, id))
            && var heard := Next(sent, BHearsWaiting(address, id));
               && Enabled(heard, AHearsWaiting)
               && var t := Next(heard, AHearsWaiting);
                  t.confirmed == s.confirmed + [|s.msgs|] && t.waiting == None && t.ab == [] && t.ba == []
  {
    var data := s.msgs[|s.msgs| - 1];
    var w := Transmit(s.a, s.a.lastSeq, s.b.addr, data).1;
    AckInsideWaitIsAwaited(s.a, s.b, s.a.lastSeq, data, address, id);
    var ack := HearWaiting(Sending(s.b, [], false), address, id, w).sent[0];
    var sent := Next(s, Transmission);
    assert sent.ab == [Tagged(|s.msgs|, w)];
    var heard := Next(sent, BHearsWaiting(address, id));
    assert heard.ba == [Tagged(|s.msgs|, ack)] && heard.ab == [];
    assert heard.ab + Tag(0, []) == heard.ab;
  }

  // ---------------------------------------------------------------- whole runs

  ghost predicate TimelyRun(s: Link, es: seq<Event>)
    decreases |es|
  {
    es == [] || (Enabled(s, es[0]) && Timely(s, es[0]) && TimelyRun(Next(s, es[0]), es[1..]))
  }

  ghost function End(s: Link, es: seq<Event>): Link
    requires TimelyRun(s, es)
    decreases |es|
  {
    if es == [] then s else End(Next(s, es[0]), es[1..])
  }

  lemma {:induction false} RunKeeps(s: Link, es: seq<Event>)
    requires Inv(s) && TimelyRun(s, es)
    ensures Inv(End(s, es))
    decreases |es|
  {
    if es == [] {
    } else {
      EventKeeps(s, es[0]);
      RunKeeps(Next(s, es[0]), es[1..]);
    }
  }

  /** Two managers as they come up, nothing sent yet. */
  ghost predicate Fresh(s: Link) {
    && s.a.addr != s.b.addr && s.a.addr != BROADCAST && s.b.addr != BROADCAST
    && s.a.lastSeq == 0 && s.b.seen[s.a.addr] == 0
    && s.msgs == [] && s.waiting == None && s.ab == [] && s.ba == [] && s.accepted == [] && s.confirmed == []
  }

  /** How often B's application got A's n-th message. */
  function TimesAccepted(accepted: seq<Tagged>, n: nat): nat {
    if accepted == [] then 0 else (if accepted[0].n == n then 1 else 0) + TimesAccepted(accepted[1..], n)
  }

  lemma {:induction false} AtMostOnce(accepted: seq<Tagged>, n: nat)
    requires forall i, j :: 0 <= i < j < |accepted| ==> accepted[i].n < accepted[j].n
    ensures TimesAccepted(accepted, n) == if Got(accepted, n) then 1 else 0
  {
    if accepted == [] {
    } else {
      var rest := accepted[1..];
      assert forall i :: 0 <= i < |rest| ==> rest[i] == accepted[i + 1];
      AtMostOnce(rest, n);
      if Got(accepted, n) {
        var i :| 0 <= i < |accepted| && accepted[i].n == n;
        assert i > 0 ==> rest[i - 1].n == n;
      }
    }
  }

  /**
   * In every run in which frames are heard within 256 sends, each of A's messages reaches B's application
   * at most once, all in the order of sending and unchanged, and exactly once if sendtoWait returned true.
   */
  lemma ExactlyOnceDelivery(s: Link, es: seq<Event>)
    requires Fresh(s) && TimelyRun(s, es)
    ensures InOrder(End(s, es).msgs, End(s, es).accepted)
    ensures forall n :: TimesAccepted(End(s, es).accepted, n) <= 1
    ensures forall i :: 0 <= i < |End(s, es).confirmed| ==>
              TimesAccepted(End(s, es).accepted, End(s, es).confirmed[i]) == 1
  {
    RunKeeps(s, es);
    var t := End(s, es);
    forall n
      ensures TimesAccepted(t.accepted, n) == if Got(t.accepted, n) then 1 else 0
    {
      AtMostOnce(t.accepted, n);
    }
  }
}
