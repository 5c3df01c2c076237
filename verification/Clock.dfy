/**
 * The timed waits, over a millisecond counter of 32 bits that wraps around every 49.7 days. The real time
 * of each reading of millis() is kept beside it.
 */
module Clock {
  import opened Octets

  /** One call of millis(): the real time, and what available() and recvfromAck say if asked next. */
  datatype Reading = Reading(now: nat, ready: bool, taken: bool)

  function Millis(r: Reading): uint32 { Wrap32(r.now) }

  /** a - b in unsigned long */
  function Minus32(a: int, b: int): uint32 { Wrap32(a - b) }

  /** The same 32 bits as an int32_t. */
  function Signed32(x: uint32): int {
    if x < 0x8000_0000 then x else x - 0x1_0000_0000
  }

  /** timeLeft = timeout - (millis() - starttime) */
  function TimeLeft(timeout: uint16, start: Reading, r: Reading): int {
    Signed32(Minus32(timeout, Minus32(Millis(r), Millis(start))))
  }

  ghost predicate Forward(rs: seq<Reading>) {
    forall i, j :: 0 <= i < j < |rs| ==> rs[i].now <= rs[j].now
  }

  /** No more than gap milliseconds pass from one reading to the next. */
  ghost predicate Steady(rs: seq<Reading>, gap: nat) {
    forall i, j :: 0 <= i < j < |rs| && j == i + 1 ==> rs[j].now <= rs[i].now + gap
  }

  /** Waiting: the readings ran out first. */
  datatype Outcome = Done | TimedOut | Waiting

  lemma UnsignedElapsed(start: Reading, r: Reading)
    requires start.now <= r.now
    ensures Minus32(Millis(r), Millis(start)) == (r.now - start.now) % 0x1_0000_0000
  {
  }

  lemma SmallRemainder(e: nat)
    ensures e % 0x1_0000_0000 <= e
    ensures e < 0x1_0000_0000 ==> e % 0x1_0000_0000 == e
  {
  }

  /** timeout - e in 32 bits, read as a signed number. */
  lemma SignedDifference(timeout: uint16, e: uint32)
    ensures var left := Signed32(Minus32(timeout, e));
            left == if e <= timeout + 0x8000_0000 then timeout - e else timeout - e + 0x1_0000_0000
  {
  }

  /** The time left is right, as a signed number, until 2^31 milliseconds beyond the timeout. */
  lemma TimeLeftExactIff(timeout: uint16, start: Reading, r: Reading)
    requires start.now <= r.now < start.now + 0x1_0000_0000
    ensures TimeLeft(timeout, start, r) == timeout - (r.now - start.now)
       <==> r.now - start.now <= timeout + 0x8000_0000
  {
    UnsignedElapsed(start, r);
    SmallRemainder(r.now - start.now);
    SignedDifference(timeout, r.now - start.now);
  }

  /**
   * A wait goes on before its time, or, on any clock, if it was not looked at for 2^31 milliseconds and
   * more; only then is the time left too much for the octets it is passed in.
   */
  lemma WaitGoesOnIff(timeout: uint16, start: Reading, r: Reading)
    requires start.now <= r.now
    ensures var e := (r.now - start.now) % 0x1_0000_0000;
            && (TimeLeft(timeout, start, r) > 0 <==> e < timeout || e > timeout + 0x8000_0000)
            && (e < timeout ==> TimeLeft(timeout, start, r) == timeout - e)
            && (e > timeout + 0x8000_0000 ==> TimeLeft(timeout, start, r) > timeout)
  {
    UnsignedElapsed(start, r);
    SignedDifference(timeout, Minus32(Millis(r), Millis(start)));
  }

  /** Time is up only when it really is, whatever the clock did in between. */
  lemma TimeUpIsReal(timeout: uint16, start: Reading, r: Reading)
    requires start.now <= r.now
    ensures TimeLeft(timeout, start, r) <= 0 ==> r.now - start.now >= timeout
  {
    WaitGoesOnIff(timeout, start, r);
    SmallRemainder(r.now - start.now);
  }

  lemma Narrow(left: int, timeout: uint16)
    requires 0 <= left <= timeout
    ensures Wrap16(left) == left
  {
  }

  lemma TimeLeftWithin(timeout: uint16, start: Reading, r: Reading)
    requires start.now <= r.now < start.now + timeout + 0x8000_0000 && TimeLeft(timeout, start, r) > 0
    ensures r.now + Wrap16(TimeLeft(timeout, start, r)) == start.now + timeout
  {
    SmallRemainder(r.now - start.now);
    WaitGoesOnIff(timeout, start, r);
    Narrow(TimeLeft(timeout, start, r), timeout);
  }

  /** A loop last looked at before its time and less than 2^31 ago passes on the time really left. */
  lemma TimeLeftIsPassedExactly(timeout: uint16, start: Reading, last: Reading, r: Reading)
    requires start.now <= last.now <= r.now
    requires last.now == start.now || last.now < start.now + timeout
    requires r.now - last.now < 0x8000_0000 && TimeLeft(timeout, start, r) > 0
    ensures Wrap16(TimeLeft(timeout, start, r)) == timeout - (r.now - start.now)
  {
    TimeLeftWithin(timeout, start, r);
  }

  /** The unsigned wait ends only when the time has passed, and no reading later on a steady clock. */
  lemma UnsignedWait(timeout: uint16, start: Reading, last: Reading, r: Reading)
    requires start.now <= last.now <= r.now
    ensures Minus32(Millis(r), Millis(start)) >= timeout ==> r.now >= start.now + timeout
    ensures last.now == start.now || last.now < start.now + timeout ==>
              r.now - last.now < 0x8000_0000 && Minus32(Millis(r), Millis(start)) < timeout ==>
                r.now < start.now + timeout
  {
    UnsignedElapsed(start, r);
    SmallRemainder(r.now - start.now);
  }

  /** The checks of waitAvailableTimeout from reading k on, begun at reading i; next is the first not used. */
  function WaitFrom(timeout: uint16, rs: seq<Reading>, i: nat, k: nat): (Outcome, nat)
    requires i < |rs|
    decreases |rs| - k
  {
    if k >= |rs| then (Waiting, |rs|)
    else if Minus32(Millis(rs[k]), Millis(rs[i])) >= timeout then (TimedOut, k + 1)
    else if rs[k].ready then (Done, k + 1)
    else WaitFrom(timeout, rs, i, k + 1)
  }

  /** At the j-th reading, in a wait begun at the i-th, a message is there and time is not up yet. */
  predicate ReadyInTime(timeout: uint16, rs: seq<Reading>, i: nat, j: nat) {
    i < j < |rs| && rs[j].ready && rs[j].now < rs[i].now + timeout
  }

  /** A message that is there in time is reported, and at the first reading that finds it. */
  lemma {:induction false} ReadyIsReported(timeout: uint16, rs: seq<Reading>, i: nat, k: nat, j: nat)
    requires Forward(rs) && i < k <= j && ReadyInTime(timeout, rs, i, j)
    ensures WaitFrom(timeout, rs, i, k).0 == Done && WaitFrom(timeout, rs, i, k).1 <= j + 1
    decreases |rs| - k
  {
    UnsignedElapsed(rs[i], rs[k]);
    SmallRemainder(rs[k].now - rs[i].now);
    if k < j && !rs[k].ready {
      ReadyIsReported(timeout, rs, i, k + 1, j);
    }
  }

  /** No check before the last one found anything, and the wait gives up only when the time has passed. */
  lemma {:induction false} NothingMissed(timeout: uint16, rs: seq<Reading>, i: nat, k: nat)
    requires Forward(rs) && i < k <= |rs|
    ensures var (outcome, next) := WaitFrom(timeout, rs, i, k);
            && k <= next <= |rs|
            && (forall j: nat :: k <= j < next - 1 ==> !rs[j].ready)
            && (outcome == Done ==> k < next && rs[next - 1].ready)
            && (outcome == TimedOut ==> k < next && rs[next - 1].now >= rs[i].now + timeout)
            && (outcome == Waiting ==> next == |rs| && forall j: nat :: k <= j < |rs| ==> !rs[j].ready)
    decreases |rs| - k
  {
    if k < |rs| {
      UnsignedElapsed(rs[i], rs[k]);
      SmallRemainder(rs[k].now - rs[i].now);
      NothingMissed(timeout, rs, i, k + 1);
    }
  }

  /** On a clock that is read often enough the wait ends in time, too. */
  lemma {:induction false} ReportIsInTime(timeout: uint16, rs: seq<Reading>, i: nat, k: nat, gap: nat)
    requires Forward(rs) && Steady(rs, gap) && gap < 0x8000_0000 && i < k <= |rs|
    requires k == i + 1 || rs[k - 1].now < rs[i].now + timeout
    ensures var (outcome, next) := WaitFrom(timeout, rs, i, k);
            && k <= next <= |rs| && rs[next - 1].now <= rs[i].now + timeout + gap
            && (outcome == Done ==> ReadyInTime(timeout, rs, i, next - 1))
    decreases |rs| - k
  {
    if k < |rs| && Minus32(Millis(rs[k]), Millis(rs[i])) < timeout {
      UnsignedWait(timeout, rs[i], rs[k - 1], rs[k]);
      if !rs[k].ready {
        ReportIsInTime(timeout, rs, i, k + 1, gap);
      }
    }
  }

  /** A message that is there in time is reported; on a clock that is read often enough nothing else is. */
  lemma DoneIff(timeout: uint16, rs: seq<Reading>, i: nat, gap: nat)
    requires Forward(rs) && i < |rs|
    ensures (exists j: nat :: ReadyInTime(timeout, rs, i, j)) ==> WaitFrom(timeout, rs, i, i + 1).0 == Done
    ensures Steady(rs, gap) && gap < 0x8000_0000 ==>
              (WaitFrom(timeout, rs, i, i + 1).0 == Done <==> exists j: nat :: ReadyInTime(timeout, rs, i, j))
  {
    if exists j: nat :: ReadyInTime(timeout, rs, i, j) {
      var j: nat :| ReadyInTime(timeout, rs, i, j);
      ReadyIsReported(timeout, rs, i, i + 1, j);
    } else if Steady(rs, gap) && gap < 0x8000_0000 {
      ReportIsInTime(timeout, rs, i, i + 1, gap);
    }
  }

  /** What a caller of waitAvailableTimeout is promised. */
  ghost predicate WaitReports(timeout: uint16, rs: seq<Reading>, i: nat, gap: nat, outcome: Outcome, next: nat) {
    && i < next <= |rs|
    && (forall j: nat :: i < j < next - 1 ==> !rs[j].ready)
    && (outcome == Done ==> i + 1 < next && rs[next - 1].ready)
    && (outcome == TimedOut ==> rs[next - 1].now >= rs[i].now + timeout)
    && (outcome == Waiting ==> next == |rs| && forall j: nat :: i < j < |rs| ==> !rs[j].ready)
    && ((exists j: nat :: ReadyInTime(timeout, rs, i, j)) ==> outcome == Done)
    && (Steady(rs, gap) && gap < 0x8000_0000 ==>
          && rs[next - 1].now <= rs[i].now + timeout + gap
          && (outcome == Done <==> exists j: nat :: ReadyInTime(timeout, rs, i, j)))
  }

  /** Exactly the messages that are there in time are reported, each at the first reading that finds one. */
  lemma WaitIsRight(timeout: uint16, rs: seq<Reading>, i: nat, gap: nat)
    requires Forward(rs) && i < |rs|
    ensures var (outcome, next) := WaitFrom(timeout, rs, i, i + 1);
            WaitReports(timeout, rs, i, gap, outcome, next)
  {
    NothingMissed(timeout, rs, i, i + 1);
    DoneIff(timeout, rs, i, gap);
    if Steady(rs, gap) && gap < 0x8000_0000 {
      ReportIsInTime(timeout, rs, i, i + 1, gap);
    }
  }

  /** RHGenericDriver::waitAvailableTimeout from the i-th reading on, which gives its start time. */
  method WaitAvailableTimeout(timeout: uint16, rs: seq<Reading>, i: nat, ghost gap: nat)
    returns (outcome: Outcome, next: nat)
    requires Forward(rs) && i < |rs|
    ensures (outcome, next) == WaitFrom(timeout, rs, i, i + 1)
    ensures WaitReports(timeout, rs, i, gap, outcome, next)
  {
    WaitIsRight(timeout, rs, i, gap);
    var starttime := Millis(rs[i]);
    next := i + 1;
    while next < |rs| && Minus32(Millis(rs[next]), starttime) < timeout
      invariant i < next <= |rs|
      invariant WaitFrom(timeout, rs, i, next) == WaitFrom(timeout, rs, i, i + 1)
    {
      next := next + 1;
      if rs[next - 1].ready {
        return Done, next;
      }
    }
    if next == |rs| {
      return Waiting, next;
    }
    return TimedOut, next + 1;
  }

  lemma {:induction false} WaitFromAdvances(timeout: uint16, rs: seq<Reading>, i: nat, k: nat)
    requires i < k <= |rs|
    ensures k <= WaitFrom(timeout, rs, i, k).1 <= |rs|
    ensures WaitFrom(timeout, rs, i, k).0 != Waiting ==> k < WaitFrom(timeout, rs, i, k).1
    decreases |rs| - k
  {
    if k < |rs| {
      WaitFromAdvances(timeout, rs, i, k + 1);
    }
  }

  /**
   * One pass of recvfromAckTimeout, with its check at reading k: how it ends the call, or Waiting if it
   * does not; the first reading not used; and the first after those at which it looked for a message.
   */
  function Pass(timeout: uint16, rs: seq<Reading>, k: nat): (r: (Outcome, nat, nat))
    requires k < |rs|
    ensures k < r.2 <= r.1 <= |rs|
  {
    var timeLeft := TimeLeft(timeout, rs[0], rs[k]);
    if timeLeft <= 0 then (TimedOut, k + 1, k + 1)
    else if k + 1 == |rs| then (Waiting, |rs|, |rs|) else
    WaitFromAdvances(Wrap16(timeLeft), rs, k + 1, k + 2);
    var (waited, next) := WaitFrom(Wrap16(timeLeft), rs, k + 1, k + 2);
    if waited == Done && rs[next - 1].taken then (Done, next, next)
    else (Waiting, next, if waited == TimedOut then next - 1 else next)
  }

  /** The passes of recvfromAckTimeout from reading k on. */
  function ReceiveFrom(timeout: uint16, rs: seq<Reading>, k: nat): (Outcome, nat)
    decreases |rs| - k
  {
    if k >= |rs| then (Waiting, |rs|) else
    var (outcome, next, _) := Pass(timeout, rs, k);
    if outcome != Waiting then (outcome, next) else ReceiveFrom(timeout, rs, next)
  }

  /** The readings at which a run of recvfromAckTimeout, from its check at reading k on, looks for a message. */
  predicate LooksAt(timeout: uint16, rs: seq<Reading>, k: nat, j: nat)
    decreases |rs| - k
  {
    k < |rs| &&
    var (outcome, next, looked) := Pass(timeout, rs, k);
    k + 2 <= j < looked || (outcome == Waiting && LooksAt(timeout, rs, next, j))
  }

  /** At the j-th reading there is a message that recvfromAck takes. */
  predicate Receivable(rs: seq<Reading>, j: nat) {
    j < |rs| && rs[j].ready && rs[j].taken
  }

  /** A pass ends with a message exactly if its last look finds one, and none of its looks before did. */
  lemma PassFinds(timeout: uint16, rs: seq<Reading>, k: nat)
    requires Forward(rs) && k < |rs|
    ensures var (outcome, next, looked) := Pass(timeout, rs, k);
            && (outcome == Done ==> k + 2 < looked == next && Receivable(rs, next - 1))
            && (forall j: nat :: k + 2 <= j < looked && (outcome == Done ==> j < next - 1) ==> !Receivable(rs, j))
  {
    if k + 1 < |rs| && TimeLeft(timeout, rs[0], rs[k]) > 0 {
      NothingMissed(Wrap16(TimeLeft(timeout, rs[0], rs[k])), rs, k + 1, k + 2);
    }
  }

  /** It looks at every reading but its first two, and but one that comes when the time it had left is over. */
  lemma PassLooks(timeout: uint16, rs: seq<Reading>, k: nat)
    requires Forward(rs) && k + 1 < |rs| && TimeLeft(timeout, rs[0], rs[k]) > 0
    ensures var (_, next, looked) := Pass(timeout, rs, k);
            var left := Wrap16(TimeLeft(timeout, rs[0], rs[k]));
            looked == next || (looked == next - 1 && rs[looked].now >= rs[k + 1].now + left)
  {
    NothingMissed(Wrap16(TimeLeft(timeout, rs[0], rs[k])), rs, k + 1, k + 2);
  }

  /** recvfromAckTimeout returns true exactly if one look finds a message that recvfromAck takes, and at the first. */
  lemma {:induction false} ReceivesIff(timeout: uint16, rs: seq<Reading>, k: nat)
    requires Forward(rs) && 0 < k <= |rs|
    ensures var (outcome, next) := ReceiveFrom(timeout, rs, k);
            && k <= next <= |rs|
            && (outcome == Done ==> LooksAt(timeout, rs, k, next - 1) && Receivable(rs, next - 1))
            && (forall j: nat :: LooksAt(timeout, rs, k, j) && (outcome == Done ==> j < next - 1) ==>
                  !Receivable(rs, j))
            && (forall j: nat :: LooksAt(timeout, rs, k, j) ==> k < j < next)
    decreases |rs| - k
  {
    if k < |rs| {
      PassFinds(timeout, rs, k);
      if Pass(timeout, rs, k).0 == Waiting {
        ReceivesIff(timeout, rs, Pass(timeout, rs, k).1);
      }
    }
  }

  /** A check gives up exactly when the time has passed, unless it comes 2^31 milliseconds late. */
  lemma GivesUpIff(timeout: uint16, rs: seq<Reading>, k: nat)
    requires Forward(rs) && 0 < k < |rs| && rs[k].now < rs[0].now + timeout + 0x8000_0000
    ensures Pass(timeout, rs, k).0 == TimedOut <==> rs[k].now >= rs[0].now + timeout
  {
    SmallRemainder(rs[k].now - rs[0].now);
    WaitGoesOnIff(timeout, rs[0], rs[k]);
  }

  /** A message that recvfromAck takes is there at three readings in a row, all in time. */
  predicate Stays(timeout: uint16, rs: seq<Reading>, j: nat) {
    && 0 < j && j + 2 < |rs| && rs[j + 2].now < rs[0].now + timeout
    && Receivable(rs, j) && Receivable(rs, j + 1) && Receivable(rs, j + 2)
  }

  lemma StayingIsReadyInTime(timeout: uint16, rs: seq<Reading>, k: nat, j: nat)
    requires Forward(rs) && 0 < k <= j && Stays(timeout, rs, j)
    ensures TimeLeft(timeout, rs[0], rs[k]) > 0
    ensures ReadyInTime(Wrap16(TimeLeft(timeout, rs[0], rs[k])), rs, k + 1, if k + 2 <= j then j else k + 2)
  {
    TimeUpIsReal(timeout, rs[0], rs[k]);
    TimeLeftWithin(timeout, rs[0], rs[k]);
  }

  lemma WaitReachesStaying(left: uint16, rs: seq<Reading>, k: nat, j: nat)
    requires Forward(rs) && 0 < k <= j && j + 2 < |rs|
    requires Receivable(rs, j) && Receivable(rs, j + 1) && Receivable(rs, j + 2)
    requires ReadyInTime(left, rs, k + 1, if k + 2 <= j then j else k + 2)
    ensures var (waited, next) := WaitFrom(left, rs, k + 1, k + 2);
            waited == Done && k + 2 < next <= j + 3 && (j < next ==> rs[next - 1].taken)
  {
    ReadyIsReported(left, rs, k + 1, k + 2, if k + 2 <= j then j else k + 2);
    NothingMissed(left, rs, k + 1, k + 2);
    var next := WaitFrom(left, rs, k + 1, k + 2).1;
    assert j < next ==> next - 1 in {j, j + 1, j + 2};
  }

  /** A pass whose check comes before such a message ends with it, or with one before it. */
  lemma StayingEndsPass(timeout: uint16, rs: seq<Reading>, k: nat, j: nat)
    requires Forward(rs) && 0 < k <= j && Stays(timeout, rs, j)
    ensures Pass(timeout, rs, k).0 == Done || (Pass(timeout, rs, k).0 == Waiting && Pass(timeout, rs, k).1 <= j)
    ensures Pass(timeout, rs, k).1 <= j + 3
  {
    StayingIsReadyInTime(timeout, rs, k, j);
    WaitReachesStaying(Wrap16(TimeLeft(timeout, rs[0], rs[k])), rs, k, j);
  }

  /** Such a message is received, if none was before: at least one look falls on the three. */
  lemma {:induction false} StayingMessageIsReceived(timeout: uint16, rs: seq<Reading>, k: nat, j: nat)
    requires Forward(rs) && 0 < k <= j && Stays(timeout, rs, j)
    ensures ReceiveFrom(timeout, rs, k).0 == Done && ReceiveFrom(timeout, rs, k).1 <= j + 3
    decreases |rs| - k
  {
    StayingEndsPass(timeout, rs, k, j);
    if Pass(timeout, rs, k).0 == Waiting {
      StayingMessageIsReceived(timeout, rs, Pass(timeout, rs, k).1, j);
    }
  }

  /** The check of recvfromAckTimeout at reading k. */
  lemma CheckAt(timeout: uint16, rs: seq<Reading>, k: nat, gap: nat)
    requires Forward(rs) && 0 < k < |rs|
    ensures TimeLeft(timeout, rs[0], rs[k]) <= 0 ==> rs[k].now >= rs[0].now + timeout
    ensures Steady(rs, gap) && 3 * gap < 0x8000_0000 && rs[k - 1].now <= rs[0].now + timeout + 2 * gap ==>
              && rs[k].now <= rs[0].now + timeout + 3 * gap
              && (TimeLeft(timeout, rs[0], rs[k]) > 0 ==>
                    rs[k].now + Wrap16(TimeLeft(timeout, rs[0], rs[k])) == rs[0].now + timeout)
  {
    TimeUpIsReal(timeout, rs[0], rs[k]);
    if TimeLeft(timeout, rs[0], rs[k]) > 0 && rs[k].now < rs[0].now + timeout + 0x8000_0000 {
      TimeLeftWithin(timeout, rs[0], rs[k]);
    }
  }

  lemma PassEndsInTime(timeout: uint16, rs: seq<Reading>, k: nat, gap: nat)
    requires Forward(rs) && 0 < k < |rs|
    requires Steady(rs, gap) && 3 * gap < 0x8000_0000 && rs[k - 1].now <= rs[0].now + timeout + 2 * gap
    ensures var (outcome, next, _) := Pass(timeout, rs, k);
            && rs[next - 1].now <= rs[0].now + timeout + 3 * gap
            && (outcome == Waiting && next < |rs| ==> rs[next - 1].now <= rs[0].now + timeout + 2 * gap)
  {
    CheckAt(timeout, rs, k, gap);
    if k + 1 < |rs| && TimeLeft(timeout, rs[0], rs[k]) > 0 {
      ReportIsInTime(Wrap16(TimeLeft(timeout, rs[0], rs[k])), rs, k + 1, k + 2, gap);
    }
  }

  /** On a clock that is read often enough it is at most three readings late. */
  lemma {:induction false} ReceiveEndsInTime(timeout: uint16, rs: seq<Reading>, k: nat, gap: nat)
    requires Forward(rs) && 0 < k < |rs|
    requires Steady(rs, gap) && 3 * gap < 0x8000_0000 && rs[k - 1].now <= rs[0].now + timeout + 2 * gap
    ensures var (_, next) := ReceiveFrom(timeout, rs, k);
            k <= next <= |rs| && rs[next - 1].now <= rs[0].now + timeout + 3 * gap
    decreases |rs| - k
  {
    PassEndsInTime(timeout, rs, k, gap);
    var (outcome, next, _) := Pass(timeout, rs, k);
    if outcome == Waiting && next < |rs| {
      ReceiveEndsInTime(timeout, rs, next, gap);
    }
  }

  /** It gives up only when the time has really passed, on any clock. */
  lemma {:induction false} GivesUpInTime(timeout: uint16, rs: seq<Reading>, k: nat)
    requires Forward(rs) && 0 < k <= |rs|
    ensures var (outcome, next) := ReceiveFrom(timeout, rs, k);
            && k <= next <= |rs|
            && (outcome == TimedOut ==> rs[next - 1].now >= rs[0].now + timeout)
            && (outcome == Waiting ==> next == |rs|)
    decreases |rs| - k
  {
    if k < |rs| {
      TimeUpIsReal(timeout, rs[0], rs[k]);
      if Pass(timeout, rs, k).0 == Waiting {
        GivesUpInTime(timeout, rs, Pass(timeout, rs, k).1);
      }
    }
  }

  /** What a caller of recvfromAckTimeout is promised. */
  ghost predicate ReceiveReports(timeout: uint16, rs: seq<Reading>, gap: nat, outcome: Outcome, next: nat) {
    && 0 < next <= |rs|
    && (outcome == Done ==> Receivable(rs, next - 1))
    && (outcome == TimedOut ==> rs[next - 1].now >= rs[0].now + timeout)
    && (outcome == Waiting ==> next == |rs|)
    && (outcome == Done <==> exists j: nat :: LooksAt(timeout, rs, 1, j) && Receivable(rs, j))
    && (forall j: nat :: Stays(timeout, rs, j) ==> outcome == Done && next <= j + 3)
    && (Steady(rs, gap) && 3 * gap < 0x8000_0000 ==> rs[next - 1].now <= rs[0].now + timeout + 3 * gap)
  }

  lemma ReceiveIsRight(timeout: uint16, rs: seq<Reading>, gap: nat)
    requires Forward(rs) && rs != []
    ensures var (outcome, next) := ReceiveFrom(timeout, rs, 1);
            ReceiveReports(timeout, rs, gap, outcome, next)
  {
    ReceivesIff(timeout, rs, 1);
    GivesUpInTime(timeout, rs, 1);
    if |rs| > 1 && Steady(rs, gap) && 3 * gap < 0x8000_0000 {
      ReceiveEndsInTime(timeout, rs, 1, gap);
    }
    forall j: nat | Stays(timeout, rs, j)
      ensures ReceiveFrom(timeout, rs, 1).0 == Done && ReceiveFrom(timeout, rs, 1).1 <= j + 3
    {
      StayingMessageIsReceived(timeout, rs, 1, j);
    }
  }

  /** recvfromAckTimeout, from its first reading on. */
  method RecvfromAckTimeout(timeout: uint16, rs: seq<Reading>, ghost gap: nat) returns (outcome: Outcome, next: nat)
    requires Forward(rs) && rs != []
    ensures (outcome, next) == ReceiveFrom(timeout, rs, 1)
    ensures ReceiveReports(timeout, rs, gap, outcome, next)
  {
    next := 1;
    while next < |rs|
      invariant 0 < next <= |rs|
      invariant ReceiveFrom(timeout, rs, next) == ReceiveFrom(timeout, rs, 1)
    {
      ghost var pass := Pass(timeout, rs, next);
      var timeLeft := TimeLeft(timeout, rs[0], rs[next]);
      next := next + 1;
      if timeLeft <= 0 {
        ReceiveIsRight(timeout, rs, gap);
        return TimedOut, next;
      }
      if next == |rs| {
        break;
      }
      var waited;
      waited, next := WaitAvailableTimeout(Wrap16(timeLeft), rs, next, gap);
      assert next == pass.1;
      if waited == Done && rs[next - 1].taken {
        ReceiveIsRight(timeout, rs, gap);
        return Done, next;
      }
    }
    ReceiveIsRight(timeout, rs, gap);
    return Waiting, next;
  }

  /** uint16_t timeout = _timeout + (_timeout * random(0, 256) / 256) */
  function Backoff(timeout: uint16, random: uint8): uint16 {
    Wrap16(timeout + timeout * random / 0x100)
  }

  lemma ExtraIsLess(timeout: uint16, random: uint8)
    requires timeout > 0
    ensures 0 <= timeout * random / 0x100 < timeout
  {
  }

  /** The retransmission timeout is between one and two times the configured one exactly when it fits. */
  lemma BackoffIsLongEnoughIff(timeout: uint16, random: uint8)
    requires timeout > 0
    ensures timeout <= Backoff(timeout, random) < 2 * timeout <==> timeout + timeout * random / 0x100 < 0x1_0000
  {
    var extra := timeout * random / 0x100;
    ExtraIsLess(timeout, random);
    assert timeout + extra < 0x2_0000;
  }

  /** The longest setting that is never cut short, whatever the random draw. */
  const LONGEST_TIMEOUT: uint16 := 32832

  lemma BackoffAlwaysLongEnoughIff(timeout: uint16)
    requires timeout > 0
    ensures (forall r: uint8 :: timeout <= Backoff(timeout, r) < 2 * timeout) <==> timeout <= LONGEST_TIMEOUT
  {
    if timeout <= LONGEST_TIMEOUT {
      forall r: uint8
        ensures timeout <= Backoff(timeout, r) < 2 * timeout
      {
        assert timeout * r <= timeout * 0xff;
        BackoffIsLongEnoughIff(timeout, r);
      }
    } else {
      BackoffIsLongEnoughIff(timeout, 0xff);
    }
  }
}
