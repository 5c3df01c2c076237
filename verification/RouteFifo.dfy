/** The table as a bounded first-in first-out list of routes, and exactly when clearing ends that. */
module RouteFifo {
  import opened Octets
  import opened RouteTable
  import opened RouteTableTheory

  /** Oldest first; updating keeps a route's place, a new one evicts the oldest when ten are there. */
  type Queue = seq<Entry>

  function FindKey(q: Queue, d: uint8): (i: nat)
    ensures i <= |q|
    ensures i < |q| ==> q[i].dest == d
    ensures forall j :: 0 <= j < i ==> q[j].dest != d
  {
    if q == [] || q[0].dest == d then 0 else 1 + FindKey(q[1..], d)
  }

  function QueueApply(q: Queue, op: Op): Queue
    requires !op.OpClear?
  {
    match op
    case OpAdd(d, h, s) =>
      var i := FindKey(q, d);
      if i < |q| then q[i := Entry(d, h, s)]
      else (if |q| < SIZE then q else q[1..]) + [Entry(d, h, s)]
    case OpDelete(d) =>
      var i := FindKey(q, d);
      if i < |q| then q[..i] + q[i + 1..] else q
    case OpRetire => if q == [] then [] else q[1..]
  }

  /** Histories of the protocol itself: it never clears, and never adds an Invalid route. */
  predicate Orderly(ops: seq<Op>) {
    forall op :: op in ops ==> !op.OpClear? && (op.OpAdd? ==> op.state != Invalid)
  }

  function QueueRun(ops: seq<Op>): Queue
    requires Orderly(ops)
  {
    if ops == [] then [] else
    assert ops[|ops| - 1] in ops;
    QueueApply(QueueRun(ops[..|ops| - 1]), ops[|ops| - 1])
  }

  /** A valid prefix followed by Invalid slots that all share one stale destination. */
  ghost predicate Represents(t: Slots, q: Queue) {
    && |q| <= SIZE
    && (forall i :: 0 <= i < |q| ==> t[i] == q[i] && q[i].state != Invalid)
    && (forall i, j :: 0 <= i < j < |q| ==> q[i].dest != q[j].dest)
    && (forall i :: |q| <= i < SIZE ==> t[i].state == Invalid)
    && (forall i, j :: |q| <= i < SIZE && |q| <= j < SIZE ==> t[i].dest == t[j].dest)
  }

  lemma UpdateRefines(t: Slots, q: Queue, i: nat, e: Entry)
    requires Represents(t, q) && i < |q| && q[i].dest == e.dest && e.state != Invalid
    ensures Represents(t[i := e], q[i := e])
  {
  }

  lemma AppendRefines(t: Slots, q: Queue, e: Entry)
    requires Represents(t, q) && |q| < SIZE && e.state != Invalid
    requires forall i :: 0 <= i < |q| ==> q[i].dest != e.dest
    ensures Represents(t[|q| := e], q + [e])
  {
  }

  lemma ShiftRefines(t: Slots, q: Queue, i: nat)
    requires Represents(t, q) && i < SIZE
    ensures Represents(Shift(t, i), if i < |q| then q[..i] + q[i + 1..] else q)
  {
    var u := Shift(t, i);
    var p := if i < |q| then q[..i] + q[i + 1..] else q;
    assert forall k :: 0 <= k < SIZE - 1 ==> u[k] == t[if k < i then k else k + 1];
    assert u[SIZE - 1] == t[SIZE - 1].(state := Invalid);
    assert forall k :: 0 <= k < |p| ==> p[k] == q[if k < i then k else k + 1];
  }

  lemma EvictRefines(t: Slots, q: Queue, e: Entry)
    requires Represents(t, q) && |q| == SIZE && e.state != Invalid
    requires forall i :: 0 <= i < |q| ==> q[i].dest != e.dest
    ensures Represents(Shift(t, 0)[SIZE - 1 := e], q[1..] + [e])
  {
  }

  /** Where addRouteTo's searches stop. */
  lemma SearchesInQueue(t: Slots, q: Queue, d: uint8)
    requires Represents(t, q)
    ensures FindKey(q, d) < |q| ==> First(t, AnySlotOf(d)) == FindKey(q, d)
    ensures FindKey(q, d) == |q| ==> First(t, AnySlotOf(d)) == if |q| < SIZE && t[|q|].dest == d then |q| else SIZE
    ensures First(t, InvalidSlot) == |q|
  {
    var i := FindKey(q, d);
    FirstIs(t, InvalidSlot, |q|);
    FirstIs(t, AnySlotOf(d), if i < |q| then i else if |q| < SIZE && t[|q|].dest == d then |q| else SIZE);
  }

  lemma AddRefines(t: Slots, q: Queue, d: uint8, h: uint8, s: RouteState)
    requires Represents(t, q) && s != Invalid
    ensures Represents(Add(t, d, h, s), QueueApply(q, OpAdd(d, h, s)))
  {
    var e := Entry(d, h, s);
    var i := FindKey(q, d);
    SearchesInQueue(t, q, d);
    if i < |q| {
      UpdateRefines(t, q, i, e);
    } else if |q| < SIZE {
      AppendRefines(t, q, e);
    } else {
      EvictRefines(t, q, e);
    }
  }

  lemma DeleteRefines(t: Slots, q: Queue, d: uint8)
    requires Represents(t, q)
    ensures Represents(Delete(t, d), QueueApply(q, OpDelete(d)))
  {
    SearchesInQueue(t, q, d);
    var k := First(t, AnySlotOf(d));
    if k < SIZE {
      ShiftRefines(t, q, k);
    }
  }

  lemma StepRefines(t: Slots, q: Queue, op: Op)
    requires Represents(t, q)
    requires !op.OpClear? && (op.OpAdd? ==> op.state != Invalid)
    ensures Represents(Apply(t, op), QueueApply(q, op))
  {
    match op
    case OpAdd(d, h, s) => AddRefines(t, q, d, h, s);
    case OpDelete(d) => DeleteRefines(t, q, d);
    case OpRetire =>
      ShiftRefines(t, q, 0);
      assert q != [] ==> q[..0] + q[1..] == q[1..];
  }

  /** From slots that all carry one stale destination, as zeroed ones do, every history is FIFO. */
  lemma {:induction false} EveryRunIsFifo(t: Slots, ops: seq<Op>)
    requires Represents(t, []) && Orderly(ops)
    ensures Represents(Run(t, ops), QueueRun(ops))
  {
    if ops == [] {
    } else {
      var pre := ops[..|ops| - 1];
      assert ops[|ops| - 1] in ops;
      EveryRunIsFifo(t, pre);
      StepRefines(Run(t, pre), QueueRun(pre), ops[|ops| - 1]);
    }
  }

  lemma ZeroedTableIsFifo(ops: seq<Op>)
    requires Orderly(ops)
    ensures Represents(Run(ZERO, ops), QueueRun(ops))
  {
    EveryRunIsFifo(ZERO, ops);
  }

  /** What a caller can see of a queue. */
  function QueueLookup(q: Queue, d: uint8): Option<uint8> {
    var i := FindKey(q, d);
    if i < |q| then Some(q[i].nextHop) else None
  }

  lemma SeenAsQueue(t: Slots, q: Queue, d: uint8)
    requires Represents(t, q)
    ensures Lookup(t, d) == QueueLookup(q, d)
  {
    var i := FindKey(q, d);
    FirstIs(t, LiveSlotOf(d), if i < |q| then i else SIZE);
  }

  /** Every future of the cleared table t looks, to every caller, like a FIFO list started empty. */
  ghost predicate StaysFifo(t: Slots) {
    forall ops, d :: Orderly(ops) ==> Lookup(Run(t, ops), d) == QueueLookup(QueueRun(ops), d)
  }

  ghost predicate OneStaleDest(t: Slots) {
    forall i, j :: 0 <= i < SIZE && 0 <= j < SIZE ==> t[i].dest == t[j].dest
  }

  /** Two new routes whose stale slots stand in the opposite order, then one eviction. */
  function SwappedHistory(late: uint8, early: uint8): (ops: seq<Op>)
    ensures Orderly(ops)
  {
    [OpAdd(late, 0, Valid), OpAdd(early, 0, Valid), OpRetire]
  }

  lemma UnfoldThree(a: Op, b: Op, c: Op, t: Slots)
    requires Orderly([a, b, c])
    ensures Run(t, [a, b, c]) == Apply(Apply(Apply(t, a), b), c)
    ensures a in [a, b, c] && b in [a, b, c] && c in [a, b, c]
    ensures QueueRun([a, b, c]) == QueueApply(QueueApply(QueueApply([], a), b), c)
  {
    var three, two, one := [a, b, c], [a, b], [a];
    assert three[..2] == two && two[..1] == one && one[..0] == [];
    assert Run(t, one) == Apply(Run(t, []), a);
    assert Run(t, two) == Apply(Run(t, one), b);
    assert a in three && b in three;
    assert Orderly(one) && Orderly(two);
    assert QueueRun(one) == QueueApply(QueueRun([]), a);
    assert QueueRun(two) == QueueApply(QueueRun(one), b);
  }

  /** The slots decide the order, so the wrong route goes. */
  lemma {:induction false} SwappedHistoryEvictsTheNewer(t: Slots, j: nat)
    requires AllInvalid(t) && 0 < j < SIZE && First(t, AnySlotOf(t[j].dest)) == j
    ensures Lookup(Run(t, SwappedHistory(t[j].dest, t[0].dest)), t[0].dest) == None
    ensures QueueLookup(QueueRun(SwappedHistory(t[j].dest, t[0].dest)), t[0].dest) == Some(0)
  {
    var late, early := t[j].dest, t[0].dest;
    var a, b := Entry(late, 0, Valid), Entry(early, 0, Valid);
    assert early != late;
    UnfoldThree(OpAdd(late, 0, Valid), OpAdd(early, 0, Valid), OpRetire, t);
    var u := t[j := a];
    assert Add(t, late, 0, Valid) == u;
    FirstIs(u, AnySlotOf(early), 0);
    var v := u[0 := b];
    assert Add(u, early, 0, Valid) == v;
    assert forall k :: 0 <= k < SIZE - 1 ==> Shift(v, 0)[k] == v[k + 1];
    FirstIs(Shift(v, 0), LiveSlotOf(early), SIZE);
    assert QueueApply([], OpAdd(late, 0, Valid)) == [a];
    assert QueueApply([a], OpAdd(early, 0, Valid)) == [a, b];
    assert QueueApply([a, b], OpRetire) == [b];
  }

  /**
   * After clearRoutingTable the slots keep their stale destinations, and a later add reuses the slot
   * that has its destination. The oldest route is still the one evicted exactly when all slots
   * carry the same stale destination.
   */
  lemma ClearedTableIsFifoIff(t: Slots)
    ensures StaysFifo(Clear(t)) <==> OneStaleDest(t)
  {
    var c := Clear(t);
    if OneStaleDest(t) {
      forall ops, d | Orderly(ops)
        ensures Lookup(Run(c, ops), d) == QueueLookup(QueueRun(ops), d)
      {
        EveryRunIsFifo(c, ops);
        SeenAsQueue(Run(c, ops), QueueRun(ops), d);
      }
    } else {
      var i, i' :| 0 <= i < SIZE && 0 <= i' < SIZE && t[i].dest != t[i'].dest;
      var k := if c[i].dest != c[0].dest then i else i';
      var j := First(c, AnySlotOf(c[k].dest));
      FirstHits(c, AnySlotOf(c[k].dest));
      FirstIs(c, AnySlotOf(c[j].dest), j);
      SwappedHistoryEvictsTheNewer(c, j);
      assert Orderly(SwappedHistory(c[j].dest, c[0].dest));
    }
  }
}
