/** What the ten slots mean: a map, for every history, and an unbounded one for ten addresses. */
module RouteTableTheory {
  import opened Octets
  import opened RouteTable

  // ---------------------------------------------------------------- the map the slots stand for

  /** Every non-Invalid slot is the first slot carrying its destination. */
  ghost predicate Sound(t: Slots) {
    forall i, j :: 0 <= j < i < SIZE && t[i].state != Invalid ==> t[j].dest != t[i].dest
  }

  ghost predicate AllInvalid(t: Slots) {
    forall i :: 0 <= i < SIZE ==> t[i].state == Invalid
  }

  lemma LookupAt(t: Slots, i: nat)
    requires Sound(t) && i < SIZE && t[i].state != Invalid
    ensures Lookup(t, t[i].dest) == Some(t[i].nextHop)
    ensures First(t, AnySlotOf(t[i].dest)) == i
  {
    FirstIs(t, LiveSlotOf(t[i].dest), i);
    FirstIs(t, AnySlotOf(t[i].dest), i);
  }

  /** Lookups agree when the live slots of the one table are live slots of the other. */
  lemma SameLookup(t: Slots, u: Slots, e: uint8)
    requires Sound(t) && Sound(u)
    requires forall i :: 0 <= i < SIZE && t[i].state != Invalid && t[i].dest == e ==> t[i] in u
    requires forall i :: 0 <= i < SIZE && u[i].state != Invalid && u[i].dest == e ==> u[i] in t
    ensures Lookup(t, e) == Lookup(u, e)
  {
    var i := First(t, LiveSlotOf(e));
    FirstHits(t, LiveSlotOf(e));
    FirstHits(u, LiveSlotOf(e));
    if i < SIZE {
      var k :| 0 <= k < SIZE && u[k] == t[i];
      LookupAt(u, k);
    }
  }

  lemma ShiftSound(t: Slots, i: nat)
    requires Sound(t) && i < SIZE
    ensures Sound(Shift(t, i))
    ensures forall e :: e != t[i].dest ==> Lookup(Shift(t, i), e) == Lookup(t, e)
    ensures First(t, AnySlotOf(t[i].dest)) == i ==> Lookup(Shift(t, i), t[i].dest) == None
  {
    var u := Shift(t, i);
    forall e | e != t[i].dest
      ensures Lookup(u, e) == Lookup(t, e)
    {
      forall k | 0 <= k < SIZE && t[k].state != Invalid && t[k].dest == e
        ensures t[k] in u
      {
        assert u[if k < i then k else k - 1] == t[k];
      }
      SameLookup(u, t, e);
    }
    if First(t, AnySlotOf(t[i].dest)) == i {
      var k := First(u, LiveSlotOf(t[i].dest));
      FirstHits(u, LiveSlotOf(t[i].dest));
      FirstHits(t, AnySlotOf(t[i].dest));
      assert forall x :: 0 <= x < SIZE - 1 ==> u[x] == t[if x < i then x else x + 1];
    }
  }

  /** addRouteTo is a map update, except that a full table forgets slot 0's destination. */
  lemma AddIsUpdate(t: Slots, d: uint8, h: uint8, s: RouteState)
    requires Sound(t)
    ensures Sound(Add(t, d, h, s))
    ensures Lookup(Add(t, d, h, s), d) == if s == Invalid then None else Some(h)
    ensures forall e :: e != d ==> Lookup(Add(t, d, h, s), e) ==
                                   if Evicts(t, d) && e == t[0].dest then None else Lookup(t, e)
  {
    var u := Add(t, d, h, s);
    var i := First(t, AnySlotOf(d));
    var j := First(t, InvalidSlot);
    FirstHits(t, AnySlotOf(d));
    FirstHits(t, InvalidSlot);
    var k := if i < SIZE then i else if j < SIZE then j else SIZE - 1;
    assert u[k] == Entry(d, h, s);
    var base := if Evicts(t, d) then Shift(t, 0) else t;
    if Evicts(t, d) {
      ShiftSound(t, 0);
      FirstIs(t, AnySlotOf(t[0].dest), 0);
    }
    assert Sound(u);
    assert u == base[k := u[k]];
    forall e | e != d
      ensures Lookup(u, e) == Lookup(base, e)
    {
      forall x | 0 <= x < SIZE && base[x].state != Invalid && base[x].dest == e
        ensures base[x] in u
      {
        assert u[x] == base[x];
      }
      SameLookup(u, base, e);
    }
    if s != Invalid {
      LookupAt(u, k);
    } else {
      assert forall x :: 0 <= x < SIZE && x != k ==> u[x].state == Invalid || u[x].dest != d;
      FirstHits(u, LiveSlotOf(d));
    }
  }

  /** deleteRouteTo removes exactly that destination, whatever its result says. */
  lemma DeleteIsRemoval(t: Slots, d: uint8)
    requires Sound(t)
    ensures Sound(Delete(t, d))
    ensures Lookup(Delete(t, d), d) == None
    ensures forall e :: e != d ==> Lookup(Delete(t, d), e) == Lookup(t, e)
  {
    var i := First(t, AnySlotOf(d));
    FirstHits(t, AnySlotOf(d));
    if i < SIZE {
      ShiftSound(t, i);
    } else {
      FirstHits(t, LiveSlotOf(d));
    }
  }

  lemma NothingLive(t: Slots)
    requires AllInvalid(t)
    ensures forall e :: Lookup(t, e) == None
  {
    forall e
      ensures Lookup(t, e) == None
    {
      FirstHits(t, LiveSlotOf(e));
    }
  }

  lemma ClearIsEmpty(t: Slots)
    ensures Sound(Clear(t)) && AllInvalid(Clear(t))
    ensures forall e :: Lookup(Clear(t), e) == None
  {
    NothingLive(Clear(t));
  }

  // ---------------------------------------------------------------- histories

  datatype Op = OpAdd(dest: uint8, nextHop: uint8, state: RouteState) | OpDelete(dest: uint8) | OpRetire | OpClear

  function Apply(t: Slots, op: Op): Slots {
    match op
    case OpAdd(d, h, s) => Add(t, d, h, s)
    case OpDelete(d) => Delete(t, d)
    case OpRetire => Shift(t, 0)
    case OpClear => Clear(t)
  }

  function Run(t: Slots, ops: seq<Op>): Slots {
    if ops == [] then t else Apply(Run(t, ops[..|ops| - 1]), ops[|ops| - 1])
  }

  /** Whatever destinations the slots started with, any history leaves a table that reads as a map. */
  lemma {:induction false} EveryHistorySound(t: Slots, ops: seq<Op>)
    requires AllInvalid(t)
    ensures Sound(Run(t, ops))
  {
    if ops == [] {
    } else {
      var before := Run(t, ops[..|ops| - 1]);
      EveryHistorySound(t, ops[..|ops| - 1]);
      match ops[|ops| - 1]
      case OpAdd(d, h, s) => AddIsUpdate(before, d, h, s);
      case OpDelete(d) => DeleteIsRemoval(before, d);
      case OpRetire => ShiftSound(before, 0);
      case OpClear => ClearIsEmpty(before);
    }
  }

  // ---------------------------------------------------------------- capacity

  ghost predicate LiveWithin(t: Slots, S: set<uint8>) {
    forall i :: 0 <= i < SIZE && t[i].state != Invalid ==> t[i].dest in S
  }

  /** The destinations of the first n slots of a table without Invalid slots are n different ones. */
  lemma {:induction false} LiveDestinationsDiffer(t: Slots, n: nat)
    requires Sound(t) && n <= SIZE
    requires forall i :: 0 <= i < n ==> t[i].state != Invalid
    ensures |set i | 0 <= i < n :: t[i].dest| == n
  {
    var D := set i | 0 <= i < n :: t[i].dest;
    if n == 0 {
    } else {
      LiveDestinationsDiffer(t, n - 1);
      var C := set i | 0 <= i < n - 1 :: t[i].dest;
      assert t[n - 1].dest !in C;
      assert D == C + {t[n - 1].dest};
    }
  }

  lemma {:induction false} SubsetIsSmaller<T>(A: set<T>, B: set<T>)
    requires A <= B
    ensures |A| <= |B|
  {
    if A != {} {
      var x :| x in A;
      SubsetIsSmaller(A - {x}, B - {x});
    }
  }

  /** Ten slots are enough for ten destinations: such an insert never evicts. */
  lemma NoEviction(t: Slots, d: uint8, S: set<uint8>)
    requires Sound(t) && LiveWithin(t, S) && d in S && |S| <= SIZE
    ensures !Evicts(t, d)
  {
    FirstHits(t, InvalidSlot);
    FirstHits(t, AnySlotOf(d));
    if Evicts(t, d) {
      var D := set i | 0 <= i < SIZE :: t[i].dest;
      LiveDestinationsDiffer(t, SIZE);
      SubsetIsSmaller(D + {d}, S);
    }
  }

  lemma AddStaysWithin(t: Slots, d: uint8, h: uint8, s: RouteState, S: set<uint8>)
    requires LiveWithin(t, S) && d in S
    ensures LiveWithin(Add(t, d, h, s), S)
  {
  }

  lemma ShiftStaysWithin(t: Slots, i: nat, S: set<uint8>)
    requires LiveWithin(t, S) && i < SIZE
    ensures LiveWithin(Shift(t, i), S)
  {
  }

  /** A map with room for everything. */
  function MapApply(m: map<uint8, uint8>, op: Op): map<uint8, uint8>
    requires !op.OpRetire?
  {
    match op
    case OpAdd(d, h, s) => if s == Invalid then m - {d} else m[d := h]
    case OpDelete(d) => m - {d}
    case OpClear => map[]
  }

  function MapRun(ops: seq<Op>): map<uint8, uint8>
    requires OpRetire !in ops
  {
    if ops == [] then map[] else
    assert ops[|ops| - 1] in ops;
    MapApply(MapRun(ops[..|ops| - 1]), ops[|ops| - 1])
  }

  ghost predicate ReadsAs(t: Slots, m: map<uint8, uint8>) {
    forall e :: Lookup(t, e) == if e in m then Some(m[e]) else None
  }

  /** As long as all destinations ever added come from ten addresses, the table is an unbounded map. */
  lemma {:induction false} TenAddressesNeverEvict(t: Slots, ops: seq<Op>, S: set<uint8>)
    requires AllInvalid(t) && |S| <= SIZE && OpRetire !in ops
    requires forall op :: op in ops && op.OpAdd? ==> op.dest in S
    ensures ReadsAs(Run(t, ops), MapRun(ops))
    ensures LiveWithin(Run(t, ops), S)
  {
    NothingLive(t);
    if ops == [] {
    } else {
      var pre := ops[..|ops| - 1];
      var u := Run(t, pre);
      assert ops[|ops| - 1] in ops;
      TenAddressesNeverEvict(t, pre, S);
      EveryHistorySound(t, pre);
      match ops[|ops| - 1]
      case OpAdd(d, h, s) =>
        NoEviction(u, d, S);
        AddIsUpdate(u, d, h, s);
        AddStaysWithin(u, d, h, s, S);
      case OpDelete(d) =>
        DeleteIsRemoval(u, d);
        if First(u, AnySlotOf(d)) < SIZE {
          ShiftStaysWithin(u, First(u, AnySlotOf(d)), S);
        }
      case OpClear => ClearIsEmpty(u);
    }
  }

  /** Learning a whole list through one neighbour, when everything fits. */
  lemma {:induction false} AddAllLearns(t: Slots, ds: seq<uint8>, h: uint8, S: set<uint8>)
    requires Sound(t) && LiveWithin(t, S) && |S| <= SIZE
    requires forall d :: d in ds ==> d in S
    ensures Sound(AddAll(t, ds, h)) && LiveWithin(AddAll(t, ds, h), S)
    ensures forall e :: Lookup(AddAll(t, ds, h), e) == if e in ds then Some(h) else Lookup(t, e)
    decreases |ds|
  {
    if ds == [] {
    } else {
      var u := Add(t, ds[0], h, Valid);
      NoEviction(t, ds[0], S);
      AddIsUpdate(t, ds[0], h, Valid);
      AddStaysWithin(t, ds[0], h, Valid, S);
      AddAllLearns(u, ds[1..], h, S);
      assert forall e :: e in ds <==> e == ds[0] || e in ds[1..];
    }
  }

  lemma {:induction false} AddAllSound(t: Slots, ds: seq<uint8>, h: uint8)
    requires Sound(t)
    ensures Sound(AddAll(t, ds, h))
    decreases |ds|
  {
    if ds == [] {
    } else {
      AddIsUpdate(t, ds[0], h, Valid);
      AddAllSound(Add(t, ds[0], h, Valid), ds[1..], h);
    }
  }
}
