/** The routing table of RHRouter: ten slots, searched and shifted in place. */
module RouteTable {
  import opened Octets

  /** RH_ROUTING_TABLE_SIZE */
  const SIZE: nat := 10

  datatype RouteState = Invalid | Discovering | Valid
  datatype Entry = Entry(dest: uint8, nextHop: uint8, state: RouteState)

  /** What one of the table's linear searches is looking for. */
  datatype Probe = AnySlotOf(dest: uint8) | LiveSlotOf(dest: uint8) | InvalidSlot

  predicate Hit(e: Entry, p: Probe) {
    match p
    case AnySlotOf(d) => e.dest == d
    case LiveSlotOf(d) => e.dest == d && e.state != Invalid
    case InvalidSlot => e.state == Invalid
  }

  /** The first slot a search stops at, or |t| when it runs off the end. */
  function First(t: seq<Entry>, p: Probe): (i: nat)
    ensures i <= |t|
  {
    if |t| == 0 || Hit(t[0], p) then 0 else 1 + First(t[1..], p)
  }

  lemma {:induction false} FirstHits(t: seq<Entry>, p: Probe)
    ensures First(t, p) < |t| ==> Hit(t[First(t, p)], p)
    ensures forall j :: 0 <= j < First(t, p) ==> !Hit(t[j], p)
  {
    if t != [] && !Hit(t[0], p) {
      FirstHits(t[1..], p);
      assert forall j :: 0 < j < First(t, p) ==> t[j] == t[1..][j - 1];
    }
  }

  /** A slot that hits and has no hit before it is the first one. */
  lemma FirstIs(t: seq<Entry>, p: Probe, i: nat)
    requires i <= |t|
    requires i < |t| ==> Hit(t[i], p)
    requires forall j :: 0 <= j < i ==> !Hit(t[j], p)
    ensures First(t, p) == i
  {
    FirstHits(t, p);
  }

  type Slots = t: seq<Entry> | |t| == SIZE witness seq(SIZE, _ => Entry(0, 0, Invalid))

  function Lookup(t: Slots, d: uint8): Option<uint8> {
    var i := First(t, LiveSlotOf(d));
    if i < SIZE then Some(t[i].nextHop) else None
  }

  /** Slots after i move down by one; the last keeps its contents but turns Invalid. */
  function Shift(t: Slots, i: nat): Slots
    requires i < SIZE
  {
    t[..i] + t[i + 1..] + [t[SIZE - 1].(state := Invalid)]
  }

  predicate Evicts(t: Slots, d: uint8) {
    First(t, AnySlotOf(d)) == SIZE && First(t, InvalidSlot) == SIZE
  }

  function Add(t: Slots, d: uint8, h: uint8, s: RouteState): Slots {
    var i := First(t, AnySlotOf(d));
    var j := First(t, InvalidSlot);
    if i < SIZE then t[i := Entry(d, h, s)]
    else if j < SIZE then t[j := Entry(d, h, s)]
    else Shift(t, 0)[SIZE - 1 := Entry(d, h, s)]
  }

  function Delete(t: Slots, d: uint8): Slots {
    var i := First(t, AnySlotOf(d));
    if i < SIZE then Shift(t, i) else t
  }

  function Clear(t: Slots): Slots {
    seq(SIZE, i requires 0 <= i < SIZE => t[i].(state := Invalid))
  }

  /** addRouteTo for each of ds in turn, all through the same neighbour. */
  function AddAll(t: Slots, ds: seq<uint8>, h: uint8): Slots
    decreases |ds|
  {
    if ds == [] then t else AddAll(Add(t, ds[0], h, Valid), ds[1..], h)
  }

  /** addRouteTo once more, at the end of a list. */
  lemma {:induction false} AddAllOneMore(t: Slots, ds: seq<uint8>, d: uint8, h: uint8)
    ensures AddAll(t, ds + [d], h) == Add(AddAll(t, ds, h), d, h, Valid)
    decreases |ds|
  {
    if ds == [] {
      assert ([] + [d])[1..] == [];
    } else {
      assert (ds + [d])[1..] == ds[1..] + [d];
      AddAllOneMore(Add(t, ds[0], h, Valid), ds[1..], d, h);
    }
  }

  /** The zero-initialised table of a manager declared at global scope. */
  const ZERO: Slots := seq(SIZE, _ => Entry(0, 0, Invalid))

  class RoutingTable {
    const routes: array<Entry>

    ghost predicate Valid() { routes.Length == SIZE }

    ghost function Slots(): Slots
      requires Valid()
      reads routes
    {
      routes[..]
    }

    constructor ()
      ensures Valid() && fresh(routes) && Slots() == ZERO
    {
      routes := new Entry[SIZE](_ => Entry(0, 0, Invalid));
      new;
      ClearRoutingTable();
    }

    method AddRouteTo(dest: uint8, nextHop: uint8, state: RouteState)
      requires Valid()
      modifies routes
      ensures Slots() == Add(old(Slots()), dest, nextHop, state)
    {
      // First look for an existing entry to update.
      var i := 0;
      while i < SIZE
        invariant 0 <= i <= SIZE
        invariant forall j :: 0 <= j < i ==> !Hit(routes[j], AnySlotOf(dest))
        invariant Slots() == old(Slots())
      {
        if routes[i].dest == dest {
          FirstIs(routes[..], AnySlotOf(dest), i);
          routes[i] := Entry(dest, nextHop, state);
          return;
        }
        i := i + 1;
      }
      FirstIs(routes[..], AnySlotOf(dest), SIZE);
      // Then for an Invalid slot to use.
      i := 0;
      while i < SIZE
        invariant 0 <= i <= SIZE
        invariant forall j :: 0 <= j < i ==> !Hit(routes[j], InvalidSlot)
        invariant Slots() == old(Slots())
      {
        if routes[i].state == Invalid {
          FirstIs(routes[..], InvalidSlot, i);
          routes[i] := Entry(dest, nextHop, state);
          return;
        }
        i := i + 1;
      }
      FirstIs(routes[..], InvalidSlot, SIZE);
      // Make room, then fill every Invalid slot: there is exactly one.
      RetireOldestRoute();
      ghost var shifted := Slots();
      i := 0;
      while i < SIZE
        invariant 0 <= i <= SIZE
        invariant Slots() == if i < SIZE then shifted else shifted[SIZE - 1 := Entry(dest, nextHop, state)]
      {
        assert i < SIZE - 1 ==> shifted[i] == old(Slots())[i + 1];
        if routes[i].state == Invalid {
          routes[i] := Entry(dest, nextHop, state);
        }
        i := i + 1;
      }
    }

    /** The live entry for dest, if there is one: the caller only follows its next hop. */
    method GetRouteTo(dest: uint8) returns (nextHop: Option<uint8>)
      requires Valid()
      ensures nextHop == Lookup(Slots(), dest)
    {
      var i := 0;
      while i < SIZE
        invariant 0 <= i <= SIZE
        invariant forall j :: 0 <= j < i ==> !Hit(routes[j], LiveSlotOf(dest))
      {
        if routes[i].dest == dest && routes[i].state != Invalid {
          FirstIs(routes[..], LiveSlotOf(dest), i);
          return Some(routes[i].nextHop);
        }
        i := i + 1;
      }
      FirstIs(routes[..], LiveSlotOf(dest), SIZE);
      return None;
    }

    method DeleteRoute(index: nat)
      requires Valid() && index < SIZE
      modifies routes
      ensures Slots() == Shift(old(Slots()), index)
    {
      forall k | index <= k < SIZE - 1 {
        routes[k] := routes[k + 1];
      }
      routes[SIZE - 1] := routes[SIZE - 1].(state := Invalid);
    }

    method DeleteRouteTo(dest: uint8) returns (found: bool)
      requires Valid()
      modifies routes
      ensures Slots() == Delete(old(Slots()), dest)
      ensures found <==> exists i :: 0 <= i < SIZE && old(Slots())[i].dest == dest
    {
      var i := 0;
      while i < SIZE
        invariant 0 <= i <= SIZE
        invariant forall j :: 0 <= j < i ==> !Hit(routes[j], AnySlotOf(dest))
        invariant Slots() == old(Slots())
      {
        if routes[i].dest == dest {
          FirstIs(routes[..], AnySlotOf(dest), i);
          assert old(Slots())[i].dest == dest;
          DeleteRoute(i);
          return true;
        }
        i := i + 1;
      }
      FirstIs(routes[..], AnySlotOf(dest), SIZE);
      return false;
    }

    method RetireOldestRoute()
      requires Valid()
      modifies routes
      ensures Slots() == Shift(old(Slots()), 0)
    {
      DeleteRoute(0);
    }

    method ClearRoutingTable()
      requires Valid()
      modifies routes
      ensures Slots() == Clear(old(Slots()))
    {
      var i := 0;
      while i < SIZE
        invariant 0 <= i <= SIZE
        invariant forall j :: 0 <= j < i ==> routes[j] == old(Slots())[j].(state := Invalid)
        invariant forall j :: i <= j < SIZE ==> routes[j] == old(Slots())[j]
      {
        routes[i] := routes[i].(state := Invalid);
        i := i + 1;
      }
    }
  }
}
