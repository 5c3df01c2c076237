/** Who can hear whom, and simple paths between nodes. */
module Graphs {
  import opened Octets

  datatype Graph = Graph(nodes: seq<uint8>, links: set<(uint8, uint8)>)

  /** Two different nodes in radio range of each other. */
  predicate Adj(g: Graph, a: uint8, b: uint8) {
    a in g.nodes && b in g.nodes && a != b && ((a, b) in g.links || (b, a) in g.links)
  }

  predicate NoDup(s: seq<uint8>) {
    forall i, j :: 0 <= i < j < |s| ==> s[i] != s[j]
  }

  predicate Simple(g: Graph, p: seq<uint8>) {
    && p != []
    && (forall i :: 0 <= i < |p| ==> p[i] in g.nodes)
    && (forall i :: 0 <= i < |p| - 1 ==> Adj(g, p[i], p[i + 1]))
    && NoDup(p)
  }

  function Last(p: seq<uint8>): uint8
    requires p != []
  {
    p[|p| - 1]
  }

  lemma ExtendPath(g: Graph, p: seq<uint8>, x: uint8)
    requires Simple(g, p) && Adj(g, Last(p), x) && x !in p
    ensures Simple(g, p + [x])
  {
  }

  lemma PartOfPath(g: Graph, p: seq<uint8>, i: nat, j: nat)
    requires Simple(g, p) && i < j <= |p|
    ensures Simple(g, p[i..j])
  {
  }

  lemma JoinPaths(g: Graph, p: seq<uint8>, q: seq<uint8>)
    requires Simple(g, p) && Simple(g, q) && Adj(g, Last(p), q[0]) && forall x :: x in p ==> x !in q
    ensures Simple(g, p + q)
  {
    var r := p + q;
    forall i | 0 <= i < |r| - 1
      ensures Adj(g, r[i], r[i + 1])
    {
      if i >= |p| {
        assert Adj(g, q[i - |p|], q[i - |p| + 1]);
      }
    }
    forall i, j | 0 <= i < j < |r|
      ensures r[i] != r[j]
    {
      if i < |p| <= j {
        assert p[i] in p && q[j - |p|] in q;
      }
    }
  }

  lemma EndsMeetIff(g: Graph, p: seq<uint8>)
    requires Simple(g, p)
    ensures p[0] == Last(p) <==> p == [p[0]]
  {
  }

  function Members(s: seq<uint8>): set<uint8> { set x | x in s }

  lemma {:induction false} MembersAtMost(s: seq<uint8>)
    ensures |Members(s)| <= |s|
  {
    if s == [] {
      assert Members(s) == {};
    } else {
      MembersAtMost(s[1..]);
      assert Members(s) == {s[0]} + Members(s[1..]);
    }
  }

  /** A sequence has as many members as its length if none comes twice. */
  lemma {:induction false} CountMembers(s: seq<uint8>)
    requires NoDup(s)
    ensures |Members(s)| == |s|
  {
    if s == [] {
      assert Members(s) == {};
    } else {
      var rest := s[1..];
      assert forall i :: 0 <= i < |rest| ==> rest[i] == s[i + 1];
      CountMembers(rest);
      assert Members(s) == {s[0]} + Members(rest);
    }
  }
}
