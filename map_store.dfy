/**
 * The finished map (`COpenStreetMap` after construction): the stored nodes and ways in the
 * order their elements closed, and the read-only query surface over them.
 */
module MapStore {
  import opened Wrappers
  import opened Entities

  /** The first element of `s` whose identity is `id`, or `None` (the specification of the by-id scans). */
  function FirstWithId<T>(s: seq<T>, idOf: T -> u64, id: u64): Option<T>
    decreases |s|
  {
    if s == [] then None
    else if idOf(s[0]) == id then Some(s[0])
    else FirstWithId(s[1..], idOf, id)
  }

  /** `FirstWithId` misses exactly when no element has the identity, and otherwise finds the earliest one. */
  lemma {:induction false} FirstWithIdSpec<T>(s: seq<T>, idOf: T -> u64, id: u64)
    ensures FirstWithId(s, idOf, id).None? <==> forall i :: 0 <= i < |s| ==> idOf(s[i]) != id
    ensures FirstWithId(s, idOf, id).Some? ==>
      exists i :: 0 <= i < |s| && s[i] == FirstWithId(s, idOf, id).value && idOf(s[i]) == id &&
                  forall j :: 0 <= j < i ==> idOf(s[j]) != id
    decreases |s|
  {
    if s != [] && idOf(s[0]) != id {
      FirstWithIdSpec(s[1..], idOf, id);
      var r := FirstWithId(s, idOf, id);
      if r.Some? {
        var i :| 0 <= i < |s[1..]| && s[1..][i] == r.value && idOf(s[1..][i]) == id &&
                 forall j :: 0 <= j < i ==> idOf(s[1..][j]) != id;
        assert s[i + 1] == r.value && idOf(s[i + 1]) == id;
        forall j | 0 <= j < i + 1 ensures idOf(s[j]) != id {
          if j > 0 { assert s[j] == s[1..][j - 1]; }
        }
      } else {
        forall i | 0 <= i < |s| ensures idOf(s[i]) != id {
          if i > 0 { assert s[i] == s[1..][i - 1]; }
        }
      }
    }
  }

  function NodeIdOf(n: Node): u64 { n.id }
  function WayIdOf(w: Way): u64 { w.id }

  datatype StreetMap = StreetMap(nodes: seq<Node>, ways: seq<Way>)
  {
    function NodeCount(): (n: nat)
      ensures n == |nodes|
    {
      |nodes|
    }

    function WayCount(): (n: nat)
      ensures n == |ways|
    {
      |ways|
    }

    /** The `index`-th stored node in closing order, or `None` (a null pointer) out of range. */
    function NodeByIndex(index: nat): (r: Option<Node>)
      ensures r.Some? <==> index < NodeCount()
      ensures r.Some? ==> r.value == nodes[index]
    {
      if index < |nodes| then Some(nodes[index]) else None
    }

    function WayByIndex(index: nat): (r: Option<Way>)
      ensures r.Some? <==> index < WayCount()
      ensures r.Some? ==> r.value == ways[index]
    {
      if index < |ways| then Some(ways[index]) else None
    }

    /** Linear scan: the first stored node whose id is `id`, or `None` when no stored node has it. */
    method NodeByID(id: NodeId) returns (r: Option<Node>)
      ensures r == FirstWithId(nodes, NodeIdOf, id)
      ensures r.None? <==> forall i :: 0 <= i < NodeCount() ==> nodes[i].id != id
      ensures r.Some? ==> exists i :: 0 <= i < NodeCount() && NodeByIndex(i) == r && r.value.id == id &&
                                      forall j :: 0 <= j < i ==> nodes[j].id != id
    {
      FirstWithIdSpec(nodes, NodeIdOf, id);
      var i := 0;
      while i < |nodes|
        invariant i <= |nodes|
        invariant FirstWithId(nodes[i..], NodeIdOf, id) == FirstWithId(nodes, NodeIdOf, id)
        invariant forall j :: 0 <= j < i ==> nodes[j].id != id
      {
        assert nodes[i..][1..] == nodes[i + 1..];
        if nodes[i].id == id {
          assert NodeByIndex(i) == Some(nodes[i]);
          return Some(nodes[i]);
        }
        i := i + 1;
      }
      return None;
    }

    /** Linear scan: the first stored way whose id is `id`, or `None` when no stored way has it. */
    method WayByID(id: WayId) returns (r: Option<Way>)
      ensures r == FirstWithId(ways, WayIdOf, id)
      ensures r.None? <==> forall i :: 0 <= i < WayCount() ==> ways[i].id != id
      ensures r.Some? ==> exists i :: 0 <= i < WayCount() && WayByIndex(i) == r && r.value.id == id &&
                                      forall j :: 0 <= j < i ==> ways[j].id != id
    {
      FirstWithIdSpec(ways, WayIdOf, id);
      var i := 0;
      while i < |ways|
        invariant i <= |ways|
        invariant FirstWithId(ways[i..], WayIdOf, id) == FirstWithId(ways, WayIdOf, id)
        invariant forall j :: 0 <= j < i ==> ways[j].id != id
      {
        assert ways[i..][1..] == ways[i + 1..];
        if ways[i].id == id {
          assert WayByIndex(i) == Some(ways[i]);
          return Some(ways[i]);
        }
        i := i + 1;
      }
      return None;
    }
  }
}
