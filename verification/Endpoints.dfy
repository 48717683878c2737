/**
 The values held by the routing table: keys, backend endpoints, external ports,
 modification tags, and the entry that ties them together. An entry is generic in
 how its endpoint map is held: `HeapEntry` holds a reference to a mutable map object,
 as the program does, and `Entry` holds the map itself. `View` relates the two.
 */
module Endpoints {

  type uint32 = x: int | 0 <= x < 0x1_0000_0000

  /** `Absent` is the nil tag. */
  datatype ModificationTag = Absent | Tag(epoch: string, index: uint32) {

    /** An absent tag or an empty epoch is succeeded by anything; within one epoch the larger index wins. */
    predicate SucceededBy(other: ModificationTag) {
      || Absent? || other.Absent?
      || epoch == "" || other.epoch == ""
      || epoch != other.epoch
      || index < other.index
    }
  }

  datatype RoutingKey = RoutingKey(processGuid: string, containerPort: uint32)

  datatype EndpointKey = EndpointKey(instanceGuid: string, evacuating: bool)

  datatype Endpoint = Endpoint(
    instanceGuid: string,
    evacuating: bool,
    host: string,
    port: uint32,
    containerPort: uint32,
    modificationTag: ModificationTag)
  {
    function Key(): EndpointKey {
      EndpointKey(instanceGuid, evacuating)
    }
  }

  type Backends = map<EndpointKey, Endpoint>

  datatype ExternalEndpointInfo = ExternalEndpointInfo(routerGroupGuid: string, port: uint32)

  type ExternalEndpoints = seq<ExternalEndpointInfo>

  datatype RoutableEndpoints<M> = RoutableEndpoints(
    externalEndpoints: ExternalEndpoints,
    endpoints: M,
    logGuid: string,
    modificationTag: ModificationTag)

  type Entry = RoutableEndpoints<Backends>

  const NO_ENTRY: Entry := RoutableEndpoints([], map[], "", Absent)

  /** The set of external port numbers; router groups are ignored, as every port comparison does. */
  function Ports(external: ExternalEndpoints): set<uint32> {
    set x | x in external :: x.port
  }

  predicate ContainsExternalPort(external: ExternalEndpoints, port: uint32) {
    exists i :: 0 <= i < |external| && external[i].port == port
  }

  /** The elements of `a`, in order, whose port does not occur in `b`. */
  function Subtract(a: ExternalEndpoints, b: ExternalEndpoints): (difference: ExternalEndpoints)
    ensures forall x :: x in difference <==> x in a && x.port !in Ports(b)
  {
    if a == [] then []
    else
      var last := a[|a| - 1];
      Subtract(a[..|a| - 1], b) + if ContainsExternalPort(b, last.port) then [] else [last]
  }

  lemma {:induction false} SubtractCovered(a: ExternalEndpoints, b: ExternalEndpoints)
    requires forall x :: x in a ==> x.port in Ports(b)
    ensures Subtract(a, b) == []
  {
    if a != [] {
      SubtractCovered(a[..|a| - 1], b);
    }
  }

  // ---------------------------------------------------------------- change detection

  predicate ExternalEndpointsChanged(before: ExternalEndpoints, after: ExternalEndpoints) {
    |before| != |after| || exists i :: 0 <= i < |before| && !ContainsExternalPort(after, before[i].port)
  }

  predicate EndpointsChanged(before: Backends, after: Backends) {
    || |before| != |after|
    || exists k :: k in after && (k !in before || before[k].modificationTag.SucceededBy(after[k].modificationTag))
  }

  predicate DistinctPorts(external: ExternalEndpoints) {
    forall i, j :: 0 <= i < j < |external| ==> external[i].port != external[j].port
  }

  lemma SubsetSameSize<T>(a: set<T>, b: set<T>)
    requires a <= b
    ensures |a| <= |b|
    ensures |a| == |b| ==> a == b
  {
    assert b == a + (b - a);
    assert |b| == |a| + |b - a|;
  }

  lemma {:induction false} PortsSize(external: ExternalEndpoints)
    ensures |Ports(external)| <= |external|
    ensures DistinctPorts(external) ==> |Ports(external)| == |external|
  {
    if external != [] {
      var n := |external| - 1;
      PortsSize(external[..n]);
      assert external == external[..n] + [external[n]];
      assert Ports(external) == Ports(external[..n]) + {external[n].port};
    }
  }

  /** The comparison reports no change exactly when the lengths match and no port goes away. */
  lemma ExternalUnchangedIff(before: ExternalEndpoints, after: ExternalEndpoints)
    ensures !ExternalEndpointsChanged(before, after) <==> |before| == |after| && Ports(before) <= Ports(after)
  {
    if !ExternalEndpointsChanged(before, after) {
      forall p | p in Ports(before) ensures p in Ports(after) {
        var i :| 0 <= i < |before| && before[i].port == p;
        assert ContainsExternalPort(after, before[i].port);
      }
    } else if |before| == |after| {
      var i :| 0 <= i < |before| && !ContainsExternalPort(after, before[i].port);
      assert before[i].port in Ports(before);
      assert before[i].port !in Ports(after);
    }
  }

  /** It misses a changed port set exactly when the lengths match and the ports only grow, and then the first list
      repeats a port; so nothing is missed when the first list alone has distinct ports. */
  lemma ExternalChangeMissedIff(before: ExternalEndpoints, after: ExternalEndpoints)
    ensures !ExternalEndpointsChanged(before, after) && Ports(before) != Ports(after) <==>
              |before| == |after| && Ports(before) < Ports(after)
    ensures |before| == |after| && Ports(before) < Ports(after) ==> !DistinctPorts(before)
  {
    ExternalUnchangedIff(before, after);
    PortsSize(before);
    PortsSize(after);
    if |before| == |after| && Ports(before) < Ports(after) {
      SubsetSameSize(Ports(before), Ports(after));
    }
  }

  /** For duplicate-free ports on both sides the comparison is exactly inequality of the port sets. */
  lemma ExternalChangeIsExact(before: ExternalEndpoints, after: ExternalEndpoints)
    requires DistinctPorts(before) && DistinctPorts(after)
    ensures ExternalEndpointsChanged(before, after) <==> Ports(before) != Ports(after)
  {
    ExternalChangeMissedIff(before, after);
    ExternalUnchangedIff(before, after);
    PortsSize(before);
    PortsSize(after);
  }

  /** With a repeated port the comparison misses a changed port set. */
  lemma ExternalChangeMissesDuplicates()
    ensures exists before: ExternalEndpoints, after: ExternalEndpoints ::
              !ExternalEndpointsChanged(before, after) && Ports(before) != Ports(after)
  {
    var a := ExternalEndpointInfo("group", 80);
    var b := ExternalEndpointInfo("group", 81);
    assert ContainsExternalPort([a, b], 80) by { assert [a, b][0].port == 80; }
    assert b in [a, b] && b.port !in Ports([a, a]);
    assert !ExternalEndpointsChanged([a, a], [a, b]) && Ports([a, a]) != Ports([a, b]);
  }

  /** Unchanged means: the same endpoint keys, and no tag advanced. */
  lemma EndpointChangeIsExact(before: Backends, after: Backends)
    ensures !EndpointsChanged(before, after) <==>
              && before.Keys == after.Keys
              && forall k :: k in before ==> !before[k].modificationTag.SucceededBy(after[k].modificationTag)
  {
    if !EndpointsChanged(before, after) {
      assert after.Keys <= before.Keys;
      SubsetSameSize(after.Keys, before.Keys);
    } else if before.Keys == after.Keys {
      assert |before| == |before.Keys| == |after|;
    }
  }

  // ---------------------------------------------------------------- entries on the heap

  /** A mutable endpoint map. Entries and events hold references to such objects. */
  class EndpointMap {
    var contents: Backends

    constructor ()
      ensures contents == map[]
    {
      contents := map[];
    }
  }

  /** A null reference is the nil map of a zero entry: readable, not writable. */
  type HeapEntry = RoutableEndpoints<EndpointMap?>

  function Contents(endpoints: EndpointMap?): Backends
    reads endpoints
  {
    if endpoints == null then map[] else endpoints.contents
  }

  function View(entry: HeapEntry): (e: Entry)
    reads entry.endpoints
  {
    RoutableEndpoints(entry.externalEndpoints, Contents(entry.endpoints), entry.logGuid, entry.modificationTag)
  }

  /** The clone never shares its endpoint map, so writing to it cannot be seen through `entry`. */
  method Copy(entry: HeapEntry) returns (clone: HeapEntry)
    ensures clone.endpoints != null && fresh(clone.endpoints)
    ensures View(clone) == View(entry)
  {
    var cloned := new EndpointMap();
    var source := Contents(entry.endpoints);
    var rest := source.Keys;
    while rest != {}
      invariant rest <= source.Keys
      invariant cloned.contents == map k | k in source.Keys - rest :: source[k]
    {
      var k :| k in rest;
      cloned.contents := cloned.contents[k := source[k]];
      rest := rest - {k};
    }
    assert cloned.contents == source;
    clone := RoutableEndpoints(entry.externalEndpoints, cloned, entry.logGuid, entry.modificationTag);
  }

  method RemoveExternal(a: ExternalEndpoints, b: ExternalEndpoints) returns (difference: ExternalEndpoints)
    ensures difference == Subtract(a, b)
  {
    difference := [];
    for i := 0 to |a|
      invariant difference == Subtract(a[..i], b)
    {
      assert a[..i + 1][..i] == a[..i];
      if !ContainsExternalPort(b, a[i].port) {
        difference := difference + [ExternalEndpointInfo(a[i].routerGroupGuid, a[i].port)];
      }
    }
    assert a[..|a|] == a;
  }

  method RemoveExternalEndpoints(entry: HeapEntry, external: ExternalEndpoints) returns (result: HeapEntry)
    ensures result.endpoints != null && fresh(result.endpoints)
    ensures View(result) == View(entry).(externalEndpoints := Subtract(entry.externalEndpoints, external))
  {
    var subtracted := RemoveExternal(entry.externalEndpoints, external);
    result := Copy(entry);
    result := result.(externalEndpoints := subtracted);
  }

  method HaveExternalEndpointsChanged(before: HeapEntry, after: HeapEntry) returns (changed: bool)
    ensures changed <==> ExternalEndpointsChanged(before.externalEndpoints, after.externalEndpoints)
  {
    if |before.externalEndpoints| != |after.externalEndpoints| {
      return true;
    }
    for i := 0 to |before.externalEndpoints|
      invariant forall j :: 0 <= j < i ==>
                  ContainsExternalPort(after.externalEndpoints, before.externalEndpoints[j].port)
    {
      var found := false;
      for j := 0 to |after.externalEndpoints|
        invariant !found
        invariant forall l :: 0 <= l < j ==> after.externalEndpoints[l].port != before.externalEndpoints[i].port
      {
        if after.externalEndpoints[j].port == before.externalEndpoints[i].port {
          found := true;
          break;
        }
      }
      if !found {
        return true;
      }
    }
    return false;
  }

  method HaveEndpointsChanged(before: HeapEntry, after: HeapEntry) returns (changed: bool)
    ensures changed <==> EndpointsChanged(Contents(before.endpoints), Contents(after.endpoints))
  {
    var old', new' := Contents(before.endpoints), Contents(after.endpoints);
    if |old'| != |new'| {
      return true;
    }
    var rest := new'.Keys;
    while rest != {}
      invariant rest <= new'.Keys
      invariant forall k :: k in new'.Keys - rest ==>
                  k in old' && !old'[k].modificationTag.SucceededBy(new'[k].modificationTag)
    {
      var k :| k in rest;
      if k !in old' || old'[k].modificationTag.SucceededBy(new'[k].modificationTag) {
        return true;
      }
      rest := rest - {k};
    }
    return false;
  }
}
