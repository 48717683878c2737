/**
 What the BBS reports: desired LRPs with their decoded TCP routes, resolved actual LRPs
 and the six events on them, and the routing keys and endpoints built from them.
 */
module Lrps {
  import opened Endpoints

  datatype TcpRoute = TcpRoute(routerGroupGuid: string, externalPort: uint32, containerPort: uint32)

  datatype DesiredLrp = DesiredLrp(
    processGuid: string,
    logGuid: string,
    modificationTag: ModificationTag,
    routes: seq<TcpRoute>)

  datatype PortMapping = PortMapping(containerPort: uint32, hostPort: uint32)

  datatype LrpState = Unclaimed | Claimed | Running | Crashed

  /** An actual LRP group after resolution, which picks the instance and the `evacuating` flag. */
  datatype ActualLrp = ActualLrp(
    processGuid: string,
    instanceGuid: string,
    evacuating: bool,
    address: string,
    ports: seq<PortMapping>,
    modificationTag: ModificationTag,
    state: LrpState)

  datatype LrpEvent =
    | DesiredCreated(desired: DesiredLrp)
    | DesiredChanged(beforeDesired: DesiredLrp, afterDesired: DesiredLrp)
    | DesiredRemoved(desired: DesiredLrp)
    | ActualCreated(actual: ActualLrp)
    | ActualChanged(beforeActual: ActualLrp, afterActual: ActualLrp)
    | ActualRemoved(actual: ActualLrp)
    | Unrecognized

  function EndpointAt(a: ActualLrp, m: PortMapping): Endpoint {
    Endpoint(a.instanceGuid, a.evacuating, a.address, m.hostPort, m.containerPort, a.modificationTag)
  }

  /** The endpoint per container port; a later mapping of the same container port wins. */
  function EndpointsOf(a: ActualLrp, ports: seq<PortMapping>): (endpoints: map<uint32, Endpoint>)
    ensures endpoints.Keys == set m | m in ports :: m.containerPort
    ensures forall p :: p in endpoints ==>
              && endpoints[p].containerPort == p
              && exists m :: m in ports && endpoints[p] == EndpointAt(a, m)
  {
    if ports == [] then map[]
    else
      var last := ports[|ports| - 1];
      EndpointsOf(a, ports[..|ports| - 1])[last.containerPort := EndpointAt(a, last)]
  }

  /** Of several mappings of one container port, the last gives the endpoint. */
  lemma {:induction false} LastMappingWins(a: ActualLrp, ports: seq<PortMapping>, i: nat)
    requires i < |ports| && forall j :: i < j < |ports| ==> ports[j].containerPort != ports[i].containerPort
    ensures ports[i].containerPort in EndpointsOf(a, ports)
    ensures EndpointsOf(a, ports)[ports[i].containerPort] == EndpointAt(a, ports[i])
  {
    var n := |ports| - 1;
    if i < n {
      LastMappingWins(a, ports[..n], i);
    }
  }

  /** `d` has a route on the container port of `k`. */
  predicate Routes(d: DesiredLrp, k: RoutingKey) {
    d.processGuid == k.processGuid && exists r :: r in d.routes && r.containerPort == k.containerPort
  }

  /** `a` listens on the container port of `k`. */
  predicate Backs(a: ActualLrp, k: RoutingKey) {
    a.processGuid == k.processGuid && exists m :: m in a.ports && m.containerPort == k.containerPort
  }

  function ActualKeys(a: ActualLrp): (keys: seq<RoutingKey>)
    ensures |keys| == |a.ports|
    ensures forall i :: 0 <= i < |keys| ==> keys[i] == RoutingKey(a.processGuid, a.ports[i].containerPort)
  {
    seq(|a.ports|, i requires 0 <= i < |a.ports| => RoutingKey(a.processGuid, a.ports[i].containerPort))
  }

  function DesiredKeys(d: DesiredLrp): (keys: seq<RoutingKey>)
    ensures |keys| == |d.routes|
    ensures forall i :: 0 <= i < |keys| ==> keys[i] == RoutingKey(d.processGuid, d.routes[i].containerPort)
  {
    seq(|d.routes|, i requires 0 <= i < |d.routes| => RoutingKey(d.processGuid, d.routes[i].containerPort))
  }

  /** The keys of `a`, in order, that do not occur in `b`. */
  function KeysWithout(a: seq<RoutingKey>, b: seq<RoutingKey>): (keys: seq<RoutingKey>)
    ensures forall k :: k in keys <==> k in a && k !in b
  {
    if a == [] then []
    else
      var last := a[|a| - 1];
      KeysWithout(a[..|a| - 1], b) + if last in b then [] else [last]
  }

  /** The external endpoints that `routes` ask for on one container port, in order. */
  function RoutesFor(routes: seq<TcpRoute>, containerPort: uint32): (external: ExternalEndpoints)
    ensures forall x :: x in external <==>
              exists r :: r in routes && r.containerPort == containerPort
                       && x == ExternalEndpointInfo(r.routerGroupGuid, r.externalPort)
  {
    if routes == [] then []
    else
      var last := routes[|routes| - 1];
      RoutesFor(routes[..|routes| - 1], containerPort)
      + if last.containerPort == containerPort
        then [ExternalEndpointInfo(last.routerGroupGuid, last.externalPort)] else []
  }

  method NewEndpointsFromActual(a: ActualLrp) returns (endpoints: map<uint32, Endpoint>)
    ensures endpoints == EndpointsOf(a, a.ports)
  {
    endpoints := map[];
    for i := 0 to |a.ports|
      invariant endpoints == EndpointsOf(a, a.ports[..i])
    {
      assert a.ports[..i + 1][..i] == a.ports[..i];
      var m := a.ports[i];
      var endpoint := Endpoint(a.instanceGuid, a.evacuating, a.address, m.hostPort, m.containerPort, a.modificationTag);
      endpoints := endpoints[m.containerPort := endpoint];
    }
    assert a.ports[..|a.ports|] == a.ports;
  }

  method NewRoutingKeysFromActual(a: ActualLrp) returns (keys: seq<RoutingKey>)
    ensures keys == ActualKeys(a)
  {
    keys := [];
    for i := 0 to |a.ports|
      invariant keys == ActualKeys(a)[..i]
    {
      keys := keys + [RoutingKey(a.processGuid, a.ports[i].containerPort)];
    }
  }

  method NewRoutingKeysFromDesired(d: DesiredLrp) returns (keys: seq<RoutingKey>)
    ensures keys == DesiredKeys(d)
  {
    keys := [];
    for i := 0 to |d.routes|
      invariant keys == DesiredKeys(d)[..i]
    {
      keys := keys + [RoutingKey(d.processGuid, d.routes[i].containerPort)];
    }
  }

  method RemoveKeys(a: seq<RoutingKey>, b: seq<RoutingKey>) returns (keys: seq<RoutingKey>)
    ensures keys == KeysWithout(a, b)
  {
    keys := [];
    for i := 0 to |a|
      invariant keys == KeysWithout(a[..i], b)
    {
      assert a[..i + 1][..i] == a[..i];
      if a[i] !in b {
        keys := keys + [a[i]];
      }
    }
    assert a[..|a|] == a;
  }
}
