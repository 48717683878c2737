/**
 Orders that do not matter: routes against endpoints, and endpoint versions against each other.
 */
module Convergence {
  import opened Endpoints
  import opened Lrps
  import opened TableSpec
  import opened Sequences

  // ---------------------------------------------------------------- routes and endpoints commute

  lemma MergeAndPutCommute(t: Table, merge: Edit, put: Edit)
    requires merge.Merge? && put.Put?
    ensures ApplyEdit(ApplyEdit(t, merge).table, put).table == ApplyEdit(ApplyEdit(t, put).table, merge).table
  {
    hide CreateEvent, Subtract, RoutesFor;
    var merged, added := ApplyEdit(t, merge).table, ApplyEdit(t, put).table;
    if merge.key == put.key {
      var k := merge.key;
      assert merge.Accepted(added) == merge.Accepted(t) && put.Accepted(merged) == put.Accepted(t);
      assert BringsNewPort(added, merge) == BringsNewPort(t, merge);
      assert Lookup(merged, k).endpoints == Lookup(t, k).endpoints;
    } else {
      assert Lookup(merged, put.key) == Lookup(t, put.key);
      assert Lookup(added, merge.key) == Lookup(t, merge.key);
    }
  }

  lemma {:induction false} MergesAndPutCommute(t: Table, merges: seq<Edit>, put: Edit)
    requires put.Put? && forall i :: 0 <= i < |merges| ==> merges[i].Merge?
    ensures ApplyEdit(ApplyEdits(t, merges).table, put).table == ApplyEdits(ApplyEdit(t, put).table, merges).table
  {
    if merges != [] {
      var n := |merges| - 1;
      hide ApplyEdit;
      MergesAndPutCommute(t, merges[..n], put);
      MergeAndPutCommute(ApplyEdits(t, merges[..n]).table, merges[n], put);
    }
  }

  lemma {:induction false} MergesAndPutsCommute(t: Table, merges: seq<Edit>, puts: seq<Edit>)
    requires forall i :: 0 <= i < |merges| ==> merges[i].Merge?
    requires forall i :: 0 <= i < |puts| ==> puts[i].Put?
    ensures ApplyEdits(ApplyEdits(t, merges).table, puts).table == ApplyEdits(ApplyEdits(t, puts).table, merges).table
  {
    if puts != [] {
      var n := |puts| - 1;
      MergesAndPutsCommute(t, merges, puts[..n]);
      assert puts == puts[..n] + [puts[n]];
      hide ApplyEdit, ApplyEdits;
      ApplyEditsSnoc(t, puts[..n], puts[n]);
      ApplyEditsSnoc(ApplyEdits(t, merges).table, puts[..n], puts[n]);
      MergesAndPutCommute(ApplyEdits(t, puts[..n]).table, merges, puts[n]);
    } else {
      hide ApplyEdit;
    }
  }

  /** Adding routes and adding an endpoint give the same table in either order. */
  lemma RoutesAndEndpointsCommute(t: Table, d: DesiredLrp, a: ActualLrp)
    ensures ApplyEdits(ApplyEdits(t, AddRoutes(d)).table, AddEndpoint(a)).table
         == ApplyEdits(ApplyEdits(t, AddEndpoint(a)).table, AddRoutes(d)).table
  {
    MergesAndPutsCommute(t, AddRoutes(d), AddEndpoint(a));
  }

  // ---------------------------------------------------------------- last writer wins

  ghost predicate AllPuts(edits: seq<Edit>) {
    forall i :: 0 <= i < |edits| ==> edits[i].Put?
  }

  /** `e` is stored at `k` in `t`, or delivered there by one of the edits. */
  ghost predicate Version(t: Table, edits: seq<Edit>, k: RoutingKey, e: Endpoint) {
    || (k in t && e.Key() in t[k].endpoints && t[k].endpoints[e.Key()] == e)
    || Put(k, e) in edits
  }

  /** Every version carries a tag of one non-empty epoch, and equal tags mean equal content. */
  ghost predicate OneEpoch(t: Table, edits: seq<Edit>, epoch: string) {
    && epoch != ""
    && (forall k, b :: k in t && b in t[k].endpoints ==> t[k].endpoints[b].Key() == b)
    && (forall k, e :: Version(t, edits, k, e) ==> e.modificationTag.Tag? && e.modificationTag.epoch == epoch)
    && (forall k, e, f ::
          && Version(t, edits, k, e) && Version(t, edits, k, f)
          && e.Key() == f.Key() && e.modificationTag == f.modificationTag
          ==> e == f)
  }

  ghost predicate Known(t: Table, edits: seq<Edit>, k: RoutingKey) {
    k in t || exists e :: Version(t, edits, k, e)
  }

  /** The keys are the known ones, and nothing but the endpoints of an entry changes. */
  ghost predicate SameShape(t: Table, edits: seq<Edit>, result: Table) {
    && (forall k :: k in result <==> Known(t, edits, k))
    && forall k :: k in result ==> result[k].(endpoints := map[]) == Lookup(t, k).(endpoints := map[])
  }

  ghost predicate OnlyVersions(t: Table, edits: seq<Edit>, result: Table) {
    forall k, b :: k in result && b in result[k].endpoints ==>
      result[k].endpoints[b].Key() == b && Version(t, edits, k, result[k].endpoints[b])
  }

  /** `stored` is at least as new as `e`. */
  predicate AtLeast(stored: Backends, e: Endpoint) {
    && e.Key() in stored
    && e.modificationTag.Tag? && stored[e.Key()].modificationTag.Tag?
    && e.modificationTag.index <= stored[e.Key()].modificationTag.index
  }

  ghost predicate NoneNewer(t: Table, edits: seq<Edit>, result: Table) {
    forall k, e :: Version(t, edits, k, e) ==> AtLeast(Lookup(result, k).endpoints, e)
  }

  /** `result` holds, per routing key and endpoint key, the version with the largest index. */
  ghost predicate HoldsNewest(t: Table, edits: seq<Edit>, result: Table) {
    SameShape(t, edits, result) && OnlyVersions(t, edits, result) && NoneNewer(t, edits, result)
  }

  /** The table with the endpoint of a put stored. */
  function Stored(before: Table, put: Edit): Table
    requires put.Put?
  {
    var entry := Lookup(before, put.key);
    before[put.key := entry.(endpoints := entry.endpoints[put.endpoint.Key() := put.endpoint])]
  }

  /** A put either leaves the table alone or stores its endpoint. */
  lemma PutOutcome(t: Table, put: Edit)
    requires put.Put?
    ensures ApplyEdit(t, put).table == if put.Accepted(t) then Stored(t, put) else t
  {
  }

  lemma HoldsNewestStep(t: Table, edits: seq<Edit>, put: Edit, epoch: string, before: Table)
    requires AllPuts(edits) && put.Put? && OneEpoch(t, edits + [put], epoch) && HoldsNewest(t, edits, before)
    ensures HoldsNewest(t, edits + [put], ApplyEdit(before, put).table)
  {
    var k, e := put.key, put.endpoint;
    PutOutcome(before, put);
    EpochOf(t, edits + [put], epoch, k, e) by {
      assert Put(k, e) == put && put in edits + [put];
    }
    if k in before && e.Key() in before[k].endpoints {
      var stored := before[k].endpoints[e.Key()];
      assert Version(t, edits, k, stored);
      VersionSnoc(t, edits, put, k, stored);
      EpochOf(t, edits + [put], epoch, k, stored);
    }
    if put.Accepted(before) {
      StoredShape(t, edits, put, before);
      StoredVersions(t, edits, put, before);
      StoredNewest(t, edits, put, before);
    } else {
      KeepsNewest(t, edits, put, before);
    }
  }

  lemma VersionSnoc(t: Table, edits: seq<Edit>, put: Edit, k: RoutingKey, e: Endpoint)
    requires put.Put?
    ensures Version(t, edits + [put], k, e) <==> Version(t, edits, k, e) || (k == put.key && e == put.endpoint)
  {
    assert Put(k, e) == put <==> k == put.key && e == put.endpoint;
    assert Put(k, e) in edits + [put] <==> Put(k, e) in edits || Put(k, e) == put;
  }

  lemma KnownSnoc(t: Table, edits: seq<Edit>, put: Edit, k: RoutingKey)
    requires put.Put?
    ensures Known(t, edits + [put], k) <==> Known(t, edits, k) || k == put.key
  {
    hide Version;
    forall e
      ensures Version(t, edits + [put], k, e) <==> Version(t, edits, k, e) || (k == put.key && e == put.endpoint)
    {
      VersionSnoc(t, edits, put, k, e);
    }
    if k == put.key {
      assert Version(t, edits + [put], k, put.endpoint);
    }
  }

  lemma StoredShape(t: Table, edits: seq<Edit>, put: Edit, before: Table)
    requires put.Put? && SameShape(t, edits, before)
    ensures SameShape(t, edits + [put], Stored(before, put))
  {
    assert put.key in t ==> Known(t, edits, put.key);
    hide Known;
    forall k ensures Known(t, edits + [put], k) <==> Known(t, edits, k) || k == put.key {
      KnownSnoc(t, edits, put, k);
    }
  }

  lemma StoredVersions(t: Table, edits: seq<Edit>, put: Edit, before: Table)
    requires put.Put? && OnlyVersions(t, edits, before)
    ensures OnlyVersions(t, edits + [put], Stored(before, put))
  {
    hide Version;
    var after := Stored(before, put);
    forall k, b | k in after && b in after[k].endpoints
      ensures after[k].endpoints[b].Key() == b && Version(t, edits + [put], k, after[k].endpoints[b])
    {
      VersionSnoc(t, edits, put, k, after[k].endpoints[b]);
    }
  }

  lemma StoredNewest(t: Table, edits: seq<Edit>, put: Edit, before: Table)
    requires put.Put? && put.endpoint.modificationTag.Tag? && NoneNewer(t, edits, before)
    requires var stored, b := Lookup(before, put.key).endpoints, put.endpoint.Key();
             b in stored ==>
               stored[b].modificationTag.Tag? && stored[b].modificationTag.index < put.endpoint.modificationTag.index
    ensures NoneNewer(t, edits + [put], Stored(before, put))
  {
    hide Version;
    var after := Stored(before, put);
    forall k, e | Version(t, edits + [put], k, e) ensures AtLeast(Lookup(after, k).endpoints, e) {
      VersionSnoc(t, edits, put, k, e);
      assert Version(t, edits, k, e) ==> AtLeast(Lookup(before, k).endpoints, e);
    }
  }

  lemma KeepsNewest(t: Table, edits: seq<Edit>, put: Edit, before: Table)
    requires put.Put? && HoldsNewest(t, edits, before)
    requires AtLeast(Lookup(before, put.key).endpoints, put.endpoint)
    ensures HoldsNewest(t, edits + [put], before)
  {
    hide Version, Known, AtLeast;
    forall k ensures Known(t, edits + [put], k) <==> Known(t, edits, k) {
      KnownSnoc(t, edits, put, k);
      AtLeastMeansStored(before, put);
    }
    forall k, e
      ensures Version(t, edits + [put], k, e) <==> Version(t, edits, k, e) || (k == put.key && e == put.endpoint)
    {
      VersionSnoc(t, edits, put, k, e);
    }
  }

  lemma AtLeastMeansStored(t: Table, put: Edit)
    requires put.Put? && AtLeast(Lookup(t, put.key).endpoints, put.endpoint)
    ensures put.key in t
  {
  }

  lemma EpochOf(t: Table, edits: seq<Edit>, epoch: string, k: RoutingKey, e: Endpoint)
    requires OneEpoch(t, edits, epoch) && Version(t, edits, k, e)
    ensures epoch != "" && e.modificationTag.Tag? && e.modificationTag.epoch == epoch
  {
  }

  lemma OneEpochPrefix(t: Table, edits: seq<Edit>, put: Edit, epoch: string)
    requires OneEpoch(t, edits + [put], epoch)
    ensures OneEpoch(t, edits, epoch)
  {
    assert forall k, e :: Version(t, edits, k, e) ==> Version(t, edits + [put], k, e);
  }

  lemma {:induction false} LargestIndexWins(t: Table, edits: seq<Edit>, epoch: string)
    requires AllPuts(edits) && OneEpoch(t, edits, epoch)
    ensures HoldsNewest(t, edits, ApplyEdits(t, edits).table)
  {
    if edits != [] {
      var n := |edits| - 1;
      var prefix := edits[..n];
      assert edits == prefix + [edits[n]];
      hide ApplyEdit, OneEpoch, HoldsNewest;
      OneEpochPrefix(t, prefix, edits[n], epoch);
      LargestIndexWins(t, prefix, epoch);
      HoldsNewestStep(t, prefix, edits[n], epoch, ApplyEdits(t, prefix).table);
    } else {
      hide ApplyEdit;
    }
  }

  /** The newest versions determine the table. */
  lemma NewestIsUnique(t: Table, edits: seq<Edit>, epoch: string, a: Table, b: Table)
    requires OneEpoch(t, edits, epoch) && HoldsNewest(t, edits, a) && HoldsNewest(t, edits, b)
    ensures a == b
  {
    hide Known, OneEpoch, OnlyVersions, NoneNewer;
    assert a.Keys == b.Keys;
    forall k | k in a ensures a[k] == b[k] {
      forall x ensures x in a[k].endpoints ==> x in b[k].endpoints && a[k].endpoints[x] == b[k].endpoints[x] {
        if x in a[k].endpoints {
          NewestAtKey(t, edits, epoch, a, b, k, x);
        }
      }
      forall x ensures x in b[k].endpoints ==> x in a[k].endpoints {
        if x in b[k].endpoints {
          NewestAtKey(t, edits, epoch, b, a, k, x);
        }
      }
      assert a[k].endpoints == b[k].endpoints;
      assert a[k] == a[k].(endpoints := map[]).(endpoints := a[k].endpoints);
    }
  }

  lemma NewestAtKey(t: Table, edits: seq<Edit>, epoch: string, a: Table, b: Table, k: RoutingKey, x: EndpointKey)
    requires OneEpoch(t, edits, epoch)
    requires OnlyVersions(t, edits, a) && NoneNewer(t, edits, a) && OnlyVersions(t, edits, b) && NoneNewer(t, edits, b)
    requires k in a && k in b && x in a[k].endpoints
    ensures x in b[k].endpoints && a[k].endpoints[x] == b[k].endpoints[x]
  {
    var e := a[k].endpoints[x];
    assert Version(t, edits, k, e);
    var f := b[k].endpoints[x];
    assert Version(t, edits, k, f);
    EpochOf(t, edits, epoch, k, e);
    EpochOf(t, edits, epoch, k, f);
  }

  function Deliveries(actuals: seq<ActualLrp>): (edits: seq<Edit>) {
    if actuals == [] then []
    else Deliveries(actuals[..|actuals| - 1]) + AddEndpoint(actuals[|actuals| - 1])
  }

  lemma DeliveriesSnoc(actuals: seq<ActualLrp>, last: ActualLrp)
    ensures Deliveries(actuals + [last]) == Deliveries(actuals) + AddEndpoint(last)
  {
    hide AddEndpoint;
    assert (actuals + [last])[..|actuals|] == actuals;
  }

  /** The actual LRP gives rise to the edit. */
  ghost predicate Delivers(a: ActualLrp, e: Edit) {
    e in AddEndpoint(a)
  }

  lemma {:induction false} DeliveryEdit(actuals: seq<ActualLrp>, e: Edit)
    ensures e in Deliveries(actuals) <==> exists a :: a in actuals && Delivers(a, e)
  {
    if actuals != [] {
      hide Delivers, Deliveries;
      var prefix, last := actuals[..|actuals| - 1], actuals[|actuals| - 1];
      DeliveryEdit(prefix, e);
      assert actuals == prefix + [last];
      DeliveryEditSnoc(prefix, last, e);
      if a :| a in prefix && Delivers(a, e) {
        InSnoc(prefix, last, a);
      }
      if a :| a in actuals && Delivers(a, e) {
        InSnoc(prefix, last, a);
      }
    }
  }

  lemma DeliveryEditSnoc(actuals: seq<ActualLrp>, last: ActualLrp, e: Edit)
    ensures e in Deliveries(actuals + [last]) <==> e in Deliveries(actuals) || Delivers(last, e)
  {
    hide AddEndpoint, Deliveries;
    DeliveriesSnoc(actuals, last);
  }

  lemma DeliveriesArePuts(actuals: seq<ActualLrp>)
    ensures AllPuts(Deliveries(actuals))
  {
    hide Deliveries, Delivers;
    forall e | e in Deliveries(actuals) ensures e.Put? {
      DeliveryEdit(actuals, e);
      var a :| a in actuals && Delivers(a, e);
      DeliversPut(a, e);
    }
  }

  lemma DeliversPut(a: ActualLrp, e: Edit)
    requires Delivers(a, e)
    ensures e.Put?
  {
  }

  /** Every delivery order, with any duplication, ends in the same table, which holds the newest versions. */
  lemma DeliveryOrdersConverge(t: Table, a: seq<ActualLrp>, b: seq<ActualLrp>, epoch: string)
    requires OneEpoch(t, Deliveries(a), epoch)
    requires forall x :: x in a <==> x in b
    ensures ApplyEdits(t, Deliveries(a)).table == ApplyEdits(t, Deliveries(b)).table
    ensures HoldsNewest(t, Deliveries(a), ApplyEdits(t, Deliveries(a)).table)
  {
    hide Deliveries, ApplyEdits, Delivers, OneEpoch, HoldsNewest;
    var p, q := Deliveries(a), Deliveries(b);
    forall e ensures e in p <==> e in q {
      DeliveryEdit(a, e);
      DeliveryEdit(b, e);
    }
    DeliveriesArePuts(a);
    DeliveriesArePuts(b);
    SameVersions(t, p, q, epoch);
    LargestIndexWins(t, p, epoch);
    LargestIndexWins(t, q, epoch);
    SameNewest(t, p, q, ApplyEdits(t, q).table);
    NewestIsUnique(t, p, epoch, ApplyEdits(t, p).table, ApplyEdits(t, q).table);
  }

  lemma SameVersions(t: Table, p: seq<Edit>, q: seq<Edit>, epoch: string)
    requires OneEpoch(t, p, epoch) && forall e :: e in p <==> e in q
    ensures OneEpoch(t, q, epoch)
  {
    assert forall k, e :: Version(t, q, k, e) <==> Version(t, p, k, e);
  }

  lemma SameNewest(t: Table, p: seq<Edit>, q: seq<Edit>, result: Table)
    requires HoldsNewest(t, q, result) && forall e :: e in p <==> e in q
    ensures HoldsNewest(t, p, result)
  {
    assert forall k, e :: Version(t, q, k, e) <==> Version(t, p, k, e);
  }

  /** Delivering again anything already delivered changes nothing and emits nothing. */
  lemma RedeliveryIsSilent(t: Table, edits: seq<Edit>, epoch: string, put: Edit)
    requires AllPuts(edits) && OneEpoch(t, edits, epoch) && put in edits
    ensures var now := ApplyEdits(t, edits).table;
            ApplyEdit(now, put) == Outcome(now, [])
  {
    LargestIndexWins(t, edits, epoch);
    hide ApplyEdits, ApplyMerge, OneEpoch;
    var now := ApplyEdits(t, edits).table;
    var k, e := put.key, put.endpoint;
    assert Put(k, e) == put && Version(t, edits, k, e);
    var stored := now[k].endpoints[e.Key()];
    assert Version(t, edits, k, stored);
    EpochOf(t, edits, epoch, k, e);
    EpochOf(t, edits, epoch, k, stored);
  }
}
