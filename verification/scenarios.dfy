/**
 * Client code that follows the repository's own unit-test scenarios step by step and
 * shows that the contracts of the pools and of the service alone determine the outcomes
 * those scenarios expect.
 */
module Scenarios {
  import opened Wrappers
  import opened Instances
  import opened Pools
  import opened Skygrid
  import Billing
  import Seqs

  /** An empty hub pool yields nothing. */
  method EmptyHubPoolYieldsNothing(now: int) {
    var pool := new HubPool();
    var none := pool.GetPooledHub("m3.medium", now);
    assert none.None? && pool.PoolSize() == 0;
  }

  /**
   * Two m3.medium hubs with 30 and 10 minutes left and one m3.large hub with 20 minutes
   * left: asking for an m3.medium hub yields the one with 10 minutes left.
   */
  method HubPoolTakesSoonestOfType(now: int) {
    var hub1 := new Hub("i-1", "m3.medium", now - 30 * 60, "10.0.0.1", 1);
    var hub2 := new Hub("i-2", "m3.medium", now - 50 * 60, "10.0.0.2", 1);
    var hub3 := new Hub("i-3", "m3.large", now - 40 * 60, "10.0.0.3", 1);
    Billing.TimeUntilHourExamples(now);
    var pool := new HubPool();
    pool.AddToPool(hub1);
    pool.AddToPool(hub2);
    pool.AddToPool(hub3);

    var got := pool.GetPooledHub("m3.medium", now);
    assert got == Some(hub2) && Billing.TimeUntilHour(now, got.value.creationTime) == 10;
    assert pool.PoolSize() == 2;
  }

  /**
   * What remains of that pool: the m3.large hub comes only to a request for m3.large, and
   * then the last m3.medium hub empties the pool.
   */
  method HubPoolTakesByType(now: int) {
    var hub1 := new Hub("i-1", "m3.medium", now - 30 * 60, "10.0.0.1", 1);
    var hub3 := new Hub("i-3", "m3.large", now - 40 * 60, "10.0.0.3", 1);
    Billing.TimeUntilHourExamples(now);
    var pool := new HubPool();
    pool.AddToPool(hub1);
    pool.AddToPool(hub3);

    var got := pool.GetPooledHub("m3.large", now);
    assert got == Some(hub3) && Billing.TimeUntilHour(now, got.value.creationTime) == 20;
    assert pool.hubs == [hub1];

    got := pool.GetPooledHub("m3.medium", now);
    assert got == Some(hub1) && pool.PoolSize() == 0;
  }

  /**
   * A one-node grid is allocated from empty pools, then finished twice: after the first
   * finish each pool holds one resource, and the second finish changes nothing.
   */
  method FinishingTwiceDoesNotDuplicate(now: int) {
    var config := Config(20, 3, "m3.medium", 300, 300, Billing.DefaultReclaimBand, 60);
    var service := new SkygridOnDemand(config);
    var hub := new Hub("i-hub", "m3.medium", now, "10.0.0.1", 1);
    var node := Node("i-node", now, "10.0.0.2");

    assert ValidateAllocation(IntValue(1), "tas_harnesses", 20, 3) == Ok(1);
    var r := service.AllocateGrid(IntValue(1), "tas_harnesses", now, hub, [node]);
    assert r.Ok?;
    assert r == Ok("i-hub");
    assert service.activeGrids["i-hub"].hub == hub && hub.nodes == [node];
    assert service.hubPool.PoolSize() == 0 && service.nodePool.PoolSize() == 0;

    service.FinishWithGrid("i-hub");
    assert service.hubPool.PoolSize() == 1 && service.nodePool.PoolSize() == 1;
    assert hub.nodes == [] && hub.requestedNodeSize == 0;

    service.FinishWithGrid("i-hub");
    assert service.hubPool.PoolSize() == 1 && service.nodePool.PoolSize() == 1;
  }

  /**
   * A hub is provisioned for five nodes and given five fresh nodes without being allocated
   * to a team; finishing it by its id still returns the hub and all five nodes to the pools.
   */
  method ProvisionedGridCanBeFinished(now: int) {
    var config := Config(20, 3, "m3.medium", 300, 300, Billing.DefaultReclaimBand, 60);
    var service := new SkygridOnDemand(config);
    var hub := new Hub("i-hub", "m3.medium", now, "10.0.0.1", 0);
    service.SpinupHub(hub, 5, now);
    var nodes := [Node("i-n1", now, "10.0.1.1"), Node("i-n2", now, "10.0.1.2"), Node("i-n3", now, "10.0.1.3"),
                  Node("i-n4", now, "10.0.1.4"), Node("i-n5", now, "10.0.1.5")];
    service.SpinupNodes(nodes, hub);
    assert service.hubPool.PoolSize() == 0 && service.nodePool.PoolSize() == 0;
    assert hub.nodes == nodes && hub.requestedNodeSize == 5;

    service.FinishWithGrid(hub.instanceId);
    assert service.hubPool.PoolSize() == 1 && service.nodePool.PoolSize() == 5;
    assert hub.nodes == [] && hub.requestedNodeSize == 0;
  }

  /** Finishing a grid twice leaves the pools as finishing it once does. */
  method FinishWithGridTwice(service: SkygridOnDemand, hubId: string)
    requires service.Valid()
    modifies service, service.hubPool, service.nodePool,
             if hubId in service.activeGrids then {service.activeGrids[hubId].hub} else {}
    ensures service.Valid() && hubId !in service.activeGrids
    ensures |service.hubPool.hubs| == |old(service.hubPool.hubs)| + (if hubId in old(service.activeGrids) then 1 else 0)
    ensures hubId in old(service.activeGrids) ==>
              |service.nodePool.nodes| == |old(service.nodePool.nodes)| + |old(service.activeGrids[hubId].hub.nodes)|
    ensures hubId !in old(service.activeGrids) ==> service.nodePool.nodes == old(service.nodePool.nodes)
  {
    service.FinishWithGrid(hubId);
    service.FinishWithGrid(hubId);
  }

  /**
   * The fleet of the teardown scenario: hubs created 55, 57 and 59 minutes ago are
   * provisioned, one, three and one node strong, and filed under their ids.
   */
  method ProvisionTeardownFleet(now: int) returns (service: SkygridOnDemand, h55: Hub, h57: Hub, h59: Hub)
    ensures fresh(service) && fresh(service.hubPool) && fresh(service.nodePool)
    ensures fresh(h55) && fresh(h57) && fresh(h59)
    ensures service.Valid() && service.config.reclaimBand == Billing.DefaultReclaimBand
    ensures service.hubPool.hubs == [] && service.nodePool.nodes == []
    ensures service.activeGrids.Keys == {h55.instanceId, h57.instanceId, h59.instanceId}
    ensures h55.instanceId != h57.instanceId && h55.instanceId != h59.instanceId && h57.instanceId != h59.instanceId
    ensures h55.creationTime == now - 55 * 60 && h57.creationTime == now - 57 * 60 && h59.creationTime == now - 59 * 60
  {
    var config := Config(20, 3, "m3.medium", 300, 300, Billing.DefaultReclaimBand, 60);
    service := new SkygridOnDemand(config);
    h55 := new Hub("i-h55", "m3.medium", now - 55 * 60, "10.0.0.55", 0);
    h57 := new Hub("i-h57", "m3.medium", now - 57 * 60, "10.0.0.57", 0);
    h59 := new Hub("i-h59", "m3.medium", now - 59 * 60, "10.0.0.59", 0);
    service.SpinupHub(h55, 1, now);
    service.SpinupHub(h57, 3, now);
    service.SpinupHub(h59, 1, now);
  }

  /** The three provisioned hubs are finished in turn and land in the hub pool in that order. */
  method FinishTeardownHubs(service: SkygridOnDemand, h55: Hub, h57: Hub, h59: Hub)
    requires service.Valid() && service.hubPool.hubs == []
    requires service.activeGrids.Keys == {h55.instanceId, h57.instanceId, h59.instanceId}
    requires h55.instanceId != h57.instanceId && h55.instanceId != h59.instanceId && h57.instanceId != h59.instanceId
    modifies service, service.hubPool, h55, h57, h59
    ensures service.Valid()
    ensures service.activeGrids == map[] && service.hubPool.hubs == [h55, h57, h59]
  {
    service.FinishWithHub(h55);
    service.FinishWithHub(h57);
    service.FinishWithHub(h59);
  }

  /**
   * Replays the teardown scenario: three hubs and three nodes, created 55, 57 and 59 minutes
   * ago, are provisioned and returned to the pools; the sweep then keeps the pair with
   * 5 minutes left and the pair with 1 minute left, and tears down the pair with 3 minutes
   * left, inside the reclaim window.
   */
  method AutoTeardown(now: int) {
    var service, h55, h57, h59 := ProvisionTeardownFleet(now);
    var n55 := Node("i-n55", now - 55 * 60, "10.0.1.55");
    var n57 := Node("i-n57", now - 57 * 60, "10.0.1.57");
    var n59 := Node("i-n59", now - 59 * 60, "10.0.1.59");
    service.SpinupNodes([n55, n57, n59], h57);
    FinishTeardownHubs(service, h55, h57, h59);
    service.FinishWithNode(n55);
    service.FinishWithNode(n57);
    service.FinishWithNode(n59);
    assert service.nodePool.nodes == [n55, n57, n59];

    Billing.TimeUntilHourExamples(now);
    Seqs.SweepOfThreeMiddle(h55, h57, h59, KeepHub(now, service.config.reclaimBand));
    Seqs.SweepOfThreeMiddle(n55, n57, n59, KeepNode(now, service.config.reclaimBand));
    var hubsGone, nodesGone := service.OffToTheCloudInTheSky(now);
    assert service.hubPool.hubs == [h55, h59] && hubsGone == [h57];
    assert service.nodePool.nodes == [n55, n59] && nodesGone == [n57];
    assert service.hubPool.PoolSize() == 2 && service.nodePool.PoolSize() == 2;
  }

  /** A node's minutes until its next billing hour, as the node pool ranks it. */
  function Left(now: int, n: Node): int {
    Billing.TimeUntilHour(now, n.creationTime)
  }

  /**
   * When a draw takes at least one node, the pooled node strictly soonest to its billing hour
   * is among those taken.
   */
  lemma {:induction false} SoonestIsTaken(now: int, taken: seq<Node>, rest: seq<Node>, pool: multiset<Node>, m: Node)
    requires multiset(taken) + multiset(rest) == pool && m in pool && taken != []
    requires forall a, n :: 0 <= a < |taken| && n in rest ==> Left(now, taken[a]) <= Left(now, n)
    requires forall n :: n in pool && n != m ==> Left(now, m) < Left(now, n)
    ensures m in taken
  {
    var x := taken[0];
    assert x in multiset(taken);
    if x != m {
      assert Left(now, m) < Left(now, x);
      assert m !in rest;
      assert m in multiset(taken);
    }
  }

  /**
   * When a draw leaves at least one node, the pooled node strictly latest to its billing hour
   * is among those left.
   */
  lemma {:induction false} LatestStays(now: int, taken: seq<Node>, rest: seq<Node>, pool: multiset<Node>, m: Node)
    requires multiset(taken) + multiset(rest) == pool && m in pool && rest != []
    requires forall a, n :: 0 <= a < |taken| && n in rest ==> Left(now, taken[a]) <= Left(now, n)
    requires forall n :: n in pool && n != m ==> Left(now, n) < Left(now, m)
    ensures m in rest
  {
    var y := rest[0];
    assert y in multiset(rest);
    if y != m {
      assert Left(now, y) < Left(now, m);
      assert m !in taken;
      assert m in multiset(rest);
    }
  }

  /** A node of the pool before a draw is, after it, either taken or still pooled. */
  lemma {:induction false} TakenOrLeft(taken: seq<Node>, rest: seq<Node>, pool: multiset<Node>, x: Node)
    requires multiset(taken) + multiset(rest) == pool && x in pool
    ensures x in taken || x in rest
  {
    assert pool[x] == multiset(taken)[x] + multiset(rest)[x];
    if multiset(taken)[x] == 0 {
      assert x in multiset(rest);
    } else {
      assert x in multiset(taken);
    }
  }

  /** Three nodes drawn in order of their minutes left, from nodes `a`, `b`, `c` ranked that way. */
  lemma {:induction false} DrawnInOrder(now: int, t: seq<Node>, a: Node, b: Node, c: Node)
    requires |t| == 3 && a in t && b in t && c in t
    requires Left(now, a) < Left(now, b) < Left(now, c)
    requires forall i, j :: 0 <= i < j < |t| ==> Left(now, t[i]) <= Left(now, t[j])
    ensures t == [a, b, c]
  {
    var ia :| 0 <= ia < 3 && t[ia] == a;
    var ib :| 0 <= ib < 3 && t[ib] == b;
    var ic :| 0 <= ic < 3 && t[ic] == c;
    assert ia < ib < ic;
  }

  /**
   * The first draw of the draining scenario: one node taken from the five with 30, 40, 10, 50
   * and 20 minutes left is the one with 10, and the other four stay.
   */
  lemma {:induction false} FirstDraw(now: int, taken: seq<Node>, rest: seq<Node>,
                                     n1: Node, n2: Node, n3: Node, n4: Node, n5: Node)
    requires multiset(taken) + multiset(rest) == multiset([n1, n2, n3, n4, n5]) && |taken| == 1
    requires forall a, n :: 0 <= a < |taken| && n in rest ==> Left(now, taken[a]) <= Left(now, n)
    requires Left(now, n1) == 30 && Left(now, n2) == 40 && Left(now, n3) == 10
    requires Left(now, n4) == 50 && Left(now, n5) == 20
    ensures taken == [n3]
    ensures n1 in rest && n2 in rest && n4 in rest && n5 in rest
    ensures forall n :: n in rest ==> n == n1 || n == n2 || n == n4 || n == n5
  {
    SoonestIsTaken(now, taken, rest, multiset([n1, n2, n3, n4, n5]), n3);
    assert taken == [n3];
    forall n | n in rest
      ensures n == n1 || n == n2 || n == n4 || n == n5
    {
      assert n in multiset([n1, n2, n3, n4, n5]);
      assert Left(now, n3) <= Left(now, n);
    }
    TakenOrLeft(taken, rest, multiset([n1, n2, n3, n4, n5]), n1);
    TakenOrLeft(taken, rest, multiset([n1, n2, n3, n4, n5]), n2);
    TakenOrLeft(taken, rest, multiset([n1, n2, n3, n4, n5]), n4);
    TakenOrLeft(taken, rest, multiset([n1, n2, n3, n4, n5]), n5);
  }

  /**
   * The second draw of the draining scenario: three nodes taken from the four with 30, 40, 50
   * and 20 minutes left come out with 20, 30 and 40, in that order, and the one with 50 stays.
   */
  lemma {:induction false} SecondDraw(now: int, taken: seq<Node>, rest: seq<Node>, pool: seq<Node>,
                                      n1: Node, n2: Node, n4: Node, n5: Node)
    requires multiset(taken) + multiset(rest) == multiset(pool)
    requires n1 in pool && n2 in pool && n4 in pool && n5 in pool
    requires forall n :: n in pool ==> n == n1 || n == n2 || n == n4 || n == n5
    requires |taken| == 3 && |rest| == 1
    requires forall a, b :: 0 <= a < b < |taken| ==> Left(now, taken[a]) <= Left(now, taken[b])
    requires forall a, n :: 0 <= a < |taken| && n in rest ==> Left(now, taken[a]) <= Left(now, n)
    requires Left(now, n1) == 30 && Left(now, n2) == 40 && Left(now, n4) == 50 && Left(now, n5) == 20
    ensures rest == [n4] && taken == [n5, n1, n2]
  {
    forall n | n in multiset(pool) && n != n4
      ensures Left(now, n) < Left(now, n4)
    {
      assert n in pool;
    }
    LatestStays(now, taken, rest, multiset(pool), n4);
    assert rest == [n4] by { assert rest[0] in rest; }
    TakenOrLeft(taken, rest, multiset(pool), n1);
    TakenOrLeft(taken, rest, multiset(pool), n2);
    TakenOrLeft(taken, rest, multiset(pool), n5);
    DrawnInOrder(now, taken, n5, n1, n2);
  }

  /** The pool of the draining scenario: five nodes with 30, 40, 10, 50 and 20 minutes left, in that order. */
  method FillNodePool(now: int) returns (pool: NodePool, n1: Node, n2: Node, n3: Node, n4: Node, n5: Node)
    ensures fresh(pool) && pool.nodes == [n1, n2, n3, n4, n5]
    ensures Left(now, n1) == 30 && Left(now, n2) == 40 && Left(now, n3) == 10
    ensures Left(now, n4) == 50 && Left(now, n5) == 20
  {
    n1 := Node("i-1", now - 30 * 60, "10.0.1.1");
    n2 := Node("i-2", now - 20 * 60, "10.0.1.2");
    n3 := Node("i-3", now - 50 * 60, "10.0.1.3");
    n4 := Node("i-4", now - 10 * 60, "10.0.1.4");
    n5 := Node("i-5", now - 40 * 60, "10.0.1.5");
    Billing.TimeUntilHourExamples(now);
    pool := new NodePool();
    pool.AddToPool(n1);
    pool.AddToPool(n2);
    pool.AddToPool(n3);
    pool.AddToPool(n4);
    pool.AddToPool(n5);
  }

  /**
   * Those five nodes are drawn one, then three, then one at a time: the first draw yields the
   * node with 10 minutes left, the second those with 20, 30 and 40 in that order, and the
   * last the one with 50, which empties the pool.
   */
  method NodePoolDrainsSoonestFirst(now: int) {
    var pool, n1, n2, n3, n4, n5 := FillNodePool(now);
    assert pool.PoolSize() == 5;

    var taken := pool.GetPooledNodes(1, now);
    FirstDraw(now, taken, pool.nodes, n1, n2, n3, n4, n5);
    assert Left(now, taken[0]) == 10 && pool.PoolSize() == 4;

    ghost var four := pool.nodes;
    taken := pool.GetPooledNodes(3, now);
    SecondDraw(now, taken, pool.nodes, four, n1, n2, n4, n5);
    assert Left(now, taken[0]) == 20 && Left(now, taken[1]) == 30 && Left(now, taken[2]) == 40;
    assert pool.PoolSize() == 1;

    taken := pool.GetPooledNodes(1, now);
    assert taken[0] in multiset([n4]);
    assert Left(now, taken[0]) == 50 && pool.PoolSize() == 0;
  }
}
