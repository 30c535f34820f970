/**
 * The warm pools of idle hubs and idle nodes. Taking from a pool is billing-aware: the
 * member chosen is the one with the fewest minutes left before its next billed hour, so
 * time already paid for is used before it is forfeited.
 */
module Pools {
  import opened Wrappers
  import opened Instances
  import Billing
  import Seqs

  /** The pool of idle hubs (`hub_pool`), taken from by instance type. */
  class HubPool {
    var hubs: seq<Hub>

    constructor ()
      ensures hubs == []
    {
      hubs := [];
    }

    /** `get_pool_size()`. */
    function PoolSize(): (size: nat)
      reads this
      ensures size == |multiset(hubs)|
      ensures size == 0 <==> hubs == []
    {
      |hubs|
    }

    /** `add_to_pool(hub)`: inserts unconditionally. */
    method AddToPool(hub: Hub)
      modifies this
      ensures hubs == old(hubs) + [hub]
    {
      hubs := hubs + [hub];
    }

    /**
     * `get_pooled_hub(instance_type)`: removes and returns the pooled hub of that type with
     * the smallest time-until-hour; None, with the pool untouched, when no hub has that type.
     */
    method GetPooledHub(instanceType: string, now: int) returns (r: Option<Hub>)
      modifies this
      ensures r.None? <==> forall h :: h in old(hubs) ==> h.instanceType != instanceType
      ensures r.None? ==> hubs == old(hubs)
      ensures r.Some? ==> r.value in old(hubs) && r.value.instanceType == instanceType
      ensures r.Some? ==> forall h :: h in old(hubs) && h.instanceType == instanceType ==>
                Billing.TimeUntilHour(now, r.value.creationTime) <= Billing.TimeUntilHour(now, h.creationTime)
      ensures r.Some? ==> exists k :: 0 <= k < |old(hubs)| && old(hubs)[k] == r.value
                                      && hubs == old(hubs)[..k] + old(hubs)[k + 1..]
      ensures r.Some? ==> |hubs| == |old(hubs)| - 1
      ensures r.Some? ==> multiset(hubs) + multiset{r.value} == multiset(old(hubs))
    {
      var k := Seqs.IndexOfSoonest(hubs, (h: Hub) => Billing.TimeUntilHour(now, h.creationTime),
                                   (h: Hub) => h.instanceType == instanceType);
      if k.None? {
        r := None;
      } else {
        var i := k.value;
        r := Some(hubs[i]);
        assert hubs == hubs[..i] + [hubs[i]] + hubs[i + 1..];
        hubs := hubs[..i] + hubs[i + 1..];
      }
    }
  }

  /** The pool of idle nodes (`node_pool`); nodes are interchangeable apart from their age. */
  class NodePool {
    var nodes: seq<Node>

    constructor ()
      ensures nodes == []
    {
      nodes := [];
    }

    /** `get_pool_size()`. */
    function PoolSize(): (size: nat)
      reads this
      ensures size == |multiset(nodes)|
      ensures size == 0 <==> nodes == []
    {
      |nodes|
    }

    /** `add_to_pool(node)`: inserts unconditionally. */
    method AddToPool(node: Node)
      modifies this
      ensures nodes == old(nodes) + [node]
    {
      nodes := nodes + [node];
    }

    /** `get_pooled_node()`: removes and returns the node with the smallest time-until-hour; None on an empty pool. */
    method GetPooledNode(now: int) returns (r: Option<Node>)
      modifies this
      ensures r.None? <==> old(nodes) == []
      ensures r.None? ==> nodes == old(nodes)
      ensures r.Some? ==> forall n :: n in old(nodes) ==>
                Billing.TimeUntilHour(now, r.value.creationTime) <= Billing.TimeUntilHour(now, n.creationTime)
      ensures r.Some? ==> exists k :: 0 <= k < |old(nodes)| && old(nodes)[k] == r.value
                                      && nodes == old(nodes)[..k] + old(nodes)[k + 1..]
      ensures r.Some? ==> |nodes| == |old(nodes)| - 1
      ensures r.Some? ==> r.value in old(nodes) && forall n :: n in nodes ==> n in old(nodes)
      ensures r.Some? ==> multiset(nodes) + multiset{r.value} == multiset(old(nodes))
    {
      var k := Seqs.IndexOfSoonest(nodes, (n: Node) => Billing.TimeUntilHour(now, n.creationTime), (n: Node) => true);
      if k.None? {
        r := None;
      } else {
        var i := k.value;
        r := Some(nodes[i]);
        assert nodes == nodes[..i] + [nodes[i]] + nodes[i + 1..];
        nodes := nodes[..i] + nodes[i + 1..];
      }
    }

    /**
     * `get_pooled_nodes(number_of_nodes)`: takes nodes one at a time, each the soonest to
     * cross its hour, so they come out in ascending time-until-hour order. Stops early when
     * the pool runs dry, so the caller must look at how many it got.
     */
    method GetPooledNodes(numberOfNodes: nat, now: int) returns (taken: seq<Node>)
      modifies this
      ensures |taken| == if numberOfNodes <= |old(nodes)| then numberOfNodes else |old(nodes)|
      ensures |nodes| == |old(nodes)| - |taken|
      ensures multiset(taken) + multiset(nodes) == multiset(old(nodes))
      ensures forall a, b :: 0 <= a < b < |taken| ==>
                Billing.TimeUntilHour(now, taken[a].creationTime) <= Billing.TimeUntilHour(now, taken[b].creationTime)
      ensures forall a, n :: 0 <= a < |taken| && n in nodes ==>
                Billing.TimeUntilHour(now, taken[a].creationTime) <= Billing.TimeUntilHour(now, n.creationTime)
    {
      taken := [];
      while |taken| < numberOfNodes && nodes != []
        invariant |taken| <= numberOfNodes
        invariant |taken| + |nodes| == |old(nodes)|
        invariant multiset(taken) + multiset(nodes) == multiset(old(nodes))
        invariant TakenInOrder(taken, nodes, now)
        decreases |nodes|
      {
        ghost var before := nodes;
        var r := GetPooledNode(now);
        TakeSoonest(taken, before, nodes, r.value, now);
        assert multiset(taken + [r.value]) == multiset(taken) + multiset{r.value};
        taken := taken + [r.value];
      }
    }
  }

  /**
   * `taken` is in ascending time-until-hour order and no node still in `rest` crosses its
   * hour sooner than any node already taken.
   */
  predicate TakenInOrder(taken: seq<Node>, rest: seq<Node>, now: int) {
    && (forall a, b :: 0 <= a < b < |taken| ==>
          Billing.TimeUntilHour(now, taken[a].creationTime) <= Billing.TimeUntilHour(now, taken[b].creationTime))
    && (forall a, n :: 0 <= a < |taken| && n in rest ==>
          Billing.TimeUntilHour(now, taken[a].creationTime) <= Billing.TimeUntilHour(now, n.creationTime))
  }

  /** Taking the soonest node of the pool keeps the taken nodes in order. */
  lemma TakeSoonest(taken: seq<Node>, before: seq<Node>, after: seq<Node>, x: Node, now: int)
    requires TakenInOrder(taken, before, now)
    requires x in before && forall n :: n in after ==> n in before
    requires forall n :: n in before ==> Billing.TimeUntilHour(now, x.creationTime) <= Billing.TimeUntilHour(now, n.creationTime)
    ensures TakenInOrder(taken + [x], after, now)
  {
  }
}
