/**
 * The on-demand grid service (`SkygridOnDemand`): the registry of active grids, the warm
 * pools behind it, allocation and release of grids, and the two background sweeps that
 * reclaim abandoned grids and tear down pooled instances near a billing boundary.
 *
 * The clock is an input (`now`, in seconds). The cloud provider is not modelled: a hub or
 * nodes it would provision are handed to `AllocateGrid` by its caller, and resources torn
 * down by the sweep are returned to the caller to terminate.
 */
module Skygrid {
  import opened Wrappers
  import opened Instances
  import opened Pools
  import Billing
  import Seqs
  import Healthcheck
  import SkygridCalls

  /** The configuration values the service reads. */
  datatype Config = Config(
    maxNumberOfNodes: nat,
    minTeamLength: nat,
    hubInstanceType: string,
    abandonIdleThreshold: int,
    abandonGracePeriod: int,
    reclaimBand: Billing.Band,
    stalenessBudget: int)

  /** A request argument as it may arrive: an integer, or anything else (here, text). */
  datatype RequestValue = IntValue(i: int) | TextValue(s: string)

  /** Which argument check of an allocation request failed. */
  datatype RequestProblem = NotAnInteger | NotPositive | AboveMaximum | NoTeam | TeamTooShort

  /** Why an allocation was refused: bad arguments (an assertion failure in the service), or no capacity. */
  datatype AllocationError = InvalidRequest(problem: RequestProblem) | ProvisioningFailure

  /** An active grid: its hub (which holds the nodes), the owning team and when it was assigned. */
  datatype Grid = Grid(hub: Hub, team: string, assignedAt: int)

  /**
   * The checks `allocate_grid` makes before touching any pool: the node count is an integer
   * from 1 to the configured maximum and the team name is non-empty and long enough.
   */
  function ValidateAllocation(numberOfNodes: RequestValue, team: string, maxNumberOfNodes: nat, minTeamLength: nat)
    : (r: Result<nat, AllocationError>)
    ensures r.Ok? <==> && numberOfNodes.IntValue?
                       && 1 <= numberOfNodes.i <= maxNumberOfNodes
                       && team != [] && |team| >= minTeamLength
    ensures r.Ok? ==> r.value == numberOfNodes.i
    ensures r.Err? ==> r.error.InvalidRequest?
    ensures r == Err(InvalidRequest(NotAnInteger)) <==> numberOfNodes.TextValue?
    ensures numberOfNodes.IntValue? && numberOfNodes.i <= 0 ==> r == Err(InvalidRequest(NotPositive))
    ensures r == Err(InvalidRequest(TeamTooShort)) ==> team != [] && |team| < minTeamLength
  {
    match numberOfNodes
    case TextValue(_) => Err(InvalidRequest(NotAnInteger))
    case IntValue(n) =>
      if n <= 0 then Err(InvalidRequest(NotPositive))
      else if n > maxNumberOfNodes then Err(InvalidRequest(AboveMaximum))
      else if team == [] then Err(InvalidRequest(NoTeam))
      else if |team| < minTeamLength then Err(InvalidRequest(TeamTooShort))
      else Ok(n)
  }

  /**
   * Every rejection the allocation endpoint is expected to make, and the two boundary
   * requests it must accept, for any maximum of at least one and any minimum team length
   * from 2 to 11.
   */
  lemma ValidateAllocationBoundaries(maxNodes: nat, minTeamLength: nat, n: int, text: string, shortTeam: string)
    requires maxNodes >= 1 && 2 <= minTeamLength <= 11
    requires 1 <= |shortTeam| < minTeamLength
    ensures n <= 0 ==> ValidateAllocation(IntValue(n), "tas_testing", maxNodes, minTeamLength)
                         == Err(InvalidRequest(NotPositive))
    ensures n > maxNodes ==> ValidateAllocation(IntValue(n), "tas_testing", maxNodes, minTeamLength)
                               == Err(InvalidRequest(AboveMaximum))
    ensures ValidateAllocation(TextValue(text), "tas_testing", maxNodes, minTeamLength) == Err(InvalidRequest(NotAnInteger))
    ensures ValidateAllocation(IntValue(1), "", maxNodes, minTeamLength) == Err(InvalidRequest(NoTeam))
    ensures ValidateAllocation(IntValue(1), shortTeam, maxNodes, minTeamLength) == Err(InvalidRequest(TeamTooShort))
    ensures ValidateAllocation(IntValue(1), "tas_testing", maxNodes, minTeamLength) == Ok(1)
    ensures ValidateAllocation(IntValue(maxNodes), "tas_testing", maxNodes, minTeamLength) == Ok(maxNodes)
  {
  }

  /**
   * `is_grid_abandoned(idle_time, assigned_time)`: a grid is abandoned only when it has been
   * idle for at least the idle threshold AND was assigned at least the grace period ago,
   * so a freshly assigned grid is never reclaimed, however idle. Both default to 300 seconds.
   */
  function IsGridAbandoned(idleTime: int, assignedTime: int, idleThreshold: int := 300, gracePeriod: int := 300)
    : (abandoned: bool)
    ensures abandoned ==> idleTime >= idleThreshold
    ensures abandoned ==> assignedTime >= gracePeriod
    ensures idleTime >= idleThreshold && assignedTime >= gracePeriod ==> abandoned
  {
    idleTime >= idleThreshold && assignedTime >= gracePeriod
  }

  /** The decisions on the sample grids: busy or recently assigned grids are kept, long-idle old ones reclaimed. */
  lemma IsGridAbandonedExamples()
    ensures !IsGridAbandoned(0, 0) && !IsGridAbandoned(0, 299) && !IsGridAbandoned(0, 1000)
    ensures !IsGridAbandoned(400, 0) && !IsGridAbandoned(699, 299)
    ensures IsGridAbandoned(300, 360) && IsGridAbandoned(300, 1000)
    ensures IsGridAbandoned(1000, 360) && IsGridAbandoned(1000, 1000)
  {
  }

  /** A grid whose nodes report a busy session is never abandoned, whatever the thresholds, as long as the idle threshold is positive. */
  lemma {:induction false} BusyGridIsNotAbandoned(nodes: seq<SkygridCalls.NodeStatus>, assignedTime: int,
                                                  idleThreshold: int, gracePeriod: int)
    requires SkygridCalls.AnyBusy(nodes)
    requires idleThreshold > 0
    ensures !IsGridAbandoned(SkygridCalls.GridIdleTime(nodes).value, assignedTime, idleThreshold, gracePeriod)
  {
    assert SkygridCalls.GridIdleTime(nodes) == Ok(0);
  }

  /** Staying idle longer, or having been assigned longer, never turns an abandoned grid back into a live one. */
  lemma IsGridAbandonedMonotone(idleTime: int, assignedTime: int, laterIdleTime: int, laterAssignedTime: int,
                                idleThreshold: int, gracePeriod: int)
    requires IsGridAbandoned(idleTime, assignedTime, idleThreshold, gracePeriod)
    requires idleTime <= laterIdleTime && assignedTime <= laterAssignedTime
    ensures IsGridAbandoned(laterIdleTime, laterAssignedTime, idleThreshold, gracePeriod)
  {
  }

  /** Whether a pooled resource created at `created` survives the teardown sweep at `now`. */
  predicate OutsideReclaimBand(now: int, created: int, band: Billing.Band) {
    !Billing.InBand(Billing.TimeUntilHour(now, created), band)
  }

  function KeepHub(now: int, band: Billing.Band): Hub -> bool {
    (h: Hub) => OutsideReclaimBand(now, h.creationTime, band)
  }

  function KeepNode(now: int, band: Billing.Band): Node -> bool {
    (n: Node) => OutsideReclaimBand(now, n.creationTime, band)
  }

  /**
   * After a teardown sweep a pooled node is still pooled exactly when its time-until-hour
   * lies outside the reclaim band, and the kept and torn-down nodes together are the old pool.
   */
  lemma {:induction false} TeardownSplitsNodePool(pool: seq<Node>, now: int, band: Billing.Band, n: Node)
    requires n in pool
    ensures n in Seqs.Filter(pool, KeepNode(now, band)) <==> OutsideReclaimBand(now, n.creationTime, band)
    ensures n in Seqs.Reject(pool, KeepNode(now, band)) <==> !OutsideReclaimBand(now, n.creationTime, band)
    ensures multiset(Seqs.Filter(pool, KeepNode(now, band))) + multiset(Seqs.Reject(pool, KeepNode(now, band)))
            == multiset(pool)
  {
    Seqs.FilterRejectSplit(pool, KeepNode(now, band));
    Seqs.FilterRejectMembers(pool, KeepNode(now, band));
    if OutsideReclaimBand(now, n.creationTime, band) {
      Seqs.FilterKeeps(pool, KeepNode(now, band), n);
    } else {
      assert n in multiset(pool);
      assert n !in Seqs.Filter(pool, KeepNode(now, band));
    }
  }

  /**
   * Five pooled nodes created 55 to 59 minutes ago (5 down to 1 minutes before their hour)
   * swept with the default band: the ones with 3 and 2 minutes left go, the other three stay.
   */
  lemma {:induction false} TeardownOfFiveNodes(now: int)
    ensures var pool := [Node("n55", now - 55 * 60, "10.0.0.55"), Node("n56", now - 56 * 60, "10.0.0.56"),
                         Node("n57", now - 57 * 60, "10.0.0.57"), Node("n58", now - 58 * 60, "10.0.0.58"),
                         Node("n59", now - 59 * 60, "10.0.0.59")];
            && Seqs.Filter(pool, KeepNode(now, Billing.DefaultReclaimBand)) == [pool[0], pool[1], pool[4]]
            && Seqs.Reject(pool, KeepNode(now, Billing.DefaultReclaimBand)) == [pool[2], pool[3]]
  {
    var pool := [Node("n55", now - 55 * 60, "10.0.0.55"), Node("n56", now - 56 * 60, "10.0.0.56"),
                 Node("n57", now - 57 * 60, "10.0.0.57"), Node("n58", now - 58 * 60, "10.0.0.58"),
                 Node("n59", now - 59 * 60, "10.0.0.59")];
    Billing.TimeUntilHourExamples(now);
    var keep := KeepNode(now, Billing.DefaultReclaimBand);
    assert keep(pool[0]) && keep(pool[1]) && !keep(pool[2]) && !keep(pool[3]) && keep(pool[4]);
    Seqs.SweepOfFive(pool[0], pool[1], pool[2], pool[3], pool[4], keep);
  }

  /** Grids the abandonment sweep reclaims: those whose poll succeeded and whose grid is abandoned. */
  function AbandonedIds(grids: map<string, Grid>, idleTimes: map<string, Result<nat, SkygridCalls.PollFailure>>,
                              now: int, config: Config): set<string>
  {
    set id | id in grids && id in idleTimes && idleTimes[id].Ok?
             && IsGridAbandoned(idleTimes[id].value, now - grids[id].assignedAt,
                                config.abandonIdleThreshold, config.abandonGracePeriod)
  }

  /** The instance id of a hub, as a function value for the sequence lemmas. */
  function HubId(h: Hub): string {
    h.instanceId
  }

  /**
   * A hub sits in one place at a time: no pooled hub is filed as an active grid, and no two
   * pooled hubs share an instance id.
   */
  ghost predicate PoolApart(hubs: seq<Hub>, grids: map<string, Grid>) {
    && (forall i :: 0 <= i < |hubs| ==> hubs[i].instanceId !in grids)
    && Seqs.DistinctBy(hubs, HubId)
  }

  /** Drawing the k-th pooled hub leaves a pool in which no hub shares its id, and the id is not in use. */
  lemma PoolApartDraw(hubs: seq<Hub>, grids: map<string, Grid>, k: nat)
    requires PoolApart(hubs, grids) && k < |hubs|
    ensures hubs[k].instanceId !in grids
    ensures PoolApart(hubs[..k] + hubs[k + 1..], grids)
    ensures forall h :: h in hubs[..k] + hubs[k + 1..] ==> h.instanceId != hubs[k].instanceId
  {
    var rest := hubs[..k] + hubs[k + 1..];
    assert forall i :: 0 <= i < |rest| ==> rest[i] == hubs[if i < k then i else i + 1];
  }

  /** Filing a hub whose id no pooled hub has keeps every hub in one place. */
  lemma PoolApartFile(hubs: seq<Hub>, grids: map<string, Grid>, hub: Hub, g: Grid)
    requires PoolApart(hubs, grids)
    requires forall h :: h in hubs ==> h.instanceId != hub.instanceId
    ensures PoolApart(hubs, grids[hub.instanceId := g])
  {
    assert forall i :: 0 <= i < |hubs| ==> hubs[i] in hubs;
  }

  /**
   * Pooling a hub whose id no pooled hub has, as any grid filed under that id leaves the
   * registry, keeps every hub in one place.
   */
  lemma PoolApartReturn(hubs: seq<Hub>, grids: map<string, Grid>, hub: Hub)
    requires PoolApart(hubs, grids)
    requires forall h :: h in hubs ==> h.instanceId != hub.instanceId
    ensures PoolApart(hubs + [hub], grids - {hub.instanceId})
  {
    var after := hubs + [hub];
    assert forall i :: 0 <= i < |hubs| ==> after[i] == hubs[i] && hubs[i] in hubs;
  }

  /** A sweep that keeps part of the pool keeps every hub in one place. */
  lemma PoolApartFilter(hubs: seq<Hub>, grids: map<string, Grid>, keep: Hub -> bool)
    requires PoolApart(hubs, grids)
    ensures PoolApart(Seqs.Filter(hubs, keep), grids)
  {
    Seqs.FilterKeepsDistinct(hubs, keep, HubId);
    Seqs.FilterRejectMembers(hubs, keep);
    var kept := Seqs.Filter(hubs, keep);
    forall i | 0 <= i < |kept| ensures kept[i].instanceId !in grids {
      assert kept[i] in kept;
      var j :| 0 <= j < |hubs| && hubs[j] == kept[i];
    }
  }

  /**
   * The hub pool `hubs` is the pool `hubs0` followed by one hub for each grid of `done`,
   * and each of those grids' hubs is in it.
   */
  ghost predicate HubsReturned(hubs0: seq<Hub>, hubs: seq<Hub>, grids: map<string, Grid>, done: set<string>)
    requires done <= grids.Keys
  {
    && |hubs| == |hubs0| + |done|
    && hubs[..|hubs0|] == hubs0
    && forall id :: id in done ==> grids[id].hub in hubs
  }

  /** Returning one more grid's hub to the pool extends what has been returned by that grid. */
  lemma ReturnOneMore(hubs0: seq<Hub>, hubs: seq<Hub>, grids: map<string, Grid>, done: set<string>, id: string)
    requires done <= grids.Keys && id in grids && id !in done
    requires HubsReturned(hubs0, hubs, grids, done)
    ensures HubsReturned(hubs0, hubs + [grids[id].hub], grids, done + {id})
  {
    assert (hubs + [grids[id].hub])[..|hubs0|] == hubs[..|hubs0|];
  }

  class SkygridOnDemand {
    const config: Config
    const hubPool: HubPool
    const nodePool: NodePool
    /** Active grids keyed by the instance id of their hub. */
    var activeGrids: map<string, Grid>
    /** When each scheduled task last ran; None before its first run. */
    var abandonedGridTimestamp: Option<int>
    var checkNodesTimestamp: Option<int>
    var teardownTimestamp: Option<int>

    /**
     * Every active grid is filed under the id of its own hub (so no two grids share a hub),
     * and every hub sits in one place: pooled or active, never both, and never pooled twice.
     */
    ghost predicate Valid()
      reads this, hubPool
    {
      && (forall id :: id in activeGrids ==> activeGrids[id].hub.instanceId == id)
      && PoolApart(hubPool.hubs, activeGrids)
    }

    ghost function Timestamps(): (Option<int>, Option<int>, Option<int>)
      reads this
    {
      (abandonedGridTimestamp, checkNodesTimestamp, teardownTimestamp)
    }

    constructor (config: Config)
      ensures Valid() && this.config == config
      ensures fresh(hubPool) && fresh(nodePool)
      ensures hubPool.hubs == [] && nodePool.nodes == [] && activeGrids == map[]
      ensures Timestamps() == (None, None, None)
    {
      this.config := config;
      hubPool := new HubPool();
      nodePool := new NodePool();
      activeGrids := map[];
      abandonedGridTimestamp, checkNodesTimestamp, teardownTimestamp := None, None, None;
    }

    /** `assign_nodes_to_hub(nodes, hub)`: the hub's node list becomes exactly `nodes`. */
    method AssignNodesToHub(nodes: seq<Node>, hub: Hub)
      modifies hub
      ensures hub.nodes == nodes
      ensures hub.requestedNodeSize == old(hub.requestedNodeSize)
    {
      hub.nodes := nodes;
    }

    /**
     * `spinup_hub(instance_type, number_of_nodes)` once the provider has made `hub`: the hub is
     * filed under its own id, with no team yet, so that it can be finished by id like an
     * allocated grid. It asks for `numberOfNodes` nodes and has none attached yet.
     */
    method SpinupHub(hub: Hub, numberOfNodes: nat, now: int)
      requires Valid()
      requires hub.instanceId !in activeGrids && forall h :: h in hubPool.hubs ==> h.instanceId != hub.instanceId
      modifies this, hub
      ensures Valid() && Timestamps() == old(Timestamps())
      ensures activeGrids == old(activeGrids)[hub.instanceId := Grid(hub, "", now)]
      ensures hub.nodes == [] && hub.requestedNodeSize == numberOfNodes
    {
      hub.nodes := [];
      hub.requestedNodeSize := numberOfNodes;
      PoolApartFile(hubPool.hubs, activeGrids, hub, Grid(hub, "", now));
      activeGrids := activeGrids[hub.instanceId := Grid(hub, "", now)];
    }

    /** `spinup_nodes(number_of_nodes, hub)` once the provider has made `nodes`: they are attached to `hub`. */
    method SpinupNodes(nodes: seq<Node>, hub: Hub)
      modifies hub
      ensures hub.nodes == old(hub.nodes) + nodes
      ensures hub.requestedNodeSize == old(hub.requestedNodeSize)
    {
      hub.nodes := hub.nodes + nodes;
    }

    /** `finish_with_node(node)`: the node goes back to the node pool. */
    method FinishWithNode(node: Node)
      modifies nodePool
      ensures nodePool.nodes == old(nodePool.nodes) + [node]
    {
      nodePool.AddToPool(node);
    }

    /**
     * `finish_with_hub(hub)`: the hub is detached from its nodes, its requested size reset,
     * and pooled; a grid filed under its id leaves the registry.
     */
    method FinishWithHub(hub: Hub)
      requires Valid()
      requires forall h :: h in hubPool.hubs ==> h.instanceId != hub.instanceId
      modifies this, hubPool, hub
      ensures Valid() && Timestamps() == old(Timestamps())
      ensures activeGrids == old(activeGrids) - {hub.instanceId}
      ensures hubPool.hubs == old(hubPool.hubs) + [hub]
      ensures hub.nodes == [] && hub.requestedNodeSize == 0
    {
      hub.nodes := [];
      hub.requestedNodeSize := 0;
      PoolApartReturn(hubPool.hubs, activeGrids, hub);
      hubPool.AddToPool(hub);
      activeGrids := activeGrids - {hub.instanceId};
    }

    /**
     * `finish_with_grid(hub_id)`: an active grid's nodes each return to the node pool, its
     * hub (emptied) to the hub pool, and the grid leaves the registry. An id that is not
     * active is ignored, so finishing the same grid twice changes nothing the second time.
     */
    method FinishWithGrid(hubId: string)
      requires Valid()
      modifies this, hubPool, nodePool, if hubId in activeGrids then {activeGrids[hubId].hub} else {}
      ensures Valid() && hubId !in activeGrids && Timestamps() == old(Timestamps())
      ensures hubId !in old(activeGrids) ==>
                && activeGrids == old(activeGrids)
                && hubPool.hubs == old(hubPool.hubs)
                && nodePool.nodes == old(nodePool.nodes)
      ensures hubId in old(activeGrids) ==>
                var hub := old(activeGrids)[hubId].hub;
                && activeGrids == old(activeGrids) - {hubId}
                && hubPool.hubs == old(hubPool.hubs) + [hub]
                && nodePool.nodes == old(nodePool.nodes) + old(hub.nodes)
                && hub.nodes == [] && hub.requestedNodeSize == 0
    {
      if hubId in activeGrids {
        var hub := activeGrids[hubId].hub;
        var nodes := hub.nodes;
        var i := 0;
        while i < |nodes|
          invariant 0 <= i <= |nodes|
          invariant nodePool.nodes == old(nodePool.nodes) + nodes[..i]
          invariant hubPool.hubs == old(hubPool.hubs) && hub.nodes == nodes
          invariant activeGrids == old(activeGrids) && Timestamps() == old(Timestamps())
          invariant Valid()
        {
          FinishWithNode(nodes[i]);
          assert nodes[..i + 1] == nodes[..i] + [nodes[i]];
          i := i + 1;
        }
        assert nodes[..i] == nodes;
        assert forall h :: h in hubPool.hubs ==> h.instanceId != hub.instanceId by {
          assert forall i :: 0 <= i < |hubPool.hubs| ==> hubPool.hubs[i].instanceId !in activeGrids;
        }
        FinishWithHub(hub);
      }
    }

    /**
     * `allocate_grid(number_of_nodes, team)`. Invalid arguments are refused before anything
     * changes. Otherwise the hub is the pooled hub of the configured type nearest its billing
     * boundary, or else the freshly provisioned `newHub`; the nodes are the pooled nodes nearest
     * their boundaries, topped up from the freshly provisioned `newNodes`. If there are not
     * enough fresh nodes to cover the shortfall the allocation fails and nothing changes. The
     * hub gets exactly the requested number of nodes and the grid is registered under its id.
     */
    method AllocateGrid(numberOfNodes: RequestValue, team: string, now: int, newHub: Hub, newNodes: seq<Node>)
      returns (r: Result<string, AllocationError>)
      requires Valid()
      requires newHub.instanceType == config.hubInstanceType
      requires newHub.instanceId !in activeGrids && forall h :: h in hubPool.hubs ==> h.instanceId != newHub.instanceId
      modifies this, hubPool, nodePool, newHub, set h: Hub | h in hubPool.hubs
      ensures Valid() && Timestamps() == old(Timestamps())
      ensures r.Ok? ==> r.value !in old(activeGrids)
      ensures ValidateAllocation(numberOfNodes, team, config.maxNumberOfNodes, config.minTeamLength).Err? ==>
                r == Err(ValidateAllocation(numberOfNodes, team, config.maxNumberOfNodes, config.minTeamLength).error)
      ensures ValidateAllocation(numberOfNodes, team, config.maxNumberOfNodes, config.minTeamLength).Ok? ==>
                && (r.Err? ==> r == Err(ProvisioningFailure))
                && (r.Err? <==> |newNodes| + |old(nodePool.nodes)| < numberOfNodes.i)
      ensures r.Err? ==> unchanged(newHub)
      ensures r.Err? ==>
                && activeGrids == old(activeGrids)
                && hubPool.hubs == old(hubPool.hubs)
                && nodePool.nodes == old(nodePool.nodes)
      ensures r.Ok? ==>
                && ValidateAllocation(numberOfNodes, team, config.maxNumberOfNodes, config.minTeamLength) == Ok(numberOfNodes.i)
                && r.value in activeGrids
                && activeGrids[r.value].hub.instanceId == r.value
                && activeGrids == old(activeGrids)[r.value := activeGrids[r.value]]
                && activeGrids[r.value].team == team
                && activeGrids[r.value].assignedAt == now
                && activeGrids[r.value].hub.instanceType == config.hubInstanceType
                && activeGrids[r.value].hub.requestedNodeSize == numberOfNodes.i
                && |activeGrids[r.value].hub.nodes| == numberOfNodes.i
      ensures r.Ok? ==>
                var hub := activeGrids[r.value].hub;
                if exists h :: h in old(hubPool.hubs) && h.instanceType == config.hubInstanceType then
                  && hub in old(hubPool.hubs)
                  && |hubPool.hubs| == |old(hubPool.hubs)| - 1
                  && (exists k :: 0 <= k < |old(hubPool.hubs)| && old(hubPool.hubs)[k] == hub
                                  && hubPool.hubs == old(hubPool.hubs)[..k] + old(hubPool.hubs)[k + 1..])
                  && forall h :: h in old(hubPool.hubs) && h.instanceType == config.hubInstanceType ==>
                       Billing.TimeUntilHour(now, hub.creationTime) <= Billing.TimeUntilHour(now, h.creationTime)
                else
                  hub == newHub && hubPool.hubs == old(hubPool.hubs)
      ensures r.Ok? ==>
                var drawn := if numberOfNodes.i <= |old(nodePool.nodes)| then numberOfNodes.i else |old(nodePool.nodes)|;
                && |nodePool.nodes| == |old(nodePool.nodes)| - drawn
                && numberOfNodes.i - drawn <= |newNodes|
                && activeGrids[r.value].hub.nodes[drawn..] == newNodes[..numberOfNodes.i - drawn]
                && multiset(activeGrids[r.value].hub.nodes[..drawn]) + multiset(nodePool.nodes) == multiset(old(nodePool.nodes))
                && forall a, m :: 0 <= a < drawn && m in nodePool.nodes ==>
                     Billing.TimeUntilHour(now, activeGrids[r.value].hub.nodes[a].creationTime) <= Billing.TimeUntilHour(now, m.creationTime)
      ensures r.Err? ==> forall h :: h in old(hubPool.hubs) ==> unchanged(h)
      ensures r.Ok? ==> forall h :: h in old(hubPool.hubs) && h != activeGrids[r.value].hub ==> unchanged(h)
      ensures forall id :: id in old(activeGrids) ==> unchanged(old(activeGrids)[id].hub)
    {
      var valid := ValidateAllocation(numberOfNodes, team, config.maxNumberOfNodes, config.minTeamLength);
      if valid.Err? {
        return Err(valid.error);
      }
      var n := valid.value;
      if |newNodes| + |nodePool.nodes| < n {
        return Err(ProvisioningFailure);
      }
      var hub := DrawHub(now, newHub);
      var nodes := DrawNodes(n, now, newNodes);
      AssignNodesToHub(nodes, hub);
      hub.requestedNodeSize := n;
      PoolApartFile(hubPool.hubs, activeGrids, hub, Grid(hub, team, now));
      activeGrids := activeGrids[hub.instanceId := Grid(hub, team, now)];
      r := Ok(hub.instanceId);
    }

    /**
     * The hub for a new grid: the pooled hub of the configured type nearest its billing
     * boundary, taken out of the pool, or else the freshly provisioned `newHub`.
     */
    method DrawHub(now: int, newHub: Hub) returns (hub: Hub)
      requires Valid()
      requires newHub.instanceType == config.hubInstanceType
      requires newHub.instanceId !in activeGrids && forall h :: h in hubPool.hubs ==> h.instanceId != newHub.instanceId
      modifies hubPool
      ensures hub.instanceType == config.hubInstanceType && hub.instanceId !in activeGrids
      ensures PoolApart(hubPool.hubs, activeGrids) && forall h :: h in hubPool.hubs ==> h.instanceId != hub.instanceId
      ensures if exists h :: h in old(hubPool.hubs) && h.instanceType == config.hubInstanceType then
                && hub in old(hubPool.hubs)
                && |hubPool.hubs| == |old(hubPool.hubs)| - 1
                && (exists k :: 0 <= k < |old(hubPool.hubs)| && old(hubPool.hubs)[k] == hub
                                && hubPool.hubs == old(hubPool.hubs)[..k] + old(hubPool.hubs)[k + 1..])
                && forall h :: h in old(hubPool.hubs) && h.instanceType == config.hubInstanceType ==>
                     Billing.TimeUntilHour(now, hub.creationTime) <= Billing.TimeUntilHour(now, h.creationTime)
              else
                hub == newHub && hubPool.hubs == old(hubPool.hubs)
    {
      var pooled := hubPool.GetPooledHub(config.hubInstanceType, now);
      if pooled.Some? {
        hub := pooled.value;
        ghost var k :| 0 <= k < |old(hubPool.hubs)| && old(hubPool.hubs)[k] == hub
                       && hubPool.hubs == old(hubPool.hubs)[..k] + old(hubPool.hubs)[k + 1..];
        PoolApartDraw(old(hubPool.hubs), activeGrids, k);
      } else {
        hub := newHub;
      }
    }

    /**
     * The `n` nodes for a new grid: pooled nodes first, nearest their billing boundaries first,
     * as many as the pool holds, then freshly provisioned ones from `newNodes`.
     */
    method DrawNodes(n: nat, now: int, newNodes: seq<Node>) returns (nodes: seq<Node>)
      requires n <= |nodePool.nodes| + |newNodes|
      modifies nodePool
      ensures var drawn := if n <= |old(nodePool.nodes)| then n else |old(nodePool.nodes)|;
                && |nodes| == n
                && |nodePool.nodes| == |old(nodePool.nodes)| - drawn
                && nodes[drawn..] == newNodes[..n - drawn]
                && multiset(nodes[..drawn]) + multiset(nodePool.nodes) == multiset(old(nodePool.nodes))
                && (forall a, b :: 0 <= a < b < drawn ==>
                     Billing.TimeUntilHour(now, nodes[a].creationTime) <= Billing.TimeUntilHour(now, nodes[b].creationTime))
                && forall a, m :: 0 <= a < drawn && m in nodePool.nodes ==>
                     Billing.TimeUntilHour(now, nodes[a].creationTime) <= Billing.TimeUntilHour(now, m.creationTime)
    {
      var shortfall := if n <= |nodePool.nodes| then 0 else n - |nodePool.nodes|;
      var taken := nodePool.GetPooledNodes(n, now);
      nodes := taken + newNodes[..shortfall];
      assert nodes[..|taken|] == taken;
    }

    /**
     * `off_to_the_cloud_in_the_sky()`: the teardown sweep. Every pooled hub and node whose
     * time-until-hour lies in the reclaim band leaves its pool and is returned for termination;
     * everything else stays, in its order. Active grids are not touched. Records the run.
     */
    method OffToTheCloudInTheSky(now: int) returns (hubsTornDown: seq<Hub>, nodesTornDown: seq<Node>)
      requires Valid()
      modifies this, hubPool, nodePool
      ensures Valid()
      ensures hubPool.hubs == Seqs.Filter(old(hubPool.hubs), KeepHub(now, config.reclaimBand))
      ensures hubsTornDown == Seqs.Reject(old(hubPool.hubs), KeepHub(now, config.reclaimBand))
      ensures nodePool.nodes == Seqs.Filter(old(nodePool.nodes), KeepNode(now, config.reclaimBand))
      ensures nodesTornDown == Seqs.Reject(old(nodePool.nodes), KeepNode(now, config.reclaimBand))
      ensures activeGrids == old(activeGrids)
      ensures teardownTimestamp == Some(now)
      ensures abandonedGridTimestamp == old(abandonedGridTimestamp) && checkNodesTimestamp == old(checkNodesTimestamp)
    {
      var keptHubs, keptNodes;
      keptHubs, hubsTornDown := Seqs.Partition(hubPool.hubs, KeepHub(now, config.reclaimBand));
      keptNodes, nodesTornDown := Seqs.Partition(nodePool.nodes, KeepNode(now, config.reclaimBand));
      PoolApartFilter(hubPool.hubs, activeGrids, KeepHub(now, config.reclaimBand));
      hubPool.hubs := keptHubs;
      nodePool.nodes := keptNodes;
      teardownTimestamp := Some(now);
    }

    /** One step of the abandoned-grid sweep: finishes `id`, the next grid of `registry` not yet `done`. */
    method FinishPending(id: string, ghost registry: map<string, Grid>, ghost done: set<string>)
      requires Valid() && id in registry && id !in done && activeGrids == registry - done
      modifies this, hubPool, nodePool, registry[id].hub
      ensures Valid() && activeGrids == registry - (done + {id})
      ensures hubPool.hubs == old(hubPool.hubs) + [registry[id].hub]
      ensures nodePool.nodes == old(nodePool.nodes) + old(registry[id].hub.nodes)
      ensures Timestamps() == old(Timestamps())
    {
      assert id in activeGrids;
      FinishWithGrid(id);
      Seqs.MapRemoveOneMore(registry, done, id);
    }

    /** Finishes every grid in `ids`, one at a time, as an explicit finish would. */
    method FinishGrids(ids: set<string>)
      requires Valid() && ids <= activeGrids.Keys
      modifies this, hubPool, nodePool, set id | id in ids :: activeGrids[id].hub
      ensures Valid() && activeGrids == old(activeGrids) - ids
      ensures |hubPool.hubs| == |old(hubPool.hubs)| + |ids|
      ensures hubPool.hubs[..|old(hubPool.hubs)|] == old(hubPool.hubs)
      ensures old(nodePool.nodes) <= nodePool.nodes
      ensures forall id :: id in ids ==> old(activeGrids)[id].hub in hubPool.hubs
      ensures forall id :: id in activeGrids ==> unchanged(activeGrids[id].hub)
      ensures Timestamps() == old(Timestamps())
    {
      var pending := ids;
      ghost var done: set<string> := {};
      while pending != {}
        invariant Valid()
        invariant done !! pending && done + pending == ids
        invariant activeGrids == old(activeGrids) - done
        invariant HubsReturned(old(hubPool.hubs), hubPool.hubs, old(activeGrids), done)
        invariant old(nodePool.nodes) <= nodePool.nodes
        invariant Timestamps() == old(Timestamps())
        decreases pending
      {
        var id :| id in pending;
        ghost var before := hubPool.hubs;
        ghost var nodesBefore, handed := nodePool.nodes, activeGrids[id].hub.nodes;
        FinishPending(id, old(activeGrids), done);
        Seqs.PrefixGrows(old(nodePool.nodes), nodesBefore, handed);
        Seqs.MoveElement(done, pending, id);
        ReturnOneMore(old(hubPool.hubs), before, old(activeGrids), done, id);
        done := done + {id};
        pending := pending - {id};
      }
    }

    /**
     * The abandoned-grid sweep: every active grid whose poll succeeded and which is abandoned
     * by the configured thresholds is finished as an explicit finish would do it; a grid whose
     * poll failed (or was not polled) is left alone. `idleTimes` holds each hub's poll result.
     * Records the run.
     */
    method CheckForAbandonedGrids(now: int, idleTimes: map<string, Result<nat, SkygridCalls.PollFailure>>)
      returns (finished: set<string>)
      requires Valid()
      modifies this, hubPool, nodePool, set id | id in AbandonedIds(activeGrids, idleTimes, now, config) :: activeGrids[id].hub
      ensures Valid()
      ensures finished == AbandonedIds(old(activeGrids), idleTimes, now, config)
      ensures activeGrids == old(activeGrids) - finished
      ensures |hubPool.hubs| == |old(hubPool.hubs)| + |finished|
      ensures hubPool.hubs[..|old(hubPool.hubs)|] == old(hubPool.hubs)
      ensures old(nodePool.nodes) <= nodePool.nodes
      ensures forall id :: id in activeGrids ==> unchanged(activeGrids[id].hub)
      ensures forall id :: id in finished ==> old(activeGrids)[id].hub in hubPool.hubs
      ensures abandonedGridTimestamp == Some(now)
      ensures checkNodesTimestamp == old(checkNodesTimestamp) && teardownTimestamp == old(teardownTimestamp)
    {
      finished := AbandonedIds(activeGrids, idleTimes, now, config);
      FinishGrids(finished);
      abandonedGridTimestamp := Some(now);
    }

    /** `get_healthcheck()['scheduled_tasks']`: each task PASSes when it ran within the staleness budget. */
    function GetHealthcheck(now: int): (r: Healthcheck.ScheduledTasks)
      reads this
      ensures r.abandonedCheck == "PASS" <==> Healthcheck.RanRecently(abandonedGridTimestamp, now, config.stalenessBudget)
      ensures r.nodeCheck == "PASS" <==> Healthcheck.RanRecently(checkNodesTimestamp, now, config.stalenessBudget)
      ensures r.teardownCheck == "PASS" <==> Healthcheck.RanRecently(teardownTimestamp, now, config.stalenessBudget)
    {
      Healthcheck.ScheduledTasksStatus(abandonedGridTimestamp, checkNodesTimestamp, teardownTimestamp, now,
                                       config.stalenessBudget)
    }
  }
}
