/**
 * Grid-status aggregation (`skygrid_calls`). A hub reports the state of its nodes and its
 * usage counters over HTTP; fetching and JSON decoding are outside this model, which starts
 * from the already-decoded records.
 */
module SkygridCalls {
  import opened Wrappers
  import Decimal

  /** One entry of the hub's node-status list, field by field as the hub sends it (all text). */
  datatype NodeStatus = NodeStatus(
    host: string,
    hostname: string,
    status: string,
    idleTime: string,
    busyTime: string,
    browserActive: string)

  /** The hub's usage counters. */
  datatype Usage = Usage(
    exitCode: int,
    out: seq<string>,
    error: seq<string>,
    today: nat,
    yesterday: nat,
    lastWeek: nat,
    weekSoFar: nat,
    quarter: nat,
    lastQuarter: nat)

  /** A status payload that cannot be interpreted: the named node's idle time is not a decimal number. */
  datatype PollFailure = MalformedIdleTime(host: string)

  predicate IsBusy(node: NodeStatus) {
    node.status == "busy"
  }

  /** The node's idle time read as an integer, when it is decimal text. */
  function IdleSeconds(node: NodeStatus): Option<nat> {
    Decimal.ParseNat(node.idleTime)
  }

  predicate AnyBusy(nodes: seq<NodeStatus>) {
    exists i :: 0 <= i < |nodes| && IsBusy(nodes[i])
  }

  predicate AllIdleTimesReadable(nodes: seq<NodeStatus>) {
    forall i :: 0 <= i < |nodes| ==> IdleSeconds(nodes[i]).Some?
  }

  /** The smallest idle time of a non-empty list, or the first unreadable entry. */
  function MinIdleSeconds(nodes: seq<NodeStatus>): (r: Result<nat, PollFailure>)
    requires nodes != []
    ensures r.Ok? <==> AllIdleTimesReadable(nodes)
    ensures r.Ok? ==> exists i :: 0 <= i < |nodes| && IdleSeconds(nodes[i]) == Some(r.value)
    ensures r.Ok? ==> forall i :: 0 <= i < |nodes| ==> r.value <= IdleSeconds(nodes[i]).value
    decreases |nodes|
  {
    match IdleSeconds(nodes[0])
    case None => Err(MalformedIdleTime(nodes[0].host))
    case Some(v) =>
      if |nodes| == 1 then Ok(v)
      else
        match MinIdleSeconds(nodes[1..])
        case Err(e) => Err(e)
        case Ok(m) => Ok(if v <= m then v else m)
  }

  /**
   * `get_grid_idle_time(hub)`: 0 as soon as one node is busy, whatever the others report;
   * otherwise the smallest idle time of the nodes (the grid is only as idle as its most
   * recently used node), and 0 for a hub with no nodes. An unreadable idle time of an idle
   * node makes the poll fail rather than count as idle or busy.
   */
  function GridIdleTime(nodes: seq<NodeStatus>): (r: Result<nat, PollFailure>)
    ensures AnyBusy(nodes) ==> r == Ok(0)
    ensures nodes == [] ==> r == Ok(0)
    ensures !AnyBusy(nodes) ==> (r.Ok? <==> AllIdleTimesReadable(nodes))
    ensures !AnyBusy(nodes) && nodes != [] && r.Ok? ==>
              (exists i :: 0 <= i < |nodes| && IdleSeconds(nodes[i]) == Some(r.value))
              && forall i :: 0 <= i < |nodes| ==> r.value <= IdleSeconds(nodes[i]).value
  {
    if AnyBusy(nodes) then Ok(0)
    else if nodes == [] then Ok(0)
    else MinIdleSeconds(nodes)
  }

  /** `get_nodes_connected_to_hub(hub)`: the `host` of every reported node, busy or idle, in payload order. */
  function NodesConnectedToHub(nodes: seq<NodeStatus>): (hosts: seq<string>)
    ensures |hosts| == |nodes|
    ensures forall i :: 0 <= i < |nodes| ==> hosts[i] == nodes[i].host
  {
    if nodes == [] then [] else [nodes[0].host] + NodesConnectedToHub(nodes[1..])
  }

  /** `is_skygrid_ready_on_hub(hub)`: ready exactly when at least one node has registered. */
  function IsSkygridReadyOnHub(nodes: seq<NodeStatus>): (ready: bool)
    ensures ready <==> |nodes| > 0
  {
    nodes != []
  }

  /** `get_served_sessions_from_hub(hub)`: the sessions of this quarter and the last one. */
  function ServedSessionsFromHub(usage: Usage): (served: nat)
    ensures usage.quarter <= served && usage.lastQuarter <= served
  {
    usage.quarter + usage.lastQuarter
  }

  /** Only the two quarter counters matter; the daily and weekly counters and the exit status are ignored. */
  lemma ServedSessionsIgnoresOtherCounters(u: Usage, v: Usage)
    requires u.quarter == v.quarter && u.lastQuarter == v.lastQuarter
    ensures ServedSessionsFromHub(u) == ServedSessionsFromHub(v)
  {
  }

  /** The hub's sample usage report (8393 this quarter, 521932 last quarter) counts 530325 sessions. */
  lemma ServedSessionsExample()
    ensures ServedSessionsFromHub(Usage(0, [], [], 8393, 7937, 52860, 43790, 8393, 521932)) == 530325
  {
  }

  function IdleNode(host: string, idleTime: string): NodeStatus {
    NodeStatus(host, "", "idle", idleTime, "0", "false")
  }

  function BusyNode(host: string, busyTime: string): NodeStatus {
    NodeStatus(host, "", "busy", "0", busyTime, "false")
  }

  /**
   * Idle times are compared as numbers, not as text: of "150" and "5" the grid idle time
   * is 5, although "150" sorts first as a string.
   */
  lemma {:induction false} IdleTimesCompareAsNumbers()
    ensures GridIdleTime([IdleNode("a", "150"), IdleNode("b", "5")]) == Ok(5)
  {
    var nodes := [IdleNode("a", "150"), IdleNode("b", "5")];
    assert !IsBusy(nodes[0]) && !IsBusy(nodes[1]);
    assert "150"[..2] == "15" && "15"[..1] == "1" && "1"[..0] == "";
    assert IdleSeconds(nodes[0]) == Some(150);
    assert "5"[..0] == "";
    assert IdleSeconds(nodes[1]) == Some(5);
  }

  /** The idle times of the growing-list example read as decimal numbers. */
  lemma {:induction false} ExampleIdleTimesParse()
    ensures Decimal.ParseNat("150") == Some(150)
    ensures Decimal.ParseNat("200") == Some(200)
    ensures Decimal.ParseNat("100") == Some(100)
  {
    assert "150"[..2] == "15" && "15"[..1] == "1" && "1"[..0] == "";
    assert "200"[..2] == "20" && "20"[..1] == "2" && "2"[..0] == "";
    assert "100"[..2] == "10" && "10"[..1] == "1";
  }

  /** A growing list of idle nodes reporting 150, 200 and 100 seconds has grid idle time 150, 150, then 100. */
  lemma {:induction false} GridIdleTimeOfIdleNodes()
    ensures GridIdleTime([IdleNode("1", "150")]) == Ok(150)
    ensures GridIdleTime([IdleNode("1", "150"), IdleNode("2", "200")]) == Ok(150)
    ensures GridIdleTime([IdleNode("1", "150"), IdleNode("2", "200"), IdleNode("3", "100")]) == Ok(100)
  {
    ExampleIdleTimesParse();
    var n1, n2, n3 := IdleNode("1", "150"), IdleNode("2", "200"), IdleNode("3", "100");
    assert !AnyBusy([n1]) && !AnyBusy([n1, n2]) && !AnyBusy([n1, n2, n3]);
  }

  /** Once a busy node (busy for 50 seconds) joins, the grid idle time is 0, and stays 0 when an idle node reporting 5 joins after it. */
  lemma {:induction false} BusyNodeMasksIdleTimes()
    ensures GridIdleTime([IdleNode("1", "150"), IdleNode("2", "200"), IdleNode("3", "100"), BusyNode("4", "50")]) == Ok(0)
    ensures GridIdleTime([IdleNode("1", "150"), IdleNode("2", "200"), IdleNode("3", "100"), BusyNode("4", "50"),
                          IdleNode("5", "5")]) == Ok(0)
  {
    var n1, n2, n3, n4, n5 := IdleNode("1", "150"), IdleNode("2", "200"), IdleNode("3", "100"), BusyNode("4", "50"),
                              IdleNode("5", "5");
    assert IsBusy([n1, n2, n3, n4][3]) && IsBusy([n1, n2, n3, n4, n5][3]);
  }
}
