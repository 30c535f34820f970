# Skygrid warm pools, modelled in Dafny

Skygrid keeps a warm pool of cloud instances for browser-test grids. A grid is one **hub**
plus a number of **nodes**. The service has four jobs:

- It keeps idle hubs and idle nodes in two pools so that they can be handed out again.
- It allocates grids to teams, reusing pooled resources first.
- It takes grids back. This happens on an explicit finish, or when a sweep finds a grid
  abandoned.
- It tears down pooled resources shortly before their next billed hour starts.

Cloud instances are billed per started hour. So the key quantity is a resource's
*time-until-hour*: the minutes left before its age crosses the next hour boundary. Pools
hand out the resource with the fewest minutes left, so that hours already paid for are
used first.

This project models that core:

- the billing arithmetic;
- the two pools;
- the grid registry, with allocation, finishing, the teardown sweep and the abandonment
  sweep;
- the grid-status aggregation over a hub's node-status report;
- the scheduled-task health check and the `pass_fail` helper;
- the two pure helpers of the dashboard clock script, `ordinal_suffix_of` and `checkTime`.

The service's implementation modules (`app.skygrid_on_demand`,
`app.definitions.instances.hub`, `app.utils.utils`) are not part of this model. The
behaviour modelled is the one the repository's unit tests assert. `datetime.js` is the
exception: it is modelled from its own code.

Layout (one module per file):

| file | module | what it holds |
|---|---|---|
| `wrappers.dfy` | `Wrappers` | `Option` and `Result` |
| `decimal.dfy` | `Decimal` | decimal text to number and back: the node report's idle times, and the clock's rendering of small whole numbers |
| `billing.dfy` | `Billing` | time-until-hour, the reclaim band |
| `seqs.dfy` | `Seqs` | shared sequence operations: pick the soonest element, split by a predicate |
| `instances.dfy` | `Instances` | `Node` (a value) and `Hub` (a class: its node list and requested size change in place) |
| `pools.dfy` | `Pools` | `HubPool` and `NodePool`, classes whose `seq` field each method reassigns |
| `skygrid.dfy` | `Skygrid` | request validation, the abandonment rule, teardown filtering, and the `SkygridOnDemand` class: registry, pools, timestamps |
| `skygrid_calls.dfy` | `SkygridCalls` | grid idle time, connected hosts, readiness, served sessions |
| `healthcheck.dfy` | `Healthcheck` | PASS/FAIL liveness of the three scheduled tasks |
| `utils.dfy` | `Utils` | `pass_fail` |
| `datetime.dfy` | `DateTime` | `ordinal_suffix_of` (with JavaScript's truncating `%`) and `checkTime` |
| `scenarios.dfy` | `Scenarios` | client methods that replay test scenarios using only the contracts above |

Conventions:

- Time is integer seconds on one clock. Every operation that needs it takes `now` as a
  parameter.
- Elapsed minutes are floored, as Python's `timedelta` arithmetic does. Dafny's Euclidean
  `/` and `%` agree with Python's here because the divisor is positive.
- The reclaim band is inclusive at both ends. The default is 2..3 minutes: 2 and 3 are torn
  down, and 1, 4 and 5 are kept.
- A task is PASS when its last run is at most the staleness budget old. A task that has
  never run is FAIL.
- Values that the allocation would otherwise get from the cloud provider are parameters of
  `AllocateGrid`: a freshly provisioned hub and a supply of fresh nodes.

## Model

| member | source | states |
|---|---|---|
| Billing.TimeUntilHour | tests/test_registry.py:174-200 | time-until-hour is always between 1 and 60 minutes |
| Billing.TimeUntilHourCompletesHour | tests/test_registry.py:174-200 | elapsed minutes plus time-until-hour is a whole number of hours |
| Billing.TimeUntilHourExamples | tests/test_registry.py:174-200 | created 55/56/57/58/59 minutes ago gives 5/4/3/2/1 minutes left; 50/40/30/20/10 minutes ago gives 10/20/30/40/50 |
| Billing.TimeUntilHourHourly | tests/test_registry.py:174-200 | time-until-hour repeats every hour of a resource's life |
| Billing.TimeUntilHourTicks | tests/test_registry.py:174-200 | one minute later a resource has one minute less, except that 1 wraps round to 60 |
| Instances.Hub.constructor | tests/test_skygrid_calls.py:74 | a new hub has the given id, type, creation time, address and requested size, and no nodes |
| Seqs.IndexOfSoonest | tests/test_registry.py:364-382 | finds a wanted element whose key is no larger than any other wanted one, the earliest on a tie; None exactly when nothing is wanted |
| Seqs.Partition | tests/test_registry.py:205-220 | one pass splits a pool into the kept part and the removed part, each in the original order |
| Seqs.FilterRejectSplit | tests/test_registry.py:216-220 | kept and removed together are the original pool, each element exactly once, and their sizes add up |
| Seqs.FilterRejectMembers | tests/test_registry.py:205-214 | everything kept satisfies the predicate; everything removed fails it |
| Seqs.FilterKeeps | tests/test_registry.py:205-214 | nothing that satisfies the predicate is lost |
| Pools.HubPool.constructor | tests/test_registry.py:335 | a new hub pool is empty |
| Pools.HubPool.PoolSize | tests/test_registry.py:120-130 | the pool size counts the pooled hubs, duplicates included, and is 0 exactly when the pool is empty |
| Pools.HubPool.AddToPool | tests/test_registry.py:356-362 | the hub is appended, and nothing else changes |
| Pools.HubPool.GetPooledHub | tests/test_registry.py:332-382 | None, with the pool untouched, exactly when no pooled hub has the type. Otherwise it returns a pooled hub of that type with the smallest time-until-hour and removes exactly that hub: size down by one, and the other hubs (other types included) stay in order |
| Pools.NodePool.constructor | tests/test_registry.py:387 | a new node pool is empty |
| Pools.NodePool.PoolSize | tests/test_registry.py:132-140 | the pool size counts the pooled nodes, duplicates included, and is 0 exactly when the pool is empty |
| Pools.NodePool.AddToPool | tests/test_registry.py:410-416 | the node is appended, and nothing else changes |
| Pools.NodePool.GetPooledNode | tests/test_registry.py:387-388 | None exactly on an empty pool. Otherwise it returns a node with the smallest time-until-hour and removes exactly it |
| Pools.NodePool.GetPooledNodes | tests/test_registry.py:416-431 | takes min(n, pool size) nodes. The taken nodes and the remaining pool together are the old pool. The taken nodes are in ascending time-until-hour order, and none crosses its hour later than a node left behind |
| Pools.TakeSoonest | tests/test_registry.py:416-431 | taking the soonest node keeps the taken list ordered and ahead of what remains |
| Skygrid.ValidateAllocation | tests/test_registry.py:58-105 | accepts exactly an integer count from 1 to the maximum together with a non-empty team of at least the minimum length; names the failed check, with a text count reported as not an integer and a count of 0 or below as not positive |
| Skygrid.ValidateAllocationBoundaries | tests/test_registry.py:58-105 | each rejection the tests make gets its reason (count ≤ 0, above the maximum, text, empty team, short team); counts 1 and the maximum are accepted |
| Skygrid.IsGridAbandoned | tests/test_registry.py:315-330 | abandoned exactly when idle time ≥ the idle threshold and assigned time ≥ the grace period; both default to 300 seconds |
| Skygrid.IsGridAbandonedExamples | tests/test_registry.py:315-330 | (0,0), (0,299), (0,1000), (400,0), (699,299) are not abandoned; (300,360), (300,1000), (1000,360), (1000,1000) are |
| Skygrid.IsGridAbandonedMonotone | tests/test_registry.py:322-330 | staying idle longer or being assigned longer never un-abandons a grid |
| Skygrid.BusyGridIsNotAbandoned | tests/test_registry.py:316-319 | a grid with a busy node has idle time 0, so it is never abandoned (positive threshold) |
| Skygrid.TeardownSplitsNodePool | tests/test_registry.py:205-220 | after a sweep a pooled node remains exactly when its time-until-hour is outside the band; kept and torn-down nodes together are the old pool |
| Skygrid.TeardownOfFiveNodes | tests/test_registry.py:142-220 | nodes with 5, 4, 3, 2, 1 minutes left: the default band keeps 5, 4 and 1 in order and tears down 3 and 2 |
| Skygrid.SkygridOnDemand.constructor | tests/test_registry.py:52 | a new service has empty pools, no active grids and no recorded task runs |
| Skygrid.SkygridOnDemand.AssignNodesToHub | tests/test_registry.py:107-118 | the hub's node list becomes exactly the given nodes |
| Skygrid.SkygridOnDemand.SpinupHub | tests/test_registry.py:222-236 | a provisioned hub is filed under its own id, so that finishing that id pools it; it asks for the given number of nodes and has none yet; the pools are untouched and every hub stays in one place (pool or registry; nodes are not covered) |
| Skygrid.SkygridOnDemand.SpinupNodes | tests/test_registry.py:107-113 | the provisioned nodes are attached to the hub after the ones it already has |
| Skygrid.SkygridOnDemand.FinishWithNode | tests/test_registry.py:132-140 | the node is appended to the node pool |
| Skygrid.SkygridOnDemand.FinishWithHub | tests/test_registry.py:120-130 | the hub joins the hub pool with an empty node list and requested size 0; a grid filed under its id leaves the registry, and every hub stays in one place (pool or registry; nodes are not covered) |
| Skygrid.SkygridOnDemand.FinishWithGrid | tests/test_registry.py:222-239 | an active grid's hub joins the hub pool, its N nodes join the node pool in order, the hub is emptied (no nodes, requested size 0) and the grid leaves the registry; an inactive id changes nothing |
| Skygrid.SkygridOnDemand.AllocateGrid | tests/test_registry.py:58-105 | bad arguments are refused with the validation error and change nothing, the new hub included. When there are too few nodes it fails without changes. Otherwise it files a new grid under an id not already active (no grid is overwritten), with the team and time, and the hub gets exactly the requested number of nodes. The hub is the pooled hub of the configured type with the fewest minutes left, removed from its place in the pool with the other pooled hubs left in order; when none is pooled it is the new hub. The nodes are pooled nodes first, as many as the pool holds, none with more minutes left than a node that stays, then the new supply. No other pooled or active hub changes, and every hub stays in one place (pool or registry; nodes are not covered) |
| Skygrid.SkygridOnDemand.DrawHub | tests/test_registry.py:364-382 | the hub for a new grid is the pooled hub of the configured type with the fewest minutes left, removed exactly, or the new hub; its id is in use nowhere else |
| Skygrid.SkygridOnDemand.DrawNodes | tests/test_registry.py:416-431 | the nodes for a new grid are the pooled nodes with the fewest minutes left, in ascending order, followed by the new supply; what is drawn and what stays make up the old pool |
| Skygrid.SkygridOnDemand.OffToTheCloudInTheSky | tests/test_registry.py:142-220 | each pool keeps exactly its members outside the reclaim band, in order; the torn-down hubs and nodes are returned; active grids are untouched; every hub stays in one place (pool or registry; nodes are not covered); the teardown run is recorded |
| Skygrid.SkygridOnDemand.FinishGrids | tests/test_registry.py:222-239 | finishing a set of active grids removes exactly them and appends their hubs to the hub pool: the pooled hubs stay in front and in order, the pool grows by the number of grids, and each of their hubs is pooled. The pooled nodes stay in front of the node pool, in order. The grids left active keep their hubs unchanged |
| Skygrid.SkygridOnDemand.CheckForAbandonedGrids | tests/test_registry.py:315-330 | finishes exactly the active grids whose poll succeeded and that are abandoned; a failed or missing poll never finishes a grid. The finished grids' hubs are appended to the hub pool behind the hubs already pooled, and the nodes already pooled stay in front of the node pool, in order. The grids left active keep their hubs unchanged, and the run is recorded |
| Skygrid.SkygridOnDemand.GetHealthcheck | tests/test_healthcheck.py:18-38 | each scheduled task is PASS exactly when its own timestamp is within the staleness budget |
| SkygridCalls.MinIdleSeconds | tests/test_skygrid_calls.py:56-112 | a result exactly when every idle time is decimal; the result is one node's idle time and no larger than any |
| SkygridCalls.GridIdleTime | tests/test_skygrid_calls.py:56-148 | 0 when any node is busy, whatever the others report; 0 for no nodes; otherwise the minimum idle time, or a poll failure when one is not a number |
| SkygridCalls.GridIdleTimeOfIdleNodes | tests/test_skygrid_calls.py:56-112 | idle nodes reporting 150, then 150 and 200, then 150, 200 and 100 give 150, 150, 100 |
| SkygridCalls.ExampleIdleTimesParse | tests/test_skygrid_calls.py:65-105 | the reported texts "150", "200", "100" read as those numbers |
| SkygridCalls.IdleTimesCompareAsNumbers | tests/test_skygrid_calls.py:65-76 | idle times compare as integers: "150" and "5" give 5 |
| SkygridCalls.BusyNodeMasksIdleTimes | tests/test_skygrid_calls.py:114-148 | a busy node makes the grid idle time 0, and a later idle node reporting 5 does not change it |
| SkygridCalls.NodesConnectedToHub | tests/test_skygrid_calls.py:151-243 | exactly the `host` of every node, busy or idle, in report order |
| SkygridCalls.IsSkygridReadyOnHub | tests/test_skygrid_calls.py:246-276 | ready exactly when at least one node is reported |
| SkygridCalls.ServedSessionsFromHub | tests/test_skygrid_calls.py:279-296 | the served-session count covers at least this quarter's sessions and at least last quarter's |
| SkygridCalls.ServedSessionsIgnoresOtherCounters | tests/test_skygrid_calls.py:279-296 | served sessions depend only on the two quarter counters |
| SkygridCalls.ServedSessionsExample | tests/sample_responses.py:3-15 | the sample report (8393 and 521932) gives 530325 |
| Decimal.ParseNat | tests/test_skygrid_calls.py:65 | decimal text has a value exactly when it is non-empty and all digits |
| Decimal.ParseNatToString | tests/test_skygrid_calls.py:65 | reading back the decimal text of a number gives that number |
| Healthcheck.TaskStatus | tests/test_healthcheck.py:18-38 | PASS exactly when the task has run and the run is within the budget; FAIL otherwise |
| Healthcheck.ScheduledTasksStatus | tests/test_healthcheck.py:18-38 | each of the three entries is PASS or FAIL by its own timestamp alone |
| Healthcheck.TaskStatusNowAndHundredSecondsAgo | tests/test_healthcheck.py:18-38 | with a budget under 100 s, a run at `now` is PASS, a run 100 s ago is FAIL, and no run is FAIL |
| Healthcheck.TaskStatusDecays | tests/test_healthcheck.py:18-23 | a task that is PASS at some time was PASS at every earlier time |
| Utils.PassFail | tests/test_utils.py:8-14 | True gives PASS, False gives FAIL, None gives UNKNOWN, each in both directions |
| Utils.PassFailInjective | tests/test_utils.py:8-14 | different inputs give different outputs |
| Scenarios.FinishWithGridTwice | tests/test_registry.py:298-313 | finishing the same grid twice grows the hub pool by one and the node pool by its node count, the same as finishing it once |
| Scenarios.ProvisionTeardownFleet | tests/test_registry.py:143-147 | three hubs created 55, 57 and 59 minutes ago are provisioned and filed under their distinct ids, with both pools still empty |
| Scenarios.FinishTeardownHubs | tests/test_registry.py:162-166 | finishing the provisioned hubs in turn empties the registry and pools them in that order |
| Scenarios.SoonestIsTaken | tests/test_registry.py:418-420 | a draw that takes any node takes the pooled node strictly soonest to its billing hour |
| Scenarios.LatestStays | tests/test_registry.py:422-426 | a draw that leaves any node leaves the pooled node strictly latest to its billing hour |
| Scenarios.TakenOrLeft | tests/test_registry.py:416-431 | after a draw, every node of the old pool is either taken or still pooled |
| Scenarios.DrawnInOrder | tests/test_registry.py:422-426 | three drawn nodes that include nodes ranked `a`, `b`, `c` by minutes left are exactly those, in that order |
| Scenarios.FirstDraw | tests/test_registry.py:398-420 | from nodes with 30, 40, 10, 50 and 20 minutes left, a draw of one takes the node with 10 and leaves the other four |
| Scenarios.SecondDraw | tests/test_registry.py:422-426 | from those four, a draw of three takes the nodes with 20, 30 and 40, in that order, and leaves the one with 50 |
| DateTime.JsRem | api_service/static/scripts/datetime.js:2-3 | JavaScript's remainder: the dividend is the divisor times the quotient truncated toward zero, plus the remainder; the remainder takes the sign of the dividend and lies strictly within the divisor |
| DateTime.OrdinalSuffixOf | api_service/static/scripts/datetime.js:1-14 | "st" iff the value ends in 1 and not 11, "nd" iff it ends in 2 and not 12, "rd" iff it ends in 3 and not 13, otherwise "th"; always one of the four |
| DateTime.OrdinalSuffixIsEnglish | api_service/static/scripts/datetime.js:1-14 | on every natural number the modular tests agree with the English digit rule (tens digit 1 gives "th") |
| DateTime.OrdinalSuffixOfNegative | api_service/static/scripts/datetime.js:2-13 | a negative value always gets "th", because JavaScript's remainder is then never positive |
| DateTime.OrdinalSuffixOfDaysOfMonth | api_service/static/scripts/datetime.js:1-14 | days 1..31 get 1st, 2nd, 3rd, 21st, 22nd, 23rd, 31st and "th" otherwise |
| DateTime.CheckTime | api_service/static/scripts/datetime.js:16-23 | a value below 10 becomes the string "0" followed by its digits; any other is returned unchanged as a number |
| DateTime.CheckTimeTwoDigits | api_service/static/scripts/datetime.js:16-23 | every value from 0 to 59 is shown as exactly two characters that read back as the value |

`scenarios.dfy` also replays six scenarios from the tests, using only the contracts
above:

- an empty hub pool yields nothing (tests/test_registry.py:335-336);
- selection by type and by fewest minutes left (tests/test_registry.py:362-382, on a
  three-hub pool);
- an allocation followed by two finishes, where the second finish changes nothing
  (tests/test_registry.py:298-313);
- a hub that was only provisioned, with five nodes, is finished by its id, and both pools
  receive its resources (tests/test_registry.py:222-236);
- the teardown sweep: hubs are provisioned, finished with `FinishWithHub` and swept
  together with pooled nodes of the same ages; the resources 5 and 1 minutes from their
  hour stay and those 3 minutes from it are torn down (tests/test_registry.py:142-220, on
  three of the five ages);
- a node pool of five is drained one, then three, then one node at a time, and each draw
  yields the nodes with the fewest minutes left, in ascending order
  (tests/test_registry.py:384-431).

## Left out

- HTTP layer: the Flask routes, the JSON response wrappers and their endpoint tests.
- Network calls to the hubs: the node-status and usage payloads are taken as
  already-decoded records, and fetching, timeouts and JSON decoding are not modelled. In
  the abandonment sweep, each hub's poll outcome is an input (`idleTimes`).
- The `served_sessions` report that the teardown test serves to each pooled hub
  (tests/test_registry.py:156-160): the teardown sweep reads no usage, and whether a pooled
  resource is torn down depends only on its time-until-hour.
- The hub control calls `stop_grid`, `start_grid`, `reset` and `set_hub`
  (tests/test_registry.py:28-50): remote side effects on the hub, with no state in the model.
- EC2 provisioning and termination: the instances the provider would create are
  parameters. `SpinupHub` and `SpinupNodes` take the new hub and nodes, and so do
  `AllocateGrid`'s `newHub` and `newNodes`. A provisioned hub must carry an id that is not
  pooled or active. The torn-down resources are returned rather than terminated.
- Skygrid.SkygridOnDemand.SpinupHub: files the provisioned hub as a grid with an empty team.
  This is what lets a hub that was only provisioned be finished by its id
  (tests/test_registry.py:222-236). The team the service records for such a hub is not
  known.
- Skygrid.SkygridOnDemand.FinishWithHub: requires that no pooled hub carries the hub's id.
  Finishing a hub that is already pooled, which would pool it a second time, is not
  modelled.
- The real clock: `now` is a parameter, and creation and assignment times are integers.
- `dump_report`, the registry refresh and the `ordered()` comparison: these are
  serialisation and order-insensitive equality.
- The logger and its log tail.
- Background scheduling and mutual exclusion between sweeps and request handlers: every
  operation runs to completion alone.
- The node-check sweep: only its timestamp is modelled, as a field that the health check
  reads.
- `setDate`, `setTime` and `startUpdates` in datetime.js: DOM writes, timers and
  floating-point font scaling.
- DateTime.CheckTime: JavaScript numbers are doubles, but the model uses unbounded
  integers. Fractions and magnitudes of 1e21 or more, which JavaScript prints differently,
  are not modelled. The clock only passes small whole numbers.
- Creation times are constants. A hub's creation time is a constant field, and a `Node` is
  an immutable value. The tests back-date both hubs and nodes by assignment
  (tests/test_registry.py:180-188, 404-408). The model instead creates them with the wanted
  time.
- Decimal.ParseNat: reads digits only. A sign, whitespace or an empty string is a malformed
  idle time, which becomes a poll failure.
- Skygrid.SkygridOnDemand.CheckForAbandonedGrids: does not state that each finished hub's
  node list is emptied, or which nodes are appended behind those already pooled. Both are stated for one grid by
  FinishWithGrid, which the sweep calls for each abandoned grid.
- Skygrid.SkygridOnDemand.FinishGrids: same omission as CheckForAbandonedGrids.
- Node exclusivity: a resource is meant to sit in one pool or registry only, but `Valid`
  states this for hubs alone. A node may be pooled twice, or pooled while still attached
  to a hub: `FinishWithNode` does not detach it (tests/test_registry.py:132-140 pools a node
  that its hub still lists), and `AllocateGrid` does not check that its new nodes are
  absent from the pool and from every hub.
- Skygrid.SkygridOnDemand.AllocateGrid: when too few nodes are available, the model checks
  this before touching any pool. A service that takes resources first and hands them back
  on failure is not distinguished.
- SkygridCalls.GridIdleTime: a hub that reports no nodes gets idle time 0. An empty report
  is no evidence that the grid is idle, so it never counts towards abandonment. The tests
  do not cover this case.
- Skygrid.OutsideReclaimBand: the band is inclusive at both ends. The tests pin down only
  that 2 and 3 go and 1, 4 and 5 stay, so the bounds are configuration
  (`Config.reclaimBand`).
