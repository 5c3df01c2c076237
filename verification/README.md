# RadioHead manager stack: a verified model

A Dafny model of the layered radio protocol in this repository, and proofs of what it does over all
inputs and all runs: the bounded routing table, mesh route discovery and failure handling, the reliable
datagrams below it with their eight-bit sequence numbers, the RF95 driver, the serial line to the radio
module, and the timed waits.

`dafny verify dfyconfig.toml` checks everything.

## How it is built

| file | what is in it |
|---|---|
| `Octets.dfy` | `uint8_t`, `uint16_t`, `uint32_t` and their wrap-around |
| `RouteTable.dfy` | the ten slots: functions on their contents, and the class `RoutingTable` that changes them in place |
| `RouteTableTheory.dfy` | the map the slots stand for, after every history; capacity |
| `RouteFifo.dfy` | the first-in first-out list they stand for, and exactly when clearing ends that |
| `MeshProtocol.dfy` | one node: routing, peeking, discovery requests, `doArp`, as functions |
| `MeshNode.dfy` | the same node as an object with its two message buffers, proved against those functions |
| `MeshNodeTheory.dfy` | failures, results of a send, what a request teaches, when a reply finds a route |
| `Graphs.dfy`, `MeshNetwork.dfy` | the whole mesh as a transition system, its invariant, octet arithmetic |
| `MeshFlood.dfy` | a potential that every discovery flood uses up |
| `MeshRoutes.dfy` | what learnt routes mean, on any graph and on a tree |
| `MeshRuns.dfy` | kinds of runs, receivers that keep one frame, and runs built step by step |
| `MeshOneFrame.dfy` | between receivers that keep one frame two nodes never point at each other |
| `MeshRings.dfy` | and longer loops are possible for exactly the destinations with two ways to a cycle |
| `MeshLoops.dfy` | cycles and trees, and what happens if receivers could keep two frames |
| `MeshDiscovery.dfy` | a discovery that succeeds, and one that takes the wrong answer |
| `MeshForwarding.dfy` | hop-limited forwarding over arbitrary tables |
| `MeshDelivery.dfy` | sendtoWait as steps of the mesh, and what applications are handed in any run |
| `MeshFailures.dfy` | a failure report on its way back, and the discovery it leads to |
| `ReliableDatagram.dfy` | stop-and-wait with sticky headers, as functions and as the class `Manager` |
| `ExactlyOnce.dfy` | two stations (among others) over a lossy medium, unbounded numbers behind the octets |
| `Rf95.dfy` | the driver's mode machine and packet format, and the class `Driver` |
| `EndToEnd.dfy` | a payload through every layer and any number of relays |
| `SerialLink.dfy` | the command printer of the driver and the parser in the firmware's `loop()` |
| `Clock.dfy` | waits over a millisecond counter that wraps around |

Code that changes fields and arrays step by step is a class here, whose methods are proved equal to a
function of the state before; the theorems are about those functions, over every input, every history and
every interleaving.

What the model takes for granted: managers are declared at global scope, so their memory starts as zeros
(examples/rf95_mesh_address1/rf95_mesh_address1.ino:78; the constructors leave `_seenIds` and the slots'
destinations alone); node addresses are unique and not 0xff; drivers are not promiscuous, except that
`Rf95` models both; `unsigned long` has 32 bits, as on the boards the library is for. What a call depends on from outside is an argument: whether each link-level send is
acknowledged (`acks`), the frames heard in time (`inbox`, `windows`), the octets found on the serial line
(`events`, `inputs`), the readings of `millis()`. Any value is allowed for all of them. One octet is read
from outside a message, just past a response's list (RHMesh.cpp:104-106); the model takes it as an
argument, `past`. `deleteRoute` moves slots with `memcpy` over overlapping memory (RHRouter.cpp:90-91);
the model moves them as intended.

## What came out that the comments do not say

- "We are certain to have a route there, because we just got it" (RHMesh.cpp:203): not with ten slots. On a
  node that knows nothing yet the reply finds a route exactly when the list has fewer than ten nodes
  (`FirstReplyHasRouteIff`), and `ReplyHasRouteIff` with `ReplyRouteBounds` says when for any table of the
  protocol's own making.
- "The oldest (first) one will be removed" (RHRouter.h:93-95): after `clearRoutingTable` the oldest route is the
  one evicted in every history exactly when all slots carry the same stale destination (`ClearedTableIsFifoIff`).
- `deleteRouteTo` returns true for a stale slot, too; its contract says exactly when.
- `doArp` does not look whose response it got (RHMesh.cpp:71-75). On a tree a response that names the awaited
  node would give the right route (`NamedAwaitedRouteIsCorrect`); as it is, the answer to a discovery given up
  before sends the next message to the wrong neighbour (`LateAnswerMisleads`).
- `doArp`'s `messageLen` only shrinks: it finds its response exactly if no empty message for it came before
  (`DiscoverFindsIff`), and an application message of length 0 is one (`EmptyMessageHidesAnswer`).
- `peekAtMessage` means "the routes to all the nodes between here and the responding node" (RHMesh.cpp:92-93), but
  starts two past this node and ends one octet past the list. `ResponseTeachesExactly` says what it adds,
  `RelayCoverageIff` when that is what was meant, and `AskerLearnsOnlyTheSought` that the asker gets none of it.
  On the test line the octet past the list gives node 2 a route to address 0 in the first discovery, which does no
  harm (`FirstAnswerOnTheLine`); `PeekKeepsCorrectIff` says when it does. What breaks a discovery is the asker's own
  address there (`DiscoveryCanSucceed`, `LeftoverOctetMisleads`).
- Routes learnt from requests always begin genuine paths (`LearntRoutesAreGenuine`), and the driver's one receive
  buffer (RH_RF95.cpp:77-100) keeps them better than that: between receivers that keep one frame, discovery never
  leaves two nodes pointing at each other, on any graph (`OneFrameNeverPairs`). Longer loops of next hops towards d
  are still possible, in small networks that know nothing yet exactly if d has two ways to a cycle it is not on
  (`OneFrameLoopIff`): on RH_TEST_NETWORK 2 for node 1 (`TestNetworkTwoCanLoop`), on the square of RH_TEST_NETWORK 3
  for none (`TestNetworkThreeNeverLoops`). With drivers that queued frames, every graph but a tree would let two
  nodes point at each other (`QueuedPairIff`, `QueuedTestNetworkThree`).
- A payload that reaches a node inside `doArp` is acknowledged by the link and lost: `SearchSwallowsPayload`.
- Payloads of 246 to 249 octets pass the check of RHMesh.cpp:31 and fail in the router: `SendResultAndTableAgree`.
- With 255 retries an unacknowledged unicast is transmitted for ever: `GoesOnIff` and `ReturnsIff`.
- A message whose number is a multiple of 256 after the last one heard is acknowledged and thrown away:
  `WrappedMessageIsLost`, which is why `ExactlyOnceDelivery` asks that frames are heard within 256 sends.
- Likewise an ACK from 256 sends ago confirms the message being sent: `StaleAckConfirmsIff`.
- `sleep()` during a transmission loses its count: `SleepKeepsBalanceIff`.
- A fragment that overwrites an uncollected packet makes the length that `recv` computes negative:
  `LengthNegativeIff`.
- With timeout settings above 32832 ms the random extension can pass 65535 and make the retransmission timeout
  shorter than the setting: `BackoffAlwaysLongEnoughIff`.

## Model

| member | source | states |
|---|---|---|
| RouteTable.RoutingTable.AddRouteTo | RHRouter.cpp:42-75 | the ten slots after the three in-place searches are `Add` of the slots before; the last loop, which has no return, writes exactly one slot |
| RouteTable.RoutingTable.GetRouteTo | RHRouter.cpp:78-85 | the next hop of the first live slot of the destination, or none |
| RouteTable.RoutingTable.DeleteRoute | RHRouter.cpp:88-93 | later slots move down one place, the last slot keeps its contents but turns Invalid |
| RouteTable.RoutingTable.DeleteRouteTo | RHRouter.cpp:112-121 | removes the first slot of the destination; true exactly if any slot, stale ones included, had it |
| RouteTable.RoutingTable.RetireOldestRoute | RHRouter.cpp:124-127 | slot 0 goes |
| RouteTable.RoutingTable.ClearRoutingTable | RHRouter.cpp:130-135 | every slot turns Invalid and keeps its destination |
| RouteTable.RoutingTable.constructor | RHRouter.cpp:20-24 | a manager in zeroed memory starts with the zero table |
| RouteTableTheory.AddIsUpdate | RHRouter.cpp:42-75 | on a table where each live slot is the first of its destination, adding keeps that, makes the lookup of the destination give the new hop, and changes no other lookup except slot 0's on a full-table insert |
| RouteTableTheory.DeleteIsRemoval | RHRouter.cpp:112-121 | deleting keeps that, makes the lookup fail and changes no other lookup |
| RouteTableTheory.ShiftSound | RHRouter.cpp:88-93 | shifting the slots keeps that, and loses at most the one destination |
| RouteTableTheory.ClearIsEmpty | RHRouter.cpp:130-135 | no lookup succeeds after clearing |
| RouteTableTheory.EveryHistorySound | RHRouter.cpp:42-135 | after every history of adds, deletes, retirements and clears, from slots with any stale destinations, every live slot is the first with its destination |
| RouteTableTheory.NoEviction | RHRouter.cpp:56-74 | pigeonhole: with at most ten possible destinations an insert never evicts |
| RouteTableTheory.TenAddressesNeverEvict | RHRouter.cpp:42-85 | if all destinations ever added come from ten addresses, the table reads as an unbounded map after every history |
| RouteTableTheory.AddAllLearns | RHMesh.cpp:195-199 | then learning a whole list through one neighbour gives routes to exactly its members, all through that neighbour |
| RouteFifo.StepRefines | RHRouter.cpp:42-127 | each table operation is the same operation of a bounded list with unique keys: update in place, evict the oldest, delete keeping order |
| RouteFifo.EveryRunIsFifo | RHRouter.cpp:42-127 | the slots stay a live prefix followed by Invalid slots sharing one stale destination, in every run that never clears |
| RouteFifo.ZeroedTableIsFifo | RHRouter.cpp:20-24 | in particular from zeroed memory |
| RouteFifo.SeenAsQueue | RHRouter.cpp:78-85 | every lookup in such a table is the list's lookup |
| RouteFifo.SwappedHistoryEvictsTheNewer | RHRouter.cpp:56-74 | with two different stale destinations after a clear there is a history in which the newer route is evicted |
| RouteFifo.ClearedTableIsFifoIff | RHRouter.cpp:130-135 | a cleared table behaves as a FIFO list in every future exactly when all its slots carry one stale destination |
| MeshNode.MeshNode.constructor | RHMesh.cpp:20-22 | a new node knows no routes and has sent nothing |
| MeshNode.MeshNode.LinkSendtoWait | RHReliableDatagram.cpp:43-97 | as the router sees it: a broadcast succeeds, a unicast exactly if acknowledged; the receive headers may be anything afterwards |
| MeshNode.MeshNode.RouterRoute | RHRouter.cpp:161-177 | looks up the next hop, sends once or reports NO_ROUTE |
| MeshNode.MeshNode.Route | RHMesh.cpp:116-134 | it saves FROM before the send can overwrite it; the virtual `route` with its nested call; it terminates because the nested message is this node's own, and equals the non-recursive `MeshRoute` |
| MeshNode.MeshNode.SendtoFromSourceWait | RHRouter.cpp:144-158 | length check, header with hops 0 and the next end-to-end number, then `route` |
| MeshNode.MeshNode.RouterSendtoWait | RHRouter.cpp:138-140 | the same with this node as source: failures are not reported to anyone |
| MeshNode.MeshNode.ScrapeRoutes | RHMesh.cpp:96-106 | the two loops add exactly the members from two past this node on, and the octet past the list |
| MeshNode.MeshNode.PeekAtMessage | RHMesh.cpp:87-112 | responses teach routes, failure reports delete one, nothing else changes |
| MeshNode.MeshNode.RouterRecvfromAck | RHRouter.cpp:186-271 | peek, then deliver with the headers and min(room, length) octets, or count a hop and relay below the limit |
| MeshNode.MeshNode.HearOne | RHMesh.cpp:68-80 | one pass of `doArp`'s loop, with the length that never grows back |
| MeshNode.MeshNode.ListenForReply | RHMesh.cpp:62-82 | the loop stops at the first response delivered here |
| MeshNode.MeshNode.SendRequest | RHMesh.cpp:53-60 | the discovery broadcast: one address octet, an empty list |
| MeshNode.MeshNode.DoArp | RHMesh.cpp:50-83 | the whole discovery as one function of the frames heard |
| MeshNode.MeshNode.LoadApplicationMessage | RHMesh.cpp:43-45 | the message octets in the shared buffer |
| MeshNode.MeshNode.SendtoWait | RHMesh.cpp:30-47 | discover if there is no route, then send; all error codes |
| MeshNode.MeshNode.RecvfromAck | RHMesh.cpp:144-217 | delivers application messages, handles requests, swallows the rest |
| MeshNode.MeshNode.Mentioned | RHMesh.cpp:189-193 | true exactly if this node is in the list |
| MeshNode.MeshNode.RecordRoutesBack | RHMesh.cpp:195-199 | routes to the originator and to the list, in that order, through the sender |
| MeshNode.MeshNode.HandleDiscoveryRequest | RHMesh.cpp:179-213 | ignore own and known requests; learn; answer, or append this node and pass on below the limit |
| MeshNodeTheory.MeshReceiveKeeps | RHMesh.cpp:144-217 | no received frame can break the table's map property |
| MeshNodeTheory.ListenFindsRoute | RHMesh.cpp:62-82 | a wait that ends with a response ends with a route to the address |
| MeshNodeTheory.FailureForgetsRoute | RHMesh.cpp:116-134 | at most two link-level sends; afterwards no route to the failed destination, exactly unless the message was some other node's message to itself and the report is acknowledged or broadcast |
| MeshNodeTheory.FailureIsReported | RHMesh.cpp:122-131 | the source is told through the neighbour the message came from, and routed there, or forgotten too |
| MeshNodeTheory.ReceiveAnsweredInOrder | RHMesh.cpp:116-217 | each link-level send of one call has its own answer, in order, and a broadcast needs none |
| MeshNodeTheory.SendResultAndTableAgree | RHMesh.cpp:30-83 | NO_ROUTE exactly when there was none and discovery failed; INVALID_LENGTH exactly for too long payloads; after UNABLE_TO_DELIVER no route is left; success means the first hop on the table's route acknowledged this very message |
| MeshNodeTheory.RequestLeadsTo | RHMesh.cpp:176-214 | a request that is no news changes nothing; a new one for this node is answered with its list, or there is no route; a new one for another goes on in its originator's name with this node at the end, exactly below both limits; no other request sends anything or takes a number |
| MeshNodeTheory.UnicastRequestIsIgnored | RHMesh.cpp:176-178 | a request that is addressed to this node alone changes nothing, sends nothing and is handed to nobody |
| MeshNodeTheory.ListenFindsIff | RHMesh.cpp:62-82 | the wait succeeds exactly if there is room for more than one octet and some response for this node is heard with no empty message for it before |
| MeshNodeTheory.DiscoverFindsIff | RHMesh.cpp:50-83 | exactly when a whole discovery succeeds |
| MeshNodeTheory.DeafAfterEmptyMessage | RHMesh.cpp:64-76 | once the remaining length is at most one, no discovery succeeds, whatever is heard |
| MeshNodeTheory.EmptyMessageHidesAnswer | RHMesh.cpp:64-76 | a response that would be taken alone is missed after one application message of length 0 |
| MeshNodeTheory.ResponseTeachesExactly | RHMesh.cpp:87-106 | with room, a passing response gives routes through its sender to exactly the sought node, the members from two past this node on and the octet past the list, and changes no other lookup |
| MeshNodeTheory.RelayCoverageIff | RHMesh.cpp:92-106 | a listed node gets all the routes the comment promises exactly when nothing comes after it, or the node after it has its route already or equals the octet past the list |
| MeshNodeTheory.AskerLearnsOnlyTheSought | RHMesh.cpp:92-106 | the node that asked learns the sought node and no other: every other lookup stays, but for slot 0's if the table was full |
| MeshNodeTheory.RequestTeachesAllItNames | RHMesh.cpp:195-205 | if table and request name at most ten nodes: routes to all named nodes through the sender, other lookups unchanged, and the reply goes out with the whole list and never fails for lack of a route |
| MeshNodeTheory.LearnRefines | RHMesh.cpp:195-199 | in general: learning any list is learning it on the FIFO list the table stands for |
| MeshNodeTheory.SurvivesIff | RHMesh.cpp:195-199 | a route outlives learning a list exactly when the listed nodes that have no route when their turn comes are no more than there is room for behind it |
| MeshNodeTheory.RouteBackSurvivesIff | RHMesh.cpp:195-199 | in particular the route to the originator |
| MeshNodeTheory.ReplyHasRouteIff | RHMesh.cpp:200-205 | the target's reply finds a route exactly under that condition |
| MeshNodeTheory.ReplyRouteBounds | RHMesh.cpp:200-205 | it finds none if more listed nodes than that are unknown, and one if those and the ones placed before the originator are no more |
| MeshNodeTheory.FirstReplyHasRouteIff | RHMesh.cpp:200-205 | on a fresh node: exactly for lists shorter than ten |
| MeshNetwork.RequestHandledOk | RHMesh.cpp:176-213 | relaying extends the simple path a request carries, answering completes it |
| MeshNetwork.StepKeepsInv | RHMesh.cpp:50-217 | any step of any node keeps the network invariant: lists are duplicate-free paths between neighbours from the originator, without the sought node, no longer than the largest hop limit, a request comes from its last member |
| MeshNetwork.EveryRunKeepsInv | RHMesh.cpp:50-217 | over whole runs with loss, delay and reordering |
| MeshNetwork.EveryCopyCanBeHandled | RHMesh.cpp:144-187 | no message in the air is too short for the code that reads it |
| MeshNetwork.ResponsesListGenuinePaths | RHMesh.cpp:200-205 | a response that came back to the asker lists a simple path to the node it sought |
| MeshNetwork.LengthsNeverWrap | RHMesh.cpp:96-212 | the octet subtractions for payload and list lengths are the real differences and a list member more still fits the 250-octet buffer, for every hop limit |
| MeshFlood.RequestShrinks | RHMesh.cpp:176-213 | handling one copy of a request creates copies that together weigh less than it, the weight being (N + 1)^(H - list length) |
| MeshFlood.StepSpendsPotential | RHMesh.cpp:176-213 | every step keeps the potential, taking or losing a request copy lowers it, starting a discovery raises it by a fixed amount |
| MeshFlood.EveryFloodDiesOut | RHMesh.cpp:176-213 | in every run, request copies taken out of the air are bounded by the discoveries started |
| MeshRoutes.RequestTeachesGenuinePaths | RHMesh.cpp:195-199 | each route learnt from a request is the first hop of a genuine simple path |
| MeshRoutes.LearntRoutesAreGenuine | RHMesh.cpp:176-214 | in every run of discovery steps, on every graph |
| MeshRoutes.OnwardIsAway | RHMesh.cpp:116-134 | on a tree a relayed message moves away from its source, so a failure report has a correct way back |
| MeshRoutes.PeekKeepsCorrectIff | RHMesh.cpp:87-112 | on a tree peeking keeps all routes to nodes correct exactly if the octet past the list, when read, is no node's address or a node behind the sender |
| MeshRoutes.NamedIsBehind | RHMesh.cpp:200-205 | on a tree every node that a response names is, back home, behind its sender |
| MeshRoutes.NamedAwaitedRouteIsCorrect | RHMesh.cpp:70-76 | so a response that names the awaited node gives the right route to it |
| MeshRoutes.StepKeepsTreeInv | RHMesh.cpp:30-217 | on a tree, every step keeps all routes to nodes on the one path to them and all routed messages on their path, provided that the octet past a list does no harm, an awaited response names the awaited node, and nothing is sent on a route to an address that no node has |
| MeshRoutes.TreeRoutesPointHome | RHMesh.cpp:30-217 | over whole runs with discovery, relaying, failures and reports |
| MeshRoutes.FreshTreeRoutesPointHome | RHMesh.cpp:176-214 | from empty tables: every lookup of a node, anywhere, gives the neighbour on the path |
| MeshRoutes.FirstAnswerOnTheLine | RHMesh.cpp:96-106 | the first answer on the line of four, with zeros behind it, is such a step although it adds a route to address 0 |
| MeshRoutes.LeftoverOctetMisleads | RHMesh.cpp:96-106 | with the asker's address left over behind it, the same answer turns node 2's route to the asker the wrong way |
| MeshRoutes.NextHopsCannotLoop | RHMesh.cpp:176-214 | following next hops on a tree runs along that path, each node once |
| MeshRoutes.LineIsTree | RHRouter.cpp:197-202 | the line of the test network, of any length, is such a tree |
| MeshRuns.RelayStep | RHMesh.cpp:195-212 | taking one copy of a request: the route learnt, the copies left and the copies made |
| MeshRuns.TravelAlong | RHMesh.cpp:195-212 | a request can travel along any simple path, leaving each relay with its route back, while copies elsewhere wait and the rest gets lost |
| MeshRuns.AnswerStep | RHMesh.cpp:200-205 | the node sought answers through the neighbour it heard the request from |
| MeshRuns.ReturnStep | RHRouter.cpp:241-267 | a relay passes the answer on towards the asker, whatever known node the octet past the list names, but for the asker and itself |
| MeshRuns.TakeAnswerStep | RHMesh.cpp:70-76 | a waiting node takes any response, and its message goes out to the response's sender |
| MeshDiscovery.DiscoveryCanSucceed | RHMesh.cpp:30-83 | along any simple path with fewer than ten relays within their hop limits there is a run, with one frame for each receiver, in which the asker gets its route and the waiting message goes out on it, whatever the octets past the list are, but for the asker's address (`LeftoverOctetMisleads`) and the relay's own, as long as all addresses concerned are eleven at most |
| MeshDiscovery.LateAnswerMisleads | RHMesh.cpp:66-82 | a node that gave up on one discovery and starts another takes the first one's answer for the second's; on a tree the route is then wrong for any other neighbour |
| MeshLoops.UniquePathsIff | RHRouter.cpp:197-229 | a radio graph has one path between any two nodes exactly if it has no cycle |
| MeshOneFrame.ReceiveTakes | RHMesh.cpp:176-213 | one request taken by a node whose only frame it is: where each route may have moved, and where each copy in the air comes from |
| MeshOneFrame.StepKeepsOneFrameInv | RHMesh.cpp:176-214 | no two requests with news of d pass each other, no one hears news of d from a node that goes to d through it, and no two nodes point at each other: every discovery step keeps this |
| MeshOneFrame.OneFrameNeverPairs | RHMesh.cpp:176-214 | so between receivers that keep one frame, on any graph of any size and with any limits, no run of discovery steps leaves two nodes pointing at each other |
| MeshRings.RoundHasTwoWays | RHMesh.cpp:176-214 | a loop of next hops to d is a cycle of the graph without d that d reaches at two different nodes |
| MeshRings.TwoWaysCanLoop | RHMesh.cpp:176-214 | and on such a cycle two requests of d, with one frame for each receiver, can close a loop |
| MeshRings.OneFrameLoopIff | RHMesh.cpp:176-214 | in a network of up to eleven nodes that know nothing, within the hop limits: next hops for d can end up in a loop of any length exactly if d has two ways to a cycle |
| MeshRings.TestNetworkTwoCanLoop | RHRouter.cpp:204-211 | the repository's square with a diagonal can get one for node 1 |
| MeshRings.TestNetworkThreeNeverLoops | RHRouter.cpp:213-220 | its square without one never does |
| MeshLoops.QueuedCycleCanLoop | RHMesh.cpp:195-212 | between receivers that can keep two frames, which this driver's are not: on any cycle of up to eleven nodes one discovery can leave two neighbours pointing at each other for the asker |
| MeshLoops.TreeCannotLoop | RHMesh.cpp:176-214 | on a tree no run of discovery steps does so, however many frames are kept |
| MeshLoops.QueuedPairIff | RHMesh.cpp:176-214 | between such receivers, in a network of up to eleven nodes that know nothing: two nodes can end up pointing at each other exactly if the graph is no tree |
| MeshLoops.QueuedTestNetworkThree | RHRouter.cpp:213-220 | the repository's square, between such receivers |
| MeshForwarding.HopsCountRelays | RHRouter.cpp:241-267 | with arbitrary, even cyclic, tables the hops field counts the relays, never wraps, each relay was within its limit, and nothing else in the message changes |
| MeshForwarding.PassedOnIff | RHRouter.cpp:241-267 | a message for another node is passed on, whatever its type, exactly if a relay is left and there is a route after peeking, and with one more hop; past the limit nothing is sent |
| MeshForwarding.RelaysAreLimited | RHRouter.cpp:261-267 | so a message is relayed no more than the largest limit |
| MeshForwarding.ArrivesIff | RHRouter.cpp:241-267 | along a chain of next hops with successful sends it arrives exactly if every relay is within its own limit |
| MeshForwarding.DeliveredIffRankAllows | RHRouter.cpp:144-177 | if tables descend a rank towards the destination, a message from rank r arrives exactly when r - 1 relays are allowed |
| MeshDelivery.DiscoveryAsks | RHMesh.cpp:50-60 | the first thing a discovery sends is a broadcast request, with hops 0, flags 0, an empty list and this node as source, for the address it looks for |
| MeshDelivery.SendBeginsWith | RHMesh.cpp:30-47 | without a route a send begins with that request; with one it is the single message over it, or nothing if the radio cannot take it |
| MeshDelivery.MeshSendIsSteps | RHMesh.cpp:30-83 | sendtoWait is the mesh's `Begin` followed by `Take` for each frame heard: the same node, the same sends, and NO_ROUTE exactly if the node is still waiting at the end; so the theorems about runs are about the methods |
| MeshDelivery.DeliveredIff | RHMesh.cpp:150-216 | recvfromAck hands over a message exactly if it is an application message for this node or for all |
| MeshDelivery.DeliveredWhole | RHMesh.cpp:153-175 | with room for any message it is the whole payload, with the message's own source, destination, id and flags |
| MeshDelivery.SearchSwallowsPayload | RHMesh.cpp:64-80 | a payload that comes while this node looks for a route leaves nothing but a smaller length |
| MeshDelivery.StepKeepsGenuine | RHMesh.cpp:30-217 | every step keeps: each application message in the air or waiting for a route is what its source's application gave to sendtoWait |
| MeshDelivery.OnlyPayloadsAreDelivered | RHMesh.cpp:30-217 | in every run whatever an application is handed is the whole payload that the named source's application sent to this node or to all, with its flags: never protocol data |
| MeshFailures.PeekForgets | RHMesh.cpp:87-112 | hearing a failure report removes the route to the node it names and no other; messages of other types than response and failure leave the table alone |
| MeshFailures.ReportIsTakenAlike | RHMesh.cpp:62-217 | a report has the same effect inside `doArp` and outside, and is handed to nobody |
| MeshFailures.RouteStaysForgotten | RHMesh.cpp:116-134 | passing a report on cannot bring the route back, not even if that fails, too |
| MeshFailures.ReportClearsItsWay | RHMesh.cpp:87-134 | over arbitrary tables and links: no node the report has come to has a route to the failed node afterwards, and all other nodes are as before |
| MeshFailures.ComesBackIff | RHRouter.cpp:241-267 | along a chain of next hops with successful sends the report reaches the source exactly if every relay is within its limit, although the tables change on the way |
| MeshFailures.FailureLeadsToDiscovery | RHMesh.cpp:30-134 | a relay that cannot pass a message on tells its source; once told, neither the relay nor any node on the way nor the source has a route to the destination, and every next send of the source to it begins with a new request |
| ReliableDatagram.Manager.constructor | RHReliableDatagram.cpp:18-24 | a manager in zeroed memory |
| ReliableDatagram.Manager.SetHeaderFlags | RHGenericDriver.cpp:87-90 | clear first, then set |
| ReliableDatagram.Manager.Sendto | RHDatagram.cpp:31-34 | TO changes, FROM is always this node, ID and FLAGS are whatever was last set |
| ReliableDatagram.Manager.SendAcknowledgement | RHReliableDatagram.cpp:163-174 | one '!' with the id and the ACK flag, which stay in the headers |
| ReliableDatagram.Manager.RecvAck | RHReliableDatagram.cpp:100-138 | acknowledge unless ACK or broadcast, accept unless the id is the sender's last one |
| ReliableDatagram.Manager.AwaitAck | RHReliableDatagram.cpp:74-91 | the wait after one transmission: stop at the acknowledgement, acknowledge known frames again |
| ReliableDatagram.Manager.TryOnce | RHReliableDatagram.cpp:48-91 | one pass of the retry loop with its counters and headers |
| ReliableDatagram.Manager.TryUntilDone | RHReliableDatagram.cpp:46-96 | the retry loop with its octet counter, followed for any number of passes: whether it has returned, with what, and all it sent |
| ReliableDatagram.Manager.SendAndWait | RHReliableDatagram.cpp:43-97 | the whole of sendtoWait as a function of what is heard |
| ReliableDatagram.RetryLoop | RHReliableDatagram.cpp:43-97 | every data transmission is the same frame with this send's id and ACK clear whatever acknowledgements went out between; no more than retries + 1 of them for limits below 255, exactly one for a broadcast; retransmissions counted as the octet counter does; success exactly if the acknowledgement is heard in time |
| ReliableDatagram.GoesOnIff | RHReliableDatagram.cpp:46-94 | after n transmissions without an answer it goes on exactly if n is within the limit or the limit is 255 |
| ReliableDatagram.ReturnsIff | RHReliableDatagram.cpp:43-97 | sendtoWait ever returns exactly if the limit is below 255, it is a broadcast, or the acknowledgement is heard |
| ReliableDatagram.WindowEndsIff | RHReliableDatagram.cpp:74-91 | a wait succeeds exactly if a matching acknowledgement is heard in it |
| ReliableDatagram.FlagsAre | RHGenericDriver.cpp:87-90 | the bits to set are set, the others to clear are clear, the rest stay |
| ReliableDatagram.HeadersOfLastFrame | RHDatagram.cpp:31-34 | whatever a sendtoWait or a recvfromAck sends, the headers left behind are those of its last frame |
| ReliableDatagram.AcknowledgementIs | RHReliableDatagram.cpp:163-174 | one octet from this station to the given one, with the id, the ACK bit and this station's other flags |
| ReliableDatagram.AckIsAwaited | RHReliableDatagram.cpp:74-138 | the one answer to a unicast data frame is exactly what its sender waits for; the frame is accepted exactly if its id is not the last one |
| ReliableDatagram.AckInsideWaitIsAwaited | RHReliableDatagram.cpp:82-84 | inside a sendtoWait of its own a station gives that answer to exactly the frames it has had |
| ReliableDatagram.NoAnswer | RHReliableDatagram.cpp:107-115 | broadcasts and acknowledgements are answered by nothing |
| ReliableDatagram.AcksNeverExceedRequests | RHReliableDatagram.cpp:107-115 | over any run of sends and receptions no more ACKs are sent than non-ACK frames came in |
| ExactlyOnce.SuppressionRightIff | RHReliableDatagram.cpp:116-117 | the test on octets agrees with the real numbers exactly unless a positive multiple of 256 went by |
| ExactlyOnce.WrappedMessageIsLost | RHReliableDatagram.cpp:109-132 | a newer message is acknowledged and discarded exactly in that case |
| ExactlyOnce.StaleAckConfirmsIff | RHReliableDatagram.cpp:79-81 | an acknowledgement that B sent for the n-th message confirms the awaited one exactly if a multiple of 256 sends went by since |
| ExactlyOnce.EventKeeps | RHReliableDatagram.cpp:43-138 | every event at either station, losses and third stations included, keeps: frames under way are in order, each ACK is for an accepted message, the accepted messages are in order |
| ExactlyOnce.ExactlyOnceDelivery | RHReliableDatagram.cpp:43-138 | in every run where frames are heard within 256 sends: each message is accepted at most once, in order, unchanged, and exactly once if sendtoWait returned true |
| ExactlyOnce.HeardIsConfirmed | RHReliableDatagram.cpp:43-138 | with nothing else under way, a transmission that B takes and an answer that A hears end sendtoWait with success for the current message |
| ExactlyOnce.HeardAgainIsConfirmed | RHReliableDatagram.cpp:43-97 | the same for a message B has had before, heard inside a sendtoWait of its own |
| Rf95.Driver.constructor | RH_RF95.cpp:17-21 | nothing counted, nothing received |
| Rf95.Driver.ValidateRxBuf | RH_RF95.cpp:108-123 | headers taken from the first four octets; counted and valid exactly if addressed here |
| Rf95.Driver.HandleInterrupt | RH_RF95.cpp:72-103 | the three guarded cases of mode and flags |
| Rf95.Driver.Available | RH_RF95.cpp:127-140 | one octet at most, then receive mode unless transmitting |
| Rf95.Driver.WaitPacketSent | RHGenericDriver.cpp:46-53 | polls until the transmission is over |
| Rf95.Driver.SendPacket | RH_RF95.cpp:167-193 | refuses long data, waits, then gives header and data to the transmitter |
| Rf95.Driver.Recv | RH_RF95.cpp:150-163 | the latest packet's data up to the caller's room; the buffer is free again |
| Rf95.Driver.GoToSleep | RH_RF95.cpp:240-246 | the mode is sleep, nothing else changes |
| Rf95.LengthNegativeIff | RH_RF95.cpp:150-163 | with a collected or complete packet before, the length is negative exactly when a fragment has overwritten an uncollected packet |
| Rf95.PollTurnsReceiverOn | RH_RF95.cpp:127-140 | after available() the receiver is on, exactly unless a transmission is still under way |
| Rf95.InterruptMode | RH_RF95.cpp:72-103 | an interrupt leaves the mode alone but for the end of a transmission or a packet to collect |
| Rf95.PollCounts | RH_RF95.cpp:72-123 | each interrupt is counted in exactly the counter it belongs to, or in none |
| Rf95.PollKeepsPacket | RH_RF95.cpp:72-140 | there is a packet to collect exactly if one has come now or was there before, and which one |
| Rf95.CollectsIff | RH_RF95.cpp:150-163 | recv() returns something exactly if there is a packet and no transmission under way |
| Rf95.CollectedOnce | RH_RF95.cpp:150-163 | after recv() there is nothing until another complete packet for this driver comes |
| Rf95.WaitEndsIff | RHGenericDriver.cpp:46-53 | waitPacketSent() ends exactly when the transmission does |
| Rf95.SendQueuesIff | RH_RF95.cpp:167-193 | send() refuses exactly what is too long, without a trace, and otherwise transmits exactly once the last transmission is over |
| Rf95.TransmissionsAreConserved | RH_RF95.cpp:72-193 | in every run, successful sends = txGood (mod 65536) + one exactly while transmitting = packets given to the transmitter |
| Rf95.SleepKeepsBalanceIff | RH_RF95.cpp:240-246 | sleep() keeps that law exactly outside transmissions |
| Rf95.PacketRoundTrip | RH_RF95.cpp:108-193 | what one driver queues another one that accepts the address receives: same headers, the data's prefix |
| EndToEnd.OverTheAir | RH_RF95.cpp:108-193 | a router message crosses from one driver's send to another's recv exactly if it is queued, heard without error and addressed there, and then unchanged |
| EndToEnd.ArrivesIff | RHRouter.cpp:241-267 | over any number of relays the message reaches the last receiver exactly if every hop carries it and every relay is within its limit and has a route |
| EndToEnd.RelaysChangeOnlyHops | RHRouter.cpp:241-267 | any number of relays, each with both drivers, change the hop count and the radio header only |
| EndToEnd.PayloadArrives | RHMesh.cpp:42-175 | any payload of up to 245 octets gets over any number of such hops exactly then, and arrives as the prefix the caller has room for, with source, destination, id and flags |
| SerialLink.UartDriver.UartTx | RHUartDriver.cpp:58-65 | prints one write command |
| SerialLink.UartDriver.UartRxRequest | RHUartDriver.cpp:68-71 | prints one read command |
| SerialLink.Firmware.constructor | examples/Grove_LoRa_firmware/Grove_LoRa_firmware.ino:13-18 | the globals' initial values |
| SerialLink.Firmware.Reset | examples/Grove_LoRa_firmware/Grove_LoRa_firmware.ino:67-71 | everything back to zero |
| SerialLink.Firmware.Loop | examples/Grove_LoRa_firmware/Grove_LoRa_firmware.ino:37-88 | one iteration is one step of the parser, what it executes and answers is exactly the completed command, and the 255-octet buffer is never left, for every input |
| SerialLink.IdlingChangesNothing | examples/Grove_LoRa_firmware/Grove_LoRa_firmware.ino:40-57 | iterations that find no octet change nothing |
| SerialLink.ParsePrinted | RHUartDriver.cpp:58-71 | the parser undoes the printer and is back at count 0, for 0 to 255 data octets of any value |
| SerialLink.FirmwareExecutesWhatTheDriverSends | examples/Grove_LoRa_firmware/Grove_LoRa_firmware.ino:37-88 | any sequence of commands, with noise between them and idle iterations anywhere, is carried out exactly, in order |
| SerialLink.EveryStreamIsEncoded | examples/Grove_LoRa_firmware/Grove_LoRa_firmware.ino:37-88 | conversely any stream of octets at all is noise and the printed form of the commands carried out, plus the start of one more |
| Clock.WaitAvailableTimeout | RHGenericDriver.cpp:35-44 | a message that is there before the time is up is reported, at the first reading that finds one, and nothing is missed before; it gives up only after the real time has passed, across rollover; on a steadily read clock it is true exactly if a message is there in time, and no reading late |
| Clock.ReadyIsReported | RHGenericDriver.cpp:35-44 | a message that is there in real time ends the wait, at its reading or before |
| Clock.NothingMissed | RHGenericDriver.cpp:35-44 | no check before the last one found a message |
| Clock.DoneIff | RHGenericDriver.cpp:35-44 | the wait is true if, and on a steadily read clock only if, a message is there in time |
| Clock.RecvfromAckTimeout | RHReliableDatagram.cpp:140-153 | true exactly if one of its looks finds a message that recvfromAck takes; one that stays for three readings in time is received; it gives up only in real time, on a steadily read clock at most three readings late |
| Clock.GivesUpIff | RHReliableDatagram.cpp:144-152 | a check of the loop ends it exactly when the real time has passed, unless it comes 2^31 ms late |
| Clock.ReceivesIff | RHReliableDatagram.cpp:140-153 | the looks of the whole loop: it ends with the first that finds a message that recvfromAck takes, and with none before |
| Clock.PassLooks | RHReliableDatagram.cpp:144-151 | a pass looks at every reading of its wait but one that comes when the time it had left is over |
| Clock.StayingMessageIsReceived | RHReliableDatagram.cpp:140-153 | a message that is there at three readings in a row, all in time, is received, if none was before |
| Clock.TimeLeftExactIff | RHReliableDatagram.cpp:74-74 | the signed time left is the real one exactly up to 2^31 ms past the timeout |
| Clock.WaitGoesOnIff | RHReliableDatagram.cpp:144-144 | the loop goes on exactly before its time, or when it was not looked at for more than 2^31 ms, and only then is the time left more than the timeout |
| Clock.TimeUpIsReal | RHReliableDatagram.cpp:144-152 | time is up only when it really is, on any clock |
| Clock.TimeLeftIsPassedExactly | RHReliableDatagram.cpp:144-145 | what the loop hands to the 16-bit wait is not truncated if it was last looked at in time and less than 2^31 ms ago |
| Clock.BackoffIsLongEnoughIff | RHReliableDatagram.cpp:70-70 | the randomised timeout lies between one and two times the setting exactly when it fits 16 bits |
| Clock.BackoffAlwaysLongEnoughIff | RHReliableDatagram.cpp:70-70 | it does so for every random draw exactly for settings up to 32832 ms |

## Left out

- SPI, pins, the serial port itself, `printRoutingTable`, `printRegisters`, `printBuffer` and the platform macros: plumbing.
- Frequency, power and modem settings: single register writes.
- `setMaxHops`, `setRetries`, `setTimeout`, `setThisAddress` and the other one-line setters; the values they set are arbitrary here.
- The sketches other than the firmware, and the `'I'` octets and read answers that share the stream from the firmware to the driver; the reading half of `uartRx`.
- Real time inside `doArp` and the link's waits: the frames heard in time are given as a list, `Clock` has the time on its own.
- Calls of `addRouteTo` and its kin by the application while a mesh is running.
- The test networks of RHRouter.cpp:195-237 other than as a radio graph.
- MeshNode.MeshNode.PeekAtMessage: for messages no shorter than their type's minimum; for shorter ones the code reads outside the message and, for a response, wraps its count and reads outside the buffer. `MeshNetwork.EveryCopyCanBeHandled` proves that nodes running `RHMesh` never send one.
- MeshNode.MeshNode.RouterRecvfromAck: the same, as it peeks first.
- MeshNode.MeshNode.RecvfromAck: the same.
- MeshNode.MeshNode.HearOne: the same.
- MeshNode.MeshNode.ListenForReply: the same.
- MeshNode.MeshNode.DoArp: the same.
- MeshNode.MeshNode.SendtoWait: the same, for what it hears while it discovers.
- MeshNodeTheory.MeshReceiveKeeps: the same.
- Rf95.Driver.Recv: not when a packet of fewer than four octets overwrites an uncollected one, for which the length that `recv` computes is negative.
- EndToEnd.PayloadArrives: for receivers that have collected the packet before.
- MeshNodeTheory.ReplyHasRouteIff: for lists without the originator, which is all that occurs (`MeshNetwork.EveryRunKeepsInv`).
- MeshRoutes.TreeRoutesPointHome: for runs in which the two things the code does not check go well; see `PeekKeepsCorrectIff` and `NamedAwaitedRouteIsCorrect`.
- MeshRings.OneFrameLoopIff: for networks that fit the table and the hop limits. Where those bind, which cycles can loop depends on them. A node may leave a frame uncollected for any time.
- MeshLoops.QueuedPairIff: the same; its half that claims a loop is not about the RF95 driver, which keeps one frame.
- MeshDiscovery.DiscoveryCanSucceed: says that a discovery can succeed, not that it must; any frame may be lost.
- MeshNode.MeshNode.LinkSendtoWait: any answer for a unicast; when an answer can come is `ReliableDatagram`'s part. Duplicates the link does not suppress are not in `MeshNetwork`.
