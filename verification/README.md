# Models of the ns-2 tree and of the exp5 file exchange

This project models the parts of the repository that keep the most state, and proves
what their code and comments promise. Five groups of modules stand on their own:

* **OTcl class hierarchy** (`Precedence`, `Hierarchy`, `Superclasses`, `Interpreter`,
  `Dispatch`): the classes of `ns/otcl-1.14/otcl.c` are heap objects whose superclass
  lists, subclass lists, colours and cached precedence orders are changed in place. The
  three-colour search is proved equal to a depth-first search on values, and that search
  is measured against reachability.
* **AODV** (`AodvRoute`, `AodvAgent`, `AodvNetwork`, `AodvSafety`, `AodvRepairLoop`,
  `AodvDiscovery`, `AodvEffects`, `AodvRoundTrip`, `AodvHandlers`): every handler is a
  function on the agent's state, and a method of class `AODV` that is proved to compute it.
  A network is any number of agents and a set of messages that only grows, so messages may
  be delayed, lost, reordered and repeated. `AodvEffects` says of each handler what every
  lookup finds afterwards and what leaves, in terms of the two tables and the messages only;
  `AodvRoundTrip` follows a discovery from its request to the route it makes.
* **AOMDV** (`AomdvRoute`, `AomdvAgent`, `AomdvNetwork`, `AomdvSafety`, `AomdvEffects`,
  `AomdvTwoPaths`, `AomdvHandlers`): the same for the multipath protocol with node-disjoint
  paths. Entries are objects that change their path lists in place.
* **Token bucket and reservations** (`TokenBucket`, `TokenBucketService`, `SignalledLink`,
  `Reservation`): bounds over whole runs, the fate of each packet, and a handshake that is
  all or nothing along a path of links.
* **Packet buffer and file exchange** (`RouteQueue`, `QueueAccounts`, `Arq`, `ArqSafety`,
  `ArqExchange`): a linked list that refines a sequence, and two endpoints with 100 packet
  slots each.

`Wrappers` holds the option type. A method is proved against a function on values; what
the source promises is then proved about the function and about runs. Lemmas carry
`{:induction false}`: no proof rests on automatic induction.

Where the code and its documentation differ, the model follows the code:

* `TopoSort` is commented as resetting all colours; its exit at line 185 skips the reset
  when the class at the base meets itself. `Interpreter.Interp.SuperClass` states exactly
  when colours are left behind: the list is in order and the class names itself in it,
  not as the last one.
* The AODV comments describe an expanding ring from the first discovery on. The last hop
  count of a new entry starts at 255, so that discovery searches the whole network
  (`AodvDiscovery.FirstDiscoveryIsWide`).
* The local repair timer of AODV takes a route down without raising its sequence number,
  since that line is commented out. This makes the route less fresh exactly when the entry is
  still in repair (`AodvSafety.RepairTimeoutExactly`), and a run of four agents after which
  two of them forward to each other is reachable (`AodvRepairLoop.RepairLoop`). Loop freedom
  is proved of all runs in which the timer never finds the entry in repair, repair attempts
  themselves included.
* AODV asserts in several places that a route with finite hops is up, which an entry in
  repair is not. `AodvSafety.AssertsExactly` says on which inputs the assertions hold, and
  `AodvRepairLoop.RepairAborts` gives a run in which the one at line 918 fails.
* AOMDV asserts three times that `rt_hops` of an entry is not 255, but nothing writes that
  field. It is an arbitrary value of the model, fixed with the entry; the assertions hold
  exactly when it is not 255 where an entry that is up is met (`AomdvSafety.AssertsExactly`,
  `AomdvSafety.MemoryAborts`).
* A flow may send a teardown whether or not it was accepted (`SA_Agent::stop`). What it
  does to a link that does not hold the flow is `Reservation.TeardownExactly`.
* The file exchange resends the packet in slot `next` where an unacknowledged one is
  meant (`ArqExchange.SendsExactly`); what is proved holds all the same. A process ends as soon as every packet has
  been sent once, without waiting for acknowledgements (`ArqSafety.EndsWhenAllSent`).
* Packets that time out in the packet buffer are unlinked without being handed to `drop`.

## Model

| member | source | states |
|---|---|---|
| `Precedence.TopoOrderCorrect` | ns/otcl-1.14/otcl.c:171-205 | The order exists exactly when no cycle can be reached from the class; it then holds exactly the reachable classes, once each, the class first, each before its neighbours |
| `Precedence.DfsDone` | ns/otcl-1.14/otcl.c:184-198 | A finished search keeps the order sorted, adds only in front, adds exactly what the visited classes reach |
| `Precedence.DfsStuck` | ns/otcl-1.14/otcl.c:184-194 | A search that gives up has found a class on a cycle below one of the visited ones |
| `Precedence.DfsLocal` | ns/otcl-1.14/otcl.c:171-205 | The order depends only on the lists of a closed part of the graph |
| `Precedence.DfsReversesVisits` | ns/otcl-1.14/otcl.c:184-198 | If no visited class reaches a later one, later visits end up further left |
| `Precedence.LocalPrecedence` | ns/otcl-1.14/otcl.c:1652-1694 | Superclasses given as s0..sn stand in that order in the precedence of the class |
| `Precedence.CycleExactlyWhen` | ns/otcl-1.14/otcl.c:1688-1697 | New superclasses close a cycle exactly when one of them inherits from the class |
| `Precedence.AcyclicAfterChange` | ns/otcl-1.14/otcl.c:1694-1697 | If the order of the changed class can be computed, the whole hierarchy is without cycles |
| `Precedence.OrderUnaffected` | ns/otcl-1.14/otcl.c:241-258 | A class that does not inherit from the changed one keeps its order |
| `Precedence.ReachesInverse` | ns/otcl-1.14/otcl.c:230-258 | Subclass lists inverse to the superclass lists reach exactly the other way round |
| `Hierarchy.TopoSort` | ns/otcl-1.14/otcl.c:171-205 | The recursive search on the heap computes the search on values; all colours it changed end white, except the reported classes after the exit at line 185 |
| `Hierarchy.VisitNeighbour` | ns/otcl-1.14/otcl.c:183-194 | One turn of the loop: progress, or failure with the colours unwound |
| `Hierarchy.ResetColors` | ns/otcl-1.14/otcl.c:200-203 | The final loop makes every class white |
| `Hierarchy.ComputePrecedence` | ns/otcl-1.14/otcl.c:219-226 | The cached order, or that of a fresh search, or null after a failed one |
| `Hierarchy.ComputeDependents` | ns/otcl-1.14/otcl.c:231-238 | The same over subclasses |
| `Hierarchy.FlushPrecedences` | ns/otcl-1.14/otcl.c:241-258 | Drops exactly the caches of the class and of the dependents found |
| `Superclasses.AS` | ns/otcl-1.14/otcl.c:286-294 | A class that is not in the list goes to its front; the list is otherwise unchanged |
| `Superclasses.RS` | ns/otcl-1.14/otcl.c:310-327 | The first occurrence goes, and the result says if there was one |
| `Superclasses.AddSuper` | ns/otcl-1.14/otcl.c:296-307 | Superclass and subclass list change together |
| `Superclasses.RemoveSuper` | ns/otcl-1.14/otcl.c:330-340 | The same for removal |
| `Superclasses.EdgeRemoved` | ns/otcl-1.14/otcl.c:330-340 | Lists stay duplicate-free and mutually inverse |
| `Superclasses.RegivenSearches` | ns/otcl-1.14/otcl.c:1692-1697 | With a new cycle the flush drops one cache only; without, every cache it leaves is still right |
| `Superclasses.CachesRecomputed` | ns/otcl-1.14/otcl.c:1692-1697 | After flush and search the caches are right for the old hierarchy if the search failed, for the new one if not |
| `Superclasses.OrderWhite` | ns/otcl-1.14/otcl.c:185-185 | The search after a change leaves colours behind exactly when the class names itself early |
| `Superclasses.SubsDetermined` | ns/otcl-1.14/otcl.c:1701-1702 | Restored superclass lists determine the subclass relation |
| `Superclasses.AcceptedOrder` | ns/otcl-1.14/otcl.c:1652-1694 | An accepted list keeps its order in the new precedence |
| `Superclasses.CoherentWithout` | ns/otcl-1.14/otcl.c:1179-1181 | After a class is destroyed the remaining caches are right and do not mention it |
| `Interpreter.Interp.Precedence` | ns/otcl-1.14/otcl.c:219-226 | In every state between operations the order of a class exists and is that of a fresh search |
| `Interpreter.Interp.FindReversed` | ns/otcl-1.14/otcl.c:1656-1667 | The check fails exactly when some class of the list inherits from one given before it |
| `Interpreter.Interp.TakeSupers` | ns/otcl-1.14/otcl.c:1675-1687 | The superclass list is emptied and remembered in reverse |
| `Interpreter.Interp.GiveSupers` | ns/otcl-1.14/otcl.c:1688-1689 | The superclass list becomes the given one in reverse |
| `Interpreter.Interp.Revert` | ns/otcl-1.14/otcl.c:1701-1702 | The old superclass list comes back exactly, in order |
| `Interpreter.Interp.SuperClass` | ns/otcl-1.14/otcl.c:1611-1706 | Accepted exactly when the list is in order and closes no cycle; rejected leaves the exact superclass lists and the subclass relation; the hierarchy stays without cycles, lists inverse and duplicate-free, caches right; colours are white exactly as said above |
| `Interpreter.Interp.Create` | ns/otcl-1.14/otcl.c:1084-1100 | A new class below `Object` keeps all of this |
| `Interpreter.Interp.Destroy` | ns/otcl-1.14/otcl.c:1175-1181 | No superclass list, subclass list or cached order mentions the class any more; other lists lose only it |
| `Dispatch.SearchCMethod` | ns/otcl-1.14/otcl.c:393-403 | The first class of the order that defines the method |
| `Dispatch.Dispatch` | ns/otcl-1.14/otcl.c:408-423 | The object's own proc, or the first definition in precedence order |
| `Dispatch.NextMethod` | ns/otcl-1.14/otcl.c:1973-2004 | The first definition after the class that is running |
| `Dispatch.ChainRuns` | ns/otcl-1.14/otcl.c:1988-2004 | From any point, repeated `next` runs exactly the later definitions in order |
| `Dispatch.WholeChain` | ns/otcl-1.14/otcl.c:408-423 | The lookups from the object on pass exactly the inherited definitions, in precedence order, each once |
| `Dispatch.RunAll` | ns/otcl-1.14/otcl.c:1973-2004 | A dispatch followed by `next` until there is none runs the object's own proc if it has one, then the inherited definitions in precedence order, and stops; the hierarchy stays valid |
| `AodvRoute.GetPut` | ns/ns-2.35/aodv/aodv_rtable.cc:176-210 | Storing an entry changes the lookup of its destination only |
| `AodvNetwork.RecvRequestSound` | ns/ns-2.35/aodv/aodv.cc:653-818 | Handling a request makes no entry less fresh, keeps the state rules, and sends only what the table backs |
| `AodvNetwork.RecvReplySound` | ns/ns-2.35/aodv/aodv.cc:823-935 | The same for replies |
| `AodvNetwork.RecvErrorSound` | ns/ns-2.35/aodv/aodv.cc:938-994 | The same for errors |
| `AodvNetwork.LinkFailureSound` | ns/ns-2.35/aodv/aodv.cc:347-382 | The same for a lost neighbour |
| `AodvNetwork.RtPurgeSound` | ns/ns-2.35/aodv/aodv.cc:503-549 | The same for the purge of the table: expired routes go down, and routes not up with packets waiting are asked for |
| `AodvNetwork.SendRequestSound` | ns/ns-2.35/aodv/aodv.cc:1062-1182 | The same for a new request |
| `AodvNetwork.LocalRepairSound` | ns/ns-2.35/aodv/aodv.cc:385-400 | The same for the start of a local repair |
| `AodvNetwork.NoRouteSound` | ns/ns-2.35/aodv/aodv.cc:478-494 | The same for a packet without a route |
| `AodvNetwork.SoundKeepsInv` | ns/ns-2.35/aodv/aodv.cc:556-650 | A step whose handler is sound keeps the invariant of the whole network and of all messages in flight |
| `AodvNetwork.HandlerSound` | ns/ns-2.35/aodv/aodv.cc:617-650 | Every handler is sound, but for a repair timer that finds the entry in repair |
| `AodvSafety.RunInv` | ns/ns-2.35/aodv/aodv.cc:617-650 | The invariant holds in every reachable state |
| `AodvSafety.ReachableEntries` | ns/ns-2.35/aodv/aodv.cc:402-432 | In every reachable state an entry is up with an even sequence number of at least 2 and finite hops, or down with an odd one or 0 |
| `AodvSafety.NextHopFresher` | ns/ns-2.35/aodv/aodv.cc:697-720 | The next hop has a larger sequence number, or the same and fewer hops |
| `AodvSafety.LoopFree` | ns/ns-2.35/aodv/aodv.cc:846-866 | In every reachable state no cycle of next hops avoids the destination |
| `AodvSafety.RepairTimeoutExactly` | ns/ns-2.35/aodv/aodv.cc:186-212 | The repair timer keeps freshness exactly when the entry is not in repair |
| `AodvSafety.AssertsExactly` | ns/ns-2.35/aodv/aodv.cc:907-921 | In a sound state the assertions of a handler hold exactly if it meets no entry in repair: for an improving reply the route to its target, for an error or a lost neighbour the routes it hits. Nothing of the handler's result enters the condition |
| `AodvSafety.NeverAborts` | ns/ns-2.35/aodv/aodv.cc:512-532 | In every run without local repair every assertion of the next event holds |
| `AodvSafety.ErrorRaises` | ns/ns-2.35/aodv/aodv.cc:949-963 | After an error each route it hits is down with the reported number, strictly larger than before, the first report that hits deciding; all other entries are as they were |
| `AodvSafety.FreshnessMonotone` | ns/ns-2.35/aodv/aodv.cc:402-432 | Over a whole run no route gets less fresh |
| `AodvRepairLoop.RepairLoop` | ns/ns-2.35/aodv/aodv.cc:186-212 | A run of eight steps of four agents, from their start, ends in a two-agent loop; the packet under repair has come along two hops by then, one more than the route had left, as line 325 asks |
| `AodvRepairLoop.RepairAborts` | ns/ns-2.35/aodv/aodv.cc:914-921 | A run with local repair after which the delivery of a reply makes the assertion at line 918 fail |
| `AodvDiscovery.PerHopTime` | ns/ns-2.35/aodv/aodv.cc:261-288 | The mean of the non-zero latencies, or the default |
| `AodvDiscovery.TimeoutBounded` | ns/ns-2.35/aodv/aodv.cc:1100-1144 | Each time-out lies after now and at most ten seconds ahead |
| `AodvDiscovery.ExpandingRing` | ns/ns-2.35/aodv/aodv.cc:1078-1144 | From request count 0 with no update in between: the ring requests, four requests at the network diameter, then giving up |
| `AodvDiscovery.RingShape` | ns/ns-2.35/aodv/aodv.cc:1112-1130 | At most three ring requests, with non-decreasing TTLs below the diameter |
| `AodvDiscovery.FirstDiscoveryIsWide` | ns/ns-2.35/aodv/aodv_rtable.cc:37-66 | A new entry has no ring |
| `AodvDiscovery.FloodBounded` | ns/ns-2.35/aodv/aodv.cc:811-817 | In every run from the start all copies of a request share TTL plus hop count, at most the diameter plus one, none has come farther than the diameter, and broadcast ids are not used twice |
| `AodvDiscovery.RebroadcastOnce` | ns/ns-2.35/aodv/aodv.cc:673-686 | An agent rebroadcasts a request at most once while it remembers it |
| `AodvDiscovery.FloodEnds` | ns/ns-2.35/aodv/aodv.cc:673-686 | While no agent forgets it, a request is rebroadcast at most once per agent that did not remember it when the run began |
| `AodvDiscovery.FloodTransmissions` | ns/ns-2.35/aodv/aodv.cc:673-686 | From the start of the network there are fewer rebroadcasts of a request than agents |
| `AodvEffects.RequestIgnored` | ns/ns-2.35/aodv/aodv.cc:665-681 | An own or remembered request changes nothing and sends nothing |
| `AodvEffects.RequestRoutes` | ns/ns-2.35/aodv/aodv.cc:697-721 | After a new request the route to its source is that of the request exactly if it has a larger number, or the same and fewer hops, and its search is reset; every other route and search stays |
| `AodvEffects.RequestUsers` | ns/ns-2.35/aodv/aodv.cc:786-789 | Users are recorded exactly when the agent answers from its table: of the route to the destination the next hop to the source, and the other way round |
| `AodvEffects.RequestAnswered` | ns/ns-2.35/aodv/aodv.cc:748-818 | What leaves for a new request: the answer of the destination with its new even number, that of an agent with a fresh enough route, or the request again one hop on, each to whom and with which values |
| `AodvEffects.AnswersExactly` | ns/ns-2.35/aodv/aodv.cc:773-774 | An agent answers exactly if it is the destination or has a route to it with finite hops and a number at least that asked for; any other passes the request on exactly if its TTL is not 1 |
| `AodvEffects.ReplyRoutes` | ns/ns-2.35/aodv/aodv.cc:846-871 | A reply changes the route to its destination exactly if it is newer, or as new and shorter, and ends the search; all other routes stay |
| `AodvEffects.ReplyPassedOn` | ns/ns-2.35/aodv/aodv.cc:907-934 | A reply is passed on exactly if it taught a route, another agent is meant, there is a route to it and the TTL allows; it goes to the next hop of that route, which alone becomes a user of the route learnt |
| `AodvEffects.ReachableLists` | ns/ns-2.35/aodv/aodv_rtable.cc:116-125 | In every reachable state an agent has one entry for each destination and each user is recorded once |
| `AodvEffects.LostNeighbour` | ns/ns-2.35/aodv/aodv.cc:354-372 | After a neighbour is lost no route goes through it, those that did are down with a number one higher, all others stay, and it is a user of none |
| `AodvEffects.ReachableLoss` | ns/ns-2.35/aodv/aodv.cc:354-372 | This in every reachable state |
| `AodvEffects.LossReported` | ns/ns-2.35/aodv/aodv.cc:374-382 | An error goes out exactly if a route was lost, and names exactly the lost routes with their new numbers |
| `AodvEffects.ErrorPassedOn` | ns/ns-2.35/aodv/aodv.cc:972-990 | An error is passed on exactly if a route it takes down has users, and names exactly these routes, with the number first reported |
| `AodvEffects.ErrorUsers` | ns/ns-2.35/aodv/aodv.cc:963-978 | A route that an error hits has no users left; every other entry is as it was |
| `AodvEffects.BreakReaches` | ns/ns-2.35/aodv/aodv.cc:938-993 | If an agent loses the link its route uses, an agent that sends through it takes its own route down on receiving the error |
| `AodvEffects.RequestSent` | ns/ns-2.35/aodv/aodv.cc:1078-1181 | A search is sent exactly if the route is not up, the last search has been waited for and fewer than four have covered the network; its radius, the wait until the next and the values it carries |
| `AodvEffects.Unreached` | ns/ns-2.35/aodv/aodv.cc:478-494 | A packet without a route is reported exactly if the route is down; no lookup changes |
| `AodvEffects.RepairSearches` | ns/ns-2.35/aodv/aodv.cc:385-400 | A repair marks the route, keeps its next hop, and searches as any search does |
| `AodvEffects.RepairGivenUp` | ns/ns-2.35/aodv/aodv.cc:195-205 | The timer takes down exactly a route in repair, keeping its number and users |
| `AodvEffects.PurgeExactly` | ns/ns-2.35/aodv/aodv.cc:503-549 | Each route after the purge: up and expired, down with a number one higher; not up and waited for, searched; else as it was. One request for each destination asked for, numbered in order |
| `AodvEffects.IdsForgotten` | ns/ns-2.35/aodv/aodv.cc:242-255 | Exactly the expired ids are forgotten |
| `AodvRoundTrip.DiscoveryConnects` | ns/ns-2.35/aodv/aodv.cc:653-935 | From any sound state: if a search is due and far enough, the request runs along a path of at most 30 hops whose agents have not heard of it and do not know the far end, and the reply runs back, then every agent of the path routes to each end along it with the exact hop counts |
| `AodvRoundTrip.FirstDiscovery` | ns/ns-2.35/aodv/aodv.cc:1062-1182 | In a new network this holds of every path without repetition |
| `AodvHandlers.AODV.constructor` | ns/ns-2.35/aodv/aodv.cc:138-156 | A new agent |
| `AodvHandlers.AODV.LookupOrAdd` | ns/ns-2.35/aodv/aodv_rtable.cc:176-210 | Finds the entry or puts a new one at the head of the list |
| `AodvHandlers.AODV.IdLookup` | ns/ns-2.35/aodv/aodv.cc:230-240 | The scan finds exactly the remembered ids |
| `AodvHandlers.AODV.IdPurge` | ns/ns-2.35/aodv/aodv.cc:242-255 | Exactly the expired ids go |
| `AodvHandlers.AODV.RecvRequest` | ns/ns-2.35/aodv/aodv.cc:653-818 | State and packets as the handler on values has them |
| `AodvHandlers.AODV.RecvReply` | ns/ns-2.35/aodv/aodv.cc:823-935 | The same |
| `AodvHandlers.AODV.RecvError` | ns/ns-2.35/aodv/aodv.cc:938-994 | The same |
| `AodvHandlers.AODV.SendRequest` | ns/ns-2.35/aodv/aodv.cc:1062-1182 | The same |
| `AodvHandlers.AODV.LinkFailure` | ns/ns-2.35/aodv/aodv.cc:347-382 | The same, with the sequence number step of nb_delete |
| `AodvHandlers.AODV.RtPurge` | ns/ns-2.35/aodv/aodv.cc:503-549 | The same, requests for waiting packets included |
| `AodvHandlers.AODV.PurgeEntry` | ns/ns-2.35/aodv/aodv.cc:511-547 | One turn of that loop |
| `AodvHandlers.AODV.NoRoute` | ns/ns-2.35/aodv/aodv.cc:478-494 | The same |
| `AodvHandlers.AODV.LocalRepair` | ns/ns-2.35/aodv/aodv.cc:385-400 | The same, and the time for which the repair timer is set |
| `AodvHandlers.AODV.RepairTimeout` | ns/ns-2.35/aodv/aodv.cc:186-212 | The same |
| `AomdvRoute.DeleteAll` | ns/ns-2.35/aomdv/aomdv_rtable.cc:261-273 | On disjoint paths, deleting the first path through a neighbour deletes all of them |
| `AomdvRoute.PurgeIs` | ns/ns-2.35/aomdv/aomdv_rtable.cc:388-407 | Exactly the unexpired paths stay, still disjoint |
| `AomdvRoute.AdvertiseOk` | ns/ns-2.35/aomdv/aomdv.cc:1043-1046 | Advertising fixes a hop count at least that of every path and changes nothing else |
| `AomdvNetwork.ReversePathGood` | ns/ns-2.35/aomdv/aomdv.cc:837-907 | A reverse path keeps the entry sound: disjoint, heard of, and no longer than the advertised count |
| `AomdvNetwork.RecvRequestSound` | ns/ns-2.35/aomdv/aomdv.cc:783-1054 | Handling a request fixes advertised counts only once, and claims only what the table supports |
| `AomdvNetwork.RecvReplySound` | ns/ns-2.35/aomdv/aomdv.cc:1057-1270 | The same for replies |
| `AomdvNetwork.RecvHelloSound` | ns/ns-2.35/aomdv/aomdv.cc:1666-1690 | The same for hello packets |
| `AomdvNetwork.RecvErrorSound` | ns/ns-2.35/aomdv/aomdv.cc:1272-1340 | The same for errors |
| `AomdvNetwork.LinkFailureSound` | ns/ns-2.35/aomdv/aomdv.cc:472-518 | The same for a lost neighbour |
| `AomdvNetwork.RtPurgeSound` | ns/ns-2.35/aomdv/aomdv.cc:634-683 | The same for expired paths |
| `AomdvNetwork.SoundKeepsInv` | ns/ns-2.35/aomdv/aomdv.cc:745-780 | A sound step keeps the invariant, and all messages of one agent with one sequence number agree on the hop count |
| `AomdvSafety.ReachableInv` | ns/ns-2.35/aomdv/aomdv.cc:745-780 | The invariant holds in every reachable state |
| `AomdvSafety.AdvertisedFixed` | ns/ns-2.35/aomdv/aomdv.cc:967-982 | An advertised hop count stays until the sequence number grows, and sequence numbers never fall |
| `AomdvSafety.PathRank` | ns/ns-2.35/aomdv/aomdv.cc:837-882 | The next hop of a path has a larger sequence number, or the same and advertises one hop less than the path, which is no longer than the entry advertises |
| `AomdvSafety.LoopFree` | ns/ns-2.35/aomdv/aomdv.cc:1098-1131 | In every reachable state the union of all stored paths to a destination has no cycle that avoids it |
| `AomdvSafety.ReachableLists` | ns/ns-2.35/aomdv/aomdv_rtable.cc:180-244 | Paths have distinct next hops and distinct last hops, at most the maximum of them, and an entry is up exactly when it has any |
| `AomdvSafety.LostNeighbour` | ns/ns-2.35/aomdv/aomdv.cc:472-518 | After a neighbour is lost no route uses it |
| `AomdvSafety.AssertsExactly` | ns/ns-2.35/aomdv/aomdv.cc:658-667 | In a sound state the assertions of a handler hold exactly if `rt_hops` is not 255 in any entry that it meets up |
| `AomdvSafety.NeverAborts` | ns/ns-2.35/aomdv/aomdv.cc:850-862 | In every run in which no entry's `rt_hops` is 255 every assertion of the next event holds |
| `AomdvSafety.MemoryAborts` | ns/ns-2.35/aomdv/aomdv_rtable.cc:89-124 | With 255 in one entry there is a run of two agents after which the next data packet makes line 589 fail |
| `AomdvEffects.RequestPaths` | ns/ns-2.35/aomdv/aomdv.cc:825-907 | The paths after a request: its source gains the path, starts again with it, or stays, by the numbers, the disjointness, the room and the lengths; all other entries keep theirs; which advertised counts are fixed, at the longest path |
| `AomdvEffects.RequestAnswered` | ns/ns-2.35/aomdv/aomdv.cc:928-1053 | What leaves for a request: the answer of its destination, the one answer of an agent that knows a fresh route and took the way back, or the request once, each to whom and with which values; nothing otherwise |
| `AomdvEffects.RequestRemembered` | ns/ns-2.35/aomdv/aomdv.cc:807-814 | The request is remembered, and counts as answered exactly if it was |
| `AomdvEffects.OwnIgnored` | ns/ns-2.35/aomdv/aomdv.cc:798-804 | An own request changes nothing |
| `AomdvEffects.OwnReplyIgnored` | ns/ns-2.35/aomdv/aomdv.cc:1073-1076 | Nor does a reply about the agent itself |
| `AomdvEffects.ReplyPaths` | ns/ns-2.35/aomdv/aomdv.cc:1087-1143 | The paths after a reply, by the same rules; all other entries stay as they were |
| `AomdvEffects.ReplyRelayed` | ns/ns-2.35/aomdv/aomdv.cc:1178-1214 | A reply is passed on exactly if it taught or confirmed a path, another agent is meant whose route is up, and the request is remembered and not answered; it goes to the next hop of the first path to that agent, unless its TTL is 1; the request then counts as answered |
| `AomdvEffects.RelayedTowards` | ns/ns-2.35/aomdv/aomdv.cc:1195-1198 | So it goes to an agent that is on a stored path to its target |
| `AomdvEffects.ErrorPaths` | ns/ns-2.35/aomdv/aomdv.cc:1290-1325 | A route that an error hits loses its one path through the sender, and goes down with the last; all others stay |
| `AomdvEffects.ErrorPassedOn` | ns/ns-2.35/aomdv/aomdv.cc:1316-1335 | The error is passed on exactly if a route went down of which others had been told, and names just these with their new numbers |
| `AomdvEffects.LossPaths` | ns/ns-2.35/aomdv/aomdv.cc:482-508 | The same for a lost neighbour |
| `AomdvEffects.LossReported` | ns/ns-2.35/aomdv/aomdv.cc:493-518 | And for the error it leads to |
| `AomdvEffects.BreakReaches` | ns/ns-2.35/aomdv/aomdv.cc:1272-1338 | If an agent loses the last path of a route that others were told of, an agent that receives the error has no path through it any more |
| `AomdvEffects.PurgePaths` | ns/ns-2.35/aomdv/aomdv.cc:641-657 | A route that is up keeps exactly its unexpired paths, in order, or goes down; all others stay |
| `AomdvEffects.RequestSent` | ns/ns-2.35/aomdv/aomdv.cc:1427-1531 | A search is sent exactly if the route is not up, with a new number and id |
| `AomdvEffects.ForwardMarks` | ns/ns-2.35/aomdv/aomdv.cc:1346-1380 | Forwarding for others marks exactly the route used |
| `AomdvEffects.Unreached` | ns/ns-2.35/aomdv/aomdv.cc:610-631 | A packet without a route is reported exactly if the route is down |
| `AomdvEffects.Beacons` | ns/ns-2.35/aomdv/aomdv.cc:235-246 | A beacon with the own number, sent by an agent with some route |
| `AomdvEffects.IdsForgotten` | ns/ns-2.35/aomdv/aomdv.cc:333-347 | Exactly the expired ids are forgotten, the others keep their counts |
| `AomdvEffects.HelloPaths` | ns/ns-2.35/aomdv/aomdv.cc:1666-1690 | A beacon teaches the path of one hop to its sender, and nothing else |
| `AomdvTwoPaths.FindsBoth` | ns/ns-2.35/aomdv/aomdv.cc:783-1214 | In a new network one discovery can find any two ways that share only their ends, the second at most the allowed difference longer: the start then holds both, the far end both back, and every agent on them follows them |
| `AomdvHandlers.RtEntry.PathInsert` | ns/ns-2.35/aomdv/aomdv_rtable.cc:180-203 | The path goes to the end and the count grows |
| `AomdvHandlers.RtEntry.PathLookup` | ns/ns-2.35/aomdv/aomdv_rtable.cc:206-216 | Found exactly if some path goes through the neighbour |
| `AomdvHandlers.RtEntry.DisjointPathLookup` | ns/ns-2.35/aomdv/aomdv_rtable.cc:219-231 | Found exactly if a path has both ends |
| `AomdvHandlers.RtEntry.NewDisjointPath` | ns/ns-2.35/aomdv/aomdv_rtable.cc:233-244 | True exactly if no path shares either end |
| `AomdvHandlers.RtEntry.PathLookupLasthop` | ns/ns-2.35/aomdv/aomdv_rtable.cc:247-258 | The first path with that last hop |
| `AomdvHandlers.RtEntry.PathDelete` | ns/ns-2.35/aomdv/aomdv_rtable.cc:261-273 | The first path through the neighbour goes, and the count keeps in step |
| `AomdvHandlers.RtEntry.PathGetMaxHopcount` | ns/ns-2.35/aomdv/aomdv_rtable.cc:346-358 | The largest hop count, or infinity for none |
| `AomdvHandlers.RtEntry.PathGetMinHopcount` | ns/ns-2.35/aomdv/aomdv_rtable.cc:361-373 | The smallest hop count, or 255 |
| `AomdvHandlers.RtEntry.PathPurge` | ns/ns-2.35/aomdv/aomdv_rtable.cc:388-407 | The restarting scan removes exactly the expired paths |
| `AomdvHandlers.RtEntry.RtDown` | ns/ns-2.35/aomdv/aomdv.cc:538-563 | A route that is up loses its paths and its advertised count |
| `AomdvHandlers.RtEntry.RecvError` | ns/ns-2.35/aomdv/aomdv.cc:1288-1322 | One entry of an error, and whether it is reported |
| `AomdvHandlers.RtEntry.LinkFailure` | ns/ns-2.35/aomdv/aomdv.cc:482-506 | One entry of a lost neighbour, and whether it is reported |
| `AomdvHandlers.RtEntry.RtPurge` | ns/ns-2.35/aomdv/aomdv.cc:634-683 | One entry of the purge |
| `AomdvHandlers.AOMDV.RecvRequest` | ns/ns-2.35/aomdv/aomdv.cc:783-1054 | State and packets as the handler on values has them |
| `AomdvHandlers.AOMDV.RecvReply` | ns/ns-2.35/aomdv/aomdv.cc:1057-1270 | The same |
| `AomdvHandlers.AOMDV.RecvHello` | ns/ns-2.35/aomdv/aomdv.cc:1666-1690 | The same |
| `AomdvHandlers.AOMDV.RecvError` | ns/ns-2.35/aomdv/aomdv.cc:1272-1340 | The same, over all entries |
| `AomdvHandlers.AOMDV.LinkFailure` | ns/ns-2.35/aomdv/aomdv.cc:472-518 | The same |
| `AomdvHandlers.AOMDV.RtPurge` | ns/ns-2.35/aomdv/aomdv.cc:634-683 | The same |
| `AomdvHandlers.AOMDV.SendRequest` | ns/ns-2.35/aomdv/aomdv.cc:1412-1533 | The same, when a request is permitted |
| `TokenBucket.TBF.Recv` | ns/ns-2.35/adc/tbf.cc:74-113 | State and outcome as the step on values has them |
| `TokenBucket.TBF.GetUpdatedTokens` | ns/ns-2.35/adc/tbf.cc:115-124 | Tokens grow with the time, up to the bucket |
| `TokenBucket.TBF.Timeout` | ns/ns-2.35/adc/tbf.cc:126-149 | State and packet as the step on values has them |
| `TokenBucket.TimeoutTokens` | ns/ns-2.35/adc/tbf.cc:133-142 | A time-out leaves no debt exactly when the packet fits the bucket, and then leaves no tokens |
| `TokenBucket.NeverAborts` | ns/ns-2.35/adc/tbf.cc:128-131 | The timer is set exactly while packets wait, so the abort is not reached; the queue keeps its limit |
| `TokenBucket.RateBound` | ns/ns-2.35/adc/tbf.cc:74-149 | In every run the bits sent in any closed interval are at most bucket plus rate times length, exactly when the bucket is not negative and no packet sent is larger than it |
| `TokenBucket.RateBoundBeforehand` | ns/ns-2.35/adc/tbf.cc:74-149 | All runs over a set of packets keep to the bound exactly when the bucket is not negative and either there is no queue or each packet of the set fits the bucket |
| `TokenBucket.SmallPackets` | ns/ns-2.35/adc/tbf.cc:74-149 | With all arriving packets within the bucket the bound holds and tokens are never negative |
| `TokenBucket.InOrder` | ns/ns-2.35/adc/tbf.cc:87-112 | Packets sent and packets waiting are the accepted ones, in order |
| `TokenBucketService.Fate` | ns/ns-2.35/adc/tbf.cc:74-113 | In every run a packet is dropped exactly if the queue is full, or there is to be none and the tokens do not cover it; it leaves at once exactly if nothing waits and they do; and the tokens left |
| `TokenBucketService.LeavesOnTime` | ns/ns-2.35/adc/tbf.cc:126-149 | In every run a waiting packet leaves at the first moment at which the tokens cover it, in its turn, and is paid for |
| `TokenBucketService.ServesAtRate` | ns/ns-2.35/adc/tbf.cc:115-149 | While packets wait, none larger than the bucket, the bits sent are exactly what the rate gives in the time less the change in the bucket |
| `SignalledLink.ParamADC.AdmitFlow` | ns/ns-2.35/adc/param-adc.cc:89-96 | Admits and reserves exactly while the sum stays within utilization times bandwidth |
| `SignalledLink.SALink.Lookup` | ns/ns-2.35/adc/salink.cc:185-192 | The first slot of the flow, or -1 |
| `SignalledLink.SALink.GetNxt` | ns/ns-2.35/adc/salink.cc:194-205 | The first free slot, or the exit |
| `SignalledLink.SALink.Recv` | ns/ns-2.35/adc/salink.cc:74-141 | Link and packet as the step on values has them |
| `Reservation.BeginStep` | ns/ns-2.35/adc/sa.cc:126-158 | A new flow and its request keep the invariant |
| `Reservation.RequestStep` | ns/ns-2.35/adc/salink.cc:87-110 | A request that crosses a link keeps the invariant |
| `Reservation.RequestDecides` | ns/ns-2.35/adc/salink.cc:87-110 | In every run a link admits a request exactly if the rates it holds leave room within its limit; then it takes a slot and adds the rate, else it stays as it was and the decision is no from there on |
| `Reservation.ConfirmStep` | ns/ns-2.35/adc/salink.cc:114-126 | A confirmation keeps it |
| `Reservation.TeardownStep` | ns/ns-2.35/adc/salink.cc:127-132 | A teardown keeps it |
| `Reservation.AnsweredStep` | ns/ns-2.35/tcp/saack.cc:73-100 | The answer of the sink keeps it |
| `Reservation.LedgerIsShare` | ns/ns-2.35/adc/salink.cc:86-132 | What the links have added to their reserved rates, less what they have taken off, as packets of one flow passed, is at every link and in every run the rate exactly where the flow holds the link |
| `Reservation.AllOrNothing` | ns/ns-2.35/adc/salink.cc:86-132 | Once the confirmation has crossed, these changes of a flow add up to its rate at every link of the path or to 0 at every link, as decided, and to 0 behind the teardown; off the path always to 0 |
| `Reservation.AcceptedExactly` | ns/ns-2.35/adc/salink.cc:102-110 | The decision at the sink is yes exactly when every link has set aside a slot, and the changes add up to the rate at just the links that did |
| `Reservation.ReservedIsSum` | ns/ns-2.35/adc/param-adc.cc:78-96 | At each link the reserved rate is the sum over the flows it holds and keeps the limit, and the count is one less than their number |
| `Reservation.NothingLeaks` | ns/ns-2.35/adc/salink.cc:114-132 | When all flows are done nothing is reserved and every slot is free |
| `Reservation.EndsExactly` | ns/ns-2.35/adc/salink.cc:194-205 | A run ends early exactly when a link admits a request while each of its slots is in the use of a different flow that waits there |
| `Reservation.TeardownExactly` | ns/ns-2.35/adc/sa.cc:136-172 | A teardown leaves the count and the rate of a link right exactly when the flow holds the link (for the rate also when the rate is 0) |
| `RouteQueue.Queue.Enque` | ns/ns-2.35/aodv/aodv_rqueue.cc:50-85 | The list refines: purge, make room for 64, append with a time stamp 30 seconds ahead; the head is dropped when full |
| `RouteQueue.Queue.Deque` | ns/ns-2.35/aodv/aodv_rqueue.cc:88-103 | The first unexpired packet |
| `RouteQueue.Queue.DequeFor` | ns/ns-2.35/aodv/aodv_rqueue.cc:106-138 | The first unexpired packet for the destination; the rest in order |
| `RouteQueue.Queue.Find` | ns/ns-2.35/aodv/aodv_rqueue.cc:140-150 | Whether a packet for the destination waits |
| `RouteQueue.Queue.RemoveHead` | ns/ns-2.35/aodv/aodv_rqueue.cc:159-174 | Head, tail and length stay in step |
| `RouteQueue.Queue.FindPacketWithDst` | ns/ns-2.35/aodv/aodv_rqueue.cc:176-187 | The first packet for the destination and the one before it |
| `RouteQueue.Queue.FindAgedPacket` | ns/ns-2.35/aodv/aodv_rqueue.cc:219-230 | An expired packet and the one before it, or none is expired |
| `RouteQueue.Queue.Purge` | ns/ns-2.35/aodv/aodv_rqueue.cc:232-260 | Exactly the expired packets go |
| `RouteQueue.RunInv` | ns/ns-2.35/aodv/aodv_rqueue.cc:50-85 | Under a clock that does not go back, at most 64 packets wait in the order of their time stamps |
| `RouteQueue.PurgesAgreeExactly` | ns/ns-2.35/aodv/aodv_rqueue.cc:205-260 | The scanning purge and the commented-out one agree exactly when no expired packet is behind one that is not |
| `RouteQueue.PurgesAgree` | ns/ns-2.35/aodv/aodv_rqueue.cc:205-260 | They agree in every run of a new buffer |
| `RouteQueue.TakesOldest` | ns/ns-2.35/aodv/aodv_rqueue.cc:106-138 | deque(dst) finds a packet exactly when one for it has not expired, and takes the oldest |
| `RouteQueue.DrainsInOrder` | ns/ns-2.35/aodv/aodv.cc:885-900 | The sending loop of a found route takes exactly the unexpired packets for it, in order, and leaves the others in theirs |
| `QueueAccounts.Accounts` | ns/ns-2.35/aodv/aodv_rqueue.cc:50-138 | Over any run the packets put in are exactly those that wait, were handed out, were pushed out by one that found 64 unexpired ones, or expired |
| `QueueAccounts.WaitsThirtySeconds` | ns/ns-2.35/aodv/aodv_rqueue.cc:57-60 | A packet expires exactly after 30 seconds; until then each operation keeps it, hands it out or pushes it out |
| `RouteQueue.Queue.DrainFor` | ns/ns-2.35/aodv/aodv.cc:1096-1099 | Taking packets for a destination until there is none: exactly the unexpired ones come out, in order, and the rest stay in theirs |
| `Arq.Endpoint.MakeInvalid` | exp5/peer.c:102-110 | Every slot is marked unused |
| `Arq.Endpoint.MakePackets` | exp5/peer.c:142-157 | Slots hold the pieces of 19 characters, cut at a NUL, and last the empty piece |
| `Arq.Endpoint.SendPacket` | exp5/peer.c:68-100 | State, packets and exit as the step on values has them |
| `Arq.Endpoint.AckProcess` | exp5/peer.c:111-125 | Marks the slot and advances the base to the first slot not acknowledged |
| `Arq.Endpoint.DataProcess` | exp5/peer.c:127-141 | Fills a slot once |
| `Arq.Endpoint.Receive` | exp5/client1.c:250-275 | Dispatch on the two numbers, and the acknowledgement |
| `ArqSafety.Prepare` | exp5/peer.c:201-216 | A prepared endpoint is in the initial state that the theorems start from |
| `ArqSafety.RunInv` | exp5/peer.c:266-286 | Invariant of both directions, and no access outside the slots, in every run |
| `ArqSafety.AckedDelivered` | exp5/peer.c:111-141 | Each acknowledged slot is filled at the peer with the same piece |
| `ArqSafety.BaseIsAckedPrefix` | exp5/peer.c:111-125 | Once sending has begun the base is the longest acknowledged prefix |
| `ArqSafety.PrefixDelivered` | exp5/peer.c:142-157 | The first `base` payloads at the peer are the beginning of the file, exactly when that part holds no NUL |
| `ArqSafety.ChunksPrefix` | exp5/peer.c:142-157 | The first k pieces are the first 19k characters |
| `ArqSafety.EndsWhenAllSent` | exp5/peer.c:92-98 | A process has ended exactly when it has sent every piece once |
| `ArqExchange.SendsExactly` | exp5/peer.c:68-98 | In every run: the slot at nextseq is sent once for each unacknowledged slot before it, at least once while the window is not empty, then each slot the window has room for, once and in order |
| `ArqExchange.ReceivesExactly` | exp5/peer.c:111-140 | In every run: an acknowledgement marks its slot and moves the base to the first unmarked one; a piece fills its slot and is acknowledged; a piece that carries a mark is ignored |
| `ArqExchange.FileArrives` | exp5/peer.c:68-157 | With a window of at least one slot there is a run from any two new endpoints after which the sender has ended and the peer holds every piece; together they are the file exactly if it holds no NUL |

## Left out

- Tcl: commands, bindings, argument parsing, variables, autoload, the `unknown` method,
  instances, and the hash tables behind methods, which are sets of names here.
- `Object` and `Class` themselves may be destroyed in the model like any other class; how
  an interpreter ends is not part of it.
- A superclass change that leaves colours behind ends the sequences of operations the
  OTcl theorems speak of: the next operation requires white colours.
- Sequence numbers, broadcast ids and hop counts are unbounded, with an infinity of their
  own: 8, 16 and 32 bit wrap-around and the arrays of 100 unreachable destinations are not
  modelled.
- AOMDV reads INFINITY and INFINITY2 as one value above all hop counts. Its define of
  INFINITY is commented out, so the original takes it from the mathematics header.
- AOMDV tables are maps and its error packets hold maps, so the order of the list of
  entries and of the reported destinations is not captured. AODV keeps both orders.
- AOMDV link-disjoint paths and gratuitous replies, which are compiled out in the shown
  configuration. A salvaged packet is an event of its own; the count that limits salvaging
  is carried by the packet and is not modelled.
- The expanding ring of AOMDV follows the scheme of AODV's with a longest time-out of 1
  second in place of 10; only AODV's is modelled.
- AODV hello packets and neighbour lists: with link-layer detection compiled in, the
  timers behind them are not started.
- Clocks and timers of the agents are parameters: which routes, paths and ids have
  expired is chosen freely at each step. Route lifetimes, jitter and soft-state refresh
  by data packets are not modelled; of data packets an agent sees only that one is to be
  forwarded, salvaged, repaired or has no route.
- AodvSafety.LoopFree: assumes that no repair timer finds an entry in repair, because
  without that the code has loops, as `AodvRepairLoop.RepairLoop` shows.
- AodvDiscovery.ExpandingRing: the packets of a search that is given up are dropped from
  the buffer, which is not part of the agent's state here; the loop that does it is
  `RouteQueue.Queue.DrainFor`.
- AodvHandlers.AODV.LocalRepair: the packet goes to the buffer of `RouteQueue`, which is
  not part of the agent's state here.
- AomdvNetwork.RtPurgeSound: covers the branch for expired paths. The requests that the
  same loop sends for waiting packets are further events, `Discover`, of the network: they
  touch no entry that the purge touches.
- AomdvHandlers.RtEntry.RtPurge: one entry in that branch only, for the same reason.
- AomdvHandlers.AOMDV.RtPurge: that branch only, for the same reason.
- AomdvHandlers.AOMDV.SendRequest: the rate limit and the choice of the TTL are the
  caller's; the theorems hold for any TTL at any time.
- Dispatch.WholeChain: is about the order of lookups on values; that an object's own proc
  comes first and that the methods follow this order is `Dispatch.RunAll`.
- Token bucket: rates are positive reals without rounding, and the timer fires exactly at
  its deadline. A packet is a size and a number.
- Reservations: only a flow that was accepted sends a teardown, and sends it once, in the
  runs; the source leaves that to its callers, and `Reservation.TeardownExactly` says what
  another teardown does. Signalling packets of one flow are not lost and stay in order, rates are
  not negative, and flows under way have different ids other than -1. Traffic, estimators
  and the other admission controls are not modelled; sums are exact.
- The reasons given to `drop`, packet memory, and tracing.
- The file exchange: sockets, `select`, partial `recv`, a closed connection, the busy
  wait, termination and liveness. A file with its last empty packet uses at most 99 slots;
  with more the original leaves its buffer.
- The socket exercises outside exp5, earlier drafts in exp5, and `tclcl`.
