# DCN in Dafny

DCN routes messages between clients by uid. A client frames packets onto a TCP stream; a server
registers connections under uids and forwards or broadcasts packets between them; a router holds
one session on each of several servers and floods SIG_BROADCAST packets from each to the others.
All of it runs on a home-made thread pool, tracking allocator, FIFO and map. This project models
that stack and proves what it is for.

## The model

From the wire up:

- `Bytes`, `Codec`: machine words, 64-bit wrap, and the 61-byte packet header. `Codec.Serial` and
  `Codec.Deserial` work on buffers, the functions beside them on sequences.
- `Queue`, `Assoc`, `ByteMap`: the deep-copying FIFO over an array and the map over two strided
  byte buffers, as classes, each proved against a sequence or an entry list.
- `HashTable`, `Allocator`: the table of live pointers on values, and the same table as bucket
  nodes linked and relinked in place.
- `Framing`, `Channel`: the accumulate-and-extract loop (class `Receiver` and its specification
  `Extract`), and one direction of a connection from send to handler as a step machine.
- `Tally`, `Pool`, `Starvation`, `Gather`: the thread pool with its futures, how many of its
  coroutines may wait, and asyncio_gather, as step machines over threads, a mutex and a condition
  variable with the semantics of section 7.26.3 of ISO/IEC 9899:2011, spurious wake-ups included.
- `Dispatch`, `Registration`, `Contents`, `Order`, `Server`: what a server decides for one packet,
  what its registry holds over whole runs, what the packets it sends contain, what keeps its order,
  and the worker and disconnector as methods over connections.
- `Session`, `Protocol`, `Correlation`, `Payload`, `Completion`: the session bookkeeping as a class
  with its value specification, the request protocol as a step machine over any number of
  concurrent tasks with its invariant, what follows from it in every run, what is forwarded and
  answered on the way, and which tasks come to an end.
- `Relay`, `Router`, `Topology`: one turn of a router, the router class, the graph of servers and
  routers.
- `Flood`, `Delivery`, `Termination`: the flood as a step machine over arbitrary topologies with its
  invariant, what it delivers, and why it ends.
- `Rest`, `Flags`, `Draining`: the states in which a flood comes to rest, what collapsed flags leave
  behind there, and which states can drain; `OneAtATime`, `TwoAtOnce`: broadcasts in turn, and two
  together; `Staffing`, `Shortage`: the flood on pools that run out of workers; `Mirror`: the
  sessions of the router links move as the flood says.

A step machine picks any enabled step of any thread or host, so its lemmas hold for every
schedule. Records that the code does not keep (the log of verdicts, the trail of a copy, the
tasks started so far) are part of the states only to state properties.

## Assumptions

- Words are little-endian and `size_t` and `ullong` have 64 bits.
- Allocation succeeds, except that the answers of libc and of the resize are parameters of the
  allocator. The load ratio is taken exactly; the code computes it in `float`.
- `pop_block` is one step, although the code frees the queue of a last block after releasing the
  lock, and `dcn_request` is one step, although the code does not lock `last_muid`.
- In the step machines a server worker, a message handler and the disconnector are each one step;
  in the code two workers can interleave between looking up a connection and pushing onto it. For
  the flood, queueing a request and raising its flag is one step of the handler, and clearing the
  flag and taking a request, any of those queued at the link, one step of the runner.
- The packets that the server leaves uninitialised, in the refusing branch and before a block it
  cannot read, are the parameters `blank` and `pack`.
- A coroutine that does not wait returns at some point. What it waits for in `Pool` is a future, or
  the handler whose future raises its waiter; the coroutines of this repository do wait for
  handlers queued on their own pool, which is what `Starvation.SettlesIffFewWait` is about.
- In `Flood` and the modules on it each loop has more workers than coroutines that wait: its links, for the
  loop of a router, and the requests of its sessions. A handler can then always run, since a
  runner waits in one coroutine at a time (`Starvation.SettlesIffFewWait`). `Staffing` drops this
  assumption and `Shortage` gives the exact condition, for routers all of whose runners wait when the first
  broadcast is sent.
- A raised `req_waiter` wakes its runner.
- The four stores with which gather registers a future are seen together.
- A session issues fewer than 2^64 requests in `Protocol`. Futures, coroutines and blocks of one
  run have different addresses in `Pool`.
- In `Flood` membership is fixed, uids on one server are distinct and not 0, descriptors are
  positive, and a sender sets `trav_fuid` to 0 or to its own uid.

## Where the code falls short

Each of these is an exact condition, with a lemma that shows an input or a run on which the code
fails it.

- A state of the flood can drain if and only if the graph is tree-like around its senders and as
  many `req_waiter` flags are up as requests are queued at router links; for a state that a run
  has reached the second half says that no handler has found a flag already up
  (`Draining.DrainsIff`, `Draining.ReachedDrainsIff`). `Topology.RingIsNotTreelike` is a graph that
  is not tree-like, `TwoAtOnce.CollapseExample` a run that loses a flag. With one broadcast at a
  time the flags take care of themselves (`OneAtATime.DrainsIffTreelike`).
- Where a flooded network comes to rest, it has drained if and only if no handler found the
  `req_waiter` of a router link already up; with one broadcast at a time over a tree that never
  happens, with two it can (`Flags.DrainedIffNoCollapse`, `OneAtATime.SequentialFloodsDrain`,
  `TwoAtOnce.CollapseExample`).
- With pools of any size it has drained if and only if, besides, each router in reach has more
  workers than links and each client in reach more than coroutines that wait
  (`Shortage.DrainedIff`, `Shortage.SequentialDrainedIff`, `Shortage.UnderstaffedExample`). The
  router of `code/router.c` has 4 workers, so it can join 3 servers.
- The channel is reliable if and only if no write is short: `cfull_write` and `sfull_write` report
  success for part of a block and the caller then drops the rest
  (`Channel.ReliableIffNoShortWrite`, `Channel.ShortWriteExample`).
- The extraction loop ends if and only if no header makes `header_sz + payload_sz` wrap to zero,
  and cuts only readable frames if and only if none makes it wrap at all (`Framing.SpinsIff`,
  `Framing.SpinExample`, `Framing.FramesDecodeIff`, `Framing.ShortFrameExample`).
- Gather returns if and only if every coroutine returns and none is completed before its future is
  registered (`Gather.ReturnsIffNotOvertaken`, `Gather.OvertakenExample`).
- A pool of n workers runs everything it is given, in every schedule, with any m coroutines that
  wait for submitted work in no circle, if and only if m < n (`Starvation.SettlesIffFewWait`,
  `Starvation.CrowdStarves`). At rest it has finished if and only if its workers do not all wait
  while tasks are queued (`Pool.SettledIffNotStarved`).
- When a session comes to rest all its requests have ended if and only if no handler took an answer
  for a traceroute request: a refusal that kept the type TRACEROUTE from the stack and does not
  parse as a response raises no waiter. Only requests to the session's own uid can meet it
  (`Completion.AllEndIff`, `Completion.OnlyToSelf`, `Completion.SelfRequestExample`).
- Disconnection clears a connection from the registry if and only if it was registered under at
  most one uid (`Registration.DisconnectClearsIff`, `Registration.TwoUidsExample`).
- The load bound holds throughout a run of allocator calls if and only if no `calloc` and no
  `malloc` with a refused resize meets an overloaded table (`HashTable.LoadBoundIff`,
  `HashTable.CallocNeverGrows`).
- `request` never advances the conversation number past 1 (`Session.CMuidsOfRun`), so nothing is
  claimed about its uniqueness.
- A link with uid 0 is refused by every server (`Router.FloodAcceptedIff`).

## Model

| member | source | states |
|---|---|---|
| Delivery.OriginPreserved | code/DCN/src/dnet/router.c:99-114 | In every state of every run over any topology, cyclic ones included, each copy of a flooded packet carries the original payload and type, no conversation number and no trav_tuid, and its trav_fuid (or, when that is 0, its from_uid) names the client that sent it; where it arrives it is marked as forwarded, addressed to that endpoint and without muid. |
| Delivery.AtMostOnce | code/DCN/src/dnet/router.c:101-115 | On any topology, no trail through servers and routers is ever taken by two copies of one broadcast: the skip rules alone rule out duplicates on one trail. |
| Delivery.NeverTwice | code/DCN/src/dnet/router.c:75-131 | Where the graph is tree-like around the sender, in every reachable state no endpoint has had, or has on its way, a second copy, and the sender has none. |
| Delivery.ExactlyOnce | code/DCN/src/dnet/router.c:75-131 | When a run over a tree-like graph has drained, every client on every reachable server has got exactly one copy of the broadcast, its sender none. |
| Delivery.EveryLinkCrossedOnce | code/DCN/src/dnet/router.c:101-115 | When drained, the broadcast has crossed each router link of each reachable server once, in one direction. |
| Delivery.QuiescentTakesEveryPath | code/DCN/src/dnet/router.c:101-127 | On any topology, a drained network has sent one copy along every trail that starts at the sender. |
| Termination.StepDecreases | code/DCN/src/dnet/router.c:75-131 | Each step other than a new broadcast lowers a measure of the remaining work. |
| Termination.Terminates | code/DCN/src/dnet/router.c:75-131 | After the last broadcast, any run of any schedule has at most as many steps as the measure says in advance. |
| Rest.RestIffUnnoticed | code/DCN/src/dnet/client.c:616-663 | With a worker for each handler and runners that wake on a raised flag, a network is at rest if and only if every copy under way is queued at a router link whose req_waiter is down. |
| Flags.DrainedIffNoCollapse | code/DCN/src/asyncio.c:88-97 | On any topology, with a worker for each handler, a network at rest holds exactly as many undelivered copies as handlers found a flag already up on the way; so it has drained if and only if that never happened. |
| OneAtATime.SequentialFloodsDrain | code/DCN/src/dnet/router.c:75-131 | When each broadcast is sent after the one before has drained, over a tree-like graph and with a worker for each handler, no flag ever collapses: wherever any schedule comes to rest, everything has been delivered. |
| OneAtATime.Progress | code/DCN/src/dnet/router.c:83-131 | As long as no flag has collapsed, a network with work left can take a step. |
| Rest.ComesToRest | code/DCN/src/dnet/router.c:75-131 | In a tree-like graph every state has a run to rest. |
| TwoAtOnce.CollapseExample | code/DCN/src/dnet/client.c:95-98 | Two broadcasts over a tree-like graph that reach a link before its runner looks: the network comes to rest with the second one still queued, and can never drain. |
| Draining.DrainsIff | code/DCN/src/dnet/router.c:75-131 | With any number of broadcasts under way on any topology, a state whose flags are backed by requests has some run to quiescence if and only if the graph is tree-like around all senders and as many flags are up as requests are queued. |
| Draining.ReachedDrainsIff | code/DCN/src/dnet/router.c:75-131 | A state that a run has reached can drain if and only if the graph is tree-like around the senders and no handler found a flag already up so far. |
| OneAtATime.DrainsIffTreelike | code/DCN/src/dnet/router.c:75-131 | In particular one broadcast under way whose links are all signalled can drain if and only if no walk over routers from the server of its sender comes back to a server it has visited. |
| Shortage.DrainedIff | code/DCN/src/dnet/router.c:75-131 | With pools of any size: where a network on any topology comes to a halt, it has drained if and only if the graph is tree-like around the senders, no handler found a flag up, and every endpoint to be reached has a worker left for its handlers, which for a router link means more workers than links. |
| Shortage.SequentialDrainedIff | code/DCN/src/dnet/router.c:75-131 | With one broadcast at a time over a tree-like graph: every schedule that comes to a halt has delivered everything if and only if all endpoints in reach are staffed. |
| Staffing.StalledShape | code/DCN/src/netw/client.c:139-182 | Nothing moves any more if and only if every copy under way is queued unnoticed at a link or has arrived where no worker is left for its handler. |
| Shortage.UnderstaffedExample | code/DCN/src/dnet/router.c:83-85 | A router with two links and no more than two workers: one broadcast arrives there and stays. |
| Rest.QuiescenceNeedsTree | code/DCN/src/dnet/router.c:75-131 | A flood that has drained shows that its graph was tree-like: on a cycle some copy is always left. |
| Flood.InvNext | code/DCN/src/dnet/router.c:83-131 | Each worker, handler, take and forward step keeps the balance "copies made along a trail = copies in flight + copies consumed" and the packet fields of every copy. |
| Flood.ServerReach | code/DCN/src/dnet/server.c:356-427 | For a broadcast injected by a registered endpoint, the server's emission reaches each other endpoint of that server once, addressed to it, and nobody else. |
| Flood.RouterReach | code/DCN/src/dnet/router.c:101-115 | For a packet that arrived on one link, a turn of the runner emits one reissued packet for each other link of that router and none elsewhere. |
| Topology.WalkUnique | code/DCN/src/dnet/router.c:101-103 | In a tree-like graph two walks from a server that never turn back and end at the same server are the same walk. |
| Topology.PathUnique | code/DCN/src/dnet/router.c:101-103 | In a tree-like graph at most one trail leads from a client to a given endpoint. |
| Topology.PathExists | code/DCN/src/dnet/router.c:101-115 | A trail leads to every other client on a reachable server. |
| Topology.PathsUnbounded | code/DCN/src/dnet/router.c:101-115 | Without the tree-like condition there are trails of every length. |
| Topology.PathBounded | code/DCN/src/dnet/router.c:101-115 | With it, no trail is longer than twice the number of servers. |
| Topology.RouteToWalk | code/DCN/src/dnet/router.c:101-103 | Reachability by any sequence of router crossings is witnessed by a walk that never turns back. |
| Topology.ChainIsTreelike | code/DCN/src/dnet/router.c:101-103 | Two servers joined by one router, with clients on both, satisfy the tree-like condition. |
| Topology.RingIsNotTreelike | code/DCN/src/dnet/router.c:101-103 | Joined by two routers they do not. |
| Router.DcnRouter.Link | code/DCN/src/dnet/router.c:25-56 | Refuses while the router runs; otherwise appends a fresh session with the next uid, or, when the connection failed, whatever the state memory holds; keeps the earlier ones, and doubles the array only when it is full. |
| Router.DcnRouter.ForwardAll | code/DCN/src/dnet/router.c:101-115 | Every session but the runner's own gets exactly the reissued packet under its own uid and next muid; the runner's own session sends nothing. |
| Router.DcnRouter.Turn | code/DCN/src/dnet/router.c:83-131 | A turn takes the first waiting request; anything but SIG_BROADCAST is dropped without sending, a flooded packet goes out once over every other link. |
| Router.RequestReissues | code/DCN/src/dnet/client.c:511-547 | request() with target 0 followed by dcn_request builds the reissued packet of the flood model, given field by field: the payload and type of the request, the uid of the link, the origin as trav_fuid, no target, conversation number or trav_tuid, and the next muid. |
| Router.FloodAcceptedIff | code/DCN/src/dnet/server.c:121-301 | A server accepts a reissued flood if and only if the uid of the link is not 0, and otherwise refuses it, so the retry loop runs once. |
| Router.DcnRouter.LinkUidsDiffer | code/DCN/src/dnet/router.c:46-53 | Any two connected sessions of a router with at most 2^64 links have different uids. |
| Relay.RelaysReach | code/DCN/src/dnet/router.c:101-115 | The first n turns of the loop give each link among them but the own one exactly one reissued packet, and nobody else any. |
| Protocol.InvNext | code/DCN/src/dnet/client.c:406-424 | Every step of tasks, handlers and workers keeps: one packet, verdict or filed answer for each muid, and each task's copies equal to those of its last verdict. |
| Correlation.MuidsAreFresh | code/DCN/src/dnet/client.c:302-309 | In every run a muid about to be used belongs to no packet under way, no verdict and no other task. |
| Correlation.AnsweredOnce | code/DCN/src/dnet/server.c:121-301 | In every run each muid is answered at most once: unprocessed packets have no verdict, answers under way have distinct muids, and none of them is filed already. |
| Correlation.ForeignNeverFiled | code/DCN/src/dnet/client.c:35-123 | In every run whatever is filed in `responses` under m is the server's own answer to m; forwarded traffic never gets there. |
| Correlation.EndingCode | code/DCN/src/dnet/client.c:320-367 | The code a task ends with is the one the server computed from the registry it saw while processing that task's packet with that muid; the one exception (a refusal that kept type TRACEROUTE) reads UNDEFINED_ERROR, and both directions are given for each code. |
| Correlation.RetryGivesOneForward | code/DCN/src/dnet/client.c:406-424 | Over any number of 101 retries, with the registry changing in between, OK_STATUS means exactly one copy was queued for the connection then registered for the target (none if its descriptor is not positive), with the payload, type, target and conversation number of the task's packet under the session's uid, marked as forwarded and without muid and transit ids; any other end means none was. |
| Correlation.EarlierAttemptsForwardNothing | code/DCN/src/dnet/client.c:406-424 | Every attempt of a task before its current one was answered 101 and forwarded to no one. |
| Payload.AttemptAnswered | code/DCN/src/dnet/server.c:121-297 | Every attempt of every task is answered 102 if its target is the session's own uid, 200 if it pings or broadcasts to uid 0, and otherwise 200 or 101 as some row of the registry that the worker saw has the target's key or none has; read off the answer's payload. |
| Payload.SenderRegistered | code/DCN/src/dnet/server.c:102-119 | The registry in which the worker looks up the target has a row for the sender at its address, and the rows of all other uids as before. |
| Payload.PingEndsOk | code/DCN/src/dnet/server.c:158-174 | A ping of the server from a uid other than 0 that ends, ends with OK_STATUS and forwards nothing. |
| Payload.ForwardedContents | code/DCN/src/dnet/server.c:311-327 | Whatever a task that has ended has had queued for its target carries the payload, type, target and conversation number of the task's packet and the session's uid, is marked as forwarded, and has no muid and transit ids. |
| Payload.ForwardArrives | code/DCN/src/dnet/client.c:35-98 | When the target's session handles such a packet, a request is the newest in its inbox for the sender and raises req_waiter, and a response is found there under its conversation number. |
| Payload.BroadcastContents | code/DCN/src/dnet/server.c:355-427 | A broadcast that ends with OK_STATUS has had one copy queued for each row with another uid and another, open descriptor, in the order of the registry the worker saw, on the row's connection and addressed to its uid, with the payload, type and conversation number of the task's packet; any other end means none. |
| Completion.AllEndIff | code/DCN/src/dnet/client.c:105-134 | When a session has come to rest, all its tasks have ended if and only if no answer was taken for a traceroute request; a task that has not ended waits for such an answer. |
| Completion.OnlyToSelf | code/DCN/src/dnet/server.c:121-146 | An answer that is lost in this way is the refusal of a request that the session sent to its own uid. |
| Completion.SelfRequestExample | code/DCN/src/dnet/client.c:105-118 | From any fresh session, a run in which a request to its own uid waits for ever. |
| Completion.StepTracked | code/DCN/src/dnet/client.c:104-134 | Each step keeps: a waiting task has a waiter that is raised, or its packet or its answer is under way, or its answer was lost. |
| Session.DcnSession.DcnRequest | code/DCN/src/dnet/client.c:292-318 | Queues the packet with its payload, type, transit ids and conversation number under the session's uid, the target and last_muid, advances last_muid with wrap, and leaves an unset waiter under the muid it returns and every other waiter as it was. |
| Session.DcnSession.DcnGetResp | code/DCN/src/dnet/client.c:320-367 | Removes the filed response and no other, returns it with the caller's cmuid left alone, and maps the first four payload bytes to the code; UNDEFINED_ERROR when nothing is filed. |
| Session.RespMeaning | code/DCN/src/dnet/client.c:320-367 | A packet of another user reads FromUser; of the server's packets each code is read from the four bytes 101, 102, 103, 200 and 500 and from no others. |
| Session.DcnSession.WaitResponse | code/DCN/src/dnet/client.c:369-377 | Afterwards no waiter is found under the muid, and every other one is as before. |
| Session.DcnSession.Request | code/DCN/src/dnet/client.c:511-547 | The packet of the task has the caller's payload, target, trav_fuid and type, the session's uid, no muid and no trav_tuid; its conversation number is 0 for uid 0 and for a first packet, the stored number for a response and one more otherwise; a first packet that is a response is refused. |
| Session.DcnSession.OnMessage | code/DCN/src/dnet/client.c:7-136 | Pops one block, readable or not, and changes the session exactly as the message rules of DeliveredAs say. |
| Session.DeliveredAs | code/DCN/src/dnet/client.c:32-134 | For every packet, user, number and muid: the inbox of a user grows by the packet if and only if it is accepted forwarded traffic of that user that is no response; a response is found under its cmuid and nothing else changes there; req_waiter and the two waiters of the user are raised by their own kinds and by nothing else; an answer is filed under its muid and its waiter raised, unless it is a traceroute request, which is queued as one. |
| Session.DcnSession.MiscRequest | code/DCN/src/dnet/client.c:616-663 | Lowers the flag and takes the oldest request of the first user in map order that has one out of the inbox of that user, leaving all else; nothing is taken only if no user has any. |
| Session.DcnSession.AsyncReq | code/DCN/src/dnet/client.c:406-424 | On an otherwise idle session the loop sends the same packet, given field by field, under consecutive muids until the first answer that is not 101, and leaves no waiter and no response behind. |
| Session.InboxConservation | code/DCN/src/dnet/client.c:35-103 | Over any run of messages and collections, the requests of a user handed out, followed by those still queued, are those delivered, in order. |
| Session.MuidsRepeatIff | code/DCN/src/dnet/client.c:309-309 | The i-th and the j-th muid of a session are equal if and only if j - i is a multiple of 2^64. |
| Session.CMuidsOfRun | code/DCN/src/dnet/client.c:526-536 | In any run of requests of a new session, to any users, the packet of the first request to a user carries conversation number 0 and that of every later one 1; a response carries 0 and is refused when it comes first. The other fields of each packet are the caller's payload, target, trav_fuid and type under the session's uid. |
| Mirror.ReceiveMirrors | code/DCN/src/dnet/client.c:35-98 | A session that has the flag and the queued requests that the flood records for its router link still has them after the handler has taken any packet there; handlers elsewhere do not touch it. |
| Mirror.TakeMirrors | code/DCN/src/dnet/router.c:83-99 | A runner that finds its flag up collects a request of its session, which is one that the flood may take at that link, and session and flood agree afterwards. |
| Mirror.OthersMirror | code/DCN/src/dnet/router.c:75-131 | Every other step of the flood leaves the flag and the queue of the link as they are. |
| Server.DcnServer.Worker | code/DCN/src/dnet/server.c:78-433 | Pops one block, readable or not, registers the sender, and appends to every connection's write queue exactly its share of the answer and the copies, changing nothing else; the answer block on the sender's queue has the code that the packet and the rows of the registry call for; an empty read queue changes nothing. |
| Server.DcnServer.Register | code/DCN/src/dnet/server.c:102-119 | A uid without a row gets one behind all others, a row with the same address is left alone, one with another address is overwritten in place; the session table gets the muid. |
| Server.DcnServer.Broadcast | code/DCN/src/dnet/server.c:355-427 | The loop by index appends to every connection exactly the fan-out copies that name it. |
| Server.DcnServer.Process | code/DCN/src/dnet/server.c:121-427 | The branches 102, PING, broadcast, 101 and unicast give together the emission that the lemmas of Contents spell out; the first block added to the sender's queue has the code 102, 200 or 101 that the packet and the rows of the registry call for. |
| Server.DcnServer.Disconnect | code/DCN/src/dnet/server.c:14-27 | Takes out the first row that names the connection and leaves the others in order; reports whether there was one. |
| Contents.AnswerChoice | code/DCN/src/dnet/server.c:121-297 | The code in the answer block: 102 for a packet to its own uid, 200 for a ping or a broadcast to uid 0, otherwise 200 if and only if some row has the key of the target, and 101 if none has. |
| Contents.SelfRefused | code/DCN/src/dnet/server.c:121-146 | A packet to the own uid gets the one refusal, with all its fields, and goes to nobody. |
| Contents.PingAnswered | code/DCN/src/dnet/server.c:158-174 | A ping of uid 0 from another uid gets one packet with code 200, and nothing else is sent. |
| Contents.UnknownAnswered | code/DCN/src/dnet/server.c:269-287 | A packet to a uid without a row gets one packet with code 101 and goes to nobody. |
| Contents.UnicastForwarded | code/DCN/src/dnet/server.c:287-353 | A packet to a uid with a row gets 200, and the connection of that row, if its descriptor is positive, the packet: same uids, type, conversation number and payload, marked as forwarded, without muid and transit ids. |
| Contents.BroadcastSpread | code/DCN/src/dnet/server.c:255-268 | A broadcast gets 200, and then one copy goes to each row with another uid and another, open descriptor, in row order, with payload, type, sender, conversation number and trav_fuid of the packet, addressed to the uid of the row. |
| Order.RegistryOrder | code/DCN/src/map.c:230-296 | Two uids that stay registered through any run of packets and disconnections keep their order in the registry. |
| Order.BroadcastOrder | code/DCN/src/dnet/server.c:360-424 | Of two rows that a broadcast serves, the copy of the earlier one is made first. |
| Order.UsersOrder | code/DCN/src/dnet/client.c:636-660 | The users of a session keep their order over any run of messages and collections. |
| Dispatch.FanOutPerUid | code/DCN/src/dnet/server.c:360-424 | For any registry with distinct keys, a broadcast makes exactly one copy, given field by field, for each registered uid but the sender's whose descriptor is open and not the sender's, on the connection registered for it, and none for any other uid. |
| Dispatch.AnswerCarriesCode | code/DCN/src/dnet/server.c:125-297 | The code a session reads from an answer is the one the server put in. |
| Registration.RegistryIsLatest | code/DCN/src/dnet/server.c:104-119 | In every well-behaved run a uid is registered for the connection that most recently had one of its packets processed, or for none if that connection has closed. |
| Registration.NoEntryNamesClosed | code/DCN/src/dnet/server.c:14-27 | In every well-behaved run no entry names a closed connection. |
| Registration.DisconnectClearsIff | code/DCN/src/dnet/server.c:14-27 | For any registry: after the disconnector no entry names the connection if and only if at most one did before. |
| Registration.TwoUidsExample | code/DCN/src/dnet/server.c:14-27 | A connection that has used two uids leaves the second one in the registry when it closes. |
| Registration.OneAnswerEach | code/DCN/src/dnet/server.c:121-301 | Over any run, the server's own packets on a connection's write queue are one answer for each packet of that connection, in processing order. |
| Registration.AnswerFields | code/DCN/src/dnet/server.c:125-156 | Each answer has sender 0, the packet's muid and sender as target, no conversation number, is not marked as forwarded, and carries the code in four bytes; the refusal keeps the type and transit ids of the stack, any other answer is a request without transit ids. |
| Channel.EndToEnd | code/DCN/src/netw/client.c:139-197 | In every interleaving of sends, writes, chunked reads and handler runs without lost bytes, the packets handed to handlers are a prefix of the packets sent, in order and field for field. |
| Channel.NeverStarved | code/DCN/src/netw/client.c:139-182 | Whatever was lost, a scheduled handler finds a block: queued blocks equal scheduled handlers. |
| Channel.ReliableIffNoShortWrite | code/DCN/src/netw/client.c:183-197 | When a run has emptied the channel, all packets have arrived if and only if the socket never took less than the block it was given. |
| Channel.ShortWriteExample | code/DCN/src/netw/client.c:183-197 | A write that takes one byte of the only block: that byte arrives, the channel is at rest and the packet gone. |
| Channel.DeliversAllIffNothingLost | code/DCN/src/netw/client.c:183-197 | In a drained state the handled packets are all the sent ones if and only if no byte was lost. |
| Channel.CutAhead | code/DCN/src/netw/client.c:150-182 | Reading the beginning of a stream of packets cuts off the next packets whole and leaves the start of the following one. |
| Channel.InvNext | code/DCN/src/netw/client.c:139-197 | Every step keeps the byte balance and, without loss, one ordered stream from handlers to write queue. |
| Framing.ChunkingIndependence | code/DCN/src/netw/client.c:139-182 | However a byte stream is split into reads, the frames, the residue and whether the loop gets stuck are those of one read of the whole. |
| Framing.ExtractAppend | code/DCN/src/netw/epldplx-c.c:277-323 | Bytes that arrive later never change what has been cut already. |
| Framing.ExtractPrefix | code/DCN/src/netw/client.c:150-182 | After any prefix of a valid stream the first k packets have been cut and the residue is a proper beginning of packet k. |
| Framing.ExtractWire | code/DCN/src/netw/client.c:150-182 | A whole stream of packets is cut into exactly their wire forms. |
| Framing.FramesDecodeIff | code/DCN/src/netw/client.c:152-178 | Every frame cut is one packet_deserial accepts, if and only if no header the loop meets declares 2^64 - 61 bytes or more. |
| Framing.ShortFrameExample | code/DCN/src/netw/client.c:152-178 | 61 bytes from which a frame of one byte is cut and queued, which no handler can read. |
| Framing.SpinsIff | code/DCN/src/netw/client.c:152-156 | The loop runs for ever if and only if it meets a header that declares 2^64 - 61 payload bytes. |
| Framing.PassTakesHeader | code/DCN/src/netw/client.c:152-177 | With a declared length below that, each pass shortens the accumulator by at least 61 bytes. |
| Framing.SpinExample | code/DCN/src/netw/client.c:152-156 | A 61-byte input on which the loop never ends. |
| Framing.Receiver.ExtractAll | code/DCN/src/netw/client.c:152-182 | The loop over the byte buffer queues exactly the frames of the specification in order, leaves its residue, and schedules one handler for each. |
| Framing.Receiver.Append | code/DCN/src/netw/client.c:139-147 | Appending a read grows the accumulator by exactly its bytes. |
| Framing.Receiver.Consume | code/DCN/src/netw/client.c:167-178 | memmove and shrink leave the accumulator without its first n bytes. |
| Codec.DecodeEncode | code/DCN/src/dnet/general.c:9-71 | Deserialising a serialised packet gives it back field for field. |
| Codec.Decode | code/DCN/src/dnet/general.c:36-71 | On arbitrary bytes, a block is accepted if and only if its length is 61 plus the declared length. |
| Codec.WrapIsExact | code/DCN/src/dnet/general.c:61-64 | The subtraction that wraps at 64 bits decides that exactly. |
| Codec.EncodeDecode | code/DCN/src/dnet/general.c:9-71 | An accepted block is reproduced byte for byte if and only if its bool byte is 0 or 1. |
| Codec.EncodeInjective | code/DCN/src/dnet/general.c:9-34 | Two packets never share a wire form. |
| Codec.WireLayout | code/DCN/src/dnet/general.c:16-33 | Where each field lies in the wire form, with its width and byte order, the length of the payload and the payload. |
| Bytes.StoreByte | code/DCN/src/dnet/general.c:20-28 | Byte i of a word on the wire is its i-th digit to the base 256. |
| Codec.Serial | code/DCN/src/dnet/general.c:9-34 | The buffer filled through the running offset is the wire form. |
| Codec.Deserial | code/DCN/src/dnet/general.c:36-71 | The in-place reader accepts what the decoding function accepts, with the packet it gives; a block refused for want of a header changes nothing; any other block leaves its header fields, each from its place, and one refused by the length test the declared length beside the old data. |
| Pool.NoStrandedTask | code/DCN/src/thr-pool.c:84-120 | In every reachable state, if a worker sleeps then the queue is no longer than the submitters between push and signal plus the awake workers that will look at it. |
| Pool.NoStrandedNext | code/DCN/src/thr-pool.c:84-120 | Each step, spurious wake-ups included, keeps that bound. |
| Pool.Conservation | code/DCN/src/thr-pool.c:66-143 | In every reachable state the submitted tasks are the started ones followed by the queued ones, and each start is in the hands of exactly one worker or finished. |
| Pool.ReadyHoldsOwnResult | code/DCN/src/asyncio.c:224-288 | A ready future's output block is what its own coroutine returned, empty for NULL. |
| Starvation.SettlesIffFewWait | code/DCN/src/thr-pool.c:98-162 | Pools of n workers run every submitted task to its end, in every schedule that comes to rest, with at most m coroutines that wait for submitted work and never in a circle, if and only if m < n. |
| Starvation.FewWaitersSettle | code/DCN/src/thr-pool.c:98-162 | If the coroutines that ever wait are fewer than the workers, a run that comes to rest has finished every task. |
| Starvation.CrowdStarves | code/DCN/src/asyncio.c:243-252 | For every number of workers, a run with as many coroutines that wait for a future submitted after them: all workers wait and the future stays queued for good. |
| Pool.SettledIffNotStarved | code/DCN/src/thr-pool.c:98-162 | Where a pool can do nothing more by itself, with coroutines that wait only for submitted work and never in a circle: every submitted task has been run to its end if and only if it is not the case that every worker waits while tasks are queued. |
| Pool.SettledIffNoneBlocked | code/DCN/src/thr-pool.c:98-162 | At rest, whatever the coroutines wait for, everything has been run if and only if the queue is empty and no worker waits. |
| Pool.EveryTaskFinishes | code/DCN/src/thr-pool.c:98-143 | At rest with no coroutine waiting, every submitted task has run to its end and all threads rest. |
| Pool.RestShape | code/DCN/src/thr-pool.c:98-143 | At rest every submitter is through, every worker sleeps or waits for a future that is not ready, and tasks are queued only if all workers wait. |
| Pool.QuietRunsEnd | code/DCN/src/thr-pool.c:98-143 | Without new submissions, new waits and spurious wake-ups every run of every schedule is finite. |
| Gather.NeverMissesLast | code/DCN/src/asyncio.c:447-458 | A sleeping gatherer implies a future not yet counted or a worker between its increment and its broadcast. |
| Gather.ReturnsOwnResults | code/DCN/src/asyncio.c:460-472 | On return results[i] is what the coroutine of futures[i] returned, for every i. |
| Gather.ReturnsIffNotOvertaken | code/DCN/src/asyncio.c:447-458 | In a run at rest the gatherer has returned if and only if every coroutine has returned and no worker looked at the shared fields before gather had set them. |
| Gather.ReturnsIffAllCounted | code/DCN/src/asyncio.c:454-458 | At rest the gatherer has returned if and only if every worker has counted its future; otherwise it sleeps. |
| Gather.OvertakenExample | code/DCN/src/thr-pool.c:128-134 | A future whose worker is through before gather registers it: the gatherer sleeps for good. |
| Gather.CollectingOverlap | code/DCN/src/asyncio.c:460-475 | While gather collects and frees, every worker has counted, but may still be before its lock, its broadcast or its unlock. |
| Gather.OverlapExample | code/DCN/src/asyncio.c:460-475 | That overlap does occur: gather collects while the last worker is about to lock. |
| Gather.QuietRunsEnd | code/DCN/src/asyncio.c:447-472 | Apart from spurious wake-ups and returning coroutines every run is finite. |
| Allocator.Allocator.Resize | code/DCN/src/allocator.c:9-41 | Relinking every node in place gives the rehashed table, or leaves the table alone when the new array is refused. |
| Allocator.Allocator.MoveChain | code/DCN/src/allocator.c:24-34 | The inner loop pours one old chain into the new array, front first. |
| Allocator.Allocator.Malloc | code/DCN/src/allocator.c:60-82 | The table after malloc, with the load test before insertion: when the capacity doubles, how the size counts and which pointers are live. |
| Allocator.Allocator.Calloc | code/DCN/src/allocator.c:111-130 | The table after calloc, without a load test: same capacity, one more live pointer. |
| Allocator.Allocator.Free | code/DCN/src/allocator.c:84-109 | Unlinks the bucket of the pointer and nothing else; the pointer is not live, all others are as before; unknown and NULL pointers change nothing. |
| Allocator.Allocator.Realloc | code/DCN/src/allocator.c:132-195 | All outcomes: NULL, zero size, untracked pointer, refused, moved, moved with resize, with the pointers that are live afterwards and the pointer returned. |
| Allocator.Allocator.Collect | code/DCN/src/allocator.c:197-213 | Leaves the table empty at the same capacity. |
| Allocator.Allocator.Detach | code/DCN/src/allocator.c:152-161 | The search of one chain finds and unlinks exactly the bucket of the pointer. |
| HashTable.RefinesSet | code/DCN/src/allocator.c:60-213 | Over any run of calls every pointer is in the bucket its hash names, none appears twice, the live set is that of an ideal tracker and the total is its size. |
| HashTable.OneChainSearch | code/DCN/src/allocator.c:91-107 | Searching one chain finds a pointer if and only if it is live. |
| HashTable.RehashGood | code/DCN/src/allocator.c:9-41 | Rehashing to any capacity keeps the live set and the total exactly. |
| HashTable.HashSteps | code/DCN/src/allocator.c:5-7 | The bucket of NULL is 0 and that of the next pointer lies 2654435761 buckets on, round the table, for any capacity that divides 2^64. |
| HashTable.LoadBoundIff | code/DCN/src/allocator.c:60-195 | For every run of calls, mixed in any way, 4 * (size - 1) <= 3 * capacity holds throughout if and only if no calloc, and no malloc with a refused resize, was made on a table over its load factor. |
| HashTable.LoadStepIff | code/DCN/src/allocator.c:60-195 | A single call keeps the bound exactly when it does not add to an overloaded table without growing it. |
| HashTable.LoadBound | code/DCN/src/allocator.c:68-70 | In particular with successful resizes and no calloc it holds after any run. |
| HashTable.CallocNeverGrows | code/DCN/src/allocator.c:111-130 | A run of n callocs alone leaves the capacity at 1024, so the bound holds after it if and only if n < 770. |
| HashTable.CallocsAreHonest | code/DCN/src/allocator.c:111-130 | Runs of n callocs, each answered with a block that is not live, exist for any n up to 2^64. |
| Queue.FirstInFirstOut | code/DCN/src/queue.c:65-132 | Over any run of push, pop and peek, popped contents followed by current contents are the pushed contents. |
| Queue.Fifo.Push | code/DCN/src/queue.c:65-88 | Appends a private copy of the block, NULL and zero size as the empty block; later writes to the caller's memory cannot reach it. |
| Queue.Fifo.Reserve | code/DCN/src/queue.c:67-78 | There is always a free slot inside the reallocated array, although pops shrink it and head_size never falls. |
| Queue.Fifo.Pop | code/DCN/src/queue.c:90-114 | Returns a fresh copy of the first block and keeps the rest in order; codes 1, 2 and 0 for empty, last and other. |
| Queue.Fifo.ShiftDown | code/DCN/src/queue.c:105-107 | The shifting loop leaves copies of blocks 1.. in slots 0.., in separate memory. |
| Queue.Fifo.Peek | code/DCN/src/queue.c:116-132 | A fresh copy of the first block; the queue is unchanged. |
| Queue.Fifo.Free | code/DCN/src/queue.c:144-154 | Empties the queue and keeps head_size. |
| Queue.Fifo.Forward | code/DCN/src/queue.c:156-172 | Moves or copies the first block of one queue to the end of another. |
| Queue.CopyBlock | code/DCN/src/queue.c:43-57 | The copy has the same content in memory of its own. |
| ByteMap.RefinesFiniteMap | code/DCN/src/map.c:182-296 | Over any run of set and erase the keys stay distinct and the store is the finite map. |
| ByteMap.OrderKept | code/DCN/src/map.c:182-296 | Over any run of set and erase, two keys that are never erased keep their order in the buffers. |
| ByteMap.NewComesLast | code/DCN/src/map.c:205-226 | A key that is new comes behind every key then present. |
| ByteMap.Store.Set | code/DCN/src/map.c:182-228 | On the two byte buffers: overwrites the cell of a known key where it is, appends a new key behind all others, refuses zero strides. |
| ByteMap.Store.Erase | code/DCN/src/map.c:230-296 | The entry of the key is cut out and the entries before and behind it stay as they are, in order; an unknown key changes nothing. |
| ByteMap.Store.At | code/DCN/src/map.c:53-94 | The offset of the value of the key, its index times v_size, if and only if the key is present. |
| ByteMap.Store.Contains | code/DCN/src/map.c:96-109 | Whether the key is present. |
| ByteMap.Store.KeyByValue | code/DCN/src/map.c:157-179 | The key of the first entry with the value. |
| ByteMap.Store.KeyAt | code/DCN/src/map.c:299-309 | The key of the entry at the index, none past the end. |
| ByteMap.Store.AllKeys | code/DCN/src/map.c:299-309 | The loop over 0..len meets each key once, in buffer order. |
| ByteMap.ReadErase | code/DCN/src/map.c:255-290 | Cutting one cell out of both buffers removes exactly one entry of what they hold. |
| Assoc.PutModel | code/DCN/src/map.c:182-228 | Setting a key in the list is updating the finite map. |
| Assoc.RemoveModel | code/DCN/src/map.c:230-296 | Erasing a key from the list is removing it from the finite map. |
| Assoc.PutPlace | code/DCN/src/map.c:182-228 | Setting a key overwrites its entry in place or puts a new one behind all others. |
| Assoc.RemovePlace | code/DCN/src/map.c:230-296 | Erasing a key takes its entry out and leaves the entries before and behind it in order. |

## Left out

- Threads in place: thr-pool.c and the concurrent part of asyncio.c are step machines on values, because several threads interleave inside one loop; memory reuse of futures after await or gather is not captured.
- Sockets, poll and epoll, including change_climod: a copy is queued on write_q, nothing is said about when it is written.
- The wake-up itself in waiter_wait and await_future: the flag is set and signalled without the mutex, so a wake-up can be lost. What a collapsed req_waiter leaves behind at a router is in Flags.
- Shutdown: pool_free, loop_stop, dcn_end_session and router_stop drop queued work.
- Traceroute: only the branch of the message handler is modelled, with the parsed payload as a parameter.
- The part of __async_req after the retry loop, which waits for the other user's response, and the modes of __async_grequests for one user or with a timeout: they hang on the waiters above.
- ping: the same loop as __async_req with another exit test.
- Request queues inside a session hold serialised packets; Session keeps the packets, which Codec.DecodeEncode makes the same.
- Of a block that packet_deserial refuses by its length, `Session` and `Server` go on with the header fields and the old data; the declared length that stays in dsize (Codec.Deserial) is not carried on.
- Completion: tasks that are answered 101 for ever retry for ever; only sessions that come to rest are spoken of.
- Session.DcnSession.AsyncReq: one answer for each attempt and no other traffic; Protocol has the general interleaving.
- Flood leaves out the 200 answers and the order of queues, so it allows more runs than the code has; Protocol and Channel cover both.
- map_val_at, map_clear, map_value_in and map_empty: simpler relatives of the modelled calls.
- The asyncio events machinery, array.c, the logger, the C++ wrappers, example programs and scripts.
- Memory leaks, out-of-memory branches and the lifetime of mutexes.
