# Thunderbolt host driver: verified models

Dafny models of seven parts of the Thunderbolt/USB4 host driver under `drivers/thunderbolt`, and
proofs about all their inputs, runs and reachable states. `dafny verify dfyconfig.toml` checks the
whole project.

| part of the driver | modules |
|---|---|
| XDomain property directories: one recursive tree of typed properties as one flat block of dwords | `Dwords`, `PropertyTree`, `PropertyFormat`, `PropertyParse`, `PropertyRead`, `PropertyCodec` |
| NHI DMA rings: descriptor array, two frame lists, completion work, poll, stop, quarantine | `RingSpec`, `RingProofs`, `RingDriver` |
| Paths: the walk through the tree of routers, HopIDs, transactional activation | `Topology`, `HopIds`, `PathActivation`, `PathLife` |
| Control channel: concurrent requests, the command slot, the work fence, stop, free, fail-fast teardown | `CtlRequest`, `CtlEngine`, `CtlProofs`, `CtlSteps`, `CtlDriver`, `CtlAccess` |
| Teardown and recovery: quarantined rings across domain removal, one-shot power cycle and reprobe, the notification gate | `RingOwnership`, `RingRemoval`, `ProbeRecovery`, `ProbeDriver`, `NotificationGate` |
| Two-party service negotiation through a generation gate | `Negotiation` |
| NVM block transfers | `Nvm` |

How the models are built:

- Code that changes state in place is a class or an array method, proved equal to a step of a
  specification on values; invariants are then proved of every run of those steps. `Drive` methods
  tie the two together for arbitrary sequences of operations.
- Threads are interleaved at the granularity of the driver's critical sections, except where noted under
  "Left out". Devices, timeouts, allocation failures and other callers are nondeterministic steps or
  parameters.
- What is assumed of the surroundings: a ring device completes only slots that are currently posted
  and never changes their address; a config-space write that reports success and clears the enable
  bit takes effect, one that sets it may leave anything behind; the router topology is a tree whose
  links are symmetric, and hop entries name ports that exist; nothing quarantines a ring after domain
  removal has sampled the tables; the recovery workqueue is ordered, as it is allocated.
- The constants of `linux/thunderbolt.h`, which is not part of the repository, are those of the
  kernel header: property types 0x44, 0x64, 0x74 and 0x76, descriptor flags 2, 4 and 8.

Where a promise does not hold of the code as it is, the code is kept and the exact condition proved:

- Frames come back from a ring in the order they were accepted if and only if no poll takes a frame
  while collected frames still wait for their callbacks (`RingProofs.FifoRefinement`, with the
  overtaking run in `RingProofs.PollOvertakes`). That each is handed back exactly once always holds.
- A failed path allocation keeps the HopIDs it had taken, because the path is freed before its length
  is set; it keeps none if and only if the source HopID was not available (`HopIds.Domain.AllocPath`).
- A deep copy of a property directory is identical if and only if every text in it is zero after its
  terminator (`PropertyCodec.CopyExact`).
- An NVM write drops the last size mod 4 bytes, so reading back gives the data if and only if those
  bytes were on the flash already (`Nvm.Flash.WriteThenRead`).
- Across a restart of the peer or a wrap of the generation the enumerator can miss a new service set;
  `Negotiation.RestartExactly` and `Negotiation.ConvergesExactly` say exactly when.
- An automatic reprobe can itself ask for a power cycle, when an external probe cleared the record in
  between (`ProbeRecovery.ReprobeMayAskAgain`). The bound by the number of external probes holds all the
  same, but only because the workqueue is ordered (`ProbeRecovery.OrderIsNeeded`).
- A quarantined ring keeps its HopID if and only if its leaf does not free it: the driver does not check
  (`RingOwnership.QuarantinedKeepsHop`).
- An NVM write at an address that is not dword-aligned reads past the caller's buffer or writes past the
  block buffer, always one of the two (`Nvm.WriteTripInside`).
- A tree with child directories that ends at or above 2^31 dwords is refused even if the block is long
  enough, because the end of a child is kept in an int (`PropertyFormat.FormatDir`).

## Model

| member | source | states |
|---|---|---|
| `Dwords.UnpackOfPackAll` | drivers/thunderbolt/property.c:42-50 | moving bytes into dwords and back gives the bytes |
| `Dwords.PackedBytes` | drivers/thunderbolt/property.c:42-50 | the first of four bytes is the most significant byte of their dword, the last the least |
| `Dwords.PackedByte` | drivers/thunderbolt/property.c:42-50 | byte j of a buffer is byte 3 - j mod 4, from the low end, of word j / 4 |
| `PropertyTree.PartsOrdered` | drivers/thunderbolt/property.c:427-470 | for two properties of a directory, entries, leaf data and child directories of the earlier one end before those of the later one begin |
| `PropertyTree.PartsInside` | drivers/thunderbolt/property.c:402-470 | entry, leaf data and child of every property lie inside the directory's extent, in that order |
| `PropertyTree.DirFrame` | drivers/thunderbolt/property.c:402-475 | whether a block holds a tree depends only on the words of the tree's extent |
| `PropertyTree.DirOnWire` | drivers/thunderbolt/property.c:348-475 | in a block that holds a tree every key, data and text byte is at its place in big-endian dwords, and the type, length and value fields of every entry hold the numbers a peer looks for, at every depth |
| `PropertyFormat.RegionsTile` | drivers/thunderbolt/property.c:357-475 | headers, entries, leaf data, padding and children of all nested directories tile the extent without gap or overlap |
| `PropertyFormat.TileDisjoint` | drivers/thunderbolt/property.c:357-475 | any two regions of a tiling are disjoint |
| `PropertyFormat.TileInside` | drivers/thunderbolt/property.c:357-475 | every region of a tiling is inside the extent |
| `PropertyFormat.PaddingIsRegion` | drivers/thunderbolt/property.c:357-475 | the words counted as padding are exactly those of the padding regions of all nested directories |
| `PropertyFormat.DirLength` | drivers/thunderbolt/property.c:309-346 | returns the directory's own length and accumulates exactly the data length, or the whole size when recursing |
| `PropertyFormat.BlockLength` | drivers/thunderbolt/property.c:488-502 | the size query returns the size of the whole nested layout |
| `PropertyFormat.FormatProperty` | drivers/thunderbolt/property.c:427-470 | one property is laid out at its entry, leaf and child positions, and nothing else is written; refused exactly when its child does not fit the block or its end does not fit an int |
| `PropertyFormat.FormatDir` | drivers/thunderbolt/property.c:348-475 | succeeds exactly when the block is long enough and, for a tree with children, its end fits a 32-bit int; returns the end of the layout, and then the block holds the tree; padding and everything outside keep their contents |
| `PropertyFormat.FormatBlock` | drivers/thunderbolt/property.c:488-502 | formatting succeeds exactly when the block has at least the queried size, which for a tree with children must fit a 32-bit int; the block then holds the tree, down to the bytes of keys, data and text; only padding words of the extent are left unwritten |
| `PropertyParse.RunParseDir` | drivers/thunderbolt/property.c:161-210 | the directory parser computes the specification's outcome |
| `PropertyParse.RunParseEntries` | drivers/thunderbolt/property.c:185-210 | the entry loop stops at the first entry that is refused |
| `PropertyParse.RunParseBlock` | drivers/thunderbolt/property.c:220-233 | the block parser checks magic and length, then parses the root; a wrong magic number or a length past the block is refused, and an accepted block has neither, nor a malformed entry |
| `PropertyParse.EntryRejected` | drivers/thunderbolt/property.c:52-73 | an entry is refused exactly when its range ends outside the block, it is an immediate of a length other than 1, or something in its directory is refused |
| `PropertyParse.MalformedStops` | drivers/thunderbolt/property.c:185-210 | the first malformed entry refuses the whole list |
| `PropertyParse.AcceptedEntries` | drivers/thunderbolt/property.c:52-73 | an accepted list is inside the block and holds no malformed entry |
| `PropertyParse.BlockOutcome` | drivers/thunderbolt/property.c:220-233 | which blocks are refused at the header, and what every accepted block satisfies |
| `PropertyRead.PropertyIsRead` | drivers/thunderbolt/property.c:95-159 | whatever the block, a parsed property has the key, length and value its entry and the words it points to hold, byte by byte; a text ends in NUL |
| `PropertyParse.DeeperDir` | drivers/thunderbolt/property.c:161-210 | a definite outcome of the parser does not depend on the recursion bound |
| `PropertyParse.PropertyRoundTrip` | drivers/thunderbolt/property.c:95-159 | an entry laid out for a property parses to the same property |
| `PropertyParse.DirRoundTrip` | drivers/thunderbolt/property.c:161-210 | a directory laid out anywhere in a block parses back to the same tree |
| `PropertyParse.RoundTrip` | drivers/thunderbolt/property.c:220-233 | parsing a formatted block ends within the tree's height and gives the tree back, up to the derived length of directory entries |
| `PropertyCodec.Exchange` | drivers/thunderbolt/property.c:220-502 | format then parse: the peer holds the same tree exactly when formatting succeeds, and re-formatting what it holds gives the same block |
| `PropertyCodec.SameLayout` | drivers/thunderbolt/property.c:348-475 | trees equal up to derived fields have the same layout |
| `PropertyCodec.LayoutUnambiguous` | drivers/thunderbolt/property.c:95-233 | one block holds at most one root directory, up to derived fields |
| `PropertyCodec.CopyDir` | drivers/thunderbolt/property.c:512-573 | the deep copy is the tree with keys and text cut at their terminators and zero-filled |
| `PropertyCodec.CopyExact` | drivers/thunderbolt/property.c:512-573 | the copy is identical, hence formats to the same block, if and only if all text is zero after its terminator |
| `PropertyCodec.AddedText` | drivers/thunderbolt/property.c:646-671 | text added through the API is well formed, survives copying and reads back |
| `RingSpec.DescriptorRoundTrip` | drivers/thunderbolt/nhi.c:636-662 | packing and unpacking an attribute word returns each field modulo its width |
| `RingSpec.FieldPlaces` | drivers/thunderbolt/nhi.c:636-662 | length, eof, sof and flags lie at bits 0, 12, 16 and 20 of the attribute word |
| `RingSpec.CompletedBit` | drivers/thunderbolt/nhi.c:659-662 | a descriptor is completed exactly when bit 21 of its word is set |
| `RingSpec.PostedFields` | drivers/thunderbolt/nhi.c:836-850 | a posted slot carries the buffer address, flags 0xC, and the metadata of a frame that is sent |
| `RingSpec.StampFields` | drivers/thunderbolt/nhi.c:940-945 | a received frame takes length, eof, sof and flags from its completed word; a sent one is unchanged |
| `RingSpec.PostOneIs` | drivers/thunderbolt/nhi.c:826-866 | one posting publishes the oldest waiting frame at the head, moves the head on by one and changes no other slot |
| `RingProofs.RunInv` | drivers/thunderbolt/nhi.c:821-1067 | the ring invariant holds after every run of start, enqueue, device completion, work, callback, poll, stop, quarantine and removal |
| `RingProofs.FifoRefinement` | drivers/thunderbolt/nhi.c:878-1067 | in every run the frames handed back, then collected, then in flight, then queued are exactly the accepted ones, each once; they are in order if and only if no poll overlapped pending callbacks; each was completed by the device or canceled as reported |
| `RingProofs.OverlapExact` | drivers/thunderbolt/nhi.c:1028-1067 | the recorded overlap is set exactly by a successful poll while callbacks are outstanding |
| `RingProofs.PollOvertakes` | drivers/thunderbolt/nhi.c:1028-1067 | a run of a fresh ring in which a poll returns the second frame before the first one's callback |
| `RingProofs.WindowMatches` | drivers/thunderbolt/nhi.c:626-634 | while the ring runs, the frames in flight number (head - tail) mod size and slot (tail + k) mod size carries the address of the k-th |
| `RingProofs.RunInTurn` | drivers/thunderbolt/nhi.c:826-866 | until a stop every posting goes to the slot after the last one, around the ring, and the head is next |
| `RingProofs.PostingsInTurn` | drivers/thunderbolt/nhi.c:466-579 | after a start at the index the device retained, the k-th frame posted goes to the slot k places after that index, modulo the size, over every run without a stop |
| `RingProofs.TailEvidence` | drivers/thunderbolt/nhi.c:826-947 | a completed bit at the tail belongs to the current posting of the slot: owner, address and contents agree, and the recorded generation is the number of postings |
| `RingProofs.StoppedMeansReturned` | drivers/thunderbolt/nhi.c:1530-1606 | once a stop has returned, every accepted frame was handed back exactly once |
| `RingProofs.StopHandsBackAll` | drivers/thunderbolt/nhi.c:1530-1606 | a stop from any reachable state ends with nothing pending and everything handed back |
| `RingProofs.StopEmpties` | drivers/thunderbolt/nhi.c:1530-1606 | a stop hands back everything outstanding, in order, behind what was handed back before |
| `RingProofs.PollTakes` | drivers/thunderbolt/nhi.c:1028-1067 | a poll takes the ticket behind the collected ones out of the queue: the oldest exactly when none waits for its callback |
| `RingProofs.QuarantinePermanent` | drivers/thunderbolt/nhi.c:1624-1655 | a quarantined ring accepts no frame again and, once stopped, never runs again |
| `RingDriver.TbRing.constructor` | drivers/thunderbolt/nhi.c:1322-1385 | a fresh ring is the initial state of the specification |
| `RingDriver.TbRing.Post` | drivers/thunderbolt/nhi.c:826-866 | posting moves one frame from the queue to the slot at the head |
| `RingDriver.TbRing.WriteDescriptors` | drivers/thunderbolt/nhi.c:821-867 | the loop posts queued frames until the queue is empty or the ring is full; the queue a client sees is unchanged |
| `RingDriver.TbRing.EnqueueFrame` | drivers/thunderbolt/nhi.c:1002-1016 | appends the frame to those accepted and to the queue a client sees exactly when running and not quarantined, else -ESHUTDOWN and no change |
| `RingDriver.TbRing.CollectCompleted` | drivers/thunderbolt/nhi.c:899-947 | collects completed frames from the tail up to the first slot whose completed bit is clear; the queue a client sees is unchanged |
| `RingDriver.TbRing.Work` | drivers/thunderbolt/nhi.c:878-965 | collects, or cancels both lists when stopped, and reposts; a running ring ends with nothing completed at the tail and an empty queue or a full ring; nothing enters or leaves the queue a client sees |
| `RingDriver.TbRing.Callback` | drivers/thunderbolt/nhi.c:953-965 | hands the oldest frame of the queue back with the cancel status of its batch |
| `RingDriver.TbRing.PollFrame` | drivers/thunderbolt/nhi.c:1028-1067 | takes the frame at the tail exactly when the ring runs, the device is there and the completed bit is set, with the metadata the device wrote; changes nothing otherwise |
| `RingDriver.TbRing.StartRing` | drivers/thunderbolt/nhi.c:466-579 | a stopped ring runs afterwards if and only if the retained half of the index register is below its size and both halves read back equal it; head and tail are then that index; nothing else changes |
| `RingDriver.TbRing.StopRing` | drivers/thunderbolt/nhi.c:1530-1606 | stop, cancel and flush empty the queue in order: what was waiting is handed back behind what was handed back before |
| `RingDriver.TbRing.QuarantineRing` | drivers/thunderbolt/nhi.c:1624-1655 | closes admission, then empties the queue in order; a second call only flushes |
| `RingDriver.TbRing.Drive` | drivers/thunderbolt/nhi.c:821-1655 | any sequence of operations is a run of the specification and keeps its invariant |
| `Topology.RouteInjective` | drivers/thunderbolt/tb.h:845-848 | a route string identifies one router position |
| `Topology.DownstreamRoute` | drivers/thunderbolt/tb.h:1525-1529 | the route of a child adds the port number in the byte of its depth |
| `Topology.ReachableIsPrefix` | drivers/thunderbolt/switch.c:833-838 | the masked comparison of routes decides exactly whether one router is above another |
| `Topology.ByteAtIsHop` | drivers/thunderbolt/tb.h:850-858 | the byte of a route at a depth is the port taken there |
| `Topology.RemoteSymmetric` | drivers/thunderbolt/switch.c:840-892 | in a tree every link leads back |
| `Topology.CrossRouter` | drivers/thunderbolt/switch.c:855-892 | from the ingress port of each router of the path the next port is its egress port |
| `Topology.CrossLink` | drivers/thunderbolt/switch.c:855-892 | from an egress port the next port is the ingress port of the next router |
| `Topology.HopsChained` | drivers/thunderbolt/switch.c:855-892 | the hops of the tree path are chained by the next-port function from source to destination |
| `Topology.WalkPorts` | drivers/thunderbolt/tb.h:1407-1418 | the port walk ends at the destination, visits exactly the ports of the tree path and uses at most TB_PATH_MAX_HOPS hops |
| `Topology.WalkVisits` | drivers/thunderbolt/switch.c:855-892 | each router of the path is visited once, with one ingress and one egress port, linked to the next |
| `Topology.HopsReversed` | drivers/thunderbolt/switch.c:855-892 | the walk in the other direction is the reverse, with the ports of each hop exchanged |
| `HopIds.Domain.AllocHopId` | drivers/thunderbolt/switch.c:758-783 | takes the lowest free HopID of the range, which is at least 8 except on a host interface port, or fails exactly when all are taken |
| `HopIds.Domain.TakeHopId` | drivers/thunderbolt/path.c:214-226 | takes one given HopID exactly when it is free and in range |
| `HopIds.Domain.FreePath` | drivers/thunderbolt/path.c:396-415 | releases exactly the HopIDs of the path |
| `HopIds.DescribedLinked` | drivers/thunderbolt/path.c:162-187 | consecutive hops read from config space are linked through the ports' remotes |
| `HopIds.EndIsLast` | drivers/thunderbolt/path.c:67-97 | a complete path ends with the last hop that config space describes |
| `HopIds.Domain.FindDstPort` | drivers/thunderbolt/path.c:67-97 | finds where a complete path under a source HopID ends, with the destination HopID asked for |
| `HopIds.Domain.FindSrcHopId` | drivers/thunderbolt/path.c:99-112 | finds the lowest source HopID whose path ends at the destination, or none when there is none |
| `HopIds.Domain.CountHops` | drivers/thunderbolt/path.c:162-187 | the first pass counts the hops config space describes, up to the bound |
| `HopIds.Domain.Collect` | drivers/thunderbolt/path.c:205-256 | the second pass returns the hops it reads, holding exactly their HopIDs, or gives everything back; undefined exactly when a link is missing before the last hop |
| `HopIds.Domain.Discover` | drivers/thunderbolt/path.c:134-256 | a failed discovery leaves every HopID set as it was; a successful one returns the linked hops it reads, which are those described if the tables did not change between the passes, ends at the destination if it searched for it, and holds exactly their HopIDs |
| `HopIds.Domain.DiscoverAndFree` | drivers/thunderbolt/path.c:134-415 | discovery followed by free restores the HopIDs, whatever happens |
| `HopIds.Domain.AllocAlong` | drivers/thunderbolt/path.c:316-378 | the allocation loop joins the hops by HopID, all but the last outside the reserved range 0 to 7, or reports exactly what it leaves allocated |
| `HopIds.Domain.AllocPath` | drivers/thunderbolt/path.c:276-388 | a successful allocation runs over the tree path in at most TB_PATH_MAX_HOPS hops, each outgoing HopID is the next incoming one and outside the reserved range, the ends are those asked for; a failed one loses nothing if and only if the source HopID was unavailable |
| `HopIds.Domain.AllocAndFree` | drivers/thunderbolt/path.c:276-415 | allocation followed by free restores the HopIDs, except those a failed allocation loses |
| `HopIds.FailedAllocationLoses` | drivers/thunderbolt/path.c:379-388 | a concrete allocation that fails and keeps a HopID |
| `PathActivation.NfcAfter` | drivers/thunderbolt/switch.c:568-596 | within ten bits the credit field changes by exactly the credits and the rest of the register does not; taking more than there is leaves zero |
| `PathActivation.TbPath.AddNfcCredits` | drivers/thunderbolt/switch.c:568-596 | changes the cached credits of one port only, and not at all on unplugged or USB4 protocol ports |
| `PathActivation.TbPath.DeallocateNfc` | drivers/thunderbolt/path.c:417-428 | returns every port from the given hop on to its base credits |
| `PathActivation.TbPath.DeactivateHop` | drivers/thunderbolt/path.c:430-488 | success means the entry is disabled and drained, with its route kept and its flow control cleared if asked for; an entry already drained stays so; it fails only if an access failed or packets stayed |
| `PathActivation.TbPath.DeactivateHops` | drivers/thunderbolt/path.c:503-521 | every hop from the first is tried in order, whatever happened before; the result is the first failure that is not -ENODEV, or 0; a hop whose attempt succeeded is drained, one that returned -ENODEV is gone; earlier hops are untouched |
| `PathActivation.TbPath.Rollback` | drivers/thunderbolt/path.c:523-531 | tries every written hop; ends inactive with them drained and the credits returned if no attempt failed, or with a failed teardown that keeps them |
| `PathActivation.TbPath.Activate` | drivers/thunderbolt/path.c:579-705 | active if and only if it succeeds, and then every entry was read back enabled with the path's weight; where routers take writes whole, each entry holds its own hop's out port and next HopID, and the flow control of its place at the source, inside or at the destination; it fails only if an access failed, a write did not take effect or packets stayed; a failure wrote only a suffix of the hops and leaves it drained, or the path in failed teardown |
| `PathActivation.TbPath.Deactivate` | drivers/thunderbolt/path.c:542-568 | tries every hop; success leaves every hop drained or gone and the path inactive; failure, which takes a failed access or packets that stay, keeps ownership; no route is rewritten |
| `PathActivation.TbPath.Drive` | drivers/thunderbolt/path.c:417-705 | across any sequence of activations, deactivations and retries each port's credits are its base plus the path's exactly while the path is not inactive |
| `PathActivation.TbPath.constructor` | drivers/thunderbolt/path.c:276-388 | a new path is inactive and owns no credits |
| `PathLife.ProgrammedDescribed` | drivers/thunderbolt/path.c:162-256 | if every entry of a linked route is enabled and leads where its hop says, the hop tables describe exactly that route, from any of its hops on |
| `PathLife.AllocatedRoutes` | drivers/thunderbolt/path.c:316-388 | the hops of an allocated path form such a route, each with an entry of its own |
| `PathLife.DiscoverActive` | drivers/thunderbolt/path.c:134-256 | discovery of an active path returns it, hop by hop |
| `PathLife.TakeDown` | drivers/thunderbolt/path.c:542-568 | after a successful deactivation discovery no longer finds the path unless its first router is gone |
| `PathLife.Live` | drivers/thunderbolt/path.c:134-705 | allocate, activate, discover, deactivate, free: discovery returns the path allocated, all HopIDs come back once it is inactive, and both activation and deactivation succeed if nothing went wrong in the routers |
| `CtlRequest.AtMostOneAction` | drivers/thunderbolt/ctl.h:146-194 | over any inputs a request asks to be completed or failed at most once, and only if a peer was awaited |
| `CtlRequest.TerminalAbsorbing` | drivers/thunderbolt/ctl.h:125-322 | every terminal transmit, local and peer state is final under all further inputs |
| `CtlRequest.FirstEventDecides` | drivers/thunderbolt/ctl.h:125-322 | the first event that settles a part of the state decides it for good: accepted, failed or timed out locally; matched, timed out or canceled at the peer; consumed or canceled in transmission |
| `CtlRequest.OthersUntouched` | drivers/thunderbolt/ctl.h:146-194 | an event changes no part of the state it does not speak of, and only a matched peer completes |
| `CtlRequest.SequencesDiffer` | drivers/thunderbolt/ctl.h:409-414 | the sequence numbers of the attempts of one access differ, even across counter wrap |
| `CtlRequest.LateReplyNeverMatches` | drivers/thunderbolt/ctl.c:1475-1500 | a reply that is not an error and answers one attempt matches another if and only if they are the same attempt |
| `CtlRequest.ReplyIdentifies` | drivers/thunderbolt/ctl.c:1475-1500 | a read or write reply matches exactly the request with its kind, route, size and address |
| `CtlRequest.OtherRouterNeverMatches` | drivers/thunderbolt/ctl.c:1475-1500 | nothing from another router matches except an error |
| `CtlProofs.StepInv` | drivers/thunderbolt/ctl.c:821-1170 | every step of every thread keeps the channel invariant |
| `CtlProofs.OneSlotOwner` | drivers/thunderbolt/ctl.c:1018-1046 | in every interleaving at most one queued request owns the command slot |
| `CtlProofs.OneLocalWaiter` | drivers/thunderbolt/ctl.h:196-219 | hence at most one queued request waits for a local completion |
| `CtlProofs.QueueIsActive` | drivers/thunderbolt/ctl.c:233-269 | a request is on the queue, once, exactly while its ACTIVE flag is set |
| `CtlProofs.WorkCountExact` | drivers/thunderbolt/ctl.c:156-179 | in every run the work count is the number of pending and running works, slot holders and waiters, and async holders |
| `CtlProofs.FreeIsSafe` | drivers/thunderbolt/ctl.c:1291-1304 | the channel is freed only when no work is pending or running, nobody holds or awaits the slot and no async holder is left |
| `CtlProofs.StopShrinksQueue` | drivers/thunderbolt/ctl.c:1348-1385 | after a stop the queue only shrinks until a restart |
| `CtlProofs.StopLeavesNoWaiter` | drivers/thunderbolt/ctl.c:1364-1382 | after a stop no queued request waits for a reply or a local completion, and each one's completion is scheduled, running or done |
| `CtlProofs.CircuitStep` | drivers/thunderbolt/ctl.c:752-760 | a step closes the open circuit if and only if it matches a reply or restarts the channel |
| `CtlProofs.CircuitStaysOpen` | drivers/thunderbolt/ctl.h:485-519 | in teardown a counted timeout stands until a reply is matched or the channel is restarted, whatever unmatched replies arrive |
| `CtlProofs.TeardownAdmitsNothing` | drivers/thunderbolt/ctl.c:233-252 | until then no request joins the queue |
| `CtlProofs.AdmissionExact` | drivers/thunderbolt/ctl.c:233-252 | a ready request joins the queue exactly when the channel runs and no timeout was counted in teardown, and fails otherwise |
| `CtlProofs.TeardownEntered` | drivers/thunderbolt/ctl.c:1216-1220 | entering teardown changes admission and nothing else |
| `CtlProofs.TeardownCloses` | drivers/thunderbolt/ctl.c:1216-1220 | from the moment a channel with a counted timeout enters teardown its queue only shrinks, until a reply is matched or it is started again |
| `CtlProofs.ReplySchedules` | drivers/thunderbolt/ctl.c:723-806 | a matched last reply schedules the completion work and clears the run of timeouts |
| `CtlProofs.WorkWakes` | drivers/thunderbolt/ctl.c:831-846 | the work wakes the waiter exactly if the request was not canceled or was swept by a stop |
| `CtlSteps.TransmitExact` | drivers/thunderbolt/ctl.c:874-892 | a transmitted request waits, and is completed at once if it expects no reply; one that could not be sent leaves the queue and fails |
| `CtlSteps.TimedOutExact` | drivers/thunderbolt/ctl.c:1051-1128 | a wait that runs out is counted and cancels the request; a held one goes on to its local wait |
| `CtlSteps.FoundExact` | drivers/thunderbolt/ctl.c:277-298 | a reply is held against queued requests only, one at a time, while the rings run |
| `CtlSteps.LocalExact` | drivers/thunderbolt/ctl.c:301-325 | a local completion settles the waiting request as accepted or failed, as it says |
| `CtlSteps.WorkEndsExact` | drivers/thunderbolt/ctl.c:831-846 | the work takes its request off the queue unless the submitter holds it, and drops its count |
| `CtlDriver.RemoveAt` | drivers/thunderbolt/ctl.c:264-265 | unlinking one entry of a list without duplicates removes that request and no other |
| `CtlDriver.TbCtl.constructor` | drivers/thunderbolt/ctl.c:1237-1280 | a new channel is the engine's initial state, which satisfies the invariant |
| `CtlDriver.TbCtl.ScheduleWork` | drivers/thunderbolt/ctl.c:821-829 | the count moves exactly when the work was not pending yet |
| `CtlDriver.TbCtl.EnqueueRequest` | drivers/thunderbolt/ctl.c:233-252 | admits at the tail, or refuses with -ESHUTDOWN while running and -ENOTCONN otherwise |
| `CtlDriver.TbCtl.DequeueRequest` | drivers/thunderbolt/ctl.c:254-269 | unlinks an active request and leaves the rest in order |
| `CtlDriver.TbCtl.FindRequest` | drivers/thunderbolt/ctl.c:277-298 | finds the first queued request that accepts the match, or shows there is none |
| `CtlDriver.TbCtl.FindIntermediate` | drivers/thunderbolt/ctl.c:301-325 | the request found for an unsequenced local completion is the only one waiting for it |
| `CtlDriver.TbCtl.Transmit` | drivers/thunderbolt/ctl.c:874-892 | waits for the reply, completes at once without one, or backs the request out |
| `CtlDriver.TbCtl.WaitRanOut` | drivers/thunderbolt/ctl.c:1051-1128 | counts the timeout; cancels, or leaves a held request to its local wait |
| `CtlDriver.TbCtl.FinishWork` | drivers/thunderbolt/ctl.c:831-846 | the work dequeues unless the request is held, and drops its count last |
| `CtlDriver.TbCtl.SettleLocal` | drivers/thunderbolt/ctl.c:1131-1156 | the held request settles its local state and leaves the queue |
| `CtlDriver.TbCtl.Reply` | drivers/thunderbolt/ctl.c:723-806 | a matched reply ends the run of timeouts and completes the request once |
| `CtlDriver.TbCtl.SweepQueue` | drivers/thunderbolt/ctl.c:1364-1382 | the loop over the queue equals the engine's sweep |
| `CtlDriver.TbCtl.Drive` | drivers/thunderbolt/ctl.c:156-1385 | any interleaving of the channel's threads is a run of the engine and keeps its invariant |
| `CtlAccess.Retry` | drivers/thunderbolt/ctl.c:1570-1622 | on a live channel where teardown may begin at any time and other threads go on: all attempts but the last were met with silence, each of them counted; the result is that of the last attempt, with its own reply's error unless a stop swept its request, its own sending error, or the channel's reason for refusing it; unless a reply is matched, no attempt but the first is transmitted in teardown; so in teardown an access costs at most one timed-out transmission and is then refused, and none if a timeout is on the count already |
| `CtlAccess.TryOnce` | drivers/thunderbolt/ctl.c:1006-1170 | one attempt meets the channel as other threads left it: refused with the channel's reason or its sending error, answered with its own reply's result unless a stop swept it while it waited, or met with silence that is counted |
| `CtlAccess.EndWait` | drivers/thunderbolt/ctl.c:1048-1128 | the wait ends with the reply's result if the request is done, with -ESHUTDOWN if a stop swept it, and in silence otherwise |
| `CtlAccess.RunKeepsStopped` | drivers/thunderbolt/ctl.c:1364-1382 | only the sweep of a stop marks a request as stopped |
| `CtlAccess.RunKeepsPlace` | drivers/thunderbolt/ctl.c:649-846 | receive callbacks, completion works, stops and other submitters never move the submitter of a request |
| `RingOwnership.Granted` | drivers/thunderbolt/nhi.c:1250-1320 | a request for a HopID gets that one or an error; a request for any gets the lowest vacant one from the first usable, and -EINVAL exactly when all are held; -EBUSY only for a held slot that was asked for |
| `RingOwnership.QuarantinedKeepsHop` | drivers/thunderbolt/nhi.c:1250-1809 | whatever is allocated, freed or quarantined, a quarantined ring keeps its HopID until removal if and only if its leaf does not free it |
| `RingOwnership.RunAccounted` | drivers/thunderbolt/nhi.c:1250-1809 | in every run each ring ever allocated is in one table slot, or freed, or retained: once |
| `RingOwnership.RemovedAccounted` | drivers/thunderbolt/domain.c:700-765 | domain removal keeps that account |
| `RingOwnership.RemovalDecides` | drivers/thunderbolt/domain.c:724-748 | after removal no quarantined ring is in a table; its memory is freed if and only if the reset was proven and retained otherwise; other rings stay |
| `RingOwnership.FreedIsGone` | drivers/thunderbolt/nhi.c:1770-1809 | memory is freed at most once and never under a ring still in a table |
| `RingRemoval.Reset` | drivers/thunderbolt/nhi.c:2218-2252 | a forced reset reports success exactly when the reset bit was read clear with the device present at every read so far |
| `RingRemoval.Nhi.constructor` | drivers/thunderbolt/nhi.c:2423-2430 | empty tables account for every ring |
| `RingRemoval.Nhi.AllocHop` | drivers/thunderbolt/nhi.c:1250-1320 | for a HopID asked for: that one if vacant, -EBUSY if held, -EINVAL if out of range or reserved; for any: the lowest vacant one from the first usable, -EINVAL exactly when all are held; the slot then holds the new ring and no other slot changes |
| `RingRemoval.Nhi.FreeRing` | drivers/thunderbolt/nhi.c:1770-1809 | empties the slot, changes no other, and frees the memory once |
| `RingRemoval.Nhi.QuarantineRing` | drivers/thunderbolt/nhi.c:1624-1655 | marks the ring and leaves it in its slot |
| `RingRemoval.Nhi.HasQuarantined` | drivers/thunderbolt/nhi.c:1659-1675 | true exactly when some table holds a quarantined ring |
| `RingRemoval.Nhi.Detach` | drivers/thunderbolt/nhi.c:1714-1727 | takes a quarantined ring out of its slot and nothing else |
| `RingRemoval.Nhi.Finalize` | drivers/thunderbolt/nhi.c:1684-1711 | frees all quarantined rings, in table order, if proven and nothing otherwise |
| `RingRemoval.Nhi.Abandon` | drivers/thunderbolt/nhi.c:1746-1758 | detaches all quarantined rings and retains their memory |
| `RingRemoval.Nhi.Remove` | drivers/thunderbolt/domain.c:700-765 | asks for a reset exactly when ownership is unresolved, and ends in the state the proof of that reset allows |
| `ProbeRecovery.RunInv` | drivers/thunderbolt/nhi.c:2399-2530 | external probes always cover what was sent and queued, and what the probe and the work under way may still send and queue |
| `ProbeRecovery.RecoveryIsBounded` | drivers/thunderbolt/nhi.c:169-227 | over any interleaving of the record's critical sections and any failures, power-cycle requests and automatic reprobes never exceed external probes |
| `ProbeRecovery.RetryingIsQuiet` | drivers/thunderbolt/nhi_regs.h:411-456 | a probe that reads RETRYING sends no request and queues no reprobe |
| `ProbeRecovery.NoReprobeUnacknowledged` | drivers/thunderbolt/icm.c:3180-3265 | without an acknowledged power cycle no run queues a reprobe or leaves a record |
| `ProbeRecovery.AcknowledgedFailureReprobes` | drivers/thunderbolt/nhi.c:2480-2524 | with one, the timed-out probe of a supported device leaves a pending record and queues its reprobe |
| `ProbeRecovery.SuccessForgets` | drivers/thunderbolt/nhi.c:2525-2530 | after a successful probe the next one starts from an idle record |
| `ProbeRecovery.ReprobeMayAskAgain` | drivers/thunderbolt/icm.c:3258-3265 | a run in which the automatic reprobe asks a second time |
| `ProbeRecovery.OrderIsNeeded` | drivers/thunderbolt/nhi.c:2703-2704 | on an unordered workqueue the bound fails: a run with two external probes and three reprobes |
| `ProbeDriver.NhiRecovery.constructor` | drivers/thunderbolt/nhi.c:86-102 | a device starts without a record |
| `ProbeDriver.NhiRecovery.Get` | drivers/thunderbolt/nhi.c:87-102 | returns the record's state, idle without one |
| `ProbeDriver.NhiRecovery.Set` | drivers/thunderbolt/nhi.c:113-140 | fails exactly when a new record cannot be allocated; other devices' records are untouched |
| `ProbeDriver.NhiRecovery.Clear` | drivers/thunderbolt/nhi.c:142-155 | removes the device's record and no other |
| `ProbeDriver.NhiRecovery.Release` | drivers/thunderbolt/nhi.c:197-227 | queues one reprobe for a pending context, or marks the record exhausted |
| `ProbeDriver.NhiRecovery.BeginProbe` | drivers/thunderbolt/nhi.c:2400-2408 | the context starts from the record |
| `ProbeDriver.NhiRecovery.StartupTimeout` | drivers/thunderbolt/icm.c:3180-3265 | sends a request only from an idle record; dispatched exactly when acknowledged, or consumed and timed out |
| `ProbeDriver.NhiRecovery.FailProbe` | drivers/thunderbolt/nhi.c:2480-2524 | the failure path leaves the record and the context the protocol says, including when the reservation fails |
| `ProbeDriver.NhiRecovery.SucceedProbe` | drivers/thunderbolt/nhi.c:2525-2530 | a successful probe clears the record |
| `ProbeDriver.NhiRecovery.WorkGets` | drivers/thunderbolt/nhi.c:177-180 | the work goes on only from a pending record |
| `ProbeDriver.NhiRecovery.WorkStores` | drivers/thunderbolt/nhi.c:181-186 | the work sets the record in a section of its own, whatever it has become, and then attaches |
| `ProbeDriver.NhiRecovery.Drive` | drivers/thunderbolt/nhi.c:86-227 | any sequence of probes, works and failures is a run of the protocol, so its bounds hold of the driver |
| `NotificationGate.RunInv` | drivers/thunderbolt/icm.c:2693-2776 | in every interleaving handled, running and pending notifications are the admitted ones in order, and every event is accounted for |
| `NotificationGate.HandledInOrder` | drivers/thunderbolt/icm.c:2693-2737 | notifications are handled once, in the order of admission |
| `NotificationGate.OpenGateLosesNothing` | drivers/thunderbolt/icm.c:2741-2776 | until the stop the only events lost are those there was no room to copy |
| `NotificationGate.DecisionExact` | drivers/thunderbolt/icm.c:2757-2776 | a decided event is queued if the gate is open and discarded otherwise |
| `NotificationGate.ActedWhileRootExists` | drivers/thunderbolt/icm.c:2693-2737 | while the root router exists every handled notification is acted on |
| `NotificationGate.RootGoneActsNoMore` | drivers/thunderbolt/icm.c:2693-2737 | once it is gone none is |
| `NotificationGate.WorkTakesOldest` | drivers/thunderbolt/icm.c:2693-2737 | the oldest pending notification is the next one handled |
| `NotificationGate.DrainEnds` | drivers/thunderbolt/icm.c:3642-3648 | the drain ends exactly when nothing is pending or running |
| `NotificationGate.ClosedStaysClosed` | drivers/thunderbolt/icm.c:3610-3626 | nothing is admitted after the gate is closed, whatever ring 0 still delivers |
| `NotificationGate.DrainIsFinal` | drivers/thunderbolt/icm.c:3642-3648 | after the drain nothing is pending or running, and nothing starts or acts again |
| `NotificationGate.Icm.Drive` | drivers/thunderbolt/icm.c:2693-2776 | any interleaving is a run of the gate's protocol |
| `Negotiation.RunInv` | drivers/thunderbolt/thunderbolt_negotiation.h:492-544 | what the enumerator caches is a published snapshot and what it has bound is that snapshot's set |
| `Negotiation.Converges` | drivers/thunderbolt/thunderbolt_negotiation.h:521-544 | without generation wrap, reading any published snapshot leaves exactly its services bound, even when the gate drops the read |
| `Negotiation.ConvergesExactly` | drivers/thunderbolt/thunderbolt_negotiation.h:91-95 | with wraps, the read is dropped exactly a whole number of wraps away, and binds the set if and only if it is not dropped or the sets are equal |
| `Negotiation.ReconnectReopens` | drivers/thunderbolt/thunderbolt_negotiation.h:514-544 | after a reconnect the next read is let in exactly when its generation is nonzero or nothing was read before |
| `Negotiation.RestartExactly` | drivers/thunderbolt/thunderbolt_negotiation.h:502-544 | exactly when the new set of a restarted peer gets bound |
| `Negotiation.RestartStrands` | drivers/thunderbolt/thunderbolt_negotiation.h:502-544 | a concrete restart that strands the new set |
| `Negotiation.CallsAlternate` | drivers/thunderbolt/thunderbolt_negotiation.h:530-544 | over every run the bind and unbind calls for each service strictly alternate, a bind first |
| `Negotiation.XNeg.constructor` | drivers/thunderbolt/thunderbolt_negotiation.h:502-511 | a connected end with nothing read and the first generation on offer |
| `Negotiation.XNeg.Advertise` | drivers/thunderbolt/thunderbolt_negotiation.h:521-526 | publishes a new snapshot, under the next generation, exactly when the set changes |
| `Negotiation.XNeg.Enumerate` | drivers/thunderbolt/thunderbolt_negotiation.h:530-544 | the added and removed masks take the bound set exactly to the set read |
| `Negotiation.Session` | drivers/thunderbolt/thunderbolt_negotiation.h:468-491 | a session of two drivers whose last act reads the newest snapshot ends with the set last offered bound |
| `Nvm.ChunkStep` | drivers/thunderbolt/nvm.c:560-582 | after each block the bytes moved and the blocks used stay in step with the block count of the transfer |
| `Nvm.Flash.ReadOne` | drivers/thunderbolt/nvm.c:555-582 | one block delivers the next bytes of an unaligned read to the buffer |
| `Nvm.Flash.ReadData` | drivers/thunderbolt/nvm.c:550-588 | success returns exactly the bytes asked for, with one good call per block and at most the retry budget of failed ones; it succeeds if the dwords are on the flash, no more calls fail than the budget and the device stays; a failure is that of the last call made |
| `Nvm.Flash.WriteOne` | drivers/thunderbolt/nvm.c:602-625 | one trip stays inside both buffers exactly at dword-aligned addresses; then it writes whole dwords and touches nothing outside them, even if it fails |
| `Nvm.Flash.WriteData` | drivers/thunderbolt/nvm.c:597-629 | defined exactly at dword-aligned addresses; success puts the whole dwords of the data on the flash and changes no other byte; it succeeds if they fit and only timeouts, no more than the budget, occur; a failure is that of the last call made, a timeout as -EIO |
| `Nvm.Flash.WriteThenRead` | drivers/thunderbolt/nvm.c:550-629 | reading back gives the data if and only if its tail short of a dword was on the flash already; other bytes are unchanged |
| `Nvm.WriteTripInside` | drivers/thunderbolt/nvm.c:607-611 | for every address and size the copy of a trip stays inside the caller's buffer and the block if and only if the address is dword-aligned |
| `Nvm.ShortUnaligned` | drivers/thunderbolt/nvm.c:607-624 | a short unaligned write reads past the caller's buffer, and the remaining size wraps |
| `Nvm.LongUnaligned` | drivers/thunderbolt/nvm.c:607-611 | a long unaligned write copies past the end of the block |

## Left out

- Register access, MSI-X, power management, sysfs, debugfs, ACPI, retimers, lane margining, quirks and CLx: one-branch code or input and output.
- `xdomain.c`, `tunnel.c`, `tb.c`, `usb4.c` and the frame and verbs engine: calls into them are abstract.
- Capability lists, DROM reading, checksums, the challenge-response code and the boot ACL: they would only add easy members.
- Allocation failures in the property codec and in path allocation, reference counts of requests, and the `xdomain_tx_occupied` flag are not modelled.
- PropertyParse.RunParseBlock: takes a recursion bound, since the parser does not bound its recursion on arbitrary blocks; outcomes beyond the bound or outside the block are `Undefined`, and a definite outcome does not depend on the bound.
- PropertyFormat.FormatBlock: the block is shorter than 2^32 dwords and the tree has valid keys, lengths below 2^16 and padded text, and the error code of a tree refused for its end alone is not specified; nothing is said of the reserved byte of an entry or of the length and value of an entry of unknown type, which the formatter leaves as they were.
- RingDriver.TbRing.StartRing: a running ring is warned about and left alone; register writes other than the index are not modelled.
- HopIds.Domain.AllocPath: routers have one link to their parent or a bonded pair, so no lane is selected.
- Topology.WalkPorts: the same restriction to single or bonded links.
- HopIds.Domain.Discover: says nothing of what happens after a missing link is followed.
- PathLife.Live: the routers take an enabling write whole or not at all, and no table changes while the path is discovered; whether the reads of discovery succeed is left open.
- PathActivation.TbPath.Drive: credits stay within ten bits and a port is unplugged throughout or not at all.
- CtlDriver.TbCtl.Drive: requests are records in a table rather than linked objects, the sweep of a stop and the end of a local wait are single steps, and transmit completions are not followed.
- CtlAccess.Retry: the requests exist beforehand, other threads do not free the channel under the access, and the check of the reply's address after the loop is not modelled.
- RingRemoval.Nhi.Remove: covers removal from the sampling of quarantined rings on; what services do before is a run of allocations, frees and quarantines.
- ProbeDriver.NhiRecovery.Drive: one device's probes; other devices' records are shown untouched, and module unload, which drops all records, is not modelled.
- NotificationGate.Icm.Drive: the handlers behind the notification codes are abstract.
- Negotiation.XNeg.Enumerate: masks are sets of bits, and the handshake fields are not modelled.
- Nvm.Flash.WriteData: says nothing of what an undefined write does to memory; the flash and the data are smaller than 2^32 bytes, the width the loop's length is cut to.
- Nvm.Flash.ReadData: of an empty read only the result is stated.
- Real time: sleeps and deadlines are nondeterministic steps.
