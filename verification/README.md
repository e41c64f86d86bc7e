# Verified model of the Kad core

A Dafny model of the decision-making core of an eMule/Kad agent, with proofs of what it promises. Nothing here
performs I/O: sockets, clocks and hash-map iteration order become parameters or nondeterminism.

| file | models |
|---|---|
| `NodeId.dfy` | 128-bit identifiers stored as byte-swapped chunks, XOR distance, order |
| `RoutingBin.dfy`, `RoutingZone.dfy`, `RoutingTable.dfy` | the routing trie and its indexes, as values |
| `RoutingCapacity.dfy`, `RoutingFull.dfy` | how large the trie can get, and contacts that fill it |
| `RoutingNearest.dfy` | nearest-n queries with early stopping |
| `RoutingHeap.dfy` | the same trie and table as heap objects updated in place |
| `Traversal*.dfy` | the lookup walk against an arbitrary network |
| `Trackers.dfy` | inbound rate windows and the outbound request log |
| `Tags.dfy`, `SearchExpr.dfy`, `Pager.dfy` | the tag codec, search expressions, splitting of search responses |
| `KadStore.dfy`, `KadSlots.dfy` | the local publish cache, and the order in which searches find its entries |
| `KadReplies.dfy` | the replies made from it |
| `SnoopQueue.dfy` | the scheduler of harvested requests |
| `Firewall.dfy` | the firewall-check state machine |

Most components come twice: as functions on values, about which the properties are proved for all inputs and all
runs, and as a class or loop with the source's own fields and variables, proved to compute those functions. The
classes `RoutingTable`, `PacketTracker`, `OutboundRequestTracker`, `KadLocalStore`, `SnoopQueue` and
`KadFirewallState` carry a ghost log of the calls made so far, and their `Valid()` says that the fields are what the
run over that log produces, so every theorem about runs speaks about every reachable object. `RoutingBin` and
`RoutingZone`, which only live inside a table, are tied to their values call by call. Run theorems that depend on time
ask for non-decreasing times and nothing else.

Some results are sharper than, or differ from, what the source's comments suggest:

- The size bound `max_size` only gates splitting. Its default of 12,000 never takes effect, because the trie cannot
  exceed 621 leaves and 6,190 contacts; `DepthLimit` cannot occur either. Both bounds are attained.
- `helpers_failed` is documented as the helpers that reported an error or a wrong port. The code also counts those
  whose request could not be sent, and forgets what the helper that finally succeeded had reported. In a round
  without a success the two agree exactly when every helper that could not be asked was heard from all the same.
- `helpers_requested` is documented as the helpers that could be asked. The code counts those whose last event is not
  a failed request: the same exactly when no helper that could not be asked has had the last word.
- Source and notes searches walk the entries from the last slot back, and a republish keeps its old slot. So the
  answers come in order of slot creation; they are newest first exactly when no publish refreshed a wanted entry in
  front of an older wanted one that is still there.
- In `finish_udp_check` the two branches that look for a success cannot be reached.
- The test whether a publish replaces an entry never changes the reported load.
- A file size under a one-byte long tag name is invisible before the wire and visible after it. Sizes and matches
  survive the wire exactly when the tags that decide them are well named or repeat what is read already.
- A search reply restates a size of 32 bits in a way that a high half stored beside it completes: such a reply
  states another size, exactly when a high half other than zero was published with a whole size below 2^32.
- Source searches count their offset before they test sizes, so pages can repeat sources; each comes exactly once
  if and only if no mismatch stands before a match of a later page.
- A source reply copies published address tags beside the observed address. It names one address exactly when none
  was published, and the observed one first exactly when the first address published before the source type, if
  there is one, is that very address.
- Restoring saved requests is independent of their order exactly as long as no two entries that are not skipped
  bring different shapes for one key that is not queued yet.
- Search offsets have 15 bits, so with page size L the entries from index 2^15 - 1 + L on cannot be listed.

## Model

| member | source | states |
|---|---|---|
| NodeIds.DistanceBit | crates/overlord-kad-proto/src/node_id.rs:69-75 | XOR of the stored bytes is XOR of every identifier bit, although chunks are byte-swapped |
| NodeIds.ComputeDistance | crates/overlord-kad-proto/src/node_id.rs:69-75 | the distance loop yields the identifier whose every bit is the XOR of the inputs' bits |
| NodeIds.DistanceSymmetric | crates/overlord-kad-proto/src/node_id.rs:69-75 | distance does not depend on which identifier it is asked of |
| NodeIds.DistInjective | crates/overlord-kad-proto/src/node_id.rs:69-75 | no two identifiers are equally far from one target |
| NodeIds.DistanceExp | crates/overlord-kad-proto/src/node_id.rs:80-89 | `None` exactly for equal identifiers, else the length of the common bit prefix |
| NodeIds.BitIsByteBit | crates/overlord-kad-proto/src/node_id.rs:93-100 | which bit of which stored byte bit position `pos` is |
| NodeIds.CmpIsNumeric | crates/overlord-kad-proto/src/node_id.rs:136-146 | comparing chunk by chunk is comparing the 128-bit numbers |
| NodeIds.Compare | crates/overlord-kad-proto/src/node_id.rs:136-146 | the comparison loop with early return gives that order |
| NodeIds.ValueInjective | crates/overlord-kad-proto/src/node_id.rs:40-48 | the 128-bit number determines the sixteen bytes |
| NodeIds.SwapChunksInvolutive | crates/overlord-kad-proto/src/node_id.rs:24-65 | reading and writing the big-endian form are inverse |
| NodeIds.AgreeingSideIsNearer | crates/overlord-kad-proto/src/node_id.rs:69-146 | after a shared prefix, an identifier agreeing with the target at the next bit is strictly nearer than one that does not |
| NodeIds.IdsSharingPrefix | crates/overlord-kad-proto/src/node_id.rs:93-100 | at most 2^(128-d) identifiers share a d-bit prefix |
| Bins.TryAddSpec | crates/overlord-kad-routing/src/bin.rs:52-101 | every outcome keeps the bin invariant (at most K, unique IDs, two per non-LAN /24); success changes the ID-to-contact map by exactly the sighting, each error leaves the bin untouched and says why |
| Bins.TryAddAppends | crates/overlord-kad-routing/src/bin.rs:52-101 | a contact that would keep the bin valid at the back is accepted there |
| Bins.WithoutSpec | crates/overlord-kad-routing/src/bin.rs:104-110 | removal drops exactly that ID and keeps the invariant |
| Bins.RoutingBin.TryAddContact | crates/overlord-kad-routing/src/bin.rs:52-101 | in place: on success the touched contact is newest and all others keep their order |
| Bins.RoutingBin.Remove | crates/overlord-kad-routing/src/bin.rs:104-110 | in place: the slot is cut out and its contact returned |
| Bins.RoutingBin.Refresh | crates/overlord-kad-routing/src/bin.rs:130-136 | in place: moves a contact to the back, losing and changing none |
| Bins.RoutingBin.Drain | crates/overlord-kad-routing/src/bin.rs:144-146 | in place: hands over all contacts in order and leaves the bin empty |
| Zones.ChildIndexIsPrefixValue | crates/overlord-kad-routing/src/zone.rs:232-237 | a zone's index is always min(5, value of its prefix bits) |
| Zones.GetIsLookup | crates/overlord-kad-routing/src/zone.rs:153-161 | `get` finds exactly what the trie holds under that ID |
| Zones.CountIsIndexSize | crates/overlord-kad-routing/src/zone.rs:164-169 | `count` is the number of distinct IDs held |
| Zones.RemoveSpec | crates/overlord-kad-routing/src/zone.rs:138-150 | `remove` drops exactly that ID, returns its contact and keeps the trie valid |
| Zones.SplitSpec | crates/overlord-kad-routing/src/zone.rs:194-229 | splitting a valid leaf never fails; the children receive all contacts, each its own, in their old order |
| Zones.FullLeafIsShallow | crates/overlord-kad-routing/src/zone.rs:172-191 | a full leaf lies at depth 124 or less, so the depth limit is never what denies a split |
| Zones.AddToLeafSpec | crates/overlord-kad-routing/src/zone.rs:52-105 | adding to a leaf, through any number of splits, keeps the trie valid and ends |
| Zones.AddSpec | crates/overlord-kad-routing/src/zone.rs:52-105 | every `add` keeps the trie valid; success is exactly a sighting, an error changes no contact even when leaves have split, and `DepthLimit` never occurs |
| Zones.RefusalsAreDue | crates/overlord-kad-routing/src/zone.rs:52-105 | `add` refuses only when the leaf it ends in is full and the table size or the prefix rule forbids a split, or when its /24 is crowded |
| Zones.RefusalIff | crates/overlord-kad-routing/src/zone.rs:52-105 | the whole answer of `add` foretold from the leaf before the call: crowded /24, full leaf in a full table, or ten contacts sharing the path down to a zone that may not split; accepted otherwise |
| Capacity.LimitsBound | crates/overlord-kad-routing/src/zone.rs:172-191 | leaves and contacts under any zone stay within the limits its depth and index allow |
| Capacity.TrieIsBounded | crates/overlord-kad-routing/src/zone.rs:172-191 | no valid trie has more than 621 leaves or 6,190 contacts |
| FullTables.FillIs | crates/overlord-kad-routing/src/zone.rs:172-191 | under every prefix there are as many different identifiers as the contact limit of its zone says |
| FullTables.FullMeansSplit | crates/overlord-kad-routing/src/zone.rs:172-191 | a zone with as many contacts as its limit has split wherever it may |
| Nearest.WalkSpec | crates/overlord-kad-routing/src/zone.rs:111-135 | what the early-stopping walk appends to a given accumulator: distinct held contacts, enough of them, skipping only strictly farther ones |
| Nearest.EarlyStopIsSound | crates/overlord-kad-routing/src/zone.rs:111-135 | stopping at n gives, after sort and truncate, the same answer as the full scan |
| Nearest.GetClosestSpec | crates/overlord-kad-routing/src/table.rs:127-137 | `get_closest` is the n nearest held contacts, nearest first |
| Nearest.NearestIsUnique | crates/overlord-kad-routing/src/table.rs:127-137 | a nearest-n query has one answer |
| Nearest.SelectionSuffices | crates/overlord-kad-routing/src/table.rs:127-137 | sorting and truncating any selection that skips only farther contacts answers the query |
| Nearest.SortSpec | crates/overlord-kad-routing/src/table.rs:127-137 | the sort yields the contacts in strictly ascending distance, none lost |
| Nearest.RankIsSourceOrder | crates/overlord-kad-proto/src/node_id.rs:136-146 | the numeric ranking is the order in which distances are compared |
| Tables.NewTableOk | crates/overlord-kad-routing/src/table.rs:36-45 | a new table is valid and empty |
| Tables.IpCountDecides | crates/overlord-kad-routing/src/table.rs:48-124 | the counters answer the address and subnet questions exactly as a scan of the contacts would |
| Tables.AddContactSpec | crates/overlord-kad-routing/src/table.rs:48-124 | every `add_contact` keeps all indexes exact; the address and global subnet errors are returned exactly when the address is taken or the /24 full, and the contact map changes only on success |
| Tables.TrieRefusalsAreDue | crates/overlord-kad-routing/src/table.rs:48-124 | the same for every other refusal of `add_contact` |
| Tables.AddContactAnswer | crates/overlord-kad-routing/src/table.rs:48-124 | the whole answer of `add_contact` foretold from the contacts held and that leaf |
| Tables.RemoveContactSpec | crates/overlord-kad-routing/src/table.rs:140-165 | `remove` keeps all indexes exact and drops exactly that ID |
| Tables.RunSpec | crates/overlord-kad-routing/src/table.rs:48-165 | over every run: address, subnet and total counts equal those recomputed, IDs and addresses unique, at most ten per /24, and the contents are the replay of the accepted operations |
| Tables.ReachableTables | crates/overlord-kad-routing/src/table.rs:48-165 | no run, for any `max_size`, exceeds 621 leaves or 6,190 contacts, and a larger `max_size` never denies |
| FullTables.AllAccepted | crates/overlord-kad-routing/src/table.rs:48-124 | contacts with identifiers and private addresses of their own, no eleven of them under a zone that may not split, are all accepted, in any order |
| FullTables.BoundsAttained | crates/overlord-kad-routing/src/table.rs:48-124 | a run of 6,190 adds builds 6,190 contacts in 621 leaves, for every own identifier and every `max_size` that admits so many |
| Tables.DefaultSizeNeverBinds | crates/overlord-kad-routing/src/table.rs:11 | at the default 12,000 neither `MaxTableSize` nor `DepthLimit` can be reported |
| ZoneObjects.RoutingZone.NewLeaf | crates/overlord-kad-routing/src/zone.rs:38-44 | the heap zone starts as an empty leaf |
| ZoneObjects.RoutingZone.Add | crates/overlord-kad-routing/src/zone.rs:52-105 | the heap tree, rewritten in place, ends as the trie `add` specifies |
| ZoneObjects.RoutingZone.AddToChild | crates/overlord-kad-routing/src/zone.rs:52-105 | the branch case delegates to the child named by the bit |
| ZoneObjects.RoutingZone.SplitAndRetry | crates/overlord-kad-routing/src/zone.rs:52-105 | the full-leaf case: deny, or split and try again |
| ZoneObjects.RoutingZone.Split | crates/overlord-kad-routing/src/zone.rs:194-229 | in place: the leaf becomes a branch of two fresh leaves, or is left drained on failure |
| ZoneObjects.RoutingZone.NewHalves | crates/overlord-kad-routing/src/zone.rs:194-229 | the drained contacts are distributed over two fresh leaves |
| ZoneObjects.RoutingZone.PlaceOne | crates/overlord-kad-routing/src/zone.rs:194-229 | one contact goes to the leaf on its side and leaves the other alone |
| ZoneObjects.RefillBin | crates/overlord-kad-routing/src/zone.rs:194-229 | re-adding the drained contacts one by one; the first rejection decides |
| ZoneObjects.RoutingZone.Remove | crates/overlord-kad-routing/src/zone.rs:138-150 | in place: as the trie `remove` |
| ZoneObjects.RoutingZone.Get | crates/overlord-kad-routing/src/zone.rs:153-161 | as the trie lookup |
| ZoneObjects.RoutingZone.Count | crates/overlord-kad-routing/src/zone.rs:164-169 | as the trie count |
| ZoneObjects.RoutingZone.GetClosest | crates/overlord-kad-routing/src/zone.rs:111-135 | pushes into the shared result exactly what the trie walk does |
| TableObjects.RoutingTable.WithMaxSize | crates/overlord-kad-routing/src/table.rs:36-45 | the heap table starts empty with its size bound |
| TableObjects.RoutingTable.AddContact | crates/overlord-kad-routing/src/table.rs:48-124 | in place: tree and counters end as specified, with the outcome stated on the contact map |
| TableObjects.RoutingTable.Admit | crates/overlord-kad-routing/src/table.rs:48-124 | in place: the tests, the tree and the counters, in the order of the source |
| TableObjects.RoutingTable.Recount | crates/overlord-kad-routing/src/table.rs:89-123 | in place: counters after a new contact, or after one that changed its address |
| TableObjects.RoutingTable.Remove | crates/overlord-kad-routing/src/table.rs:140-165 | in place: drops the ID from tree and counters |
| TableObjects.RoutingTable.Evict | crates/overlord-kad-routing/src/table.rs:140-165 | in place: the tree and the counters |
| TableObjects.RoutingTable.CountIn | crates/overlord-kad-routing/src/table.rs:48-124 | both counters gain the contact's keys; LAN addresses have no subnet key |
| TableObjects.RoutingTable.CountOut | crates/overlord-kad-routing/src/table.rs:140-165 | both counters lose the contact's keys and drop empty ones |
| TableObjects.RoutingTable.GetClosest | crates/overlord-kad-routing/src/table.rs:127-137 | exactly the n held contacts nearest to the target, nearest first |
| TableObjects.RoutingTable.AllContacts | crates/overlord-kad-routing/src/table.rs:193-195 | every held contact, ordered by distance from our own ID |
| WalkProofs.StartOk | crates/overlord-kad-dht/src/traversal.rs:172-186 | the walk starts with every initial peer once, nearest first, nothing sent |
| WalkProofs.LaunchSpec | crates/overlord-kad-dht/src/traversal.rs:202-241 | a launch turns the nearest pending candidates in flight, up to the free slots |
| WalkProofs.LaunchKeeps | crates/overlord-kad-dht/src/traversal.rs:202-241 | launching keeps the invariant: at most ALPHA in flight, no ID queried twice |
| WalkProofs.AbsorbAllSpec | crates/overlord-kad-dht/src/traversal.rs:285-327 | new contacts are inserted in distance order, known ones ignored, `seen` stays the set of candidate IDs |
| WalkProofs.FinishKeeps | crates/overlord-kad-dht/src/traversal.rs:243-327 | however a task ends (answer, failure, other packet, panic), the invariant is kept |
| WalkProofs.RunKeeps | crates/overlord-kad-dht/src/traversal.rs:192-346 | over every run: candidates strictly sorted with distinct IDs, `seen` equals their IDs, at most ALPHA in flight, no ID queried twice |
| WalkProofs.QueriedBound | crates/overlord-kad-dht/src/traversal.rs:192-346 | finished plus live tasks are the queries sent, at most one per candidate |
| WalkProofs.WalkEnds | crates/overlord-kad-dht/src/traversal.rs:192-346 | the loop uses at most one iteration per candidate plus one, without the deadline |
| WalkResults.WalkStopsInPopulation | crates/overlord-kad-dht/src/traversal.rs:192-346 | if all IDs named come from a finite population, the walk stops, whatever the answers |
| WalkResults.RunForward | crates/overlord-kad-dht/src/traversal.rs:192-346 | along every run a candidate stays known, its state never goes back and a settled state is final |
| WalkResults.RunMoves | crates/overlord-kad-dht/src/traversal.rs:192-346 | along every run no candidate skips a state: each visited list differs from the one before by queries sent or a query settled, and by new candidates, which enter as pending |
| WalkResults.RunKeepsTasks | crates/overlord-kad-dht/src/traversal.rs:192-346 | unless a task panics, every in-flight candidate has a live task |
| WalkResults.OrphansIff | crates/overlord-kad-dht/src/traversal.rs:192-346 | over every run, each in-flight candidate has a live task exactly as long as no task panicked |
| WalkResults.NoTasksMeansSettled | crates/overlord-kad-dht/src/traversal.rs:243-259 | one iteration: if every in-flight candidate has a task and none is left after launching, every known candidate is settled |
| WalkResults.NoTasksAnswer | crates/overlord-kad-dht/src/traversal.rs:243-259 | after a run that ends for lack of tasks, every known candidate is settled exactly when no task panicked, and then the nearest that have not failed are returned |
| WalkResults.LookupConvergedIff | crates/overlord-kad-dht/src/traversal.rs:656-675 | converged exactly when K candidates responded and they are the K nearest of those not failed |
| WalkResults.ConvergedAnswer | crates/overlord-kad-dht/src/traversal.rs:329-355 | on convergence the returned list is the K nearest non-failed candidates known, in order; any nearer known candidate is returned or has failed |
| WalkResults.WindowDoneAnswer | crates/overlord-kad-dht/src/traversal.rs:334-355 | when the window is settled, as for every store and search, nothing is in flight, each of the nearest known candidates is returned or has failed, and the answer begins with those that responded, in order |
| WalkLoop.SieveSpec | crates/overlord-kad-dht/src/traversal.rs:677-718 | a filtered answer has distinct usable addresses other than the responder's, at most two per /24 counting the responder, and drops nothing it could keep |
| WalkLoop.SanitizeResContacts | crates/overlord-kad-dht/src/traversal.rs:677-718 | the filter loop; refused exactly when longer than asked for |
| WalkLoop.LaunchQueries | crates/overlord-kad-dht/src/traversal.rs:202-241 | the launch loop computes the launch |
| WalkLoop.AbsorbAnswer | crates/overlord-kad-dht/src/traversal.rs:285-327 | the insertion loop computes the absorption |
| WalkLoop.FinishTask | crates/overlord-kad-dht/src/traversal.rs:243-327 | one finished task updates the loop's variables as specified |
| WalkLoop.RunTraversal | crates/overlord-kad-dht/src/traversal.rs:145-355 | the whole loop: final state valid, answer as `ConvergedAnswer` on convergence, as `WindowDoneAnswer` on a settled window and as `NoTasksAnswer` when tasks run out, limited by `traversal_closest_limit` |
| PacketTrackers.PruneIsInvisible | crates/overlord-kad-net/src/tracker.rs:205-241 | leaving out every `prune` call of a run changes no decision |
| PacketTrackers.SpanBound | crates/overlord-kad-net/src/tracker.rs:205-241 | in any half-open span of one window length a key gets at most 2 x max packets allowed |
| PacketTrackers.PoliteNeverDropped | crates/overlord-kad-net/src/tracker.rs:205-230 | a packet is dropped only if its key sent its whole budget within the last window length |
| PacketTrackers.PacketTracker.constructor | crates/overlord-kad-net/src/tracker.rs:139-201 | starts with no counter and an empty run |
| PacketTrackers.PacketTracker.RecordAndCheckPacket | crates/overlord-kad-net/src/tracker.rs:205-230 | in place: the counter map and decision of the specification, with the limit that applied; with ordered times a drop means the key has just used up its budget |
| PacketTrackers.PacketTracker.PruneStale | crates/overlord-kad-net/src/tracker.rs:233-241 | in place: drops exactly the counters whose window began two window lengths ago or more |
| OutboundTrackers.RunMirrors | crates/overlord-kad-net/src/tracker.rs:276-329 | although pruning only looks at the back, the deque is always the unexpired part of the plain log |
| OutboundTrackers.ContainsIffLogged | crates/overlord-kad-net/src/tracker.rs:293-307 | `contains` is true exactly when a tracked, unconsumed request with that address and opcode is younger than the window |
| OutboundTrackers.ConsumedBounded | crates/overlord-kad-net/src/tracker.rs:276-307 | consuming matches never outnumber recorded requests |
| OutboundTrackers.OutboundRequestTracker.constructor | crates/overlord-kad-net/src/tracker.rs:268-273 | starts with an empty deque and an empty run |
| OutboundTrackers.OutboundRequestTracker.Prune | crates/overlord-kad-net/src/tracker.rs:320-329 | in place: pops expired entries from the back |
| OutboundTrackers.OutboundRequestTracker.RecordRequest | crates/overlord-kad-net/src/tracker.rs:276-286 | in place: tracks only the listed opcodes, newest first |
| OutboundTrackers.OutboundRequestTracker.ContainsRequest | crates/overlord-kad-net/src/tracker.rs:293-307 | in place: answers and, if asked, consumes the newest match; with ordered times the answer is whether the log holds a live one |
| OutboundTrackers.OutboundRequestTracker.Probe | crates/overlord-kad-net/src/tracker.rs:293-307 | in place: the prune and the search loop |
| OutboundTrackers.OutboundRequestTracker.FindAny | crates/overlord-kad-net/src/tracker.rs:311-318 | in place: the first opcode of the list found, each probe as `contains` |
| Tags.TagRoundTrip | crates/overlord-kad-proto/src/tag.rs:202-392 | decoding an encoded tag gives its normal form and leaves any suffix unread |
| Tags.TagsRoundTrip | crates/overlord-kad-proto/src/tag.rs:202-392 | the same for every list of tags |
| Tags.ValueRoundTrip | crates/overlord-kad-proto/src/tag.rs:167-392 | each value kind decodes under the type byte it is written with, integers narrowed |
| Tags.NormalEncodesAlike | crates/overlord-kad-proto/src/tag.rs:313-392 | re-encoding the decoded tag reproduces the same bytes |
| Tags.NormalListEncodesAlike | crates/overlord-kad-proto/src/tag.rs:313-392 | the same for lists |
| Tags.DecodedIsNormal | crates/overlord-kad-proto/src/tag.rs:202-307 | whatever bytes arrive, a decoded tag is already in normal form |
| Tags.ReadTagConsumes | crates/overlord-kad-proto/src/tag.rs:202-307 | reading consumes a non-empty prefix and never looks past the buffer |
| FileSizes.StockFirstFileSize | crates/overlord-agent-emule/src/kad_store.rs:546-601 | the cache's size loop is: first whole size, else first low half with first high half |
| FileSizes.FileSizeTagValue | crates/overlord-agent-emule/src/kad_search_expr.rs:187-243 | the matcher's separate size loop agrees with the cache's |
| FileSizes.FileSizeAcrossWire | crates/overlord-agent-emule/src/kad_store.rs:546-601 | crossing the wire changes the stated size exactly as renaming one-byte long names does, and leaves it alone exactly when the deciding tags are well named or repeat what is read now |
| FileSizes.ReaderSurvivesIff | crates/overlord-kad-proto/src/tag.rs:202-392 | any width-blind reader of well-named tags finds the same value before and after the wire exactly when its deciding tag is well named or states what the first well-named one does |
| FileSizes.SizeSurvivesIff | crates/overlord-agent-emule/src/kad_store.rs:546-601 | the exact condition for the three readers combined |
| FileSizes.MisnamedSizeAppears | crates/overlord-agent-emule/src/kad_store.rs:546-601 | a size under a one-byte long name is unseen before the wire and seen after it |
| SearchExpressions.Tokenize | crates/overlord-agent-emule/src/kad_search_expr.rs:245-280 | the tokenizer loop yields the tokens of the specification |
| SearchExpressions.NextToken | crates/overlord-agent-emule/src/kad_search_expr.rs:245-280 | one round of that loop: quoted stretch, separator or word |
| SearchExpressions.TokensAreStretches | crates/overlord-agent-emule/src/kad_search_expr.rs:245-280 | every token is a non-empty, quote-free stretch of the input |
| SearchExpressions.TokensOfWords | crates/overlord-agent-emule/src/kad_search_expr.rs:245-280 | words joined by spaces tokenize to exactly those words |
| SearchExpressions.ParseEncoded | crates/overlord-agent-emule/src/kad_search_expr.rs:76-128 | the parser inverts the encoder on every request of boolean height at most 23, consuming exactly its bytes, and rejects every taller one |
| SearchExpressions.ParseInverse | crates/overlord-agent-emule/src/kad_search_expr.rs:76-128 | whatever the parser accepts at a depth is the encoding of a request that fits the rest of the nesting limit, parsed to what that request means |
| SearchExpressions.ParsesIff | crates/overlord-agent-emule/src/kad_search_expr.rs:76-128 | the parser accepts exactly the encodings of the requests of boolean height at most 23, each as its meaning, and leaves the rest |
| SearchExpressions.ParseConsumes | crates/overlord-agent-emule/src/kad_search_expr.rs:76-128 | a successful parse leaves a proper suffix of the payload, never reading past it |
| SearchExpressions.NumericTermParses | crates/overlord-agent-emule/src/kad_search_expr.rs:99-128 | both number widths parse to the same term |
| SearchExpressions.MatchAcrossWire | crates/overlord-agent-emule/src/kad_search_expr.rs:130-185 | crossing the wire changes a match exactly as renaming does; always harmless for well-named tags |
| SearchExpressions.MatchSurvivesIff | crates/overlord-agent-emule/src/kad_search_expr.rs:130-185 | a match result survives the wire exactly when the tags say so beforehand, leaf by leaf and through the operators |
| SearchExpressions.MisnamedMatchAppears | crates/overlord-agent-emule/src/kad_search_expr.rs:130-185 | a term that fails before the wire and matches after it |
| SearchExpressions.PayloadMeaning | crates/overlord-agent-emule/src/kad_search_expr.rs:35-45 | an encoded request selects a file exactly when its meaning does, and the same before and after the wire exactly when it is too tall or the match survives |
| Pager.ResponseLen | crates/overlord-kad-proto/src/packet/codec.rs:59-75 | a page's packet is a 36-byte header plus its entries' lengths |
| Pager.GreedySplits | crates/overlord-agent-emule/src/agent/kad_unsolicited.rs:444-486 | greedy pages concatenate to the input, none empty, each fits or holds one result |
| Pager.GreedyIsOptimal | crates/overlord-agent-emule/src/agent/kad_unsolicited.rs:444-486 | no in-order split obeying that rule uses fewer pages |
| Pager.GreedyMonotone | crates/overlord-agent-emule/src/agent/kad_unsolicited.rs:444-486 | dropping leading results never costs a page |
| Pager.SplitStockSearchResponses | crates/overlord-agent-emule/src/agent/kad_unsolicited.rs:444-486 | the method returns that optimal split, every page with the response's sender and target, or the response whole, whenever no page it encodes overflows the 16-bit count |
| Pager.UsuallyCountable | crates/overlord-kad-proto/src/packet/codec.rs:59-75 | under 65,536 results, or pages of at most a mebibyte, never overflow that count |
| Pager.SplitResults | crates/overlord-agent-emule/src/agent/kad_unsolicited.rs:453-485 | the loop over `current` and `pages` computes the greedy split |
| Pager.EncodedLength | crates/overlord-agent-emule/src/agent/kad_unsolicited.rs:488-501 | the length compared with the limit is that of the encoded packet |
| EntryLists.UpsertOk | crates/overlord-agent-emule/src/kad_store.rs:665-757 | every upsert keeps the list within capacity and no target more than one over its quota |
| EntryLists.OneVictim | crates/overlord-agent-emule/src/kad_store.rs:665-757 | despite two eviction rules a list within capacity loses at most one entry, and which one |
| EntryLists.PurgeOk | crates/overlord-agent-emule/src/kad_store.rs:658-663 | purging keeps the bounds |
| PublishCache.RunOk | crates/overlord-agent-emule/src/kad_store.rs:101-312 | every reachable cache is within its capacities, with at most 1,001 sources and 151 notes per target |
| PublishCache.RunIndex | crates/overlord-agent-emule/src/kad_store.rs:912-936 | no run indexes more than 60,001 keyword entries or 50,001 files under one keyword |
| PublishCache.AcceptedIff | crates/overlord-agent-emule/src/kad_store.rs:912-936 | a usable publish is stored exactly while there are at most 60,000 entries and 50,000 files under the keyword, 45,000 for a file already listed |
| PublishCache.TargetLoadFits | crates/overlord-agent-emule/src/kad_store.rs:768-824 | within those bounds the narrowing cast loses nothing and the replacement test makes no difference |
| PublishCache.LoadsFit | crates/overlord-agent-emule/src/kad_store.rs:768-936 | after any run every reported load is at most 100, and what it is in terms of the count |
| KeywordHistory.RunMirrors | crates/overlord-agent-emule/src/kad_store.rs:101-144 | over every run with non-decreasing times the keyword list mirrors the log of accepted publishes |
| KeywordHistory.SearchIsHistory | crates/overlord-agent-emule/src/kad_store.rs:228-256 | an unrestricted search lists only latest accepted publishes within their life time, each key once, and all of them unless one was evicted; what is missing is no newer than anything kept |
| KeywordHistory.PagesCover | crates/overlord-agent-emule/src/kad_store.rs:228-256 | pages at offsets 0, L, 2L, ... return each candidate exactly once while offsets fit 15 bits, restricted or not |
| KeywordHistory.RestrictedCandidates | crates/overlord-agent-emule/src/kad_store.rs:330-341 | a restricted search pages through the listed entries whose name and tags the payload selects |
| KeywordHistory.ServableIff | crates/overlord-agent-emule/src/kad_store.rs:239-249 | with page size L, listed entry i can be served exactly when i < 2^15 - 1 + L |
| KeywordHistory.ListingStable | crates/overlord-agent-emule/src/kad_store.rs:228-256 | searching again at the same time sees the same list |
| SearchAnswers.NotesAnswer | crates/overlord-agent-emule/src/kad_store.rs:287-312 | a notes search returns the live notes of the file and size from the last slot back, up to the limit |
| SearchAnswers.SourceAnswer | crates/overlord-agent-emule/src/kad_store.rs:258-285 | a source search filters by size what the offset leaves of the live sources, taken from the last slot back |
| SearchAnswers.SourceAnswerAt | crates/overlord-agent-emule/src/kad_store.rs:258-285 | the place of each matching source in the answer |
| SearchAnswers.PagesFromIff | crates/overlord-agent-emule/src/kad_store.rs:269-283 | pages with the size test after the offset hold each match once, in order, exactly when no mismatch stands before a match of a later window; otherwise they hold more |
| SearchAnswers.SourcesServed | crates/overlord-agent-emule/src/kad_store.rs:258-285 | after any run, paging serves every matching source on the page of its window, and each exactly once under that condition |
| SearchAnswers.SourceServedTwice | crates/overlord-agent-emule/src/kad_store.rs:269-283 | three sources of one file, the last stored of another size: paging one by one serves the second twice |
| SlotOrder.CreationOrder | crates/overlord-agent-emule/src/kad_store.rs:688-757 | over every run entries stand in the order in which their slots were created, each as its latest publish left it |
| SlotOrder.NewestFirstIff | crates/overlord-agent-emule/src/kad_store.rs:688-757 | with non-decreasing times, any selection from the last slot back is newest first exactly when no publish overtook one of its entries |
| SlotOrder.NewestFirstIfInPlace | crates/overlord-agent-emule/src/kad_store.rs:688-757 | so certainly when no publish replaced an entry of the target standing before an older one |
| SlotOrder.NotesNewestFirstIff | crates/overlord-agent-emule/src/kad_store.rs:287-312 | both for the answers of notes searches after any run |
| SlotOrder.SourcesNewestFirstIff | crates/overlord-agent-emule/src/kad_store.rs:258-285 | both for the list that source searches count through |
| SlotOrder.NewestNoteMissed | crates/overlord-agent-emule/src/kad_store.rs:299-310 | two notes and a republish of the first: a search limited to one note returns the older one |
| SlotOrder.NoteSlotsAre | crates/overlord-agent-emule/src/kad_store.rs:195-226 | the slots with their histories hold exactly the notes of the run |
| SlotOrder.SourceSlotsAre | crates/overlord-agent-emule/src/kad_store.rs:146-193 | the same for sources |
| LocalStore.KadLocalStore.constructor | crates/overlord-agent-emule/src/kad_store.rs:92-99 | starts empty |
| LocalStore.KadLocalStore.UpsertKeyword | crates/overlord-agent-emule/src/kad_store.rs:665-686 | in place: replace, or evict the oldest of a full list and append |
| LocalStore.KadLocalStore.UpsertSource | crates/overlord-agent-emule/src/kad_store.rs:688-722 | in place: replace, or trim the target, make room and append |
| LocalStore.KadLocalStore.UpsertNote | crates/overlord-agent-emule/src/kad_store.rs:724-757 | in place: the same for notes |
| LocalStore.KadLocalStore.RecordKeywordPublishBatch | crates/overlord-agent-emule/src/kad_store.rs:101-144 | in place: the batch loop ends in the state of the run and reports its load, at most 100 |
| LocalStore.KadLocalStore.RecordSourcePublish | crates/overlord-agent-emule/src/kad_store.rs:146-193 | in place: refusals in the source's order, else purge, load, upsert |
| LocalStore.KadLocalStore.RecordNotesPublish | crates/overlord-agent-emule/src/kad_store.rs:195-226 | in place: the same for notes |
| LocalStore.KadLocalStore.KeywordSearchResponse | crates/overlord-agent-emule/src/kad_store.rs:228-256 | in place: purges, then answers the candidates from the offset on, rewritten for the reply; nothing when empty |
| LocalStore.KadLocalStore.SourceSearchResponse | crates/overlord-agent-emule/src/kad_store.rs:258-285 | in place: purges, then answers from the live sources taken from the last slot back, offset before the size test |
| LocalStore.KadLocalStore.NotesSearchResponse | crates/overlord-agent-emule/src/kad_store.rs:287-312 | in place: purges, then answers the live notes of the file and size from the last slot back |
| ReplyTags.BuildKeywordReply | crates/overlord-agent-emule/src/kad_store.rs:416-445 | the reply is name, size, the other tags kept, publish info and the first usable AICH hash |
| ReplyTags.SortOut | crates/overlord-agent-emule/src/kad_store.rs:425-438 | the loop that copies tags, keeps the first usable hash and makes its result tag |
| ReplyTags.BuildSourceReply | crates/overlord-agent-emule/src/kad_store.rs:471-506 | the reply is the size and the scanned tags |
| ReplyTags.ScanTag | crates/overlord-agent-emule/src/kad_store.rs:480-504 | one round: address before the first source type, first ports only |
| ReplyTags.BuildNotesReply | crates/overlord-agent-emule/src/kad_store.rs:508-524 | the reply is name, size and the other tags |
| ReplyTags.KeywordReplySizeIff | crates/overlord-agent-emule/src/kad_store.rs:416-445 | a keyword reply states the size of the tags it is made from exactly when that size needs more than 32 bits or no high half stands beside it |
| ReplyTags.StoredSizes | crates/overlord-agent-emule/src/kad_store.rs:101-144 | in every reachable cache the size an entry is filed under is the size its stored tags state |
| ReplyTags.KeywordAnswerSizeIff | crates/overlord-agent-emule/src/kad_store.rs:228-256 | so a reply made from a reachable cache states the size its entry is filed under exactly under that condition |
| ReplyTags.SizeInflated | crates/overlord-agent-emule/src/kad_store.rs:416-445 | a publish stored with size 5 and answered with size 2^32 + 5 |
| ReplyTags.SourceReplySizeIff | crates/overlord-agent-emule/src/kad_store.rs:471-506 | the same condition for source replies |
| ReplyTags.NotesReplySizeIff | crates/overlord-agent-emule/src/kad_store.rs:508-524 | the same condition for notes replies |
| ReplyTags.KeywordReplyName | crates/overlord-agent-emule/src/kad_store.rs:416-445 | a keyword reply carries the stored name |
| ReplyTags.SourceReplyShape | crates/overlord-agent-emule/src/kad_store.rs:471-506 | a source reply carries the observed address, one source type and at most one port of each kind |
| ReplyTags.SourceReplyAddresses | crates/overlord-agent-emule/src/kad_store.rs:471-506 | its addresses are the published ones with the observed one before the first source type: one more than published, and when exactly the observed one comes first |
| ReplyTags.KeywordReplies | crates/overlord-agent-emule/src/kad_store.rs:243-254 | every result is answered in order under its file hash |
| ReplyTags.SourceReplies | crates/overlord-agent-emule/src/kad_store.rs:271-283 | every result is answered in order under its publisher |
| ReplyTags.NotesReplies | crates/overlord-agent-emule/src/kad_store.rs:299-310 | every result is answered in order under its publisher |
| SnoopScheduling.BeforeTotal | crates/overlord-agent-emule/src/snoop_queue.rs:498-569 | the comparators never tie two different keys |
| SnoopScheduling.BeforeTrans | crates/overlord-agent-emule/src/snoop_queue.rs:498-569 | the comparators are transitive |
| SnoopScheduling.BestExists | crates/overlord-agent-emule/src/snoop_queue.rs:533-555 | among any candidates there is one before all others |
| SnoopScheduling.BestUnique | crates/overlord-agent-emule/src/snoop_queue.rs:498-569 | and only one, so no hash-map order can change the choice |
| SnoopScheduling.RestoreAnyOrder | crates/overlord-agent-emule/src/snoop_queue.rs:79-86 | without a clash, restoring saved entries in any permutation gives the same queue |
| SnoopScheduling.OrderFreeIff | crates/overlord-agent-emule/src/snoop_queue.rs:79-86 | all permutations restore alike exactly when no two unskipped entries of one unqueued key differ in shape |
| SnoopScheduling.ShapesMatter | crates/overlord-agent-emule/src/snoop_queue.rs:355-373 | any two entries restore alike in both orders exactly when they do not clash |
| SnoopScheduling.RestoredSums | crates/overlord-agent-emule/src/snoop_queue.rs:355-373 | what restoring leaves for each key: saturated total hits, earliest first and latest last sighting, latest drain |
| SnoopRuns.RateBound | crates/overlord-agent-emule/src/snoop_queue.rs:126-316 | over every run with non-decreasing times, the closed 600-second span ending at any drain holds at most the configured number of drains |
| SnoopRuns.SelectedIff | crates/overlord-agent-emule/src/snoop_queue.rs:126-316 | a selection drains exactly when some entry is ready and that span holds fewer than the maximum |
| SnoopRuns.ReadyAgain | crates/overlord-agent-emule/src/snoop_queue.rs:571-587 | an entry is ready at once if never drained, and after four cooldowns at the latest |
| SnoopRuns.RunWindow | crates/overlord-agent-emule/src/snoop_queue.rs:375-384 | the deque is always the part of the drain log still in the window |
| SnoopRuns.CooldownKept | crates/overlord-agent-emule/src/snoop_queue.rs:571-587 | two drains of an entry that stayed queued are at least one cooldown apart, and min(streak+1, 4) cooldowns if it was not seen since its last outcome |
| SnoopRuns.StreakCounts | crates/overlord-agent-emule/src/snoop_queue.rs:318-353 | the streak is the number of failed replays since the feedback was forgotten, saturating; the recorded result count is always zero |
| SnoopQueues.Gather | crates/overlord-agent-emule/src/snoop_queue.rs:142-176 | walking the map in any order collects exactly the ready candidates, recent and stale |
| SnoopQueues.Best | crates/overlord-agent-emule/src/snoop_queue.rs:178-183 | the first of the sorted list is the candidate before all others |
| SnoopQueues.Pick | crates/overlord-agent-emule/src/snoop_queue.rs:533-555 | high-quality sources only if there is one, then recent before stale |
| SnoopQueues.PickIsChoice | crates/overlord-agent-emule/src/snoop_queue.rs:126-316 | whatever the walk order, the pick is the unique best eligible recent candidate, else stale one |
| SnoopQueues.SnoopQueue.constructor | crates/overlord-agent-emule/src/snoop_queue.rs:68-76 | starts empty |
| SnoopQueues.SnoopQueue.Merge | crates/overlord-agent-emule/src/snoop_queue.rs:355-373 | in place: combines with a queued entry or inserts; a first sighting reports one hit |
| SnoopQueues.SnoopQueue.MergeSnapshot | crates/overlord-agent-emule/src/snoop_queue.rs:79-86 | in place: the loop restores all saved entries that are not skipped |
| SnoopQueues.SnoopQueue.Record | crates/overlord-agent-emule/src/snoop_queue.rs:101-110 | in place: merges one observation and reports novelty, hits, depth and the depth of its family |
| SnoopQueues.SnoopQueue.PruneRecentDrains | crates/overlord-agent-emule/src/snoop_queue.rs:375-384 | in place: pops drains older than ten minutes from the front |
| SnoopQueues.SnoopQueue.SelectNext | crates/overlord-agent-emule/src/snoop_queue.rs:126-316 | in place: returns and marks the unique choice, or nothing when the window is full or no entry is ready |
| SnoopQueues.SnoopQueue.RecordReplayOutcome | crates/overlord-agent-emule/src/snoop_queue.rs:318-353 | in place: success forgets the entry, failure lengthens its streak or evicts a served source |
| FirewallRounds.PortVerdictByHistory | crates/overlord-agent-emule/src/kad_firewall.rs:171-209 | a port resolves exactly when two of the first three different reporters name it; unreliable exactly when all three differ |
| FirewallRounds.RunUdpOk | crates/overlord-agent-emule/src/kad_firewall.rs:316-401 | no live UDP round ever contains a success |
| FirewallRounds.UdpRoundByHistory | crates/overlord-agent-emule/src/kad_firewall.rs:316-401 | a round finds the port open exactly when a selected helper reports success on an expected port; else each helper stands as its last event left it |
| FirewallRounds.LiveRoundIs | crates/overlord-agent-emule/src/kad_firewall.rs:316-401 | in every run a live round is what the events since it began make it |
| FirewallRounds.FinishBranchesDead | crates/overlord-agent-emule/src/kad_firewall.rs:404-454 | so both success branches of `finish_udp_check` are dead in every reachable state |
| FirewallRounds.SummariesAreConsistent | crates/overlord-agent-emule/src/kad_firewall.rs:457-501 | every open summary has exactly one success and every other none; selected = failed + succeeded + unanswered, and failed = never asked + reported a failure |
| FirewallRounds.FailedAsDocumentedIff | crates/overlord-agent-emule/src/kad_firewall.rs:32-33 | which helpers any published summary counts as failed, and exactly when, by the events of the round, they or their number are those that reported an error or a wrong port |
| FirewallRounds.RequestedAsDocumentedIff | crates/overlord-agent-emule/src/kad_firewall.rs:28-29 | `helpers_requested` counts at least the helpers that could be asked, and exactly those if and only if no other helper had the last word |
| FirewallRounds.UnsentCountsAsFailed | crates/overlord-agent-emule/src/kad_firewall.rs:457-501 | a run that publishes one failed helper although none reported anything |
| FirewallRounds.UnsentCountsAsRequested | crates/overlord-agent-emule/src/kad_firewall.rs:457-501 | a run that publishes two helpers as asked although one could not be |
| FirewallRounds.TcpRunKeeps | crates/overlord-agent-emule/src/kad_firewall.rs:236-313 | the recheck flag holds exactly while a TCP round is live; a round uses at most four replies, each consuming a reservation of that round |
| KadFirewall.KadFirewallState.constructor | crates/overlord-agent-emule/src/kad_firewall.rs:71-108 | no round is active and nothing is verified |
| KadFirewall.KadFirewallState.BeginExternalPortDiscovery | crates/overlord-agent-emule/src/kad_firewall.rs:152-161 | in place: a fresh round, forgetting the earlier port |
| KadFirewall.KadFirewallState.RecordExternalPortCandidate | crates/overlord-agent-emule/src/kad_firewall.rs:171-209 | in place: one report, with every field it changes per outcome |
| KadFirewall.KadFirewallState.CountReport | crates/overlord-agent-emule/src/kad_firewall.rs:187-208 | in place: the part for a new reporter |
| KadFirewall.KadFirewallState.FinishExternalPortDiscovery | crates/overlord-agent-emule/src/kad_firewall.rs:213-222 | in place: a live round always ends as timed out, since a resolved one is no longer live |
| KadFirewall.KadFirewallState.ExternalUdpPortForRequest | crates/overlord-agent-emule/src/kad_firewall.rs:230-232 | the port two of the first three reporters of the latest round named, else 0 |
| KadFirewall.KadFirewallState.RefreshTcpRecheck | crates/overlord-agent-emule/src/kad_firewall.rs:236-251 | in place: afterwards the flag equals the verdict given |
| KadFirewall.KadFirewallState.TryBeginTcpFirewallProbe | crates/overlord-agent-emule/src/kad_firewall.rs:257-274 | in place: reserves a helper if the round has room |
| KadFirewall.KadFirewallState.RecordTcpFirewallProbeFailed | crates/overlord-agent-emule/src/kad_firewall.rs:277-283 | in place: releases the reservation |
| KadFirewall.KadFirewallState.RecordFirewalledResponse | crates/overlord-agent-emule/src/kad_firewall.rs:287-313 | in place: accepts a reply only against a reservation; the fourth ends the round |
| KadFirewall.KadFirewallState.CountReply | crates/overlord-agent-emule/src/kad_firewall.rs:300-312 | in place: the part for a helper with a reservation |
| KadFirewall.KadFirewallState.BeginUdpCheck | crates/overlord-agent-emule/src/kad_firewall.rs:316-348 | in place: starts a round, or reports which input is missing |
| KadFirewall.KadFirewallState.RecordHelperRequestFailed | crates/overlord-agent-emule/src/kad_firewall.rs:351-359 | in place: marks only a helper of the live round |
| KadFirewall.KadFirewallState.FinalizeRound | crates/overlord-agent-emule/src/kad_firewall.rs:457-501 | in place: closes the round and summarizes it |
| KadFirewall.KadFirewallState.RecordFirewallUdpPacket | crates/overlord-agent-emule/src/kad_firewall.rs:362-401 | in place: opens with exactly one success, records a wrong port or an error, or ignores |
| KadFirewall.KadFirewallState.MarkHelper | crates/overlord-agent-emule/src/kad_firewall.rs:376-400 | in place: the part for a helper of the live round |
| KadFirewall.KadFirewallState.FinishUdpCheck | crates/overlord-agent-emule/src/kad_firewall.rs:404-454 | in place: always ends the round; a summary says firewalled with no success |

## Left out

- Phase 2 of the traversal (timers, result channel, cancellation): timing-driven I/O; phase 1 stops where it hands over.
- The traversal deadline: the loop is shown not to need it when every task returns.
- IPv6, and `SearchResult::from_tags`, which has size rules of its own.
- UTF-8 and code-page decoding: strings are byte sequences, lower-casing is a parameter, floats are four bytes.
- Formatted deduplication strings: the cache compares the tuples they are made of.
- Zones.RefusalsAreDue: one direction only, on the leaf after the call; `RefusalIff` is the exact answer.
- Tables.TrieRefusalsAreDue: one direction only, on the leaf after the call; `AddContactAnswer` is the exact answer.
- WalkResults.RunForward: compares the two ends of a run and so does not show the states in between; `RunMoves` does.
- WalkLoop.RunTraversal: does not model cancellation or logging; an event naming no live task stands for an interruption.
- PacketTrackers.PacketTracker.RecordAndCheckPacket: does not model overflow of the 32-bit packet counter within one window.
- OutboundTrackers.OutboundRequestTracker.FindAny: takes the time of each probe as a parameter instead of reading a clock.
- Tags.TagRoundTrip: covers tags whose lengths fit their length fields; the writer panics on longer ones.
- Pager.SplitStockSearchResponses: asks that no page the loop encodes exceeds 65,535 results, where the packet writer panics.
- KeywordHistory.SearchIsHistory: "accepted" is the cache's own decision at the time of the publish, not a second definition of it.
- SnoopQueues.SnoopQueue.SelectNext: one method for the three families, which repeat each other in the source; durations are unbounded integers, so overflow of extreme settings is not modelled.
- The decoding of stored target and payload texts of harvested requests: a shape carries what they decode to, if anything.
- KadFirewall.KadFirewallState.FinishUdpCheck: the body leaves out the two unreachable branches, which the function it is proved against contains.
- Error texts of the firewall state: one constructor each instead of the wording.
- Token-bucket rate limiting, bootstrap lists, obfuscation, transport, NAT, ED2K server and transfer code, configuration and HTTP: easier or I/O.
