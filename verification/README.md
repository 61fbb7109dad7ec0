# Verified model of the EoIP daemon

This project models the packet path and the tunnel control of a userspace EoIP/EoIPv6 daemon in Dafny 4.11, and proves
properties of the model: what every run keeps, what reaches the other end, and where the code does not do what its
comments say.

| file | what it models |
|---|---|
| `Bytes.dfy` | machine integers, byte order, concatenation |
| `Codec.dfy` | the EoIP, EtherIP (RFC 3378 section 3) and UDP-shim headers, and the three validators |
| `PacketBuffers.dfy` | the pooled packet buffer with headroom, and the bounded pool |
| `Rx.dfy` | tunnel handles, the receive path, the coarse clock, the TAP writer |
| `Tx.dfy`, `TxBatch.dfy` | the transmit path, the gather builder, the batcher |
| `Transparency.dfy` | both ends together, over IPv4 (header as in section 3.1 of RFC 791) and IPv6 |
| `Ring.dfy`, `RingProtocol.dfy` | one block of the TPACKET_V3 ring, the ring in memory, the protocol with the kernel, and how the two fit |
| `Lifecycle.dfy` | tunnel states under concurrent users, the keepalive round, stale detection |
| `Pmtud.dfy` | path MTU discovery |
| `Manager.dfy` | registry and task table under creates and destroys |
| `Startup.dfy` | the helper, the daemon's startup loop, and both processes interleaved |
| `Analyzer.dfy` | the packet analyzer's decoders and statistics |
| `Cli.dfy` | the command line: splitting, normalising, parsing |

Code that works in place is a class whose methods are proved against functions of the old state; the lemmas are about
those functions. Concurrency is a state machine whose steps are the single atomic operations, and theorems about it
quantify over every sequence of steps. What comes from outside (clock readings, poll and probe outcomes, what the
kernel writes, which branch a `select` takes) is a parameter or a step that may happen at any time.

`dafny verify dfyconfig.toml` checks everything.

## Results that contradict the source's comments or its intent

Each is a theorem below, with the exact condition where there is one.

- Batches: some run flushes two packets together if and only if the low-water mark is at most 1 and the high-water mark
  at least 2, because the fill loop starts only after a single packet has reached the low-water mark; the default mark
  is 8. The flush after the loop never has anything to do (`TxBatch.BatchingHappens`, `TxBatch.FlushSizesExactly`).
- Padding: the receive path delivers the whole remainder of a packet, not the announced length, so a padded short frame
  arrives with its padding; docs/design/protocol.md:304 says otherwise (`Transparency.TransparencyV4`).
- Stale detection: the receive stamp is refreshed by every 64th packet only. A tunnel that is heard every `gap` ms is
  never called stale at the moment it is heard if and only if 63 gaps fit in the timeout, and never at any moment before
  the next packet if and only if 64 gaps do, less one millisecond; the defaults (10 s, 100 s) meet neither
  (`Keepalive.CacheTolerance`, `Keepalive.ToleranceBetweenArrivals`).
- Destroy: the compare-exchange can fail after another user moved the state, which leaves an unregistered tunnel Stale;
  and it can succeed although the state changed twice in between (`LifecycleRuns.DestroyCanLose`,
  `LifecycleRuns.DestroyCanMissToggles`; `LifecycleRuns.DestroyExact` has the condition).
- Path MTU, size on the wire: on Linux a probe of size X is four bytes longer than X by the source's own accounting
  (X - 28 bytes of payload, four of identifier and sequence number, 28 of headers); on Windows it is X. So on a path
  that passes up to t bytes Windows reports min(t, 1500) for t above 576, while Linux reports min(t - 4, 1500) for t
  above 580 and an error otherwise, and is right only from 1504 on; the overlay MTU plus 42 is the reported value, so four bytes
  short of the path on Linux below that (`Pmtud.LinuxOnPath`, `Pmtud.WindowsOnPath`, `Pmtud.PlatformsOnOnePath`,
  `Pmtud.TunnelMtu.DoPmtud`).
- Path MTU, search: nine or ten probes are sent, not 6-7; a blocked ICMP path is reported as 1500, so the fallback of the
  caller is not reached; and a probe size of exactly the minimum is reported as an error even if it succeeded
  (`Pmtud.NineOrTenProbes`, `Pmtud.BlockedIcmpReportsMaximum`, `Pmtud.ExactOnMonotonePath`).
- Manager: a create that ends in a transport or TAP-device failure leaves an entry that no task serves, and its id
  cannot be created again until it is destroyed (`TunnelManager.ManagerRuns`, `TunnelManager.StrandedUntilDestroyed`).
- Startup: without an IPv6 raw socket, startup fails if and only if three or more tunnels are enabled, and then in
  every interleaving (`StartupProtocol.FailsExactly`, `StartupProtocol.RestingRuns`).
- EtherIP: the analyzer finds nothing wrong with headers that are followed by fewer than 14 bytes, the daemon's own
  keepalives among them, and the validator refuses them (`AnalyzerDecode.Eoipv6CheckersDiffer`,
  and behind the UDP shim `AnalyzerDecode.EncapV6CheckersDiffer`).
- Deviations: the analyzer's checks of the EoIP magic and of the EtherIP version never report anything, because its
  decoders reclassify or refuse what would fail them (`AnalyzerDecode.OnlyTheLengthIsSevere`).
- Command line: an empty quoted word is lost, and a command parses back exactly when no text in it contains a slash or
  ends in a blank (`ShellSplitting.SplitUndoesPrint`, `CliParse.CommandRoundTrip`).

## Model

| member | source | states |
|---|---|---|
| RingBlock.WalkBlock | crates/eoip-rs/src/packet/packet_mmap.rs:187-224 | over a block that holds a chain of packets, the callback sees exactly the non-empty ones, in order, with every index inside the block |
| RingBlock.PacketOnBytes | crates/eoip-rs/src/packet/packet_mmap.rs:191-214 | on bytes: a packet is the captured bytes from the network offset (26, 27) to the link offset (24, 25) plus the captured length, and nothing if the capture ends before |
| RingBlock.DescriptorOnBytes | crates/eoip-rs/src/packet/packet_mmap.rs:54-64 | on bytes: the status word, packet count and first offset are the little-endian words at 8, 12 and 16 of a block |
| RingBlock.NonEmptyOne | crates/eoip-rs/src/packet/packet_mmap.rs:209-214 | a packet of no bytes is skipped and any other is delivered |
| RingLayout.RecordReadsBack | crates/eoip-rs/src/packet/packet_mmap.rs:191-214 | a captured packet laid out anywhere in a block (header, gap, link header, payload, tail) reads back its payload and its link |
| RingLayout.LayoutHolds | crates/eoip-rs/src/packet/packet_mmap.rs:183-224 | the walk inverts the layout: any block laid out from captured packets holds their payloads, whatever its private area and left-over bytes |
| PacketMmap.PacketMmapRing.ProcessBlock | crates/eoip-rs/src/packet/packet_mmap.rs:161-233 | a user-owned block (its user bit set, see `RingDelivery.ProcessByBit`) is delivered once, marked kernel-owned and the index advanced modulo 16; any other changes nothing; no other block changes |
| PacketMmap.PacketMmapRing.ReleaseBlock | crates/eoip-rs/src/packet/packet_mmap.rs:226-229 | only the status word of the current block changes |
| RingDelivery.UserBit | crates/eoip-rs/src/packet/packet_mmap.rs:169 | the test of the user bit is the parity of the status word |
| RingDelivery.ProcessByBit | crates/eoip-rs/src/packet/packet_mmap.rs:161-233 | by the lowest bit of byte 8 alone: a block that has it, at once or after a poll that did not time out, is delivered, its four status bytes zeroed and index + 1 modulo 16 follows; otherwise nothing is delivered and the index stays |
| RingDelivery.DeliverReady | crates/eoip-rs/src/packet/packet_mmap.rs:161-233 | a block laid out with any odd status word, whatever its other bits, delivers its non-empty payloads in order and advances |
| RingDelivery.DeliverAfterPoll | crates/eoip-rs/src/packet/packet_mmap.rs:169-185 | a block without the bit is looked at again after the poll: what was laid out there by then is delivered exactly if its status is odd and the poll did not time out |
| RingProtocol.OwnershipWindow | crates/eoip-rs/src/packet/packet_mmap.rs:161-233 | in every interleaving with the kernel, the user-owned blocks are one window that starts at `current_block` and goes round the ring, and the kernel fills the block behind it next |
| RingProtocol.FifoExactlyOnce | crates/eoip-rs/src/packet/packet_mmap.rs:161-233 | in every run, what the callback has seen followed by what still waits in the window is everything the kernel retired: in order, exactly once |
| RingProtocol.ReadsAreSafe | crates/eoip-rs/src/packet/packet_mmap.rs:161-233 | the daemon reads only blocks it owns and only inside them, and no kernel step touches the block it is in |
| RingProtocol.DaemonHasOneStep | crates/eoip-rs/src/packet/packet_mmap.rs:161-233 | in every state that satisfies the invariant of all runs the daemon has exactly one step |
| RingProtocol.IdleDaemon | crates/eoip-rs/src/packet/packet_mmap.rs:167-183 | with nothing published the idle daemon stays as it is; with something published it takes the oldest batch |
| RingProtocol.DaemonPass | crates/eoip-rs/src/packet/packet_mmap.rs:183-232 | from a held block, the daemon's steps end with the block's packets delivered, the block given back and the index advanced |
| RingRefinement.ProcessBlockIsPass | crates/eoip-rs/src/packet/packet_mmap.rs:161-233 | `ProcessBlock` on a mapping that holds the protocol's blocks ends with the deliveries, blocks and index of those steps |
| RingProtocol.RetireKeepsWindow | crates/eoip-rs/src/packet/packet_mmap.rs:169-181 | publishing the kernel's next block makes the window one longer |
| RingProtocol.ReleaseKeepsWindow | crates/eoip-rs/src/packet/packet_mmap.rs:226-230 | giving the first block back moves the window's start to the next index |
| Rx.RxPath.ProcessV4Packet | crates/eoip-rs/src/packet/rx.rs:217-276 | for every n up to the buffer length: at most the one handle registered for (id, source) changes, as `Received` says; a packet without a handle changes nothing; one more buffer is live exactly if the channel grew |
| Rx.RxPath.ProcessV6Packet | crates/eoip-rs/src/packet/rx.rs:533-585 | the same over IPv6 |
| Rx.RxPath.Deliver | crates/eoip-rs/src/packet/rx.rs:262-274 | the frame, cut to a payload area, joins the channel if it has room, with one more buffer live; otherwise the error counter goes up and no buffer has become or ceased to be live |
| Rx.CoarseClock.Timestamp | crates/eoip-rs/src/packet/rx.rs:183-213 | every 64th call takes a reading, the others return the cached one |
| Rx.RxAccounting | crates/eoip-rs/src/packet/rx.rs:247-274 | over any interleaving of arrivals and TAP-writer steps: packets counted = quiet + accepted + errors, and written, batched and queued frames are the accepted ones in order |
| Rx.RxConservation | crates/eoip-rs/src/tunnel/manager.rs:204-221 | from a fresh tunnel, what the TAP device has seen is a prefix of the accepted frames, and no counted packet is unaccounted for |
| Rx.TunnelsRunApart | crates/eoip-rs/src/packet/rx.rs:236-276 | over raw packets and a registry, each tunnel runs exactly as on the packets that parse to its own key |
| Rx.RegistryConservation | crates/eoip-rs/src/packet/rx.rs:223-276 | so the accounting holds for every registered tunnel over any raw packets |
| Rx.TapWriter.WriteBatch | crates/eoip-rs/src/tunnel/manager.rs:204-221 | one round writes the first 1..32 waiting frames, in order, and leaves the rest |
| PacketBuffers.PacketBuf.PrependHeader | crates/eoip-rs/src/packet/buffer.rs:61-66 | the valid bytes grow in front and the old ones stay where they were |
| PacketBuffers.BufferPool.constructor | crates/eoip-rs/src/packet/buffer.rs:117-123 | a new pool is full, with separate storage for every buffer |
| PacketBuffers.BufferPool.Get | crates/eoip-rs/src/packet/buffer.rs:126-138 | queue length plus live pooled buffers stays the capacity; the new buffer is reset, shares storage with no live one, and is standalone exactly if the queue was empty |
| PacketBuffers.BufferPool.Apart | crates/eoip-rs/src/packet/buffer.rs:115-166 | no two live buffers share storage |
| PacketBuffers.BufferPool.Drop | crates/eoip-rs/src/packet/buffer.rs:151-166 | a pooled buffer's storage returns to the queue, which has room for it, reset and without a pool; a standalone one never enters the queue |
| PacketBuffers.DropAll | crates/eoip-rs/src/packet/buffer.rs:151-166 | dropping everything that is out leaves the pool full |
| PacketBuffers.AnyRun | crates/eoip-rs/src/packet/buffer.rs:115-166 | over any sequence of draws and drops, queued plus outstanding equals capacity plus standalone |
| PacketBuffers.TookIsLive | crates/eoip-rs/src/packet/buffer.rs:115-166 | what the packet paths promise about the pool's two kinds of live buffers says that all live buffers are as before, or one more |
| TxEncode.EncodeInPlace | crates/eoip-rs/src/packet/tx.rs:99-108 | after prepending, the valid bytes are the header for the family followed by the frame; it fails exactly for an IPv6 id above 12 bits |
| TxEncode.ReadAndEncode | crates/eoip-rs/src/packet/tx.rs:76-116 | the packet is header and frame, in the one buffer that became live; after a failed read or encoding the live buffers are as before; the counters count every frame read |
| TxEncode.KeepaliveBytes | crates/eoip-rs/src/packet/tx.rs:341-359 | a keepalive is the header for length zero and nothing else |
| TxBatch.NthOfFamily | crates/eoip-rs/src/packet/tx.rs:286-303 | the count of a family in a prefix is the place of the next packet of that family among all of its family |
| TxBatch.TxBatchBuffers.Build | crates/eoip-rs/src/packet/tx.rs:254-303 | message i carries the bytes and the address of batch[indices[i]], families mixed, whatever the reused vectors held before |
| TxBatch.TxBatchBuffers.MessagesResolve | crates/eoip-rs/src/packet/tx.rs:284-303 | every message header points inside the vectors and at its own packet |
| TxBatch.TxBatcher.Partition | crates/eoip-rs/src/packet/tx.rs:227-234 | the two index lists select the two families of the batch, each in order |
| TxBatch.TxBatcher.FlushBatch | crates/eoip-rs/src/packet/tx.rs:214-244 | each family of the batch is handed to its socket once, in order, and the batch is empty afterwards |
| TxBatch.TxBatcher.Run | crates/eoip-rs/src/packet/tx.rs:141-181 | for every arrival order and every outcome of the selects: the run goes on until every packet is received, the choices are spent, or the outer select sees a shutdown with nothing gathered; concatenated, the flushes are the packets received; each socket got its family in order exactly once; and the batch is empty on exit |
| TxBatch.RunEnds | crates/eoip-rs/src/packet/tx.rs:141-149 | a run is over at a shutdown seen between batches, or when the channel has closed |
| TxBatch.PacketAtOnce | crates/eoip-rs/src/packet/tx.rs:151-158 | where batching is impossible each packet leaves at once and the run goes on |
| TxBatch.FullBatchLeaves | crates/eoip-rs/src/packet/tx.rs:160-176 | a batch that has reached the high-water mark leaves whole and the run goes on |
| TxBatch.DeadlineEndsBatch | crates/eoip-rs/src/packet/tx.rs:166-176 | a deadline lets the gathered packets leave together and ends the batch, not the run |
| TxBatch.LastBatchLeaves | crates/eoip-rs/src/packet/tx.rs:168-181 | what is gathered when the channel closes still leaves |
| TxBatch.AllLeaveByDeadlines | crates/eoip-rs/src/packet/tx.rs:141-176 | with a deadline after every packet, every packet leaves, each on its own |
| TxBatch.FamiliesSplit | crates/eoip-rs/src/packet/tx.rs:227-234 | IPv4 and IPv6 packets together are all packets, and no packet is both |
| TxBatch.FlushSizesExactly | crates/eoip-rs/src/packet/tx.rs:141-181 | some run flushes n packets together if and only if n is 1, or n is at most the high-water mark and the low-water mark at most 1 |
| TxBatch.BatchingHappens | crates/eoip-rs/src/packet/tx.rs:141-181 | batching happens if and only if the low-water mark is at most 1 and the high-water mark at least 2 |
| Transparency.ParseV4Exact | crates/eoip-rs/src/packet/rx.rs:223-244 | a packet is accepted exactly if it is an IPv4 header of its announced length, an EoIP header and anything |
| Transparency.ParseV6Exact | crates/eoip-rs/src/packet/rx.rs:541-556 | a packet is accepted for (id, source) exactly if it is the EtherIP header of that twelve-bit id and then the frame; any other is dropped |
| Transparency.ParseV6OnBytes | crates/eoip-rs/src/packet/rx.rs:541-556 | on bytes: a low nibble other than 3 in the first byte drops the packet; the high nibble and the second byte are the id |
| Transparency.TransparencyV4 | crates/eoip-rs/src/packet/tx.rs:76-116 | an encoded frame of up to 1522 bytes is counted by the receiver and queued unchanged exactly if there is no padding or no room for it; with a full channel it is an error; an empty one is never queued |
| Transparency.TransparencyV6 | crates/eoip-rs/src/packet/rx.rs:533-585 | the same over IPv6 for 12-bit ids |
| Transparency.KeepaliveIsQuiet | crates/eoip-rs/src/packet/tx.rs:341-359 | a keepalive is never queued: over IPv4 padded or not, over IPv6 if and only if it is not padded |
| Transparency.EndToEndV4 | crates/eoip-rs/src/packet/rx.rs:217-276 | reading, encoding, an IPv4 header of 20 to 60 bytes and receiving together append the frame, byte for byte, to the channel registered for (id, source), and touch no other handle |
| Transparency.EndToEndV6 | crates/eoip-rs/src/packet/rx.rs:533-585 | the same over IPv6 |
| TunnelLifecycle.FromU8 | crates/eoip-rs/src/tunnel/lifecycle.rs:28-38 | a byte names a state exactly if it is at most 5, and then it is that state's code |
| TunnelLifecycle.MovesOnBytes | crates/eoip-rs/src/tunnel/lifecycle.rs:42-57 | the allowed moves are exactly nine pairs of stored bytes |
| TunnelLifecycle.AtomicTunnelState.Transition | crates/eoip-rs/src/tunnel/lifecycle.rs:71-82 | the cell moves exactly if the move is allowed and the cell holds `from`; otherwise it is unchanged and its state is returned |
| TunnelLifecycle.ReturnsByToggling | crates/eoip-rs/src/tunnel/lifecycle.rs:42-57 | a path of allowed moves comes back to a state exactly by an even number of toggles between Active and Stale |
| TunnelLifecycle.RaisesBounded | crates/eoip-rs/src/tunnel/lifecycle.rs:42-57 | along a path, moves other than toggles are bounded by the difference of the ranks |
| LifecycleRuns.HistoryIsPath | crates/eoip-rs/src/keepalive.rs:55-70 | in every interleaving of create, keepalive, destroys and stamps: the byte is below 5, the history is a path from Initializing, and at most three moves are not toggles |
| LifecycleRuns.TearingDownIsFinal | crates/eoip-rs/src/tunnel/lifecycle.rs:42-57 | no continuation of a run leaves TearingDown |
| LifecycleRuns.DestroyExact | crates/eoip-rs/src/tunnel/manager.rs:282-285 | a destroy moves the tunnel to TearingDown if and only if the state it loaded permits that and between load and swap nothing happened but an even number of toggles |
| LifecycleRuns.DestroyCanLose | crates/eoip-rs/src/tunnel/manager.rs:282-285 | a run, for any timeout, in which the destroy fails and the tunnel is left Stale |
| LifecycleRuns.DestroyCanMissToggles | crates/eoip-rs/src/tunnel/manager.rs:282-285 | a run, for any timeout, in which the destroy succeeds although the state changed twice |
| LifecycleRuns.UninterruptedRound | crates/eoip-rs/src/keepalive.rs:43-70 | after an undisturbed round, an Active or Stale tunnel is Stale if and only if the stamp is older than the timeout |
| LifecycleRuns.NeverHeardNeverStale | crates/eoip-rs/src/keepalive.rs:47-54 | in every interleaving, a tunnel that has heard nothing has never been Stale, however long it has been up |
| LifecycleRuns.SilentTunnelNotActive | crates/eoip-rs/src/keepalive.rs:43-70 | in every run, after a round begun later than the timeout after the last stamp store, the tunnel is not Active |
| LifecycleRuns.StaleByDeadline | crates/eoip-rs/src/keepalive.rs:36-73 | with rounds at most `gap` apart, a tunnel last heard at t is not Active after t + timeout + gap |
| Keepalive.KeepaliveTask.CheckStale | crates/eoip-rs/src/keepalive.rs:43-70 | a tunnel that was never heard (no positive stamp), or is neither Active nor Stale, is left alone; of the others it becomes Stale if the clock is past stamp plus timeout, Active otherwise |
| Keepalive.Stamps | crates/eoip-rs/src/packet/rx.rs:183-213 | packet i is stamped with the reading of packet i - i % 64 |
| Keepalive.CacheTolerance | crates/eoip-rs/src/packet/rx.rs:183-213 | a tunnel heard every `gap` is never stale when heard if and only if 63 gaps fit in the timeout |
| Keepalive.ToleranceBetweenArrivals | crates/eoip-rs/src/keepalive.rs:36-70 | no check at any moment before the next packet calls it stale if and only if 64 gaps, less one millisecond, fit in the timeout |
| Keepalive.DefaultsAreNotTolerated | crates/eoip-rs/src/config.rs:274-275 | the default interval and timeout do not meet the weaker condition |
| Pmtud.ProbeSingle | crates/eoip-rs/src/net/pmtud.rs:263-314 | a probe of so many payload bytes, four more and the headers passes unless "too big" comes before any reply; silence passes |
| Pmtud.RejectedInThree | crates/eoip-rs/src/net/pmtud.rs:276-314 | over the three attempts: the first that says anything decides, and only "too big", on sending or on receiving, rejects |
| Pmtud.OnTheWire | crates/eoip-rs/src/net/pmtud.rs:219-273 | a probe of size X is X + 4 bytes on the wire on Linux and X on Windows |
| Pmtud.ProbePathMtuLinux | crates/eoip-rs/src/net/pmtud.rs:224-257 | for any bounds (the source's are 576 and 1500) the Linux loop computes the search, with all variables in 16 bits |
| Pmtud.ProbePathMtuWindows | crates/eoip-rs/src/net/pmtud.rs:350-410 | the Windows loop computes the same search over its own probes |
| Pmtud.LoopsAgree | crates/eoip-rs/src/net/pmtud.rs:224-410 | where every probe is answered alike, the two loops probe the same sizes and report the same |
| Pmtud.LinuxOnPath | crates/eoip-rs/src/net/pmtud.rs:219-273 | on a path that passes up to t bytes Linux reports min(t - 4, maximum) or an error; it is min(t, maximum) if and only if t is at least the maximum plus 4 |
| Pmtud.WindowsOnPath | crates/eoip-rs/src/net/pmtud.rs:365-410 | on such a path Windows reports min(t, maximum) if and only if t is above the minimum, and an error otherwise |
| Pmtud.PlatformsOnOnePath | crates/eoip-rs/src/net/pmtud.rs:224-410 | on one path the two reports are equal if and only if t is at most the minimum or at least the maximum plus 4 |
| Pmtud.ExactOnMonotonePath | crates/eoip-rs/src/net/pmtud.rs:224-257 | in the probe variable: if exactly the probes of sizes up to t succeed, min(t, maximum) is reported if that is above the minimum, an error otherwise |
| Pmtud.SoundOnAnyPath | crates/eoip-rs/src/net/pmtud.rs:224-257 | for arbitrary answers: a reported size is the last and largest that succeeded, and an error means that none above the minimum did |
| Pmtud.NineOrTenProbes | crates/eoip-rs/src/net/pmtud.rs:224-250 | with the source's bounds the number of probes is 9 or 10 whatever the answers |
| Pmtud.LinuxErrorExactly | crates/eoip-rs/src/net/pmtud.rs:252-257 | on Linux an error is reported exactly if the network rejected every probe above the minimum |
| Pmtud.BlockedIcmpReportsMaximum | crates/eoip-rs/src/net/pmtud.rs:308-314 | with no answers at all the result is the maximum |
| Pmtud.TunnelMtu.DoPmtud | crates/eoip-rs/src/net/pmtud.rs:65-118 | on success overlay MTU + 42 is the reported value, which on a path of t bytes (t above 580) is min(t, 1500) on Windows and min(t - 4, 1500) on Linux; for IPv6, without a socket, on other platforms and on a path of at most 576 bytes the MTU is kept, or the fallback taken if there was none |
| TunnelManager.Manager.CreateTunnel | crates/eoip-rs/src/tunnel/manager.rs:98-251 | an id that some key already has, an error of the helper, an unexpected message or a missing descriptor leaves both maps as they were; no answer and no device add the key and no task; success adds the key, the task and an Active tunnel; other entries never change |
| TunnelManager.Manager.DestroyTunnel | crates/eoip-rs/src/tunnel/manager.rs:266-289 | exactly the entries of the id are removed, each ended; its tasks are cancelled; the answer is NotFound exactly if no key had the id |
| TunnelManager.Manager.Boot | crates/eoip-rs/src/main.rs:98-192 | exactly the configured keys are registered and exactly their ids have tasks, every tunnel is Active and no task is cancelled |
| TunnelManager.BootedTables | crates/eoip-rs/src/config.rs:290-325 | after startup there is one key per id exactly if no id is configured for two peers, which the configuration check does not ensure |
| TunnelManager.ApplyMatches | crates/eoip-rs/src/tunnel/manager.rs:98-289 | every operation keeps: one key per id, and registered ids are those with tasks plus the stranded ones |
| TunnelManager.ManagerRuns | crates/eoip-rs/src/tunnel/manager.rs:98-289 | over any sequence of operations, registry ids and task ids agree if and only if no id is stranded |
| TunnelManager.TablesStayTogether | crates/eoip-rs/src/tunnel/manager.rs:98-289 | over any operations of which no create ends without an answer or without a device, whatever other errors occur, registry ids and task ids agree |
| TunnelManager.StrandedUntilDestroyed | crates/eoip-rs/src/tunnel/manager.rs:98-141 | a stranded id refuses every create, and destroying it repairs the tables |
| Helper.HelperProcess.HandleCreateTunnel | crates/eoip-helper/src/main.rs:207-279 | which messages are sent, in every case of failure, and the two flags are set exactly once |
| Helper.ReplySpelledOut | crates/eoip-helper/src/main.rs:207-279 | the messages of a granted request, written out for all four states of the two flags |
| Helper.HelperProcess.ServeCreate | crates/eoip-helper/src/main.rs:172-195 | in persist mode a failure is answered with an error after whatever was sent |
| DaemonStartup.Startup.CreateAll | crates/eoip-rs/src/main.rs:98-192 | the startup loop succeeds if and only if IPv6 works or there are at most two tunnels, and activates the tunnels in order |
| StartupProtocol.Lockstep | crates/eoip-rs/src/main.rs:98-192 | with IPv6 working, in every interleaving: no unexpected message, both queues empty between tunnels, each tunnel answered by its own TapCreated, each raw socket sent once |
| StartupProtocol.Progress | crates/eoip-helper/src/main.rs:143-205 | no deadlock and no endless run |
| StartupProtocol.FailsExactly | crates/eoip-helper/src/main.rs:254-275 | some interleaving fails if and only if IPv6 is missing and three or more tunnels are enabled |
| StartupProtocol.RestingRuns | crates/eoip-helper/src/main.rs:254-275 | in that case no run is ever through and every run that comes to rest has failed; in all others every run that comes to rest is through |
| Gre.EncodeEoipHeader | crates/eoip-proto/src/gre.rs:39-53 | the header is written at the front of the slice and no other byte changes; a short slice is refused unchanged |
| Gre.EoipCodecBijection | crates/eoip-proto/src/gre.rs:69-89 | a buffer decodes to (id, length) exactly if it starts with the header of (id, length) |
| Gre.EoipDecodeTotal | crates/eoip-proto/src/gre.rs:69-89 | decoding succeeds exactly on buffers that start with some header |
| Gre.EoipOnBytes | crates/eoip-proto/src/gre.rs:69-89 | on bytes: 20 01 64 00, then the length most significant byte first, then the id least significant byte first; and the error for every other buffer |
| Etherip.NibblePacking | crates/eoip-proto/src/etherip.rs:60-66 | the shifts and masks of the encoder are the quotients and remainders of the model |
| Etherip.NibbleUnpacking | crates/eoip-proto/src/etherip.rs:91-101 | and those of the decoder |
| Etherip.EncodeEoipv6Header | crates/eoip-proto/src/etherip.rs:45-69 | as for EoIP, with ids above 4095 refused |
| Etherip.EtheripCodecBijection | crates/eoip-proto/src/etherip.rs:83-104 | a buffer decodes to an id exactly if the id has 12 bits and the buffer starts with its header |
| Etherip.EtheripOnBytes | crates/eoip-proto/src/etherip.rs:83-104 | on bytes: a low nibble of 3, the id in the other twelve bits; and the error for every other buffer |
| UdpShim.EncodeUdpShim | crates/eoip-proto/src/udp_shim.rs:42-63 | the shim is written and nothing else; an unknown type or a short slice is refused unchanged |
| UdpShim.ShimOnBytes | crates/eoip-proto/src/udp_shim.rs:78-103 | on bytes: 45 4F, then 04 or 06, then any byte; and the error for every other buffer |
| UdpShim.ShimRoundTrip | crates/eoip-proto/src/udp_shim.rs:42-103 | a shim is read back as the type it was made of, exactly for the two known types |
| Proto.EoipAcceptance | crates/eoip-proto/src/lib.rs:46-50 | the validator accepts exactly a header followed by at least the announced frame of 0 or 14 and more bytes |
| Proto.EoipRefusal | crates/eoip-proto/src/gre.rs:99-136 | a header that announces 1 to 13 bytes, or more than there are, is refused with that length and the limit |
| Proto.Eoipv6Acceptance | crates/eoip-proto/src/lib.rs:56-60 | the validator accepts exactly an EtherIP header and at least 14 more bytes |
| Proto.ShimNesting | crates/eoip-proto/src/lib.rs:68-83 | behind a shim, a packet is accepted with offset o + 4 exactly if the inner validator accepts it with o |
| AnalyzerDecode.KeepaliveHasNoFrame | crates/eoip-analyzer/src/decode.rs:131-178 | no decoder reports an inner frame for a keepalive |
| AnalyzerDecode.EoipDecodedExactly | crates/eoip-analyzer/src/decode.rs:96-153 | on bytes: which buffers are refused, standard GRE or EoIP; EoIP is a keepalive exactly if the announced length is 0 |
| AnalyzerDecode.Eoipv6DecodedExactly | crates/eoip-analyzer/src/decode.rs:155-189 | on bytes: another version is refused; a keepalive is exactly a bare header; no deviation is ever added |
| AnalyzerDecode.EthertypeOnBytes | crates/eoip-analyzer/src/ethernet.rs:21-67 | the type is in bytes 12 and 13, or in 16 and 17 behind a VLAN tag |
| AnalyzerDecode.UdpDecodedExactly | crates/eoip-analyzer/src/decode.rs:191-263 | a datagram of the port with a shim is decoded as what is behind the shim would be on its own, with a warning exactly for a reserved byte other than zero; any other is not looked into |
| AnalyzerDecode.Dispatch | crates/eoip-analyzer/src/decode.rs:74-80 | protocols 47, 97 and 17, and no others, reach their decoders |
| AnalyzerDecode.OnlyTheLengthIsSevere | crates/eoip-analyzer/src/decode.rs:96-263 | on every decoded packet the length of an EoIP packet is the one thing called severe: the checks of magic and version can never report anything |
| AnalyzerDecode.EoipDeviationsExactly | crates/eoip-analyzer/src/deviation.rs:19-62 | with the right magic there is no error-severity deviation exactly if the length is 0, or at least 14 and not above what is there, and no deviation at all exactly if it is 0, or at least 14 and equal to what is there |
| AnalyzerDecode.EoipCheckersAgree | crates/eoip-analyzer/src/decode.rs:96-153 | on every buffer, the analyzer finds a clean EoIP packet of tunnel t exactly if the validator accepts it for t |
| AnalyzerDecode.EncapCheckersAgree | crates/eoip-analyzer/src/decode.rs:191-263 | the same for EoIP in every datagram on the port, through the UDP shim and whatever its reserved byte |
| AnalyzerDecode.EncapV6CheckersDiffer | crates/eoip-analyzer/src/decode.rs:191-263 | behind the shim the two differ about EtherIP exactly on version-3 headers with fewer than 14 bytes behind them |
| AnalyzerDecode.Eoipv6CheckersDiffer | crates/eoip-analyzer/src/decode.rs:155-189 | on EtherIP the two differ exactly on version-3 headers with fewer than 14 bytes behind them |
| SessionStatistics.SessionStats.Record | crates/eoip-analyzer/src/stats.rs:55-124 | one call changes the counters as `Recorded` says |
| SessionStatistics.CountersAreRecounts | crates/eoip-analyzer/src/stats.rs:55-134 | after any calls every counter equals the number of calls with its variant, and every entry of the tunnel table a recount of the packets |
| SessionStatistics.PeersExactly | crates/eoip-analyzer/src/stats.rs:110-114 | a recounted peer set holds exactly the sources and destinations of the packets |
| SessionStatistics.CountersAgree | crates/eoip-analyzer/src/stats.rs:55-134 | the kinds add up to the total, and the tunnel table's packets, keepalives and bytes to the session's (bytes: to no more) |
| SessionStatistics.TypesAndKeepalivesFit | crates/eoip-analyzer/src/stats.rs:103-122 | in any session of packets the decoder made, per tunnel, keepalives and counted Ethernet types together do not exceed the packets |
| ShellSplitting.ShellSplit | crates/eoip-cli/src/parse.rs:95-123 | the loop computes `Split` |
| ShellSplitting.SplitUndoesPrint | crates/eoip-cli/src/parse.rs:95-123 | tokens printed as any mixture of bare, double-quoted and single-quoted pieces, joined by any blanks, split back to their texts, empty ones lost |
| ShellSplitting.UnclosedQuote | crates/eoip-cli/src/parse.rs:102-108 | a quote that is never closed takes the rest of the line |
| ShellSplitting.QuotedRoundTrip | crates/eoip-cli/src/parse.rs:95-123 | every list of non-empty strings can be printed so that it splits back to itself |
| CliParse.NormalizeTokens | crates/eoip-cli/src/parse.rs:69-93 | the two loops compute `Normalized` |
| CliParse.NormalizeIdempotent | crates/eoip-cli/src/parse.rs:69-93 | normalising twice is normalising once |
| CliParse.PrefixIsIgnored | crates/eoip-cli/src/parse.rs:69-93 | a leading /interface/eoip changes nothing, as a token or as the start of a path |
| CliParse.ParseKv | crates/eoip-cli/src/parse.rs:125-133 | later pairs override earlier ones and words without an equals sign are ignored |
| Text.U32RoundTrip | crates/eoip-cli/src/parse.rs:172-178 | a number printed in decimal parses to itself |
| Text.U32Exactly | crates/eoip-cli/src/parse.rs:172-178 | a string parses to n exactly if it is the decimal digits of n, with any noughts in front and perhaps a plus sign before those |
| CliParse.AddRoundTrip | crates/eoip-cli/src/parse.rs:172-190 | an Add command printed as key=value words parses back to itself if and only if no value contains a slash and none ends in a blank |
| CliParse.ShortKeys | crates/eoip-cli/src/parse.rs:172-190 | `remote` and `local` stand in for the long keys where these are missing |
| CliParse.LongKeysFirst | crates/eoip-cli/src/parse.rs:172-190 | beside the long keys they count for nothing |
| CliParse.ParsePrint | crates/eoip-cli/src/parse.rs:135-170 | the loop computes `PrintOf` |
| CliParse.PrintParses | crates/eoip-cli/src/parse.rs:135-170 | `print` shows detail exactly if a word before `where` says so, and filters by the pairs behind `where`, or else by the last number before it |
| CliParse.VerbsWithId | crates/eoip-cli/src/parse.rs:192-245 | `remove`, `enable`, `disable` and `stats`, under every name and in any case, yield their command with the id that follows |
| CliParse.VerbsWithoutId | crates/eoip-cli/src/parse.rs:192-245 | without an id they are refused, but `stats` is about all tunnels |
| CliParse.OnlyRemoveTakesPairs | crates/eoip-cli/src/parse.rs:192-221 | a tunnel-id pair in place of the number is accepted by `remove` and by no other verb |
| CliParse.VerbsAlone | crates/eoip-cli/src/parse.rs:50-55 | `monitor`, `health`, `help` and `quit`, under every name, yield their command whatever follows |
| CliParse.SetParses | crates/eoip-cli/src/parse.rs:223-235 | `set` yields its id and pairs exactly if one of the words behind the id has an equals sign |
| CliParse.UnknownVerbs | crates/eoip-cli/src/parse.rs:40-58 | a verb is unknown exactly if it is none of the seventeen |
| CliParse.NothingToDo | crates/eoip-cli/src/parse.rs:29-39 | no tokens, and nothing but prefixes, are two different errors |
| CliParse.CommandRoundTrip | crates/eoip-cli/src/parse.rs:29-58 | every command but `set`, printed as words, parses back to itself if and only if no text in it contains a slash or ends in a blank |
| CliParse.CommandLineRoundTrip | crates/eoip-cli/src/parse.rs:61-67 | and so does the whole line, with every word quoted, under the same condition |

## Left out

- System calls, sockets, memory mapping, firewall rules, IPsec, gRPC, the REPL, terminal output and the Windows drivers.
- Library internals: the concurrent map, the bounded queue and the runtime are a map, a sequence and a nondeterministic choice; messages between the processes keep their boundaries.
- Rx.RxPath.Deliver: the channel is modelled by the contents of its buffers and not by the buffer objects; a frame the channel takes stays live in the pool's account.
- Rx.RxPath.ProcessV4Packet: counters are unbounded, so wrap-around at 64 bits is not modelled.
- RingBlock.WalkBlock: fields are read in little-endian order, the order of the machines the daemon runs on; the callback is the list of what it is called with.
- RingProtocol.FifoExactlyOnce: the kernel is assumed to write only the block that is next for it, and to publish well-formed chains.
- TxBatch.TxBatcher.FlushBatch: states what is handed to the sockets, not what they send; partial sends and errors are only logged by the source.
- LifecycleRuns.StaleByDeadline: the spacing of the rounds is a hypothesis on the timer.
- LifecycleRuns.HistoryIsPath: the cancellation of the keepalive task by a destroy is one more possible step and not forced, as its loop chooses freely among the ready branches.
- Keepalive.CacheTolerance: one receive thread and one tunnel; the cache is per thread and shared by all its tunnels.
- TunnelManager.Manager.CreateTunnel: operations come one at a time, and the loop that drains late helper messages (crates/eoip-rs/src/tunnel/manager.rs:168-174) is assumed to return.
- StartupProtocol.FailsExactly: TAP interfaces and the IPv4 raw socket are granted; refusals are in `HandleCreateTunnel`.
- Helper.HelperProcess.ServeCreate: exit mode, which stops at the first failure, is not modelled beyond `HandleCreateTunnel`.
- Pmtud.LinuxOnPath: sizes on the wire follow the source's own accounting, in which the kernel adds 28 bytes to what is sent; what a given kernel makes of the datagram is not modelled.
- Pmtud.TunnelMtu.DoPmtud: the overlay MTU is that of plain IPv4, as the source subtracts the IPv4 overhead whatever the transport.
- AnalyzerDecode.EoipCheckersAgree: IP-header parsing, pcap reading and the texts of deviations are left out; a deviation is its severity and field.
- CliParse.AddRoundTrip: lower-casing is that of ASCII; error messages are reduced to their kind.
- CliParse.CommandRoundTrip: `set` carries a map, whose order of printing is not fixed; `SetParses` says what any order of its pairs parses to.
