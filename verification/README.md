# VLite, verified

VLite is a packet tunnel. This project models its stateful core in Dafny and proves what it promises over whole runs.

| part | specification and proofs | the program's own form |
|---|---|---|
| Forward error correction: chunks of at most 40 packets, parity spread over later epochs from a ring of 30 slots, reassembly over a network that loses, delays, reorders and repeats | `ErasureCode`, `Facility`, `Chunk`, `ChunkFeed`, `ReadFeed`, `Sender`, `EpochBudget`, `SenderInvariant`, `Receiver`, `FecSession`, `FecCompletion`, `FecTheorems`, `EpochTraffic`, `EpochTheorems` | `RsFacility`, `Transmitter`, `Reassembly` |
| A Reed-Solomon code that meets the law assumed of the erasure code | `GaloisField`, `ReedSolomon`, `FecInstance` | |
| Channel association between server and client | `ChannelProtocol`, `ChannelProtocolProof`, `ChannelProgress`, `FlowKeys`, `Unannounced` | `Workers` |
| Lock-free ring buffer, one atomic access per step | `RingBuffer`, `RingBufferProof`, `RingBufferQueue`, `RingBufferDispose` | |
| Channel number allocator | `ChannelNumbers` | `ChannelNumberFinder` |
| Anti-replay window, masked-length framing, packet maskers, boost scaler | `AntiReplay`, `Framing`, `Maskers`, `Boost`, `BoostProgress`, with `Bits` | classes and methods in the same files |

A specification is a function on values that follows the code branch by branch, Go panics included: they become a flag
or a missing answer. The program's own form is a class or a method that updates its fields, buffers and counters in
place and is proved to compute that function. The theorems are about runs of the functions, and say what a run must
show in terms of its events alone: which payloads come out where, how many datagrams of which chunk an epoch adds, how
many connections are left.

Where the code does not do what its surroundings expect, the property is stated with its exact condition:

- An empty payload's header reads as that of a parity shard, and beyond 1640 bytes the receiver's read buffer cuts parity:
  a chunk survives exactly with payloads of 1 to 1640 bytes (`LengthsSurviveExactlyWhenShort`,
  `SurvivesReadingExactlyWhenShort`, `ParityAloneRestoresExactly`).
- A data datagram delivered twice is put out twice until its chunk is completed by reconstruction
  (`PayloadsRepeatExactlyWhen`, `TwiceDeliveredComesOutTwice`).
- A flow whose announcement finds no room is never announced again and never becomes tracked
  (`UnannouncedStaysUntracked`).
- A ring buffer of capacity one accepts a second item before the first is taken (`BoundedExactlyFromTwo`).
- The client's address key is not injective for IPv4 (`KeysMeetExactlyAtTheSeam`, `TextKeysSafeExactlyWhenSeamsApart`).
- The allocator hands out the reserved number 0 at one kind of turn, and may hand out the unscanned top while it is in
  use (`ServerRunsAreCleanExactlyWhenCareful`, `FullSweepHandsOutZero`, `TopIsHandedOutTwice`).
- The boost manager for sending connections gets a ring made from the receiving limit; a sending limit above that
  ring's size can block it (`ProgramRingsFit`).
- The layered masker panics on packets of 1 to 15 and of more than 1600 bytes (`PolyStackRoundTripsExactly`).
- A masked length that reads as negative makes the frame receiver panic (`PanicsExactlyOnNegativeHeader`,
  `OneHeaderPanics`).

To check the whole project, run `dafny verify dfyconfig.toml`.

## Model

| member | source | states |
|---|---|---|
| FecTheorems.EnoughShardsDeliverTheChunk | transport/udp/errorCorrection/assembly/rx.go:48-85 | in every run over a network that loses, delays, reorders and repeats datagrams: once as many distinct shards of a chunk have arrived as it has payloads, in any mix of data and parity, every payload of the chunk has been put out under its own position |
| FecTheorems.OnlyGenuinePayloads | transport/udp/errorCorrection/assembly/rx.go:36-87 | in every such run neither side panics and everything the receiver puts out is a payload that was submitted, found under its own chunk and position |
| FecTheorems.NoPayloadTwice | transport/udp/errorCorrection/assembly/rx.go:62-83 | in every run in which no data datagram is delivered twice, no payload is put out twice; repeated parity datagrams do no harm |
| FecTheorems.DeliveryRepeatsExactlyWhen | transport/udp/errorCorrection/assembly/rx.go:62-83 | a delivery puts a payload out twice if and only if it repeats a data datagram whose chunk has not been completed by reconstruction |
| FecTheorems.PayloadsRepeatExactlyWhen | transport/udp/errorCorrection/assembly/rx.go:62-83 | a whole run puts no payload out twice if and only if none of its deliveries repeats a data datagram before there was a moment at which a parity shard and enough shards of its chunk had arrived while a data shard was still missing |
| FecCompletion.DoneExactlyWhenCompleted | transport/udp/errorCorrection/assembly/rx.go:70-82 | in every run the receiver is done with a chunk if and only if there was such a moment |
| FecTheorems.TwiceDeliveredComesOutTwice | transport/udp/errorCorrection/assembly/rx.go:62-69 | for every fitting payload the run of three events that puts it out twice |
| FecTheorems.PlainTrafficPassesThrough | transport/udp/errorCorrection/assembly/rx.go:26-50 | unprotected payloads of any length come out once per delivery, in delivery order, cut to the 1644 bytes that the read buffer leaves, whatever protected traffic is interleaved |
| FecTheorems.ChunksHoldTheInput | transport/udp/errorCorrection/assembly/tx.go:71-98 | in every run, however long, the payloads of all chunks, in order, are exactly the payloads submitted under protection; likewise for unprotected ones |
| FecTheorems.SenderStaysWithinParity | transport/udp/errorCorrection/assembly/tx.go:50-66 | in every sender run, with payloads of any length: no panic, no parity shard past the table's entry, every closed chunk holds 1 to 40 payloads, and every slot has sent no more than its schedule released |
| FecTheorems.EpochStaysNearItsQuota | transport/udp/errorCorrection/assembly/tx.go:39-70 | in every run, what goes out at the end of an epoch beyond the shard that closes a chunk is at most what is left of the quota of 40, or less than twice that plus half the ring when scaled; the counter starts again at 0 |
| FecTheorems.UnscaledEpochCatchesUp | transport/udp/errorCorrection/assembly/tx.go:109-139 | an epoch whose quota covers all that is released leaves no slot behind its schedule, and no chunk filled 30 epochs ago has parity left |
| FecTheorems.HeadsRepeatOnlyAfterACycle | transport/udp/errorCorrection/assembly/tx.go:211-215 | two protected datagrams with the same sequence and shard number lie at least 2^32 - 1 chunks apart, across any number of wrap-arounds |
| FecTheorems.ProtectedIsNeverPlain | transport/udp/errorCorrection/assembly/tx.go:211-215 | a datagram carries sequence number 0 if and only if it is unprotected |
| FecTheorems.EnabledSlotsAreDistinct | transport/udp/errorCorrection/assembly/tx.go:200-210 | in every run all enabled ring slots have distinct sequence numbers |
| FecInstance.ReedSolomonDelivers | transport/udp/errorCorrection/assembly/rx.go:48-85 | delivery and genuineness for a concrete Reed-Solomon code with the shipped parity table, with no assumption about the code |
| FecInstance.ParityAloneRestoresExactly | transport/udp/errorCorrection/assembly/rx.go:28-37 | for every payload of any length: when its data shard is lost, the first parity shard alone brings it out if and only if it has at most 1640 bytes, because the read buffer cuts a longer shard |
| Chunk.ReconstructRecovers | transport/udp/errorCorrection/reconstruction/reedSolomon/rs.go:113-167 | from any set of shards that holds a parity shard and is as large as the chunk, reconstruction returns exactly the payloads, however their lengths differ |
| Chunk.ReceivedWidth | transport/udp/errorCorrection/reconstruction/reedSolomon/rs.go:234-258 | one parity shard in the buffer makes the receiver's padding width equal the sender's |
| Chunk.ReconstructIdle | transport/udp/errorCorrection/reconstruction/reedSolomon/rs.go:114-127 | with every data shard in hand, or too few shards, reconstruction changes and returns nothing |
| Chunk.ConstructYieldsParity | transport/udp/errorCorrection/reconstruction/reedSolomon/rs.go:194-232 | the n-th call yields parity shard n with shard number T + n and header -T, and never indexes outside buffer or table |
| Chunk.AddDataShard | transport/udp/errorCorrection/reconstruction/reedSolomon/rs.go:92-110 | a data shard is recorded once and handed out, and `done` is true exactly when a parity shard and enough shards are there |
| Chunk.AddParityShard | transport/udp/errorCorrection/reconstruction/reedSolomon/rs.go:78-91 | a parity shard is recorded once, reveals the chunk's size and hands out nothing; `done` as above |
| ReadFeed.LengthsSurviveExactlyWhenShort | transport/udp/errorCorrection/assembly/rx.go:28-85 | for a chunk of any number of payloads and any code that works by columns: payloads of given lengths survive, whatever they hold, every loss and reordering that leaves enough shards, as read through the 1650-byte buffer, if and only if each has 1 to 1640 bytes |
| ReadFeed.SurvivesReadingExactlyWhenShort | transport/udp/errorCorrection/assembly/rx.go:28-85 | for every single chunk with at least as many parity shards as payloads: it survives, as read through the buffer, if and only if each payload has 1 to 1640 bytes |
| ReadFeed.OverlongIsLost | transport/udp/errorCorrection/assembly/rx.go:28-37 | a chunk with a payload of more than 1642 bytes does not survive, whatever the code and the number of payloads |
| FecInstance.ChunksSurviveExactlyByLength | transport/udp/errorCorrection/assembly/rx.go:28-85 | the length condition for the Reed-Solomon code with the shipped table and any chunk of 1 to 40 packets |
| FecInstance.SmallChunksSurviveExactlyWhenShort | transport/udp/errorCorrection/assembly/rx.go:28-85 | the single-chunk condition for the Reed-Solomon code with the shipped table: chunks of up to 23 packets |
| ChunkFeed.SurvivesExactlyWhenSendable | transport/udp/errorCorrection/reconstruction/reedSolomon/rs.go:57-192 | the error-correction facility by itself, fed with whole shards: a chunk survives every loss and reordering that leaves enough shards if and only if each payload has 1 to 32767 bytes, because an empty one reads as parity and a longer one does not fit its int16 header |
| ErasureCode.DefaultTableIsLawful | transport/udp/errorCorrection/reconstruction/reedSolomon/default.go:5-16 | the shipped table has 80 entries, each at least 1 and small enough for a code of 256 shards |
| ReedSolomon.ShardsDetermineData | transport/udp/errorCorrection/reconstruction/reedSolomon/rs.go:133-142 | any T of the T + P shards of a code word leave one choice for the data shards |
| ReedSolomon.CodeIsLawful | transport/udp/errorCorrection/reconstruction/reedSolomon/rs.go:202-214 | the law that the session theorems assume of the erasure code is met by a Reed-Solomon code over the field with 256 elements |
| ReedSolomon.CodeWorksByColumns | transport/udp/errorCorrection/reconstruction/reedSolomon/rs.go:202-214 | a parity byte depends on the data bytes of its own column only |
| RsFacility.ErrorCorrection.AddData | transport/udp/errorCorrection/reconstruction/reedSolomon/rs.go:169-192 | stores the wrapped payload at the next place: the state and result of the specification, by growing the buffer in place |
| RsFacility.ErrorCorrection.MatchSize | transport/udp/errorCorrection/reconstruction/reedSolomon/rs.go:234-258 | every entry is padded to the width of the longest known one; nil entries are skipped or become zero shards |
| RsFacility.ErrorCorrection.ConstructReconstructShard | transport/udp/errorCorrection/reconstruction/reedSolomon/rs.go:194-232 | the in-place version yields the state, number, shard and `more` flag of the specification, and panics exactly where the specification says |
| RsFacility.ErrorCorrection.AddShard | transport/udp/errorCorrection/reconstruction/reedSolomon/rs.go:57-111 | the in-place version agrees with the specification for every shard, well-formed or not |
| RsFacility.ErrorCorrection.Reconstruct | transport/udp/errorCorrection/reconstruction/reedSolomon/rs.go:113-167 | the in-place version, with its padding and stripping loops, agrees with the specification, including where it panics |
| EpochBudget.GuidanceIsBounded | transport/udp/errorCorrection/assembly/tx.go:109-139 | if the quota covers what the slots may send, each sends all of it; otherwise each sends the nearest whole number to its allowance divided by allowance total / quota, and together they send at least the quota less half the ring and less than twice the quota plus half the ring |
| EpochBudget.RoundRobinServes | transport/udp/errorCorrection/assembly/tx.go:54-64 | the round-robin loop serves every slot exactly as often as its guidance says |
| EpochBudget.RoundRobinLength | transport/udp/errorCorrection/assembly/tx.go:54-64 | the loop ends after as many sends as the guidance sums to |
| EpochBudget.RoundRobinOrder | transport/udp/errorCorrection/assembly/tx.go:54-64 | the slots take turns, and within a turn they are served in the order of the ring |
| EpochBudget.ScheduleGrows | transport/udp/errorCorrection/assembly/tx.go:146-161 | a slot's released count is the nearest whole number to as many thirtieths of its parity as epochs have passed, and never shrinks |
| SenderInvariant.FinishKeeps | transport/udp/errorCorrection/assembly/tx.go:190-219 | closing a chunk keeps the sender's invariant and leaves an empty current chunk |
| SenderInvariant.SendFecKeeps | transport/udp/errorCorrection/assembly/tx.go:221-231 | while a slot has headroom, sending one of its parity shards keeps the invariant and uses up exactly one unit |
| SenderInvariant.PacketKeeps | transport/udp/errorCorrection/assembly/tx.go:71-98 | a submitted packet keeps the invariant |
| SenderInvariant.EpochKeeps | transport/udp/errorCorrection/assembly/tx.go:39-70 | the epoch timer keeps the invariant |
| EpochTheorems.EventsDecideChunks | transport/udp/errorCorrection/assembly/tx.go:39-98 | in every run: the chunks follow from the events, closed by the fortieth packet or by the epoch timer, and every protected packet and every closing counts as one datagram of the epoch |
| EpochTheorems.ParityIsPaced | transport/udp/errorCorrection/assembly/tx.go:140-176 | in every run and for every closed chunk: n epoch timers after its last packet, at most (n - 1)/30 of the parity behind its first shard, rounded to the nearest, has gone out |
| EpochTheorems.EpochPaysWhatIsDue | transport/udp/errorCorrection/assembly/tx.go:39-70 | what one epoch timer adds to the wire after any events: the closing shard if a chunk holds data, then of each of the newest chunks exactly what is due if the quota of 40 covers it, else its nearest scaled share; nothing if the quota is used up; all other chunks stay as they were |
| EpochTheorems.CoveredEpochCatchesUp | transport/udp/errorCorrection/assembly/tx.go:109-139 | after an epoch whose quota covers what is due, every chunk in the ring has sent exactly its first shard and n/30 of the rest, rounded to the nearest, n timers after its last packet |
| EpochTheorems.ScarceEpochUsesItsQuota | transport/udp/errorCorrection/assembly/tx.go:109-139 | an epoch whose quota q does not cover what is due writes at least q - 15 parity datagrams and fewer than 2q + 15 |
| EpochTheorems.EverythingIsWritten | transport/udp/errorCorrection/assembly/tx.go:71-98 | in every run a shard is on the wire if and only if it is a submitted payload or a parity shard that its chunk counts as sent |
| EpochTheorems.DatagramsOnTheWire | transport/udp/errorCorrection/assembly/tx.go:233-278 | in every run, bit by bit: the big-endian head with sequence and shard number, the payload of a data shard behind its big-endian length, the bare payload without protection |
| Transmitter.PacketAssembly.SelectPacketToSend | transport/udp/errorCorrection/assembly/tx.go:109-139 | both passes over the ring compute the guidance of the specification, and these are fair shares: all that is allowed, or the quota within half a shard per slot |
| Transmitter.PacketAssembly.SendGuided | transport/udp/errorCorrection/assembly/tx.go:54-64 | the nested send loops serve the slots in the order of the specification and end |
| Transmitter.PacketAssembly.FinishThisSeq | transport/udp/errorCorrection/assembly/tx.go:190-219 | the in-place step gives the specified state |
| Transmitter.PacketAssembly.SendFecPacket | transport/udp/errorCorrection/assembly/tx.go:221-231 | the in-place step gives the specified state |
| Transmitter.PacketAssembly.OnEpochTimer | transport/udp/errorCorrection/assembly/tx.go:39-70 | from every state a run can reach: no panic, the specified state, the invariant kept |
| Transmitter.PacketAssembly.OnOutgoing | transport/udp/errorCorrection/assembly/tx.go:71-98 | from every state a run can reach: no panic, the specified state, the invariant kept |
| Receiver.AcceptAnswers | transport/udp/errorCorrection/assembly/rx.go:62-85 | every shard of an unfinished chunk, in any order and any number of times, is answered with its own payload and then only with payloads never put out before |
| Reassembly.ChunkHolder.Take | transport/udp/errorCorrection/assembly/rx.go:65-83 | the in-place step agrees with the specification for every shard, well-formed or not |
| Reassembly.Reassembler.OnDatagram | transport/udp/errorCorrection/assembly/rx.go:28-87 | the in-place step agrees with the specification for every datagram: truncated, unprotected, first of its chunk or not, and where it panics |
| RingBufferProof.GetReturnsTheMatchingPut | vendor2/github.com/golang-collections/go-datastructures/queue/ring.go:67-127 | in every interleaving of any number of threads, the Get that claimed ticket p returns the item of the Put that claimed ticket p |
| RingBufferProof.ClaimedGetIsPending | vendor2/github.com/golang-collections/go-datastructures/queue/ring.go:100-127 | a claimed Get that has not returned is still in the hands of its thread: nothing taken out is dropped |
| RingBufferProof.WaitingItemsAreStored | vendor2/github.com/golang-collections/go-datastructures/queue/ring.go:67-94 | every accepted item not yet claimed sits in its node or its Put has still to publish it |
| RingBufferProof.BoundedExactlyFromTwo | vendor2/github.com/golang-collections/go-datastructures/queue/ring.go:130-132 | 0 <= queue - dequeue <= capacity in every run if and only if the capacity is at least two |
| RingBufferProof.OneSlotOverflows | vendor2/github.com/golang-collections/go-datastructures/queue/ring.go:55-94 | with capacity one, a second item is accepted before the first is taken out |
| RingBufferQueue.PutAppendsExactlyWithRoom | vendor2/github.com/golang-collections/go-datastructures/queue/ring.go:67-94 | while no other thread moves, a Put finishes if and only if the buffer holds less than its capacity, and then appends its item; otherwise it waits for ever |
| RingBufferQueue.GetTakesTheFirstExactlyIfThereIsOne | vendor2/github.com/golang-collections/go-datastructures/queue/ring.go:100-127 | while no other thread moves, a Get finishes if and only if the buffer is not empty, and then returns and removes the first item |
| RingBufferDispose.DisposeEndsEveryCall | vendor2/github.com/golang-collections/go-datastructures/queue/ring.go:139-144 | once the buffer is disposed of, every call under way ends within five steps of its own, whatever other threads do in between |
| RingBufferDispose.DisposedTakesNoMore | vendor2/github.com/golang-collections/go-datastructures/queue/ring.go:139-144 | a call that begins after that returns in its second step and leaves the buffer as it was |
| RingBuffer.RoundUpIsTheNextPower | vendor2/github.com/golang-collections/go-datastructures/queue/ring.go:25-35 | for every uint32: the smallest power of two that is not below the argument, and 0 for an argument of 0 or above 2^31 |
| Bits.MaskIsRemainder | vendor2/github.com/golang-collections/go-datastructures/queue/ring.go:76-76 | masking a ticket with capacity - 1 takes its remainder by the capacity |
| ChannelNumbers.AtMostTwoReorganisations | workers/channelNumberFinder/channelNumberFinder.go:38-84 | an allocation reorganises at most twice, for any masks and any usage |
| ChannelNumbers.FirstAnswersCountUp | workers/channelNumberFinder/channelNumberFinder.go:48-59 | with both masks zero the first 65535 answers are 1, 2, 3, ... whatever is in use |
| ChannelNumbers.AnswerIsNext | workers/channelNumberFinder/channelNumberFinder.go:38-84 | within a sweep the numbers follow each other, and after a turn the next number lies right behind the numbers in use, with none of them ahead in the sweep |
| ChannelNumbers.AllocationIsFree | workers/channelNumberFinder/channelNumberFinder.go:38-84 | in a sweep, raw number 0 is handed out if and only if an upward sweep ends while channel 1 is in use; any other answer is in range and free unless it is the unscanned top, and leaves the sweep in order |
| ChannelNumbers.RunsAreCleanExactlyWhenCareful | workers/channelNumberFinder/channelNumberFinder.go:26-84 | in every run of allocations and releases, all numbers handed out are free and not 0 if and only if none is taken at a bad turn or when the top comes next and is in use |
| ChannelNumbers.ServerRunsAreCleanExactlyWhenCareful | workers/server/serverWorker.go:34-34 | the same for every run of the allocator as the server sets it up, with nothing in use |
| ChannelNumbers.FullSweepHandsOutZero | workers/channelNumberFinder/channelNumberFinder.go:38-84 | taking 65536 numbers and releasing none, the server's allocator hands out 1, 2, ..., 65535 and then 0 |
| ChannelNumbers.TopIsHandedOutTwice | workers/channelNumberFinder/channelNumberFinder.go:63-84 | a run of the server's allocator that hands out 65535 a second time although it was never released |
| ChannelNumberFinder.NumberFinder.FindNext | workers/channelNumberFinder/channelNumberFinder.go:26-36 | the in-place version agrees with the specification |
| ChannelNumberFinder.NumberFinder.FindNextRaw | workers/channelNumberFinder/channelNumberFinder.go:38-61 | the self-recursive in-place version agrees with the specification and ends |
| ChannelNumberFinder.NumberFinder.Organise | workers/channelNumberFinder/channelNumberFinder.go:63-84 | the scanning loop finds the largest and smallest number in use below the top |
| ChannelProtocolProof.SafeExactlyWhenKeysApart | workers/client/clientWorker.go:413-421 | for every set of flows: all runs whose packets belong to these flows, with at most 65535 allocations and under loss, reordering and repetition, attribute every payload to the flow its sender meant or drop it, in both directions, if and only if no two of the flows share an address key |
| ChannelProtocolProof.NeverMisdeliversExactlyWhenInjective | workers/client/clientWorker.go:413-421 | the same for all runs of all flows: if and only if the key is injective |
| ChannelProtocolProof.CollisionMisdelivers | workers/client/clientWorker.go:413-421 | any two flows with one key give a run in which a payload of one goes to the remote address of the other |
| ChannelProgress.ClientGetsTheMeantFlow | workers/client/clientWorker.go:394-411 | whatever the keys are, every payload that the client hands to a flow was sent by the remote side to that very flow before |
| ChannelProtocolProof.TrackedIsKnownToTheClient | workers/server/serverWorker.go:661-694 | in every reachable state a flow Tracked on channel c is mapped from c by the client's channel table, whatever stale messages are in flight |
| ChannelProtocolProof.ServerTablesAgree | workers/server/serverWorker.go:535-574 | channel c maps to flow f if and only if f's record is Tracking on c; Tracked and TrackPending each imply Tracking |
| Unannounced.UnannouncedStaysUntracked | workers/server/serverWorker.go:553-571 | in every run: a flow granted its channel when the control queue has no room keeps the channel and is never Tracked, no announcement of the channel is ever sent and the client never learns of it |
| ChannelProtocolProof.ClientTablesAgree | workers/client/clientWorker.go:301-393 | an address mapped to channel c implies that c maps back to a flow with that address, also after late destroy messages |
| ChannelProgress.DeliveriesAreGenuine | workers/server/serverWorker.go:191-249 | in every run each payload handed on, at either side, entered the run before, unchanged and for the flow that was meant |
| ChannelProgress.RemoteReachesTheClient | workers/server/serverWorker.go:385-446 | after any run, a payload from the remote side of an open socket leaves in exactly one message, tagged with its channel if the flow is Tracked and with full addresses otherwise, and the arrival of that message hands it to the flow at the client |
| ChannelProgress.LocalReachesTheServer | workers/client/clientWorker.go:413-476 | after any run, a packet of the client's network leaves in exactly one message, whose arrival hands the payload on exactly if the socket of the flow that holds the channel, or of the flow itself, is open or dialled |
| ChannelProgress.AnswerTracks | workers/server/serverWorker.go:661-694 | after any run, the answer for the channel a flow is Tracking on makes it Tracked on that channel; an answer for another channel leaves its record as it was |
| ChannelProgress.HandshakeCompletes | workers/server/serverWorker.go:535-574 | after any run, a remote payload of a flow without a channel announces one; when announcement and answer have arrived, both sides send and take the flow's payloads on that channel |
| ChannelProgress.UntrackingReachesTheClient | workers/server/serverWorker.go:575-659 | after any run, untracking a Tracked flow sends its destroy message, and when that has arrived neither side has the channel and the client's packets carry full addresses again |
| ChannelProgress.RecordMoves | workers/server/serverWorker.go:535-694 | a flow's record changes on exactly three kinds of events: asked for without a channel it gets the next number, the answer for its channel makes it Tracked, and its untracking clears it |
| ChannelProgress.SocketMoves | workers/server/serverWorker.go:191-249 | a source has a socket exactly from a dialled payload of its own until its listener gives up |
| ChannelProgress.ChannelMoves | workers/client/clientWorker.go:301-393 | the client knows a channel exactly from the association that names it until the channel is destroyed |
| ChannelProgress.AddressMoves | workers/client/clientWorker.go:301-393 | the client tags an address exactly from its association until the channel that went with it is destroyed |
| FlowKeys.KeysMeetExactlyAtTheSeam | workers/client/clientWorker.go:83-85 | two IPv4 flows share a key if and only if they agree outside source port and first destination byte and the digits of these two run together alike |
| FlowKeys.KeysCollide | workers/client/clientWorker.go:83-85 | 1.2.3.4:1 to 12.3.4.5:80 and 1.2.3.4:11 to 2.3.4.5:80 share the key 1.2.3.4:112.3.4.5:80 |
| FlowKeys.DecIsDecimal | workers/client/clientWorker.go:83-85 | the numbers in a key are written in decimal without leading zeros |
| FlowKeys.TextKeysSafeExactlyWhenSeamsApart | workers/client/clientWorker.go:83-85 | which traffic is safe with the program's own key: runs of a set of flows attribute every payload correctly if and only if no two of the flows meet at the seam |
| FlowKeys.PortsOfOneLengthAreSafe | workers/client/clientWorker.go:83-85 | flows whose source ports all have the same number of digits are safe |
| FlowKeys.TextKeysMisdeliver | workers/client/clientWorker.go:413-421 | two flows are enough for a run that hands a client's payload to the wrong remote address |
| FlowKeys.MisdeliveryIsConfinedToTheSeam | workers/client/clientWorker.go:413-421 | with these keys a wrong attribution happens only at the server, between flows that agree outside the seam, and only if their source ports differ in the number of digits |
| Workers.ServerWorker.IsConnectionTracked | workers/server/serverWorker.go:535-574 | new tables, announcement and answer as specified, for a new, pending, tracking or tracked flow; index, records and allocator stay in agreement |
| Workers.ServerWorker.UntrackConnection | workers/server/serverWorker.go:596-659 | new tables, destroy message and answer as specified; the agreement is kept |
| Workers.ServerWorker.OnControlSend | workers/server/serverWorker.go:191-249 | new tables, messages and delivery as specified |
| Workers.ServerWorker.TxToClient | workers/server/serverWorker.go:385-446 | tagged data for a tracked flow, an addressed message otherwise |
| Workers.ServerWorker.OnControlAssociateDone | workers/server/serverWorker.go:661-694 | the record becomes Tracked exactly when the channel is still its own; the agreement is kept unless the message names channel 0 |
| Workers.ServerWorker.OnData | workers/server/serverWorker.go:729-761 | delivery to the indexed flow, a drop, or an untrack when the socket is gone |
| Workers.ClientWorker.OnControlAssociate | workers/client/clientWorker.go:301-337 | both tables and the answer as specified; addresses still lead to channels that lead back, unless the channel belonged to another flow |
| Workers.ClientWorker.OnControlChannelDestroy | workers/client/clientWorker.go:375-393 | both tables as specified; addresses still lead to channels that lead back |
| Workers.ClientWorker.OnData | workers/client/clientWorker.go:394-411 | delivery to the flow of the channel, or a drop |
| Workers.ClientWorker.TxToServer | workers/client/clientWorker.go:413-476 | tagged data for a known address, an addressed message otherwise |
| AntiReplay.AcceptedIsRefusedForAWindow | transport/antiReplayWindow/noReplay.go:24-50 | a value accepted at time t is refused by every later check up to and including t + AntiReplayTime, whichever pool rotates first, however often it is retried and whatever else the pools refuse by mistake |
| AntiReplay.WindowIsTight | transport/antiReplayWindow/noReplay.go:24-50 | for every window there is a run in which the value is accepted again one time unit later |
| AntiReplay.RefusedWasSeen | transport/antiReplayWindow/noReplay.go:24-50 | a value is refused only if a pool takes it by mistake for one it holds, or if it was asked about before, at most one rotation ago |
| AntiReplay.UnseenIsAccepted | transport/antiReplayWindow/noReplay.go:47-47 | a value asked about for the first time is accepted if and only if no pool takes it by mistake for one it holds |
| AntiReplay.AcceptedExactlyWhen | transport/antiReplayWindow/noReplay.go:24-50 | exactly when a check is accepted, in every run: the first pool takes the value unless it clashes there or that pool took it since its last even rotation, and the second pool then accepts it unless it clashes there or was accepted since the last odd rotation; rotations follow from the clock readings |
| AntiReplay.AntiReplayWindow.Check | transport/antiReplayWindow/noReplay.go:24-50 | the in-place version agrees with the specification |
| Framing.DecodeInvertsEncode | transport/http/wrapper/PacketWrapper.go:16-49 | for every mask sequence and every list of packets of at most 1601 bytes, the receiver gets exactly the non-empty ones, in order, and the whole stream is consumed |
| Framing.InStep | transport/http/wrapper/PacketWrapper.go:20-41 | after any packets, whatever follows is read with the generator exactly where the sender left it |
| Framing.AnythingSentArrives | transport/http/wrapper/PacketWrapper.go:178-210 | for any packets at all, those before the first one that is too long arrive |
| Framing.EncodeInvertsFrames | transport/http/wrapper/PacketWrapper.go:16-49 | for every byte stream: what was read as frames encodes to exactly the bytes consumed |
| Framing.CutStreamYieldsWholeFrames | transport/http/wrapper/PacketWrapper.go:44-49 | a stream cut at any byte yields exactly the packets whose frames came through whole |
| Framing.HeaderHidesTheLength | transport/http/wrapper/PacketWrapper.go:178-210 | every bit of the eight header bytes is the bit of the packet's length, flipped where the mask has that bit; the packet follows as it is |
| Framing.FrameOnTheWire | transport/http/wrapper/PacketWrapper.go:178-210 | the m-th packet's frame has its place in the stream and is masked by the m-th number of the generator |
| Framing.SendPacketOverWriter | transport/http/wrapper/PacketWrapper.go:112-127 | the send loop writes the specified stream up to where the writer fails; the packet at which it failed goes back to the queue, and exactly the packets before it arrive |
| Framing.PanicsExactlyOnNegativeHeader | transport/http/wrapper/PacketWrapper.go:20-41 | the receiver panics if and only if, after whole frames, the first byte of a header is 128 or more; the mask does not matter |
| Framing.OneHeaderPanics | transport/http/wrapper/PacketWrapper.go:20-41 | eight bytes that make the receiver panic for every mask sequence |
| Framing.ReceivePacketOverReader | transport/http/wrapper/PacketWrapper.go:16-49 | the receive loop hands on the specified packets and stops for the specified reason, also on malformed streams |
| Maskers.LayersInvert | transport/udp/packetMasker/layers/layers.go:14-61 | layers that each invert, in any number and order, invert together |
| Maskers.PolyStackRoundTripsExactly | transport/udp/packetMasker/presets/prependandxor/pax.go:19-26 | the preset stack brings a packet back if and only if it is empty or has 16 to 1600 bytes; otherwise masking panics |
| Maskers.StackFlipsBits | transport/udp/packetMasker/presets/prependandxor/pax.go:19-26 | what the preset stack puts out, bit by bit: the prefix, then the packet flipped by the keystream of its tail, except in the tail, and by the constant pattern |
| Maskers.PolyXorFlips | transport/udp/packetMasker/polyxor/polyxormask.go:40-71 | the keystream of the tail flips the first buffer but for its last 16 bytes and nothing else; masking panics exactly outside 16 to 1600 and 1616 to 1632 bytes |
| Maskers.ConstantXorFlips | transport/udp/packetMasker/constantXor/xormasker.go:31-52 | the pattern flips every byte of up to 1600; longer packets panic |
| Maskers.PolyXorInverts | transport/udp/packetMasker/polyxor/polyxormask.go:40-71 | masking twice is the identity wherever it does not panic, because the 16-byte tail that seeds the keystream stays as it is |
| Maskers.ConstantXorInverts | transport/udp/packetMasker/constantXor/xormasker.go:31-52 | masking twice is the identity wherever it does not panic |
| Maskers.PrependInverts | transport/udp/packetMasker/prepend/prepend.go:13-28 | unmasking drops exactly the prepended pattern |
| Maskers.PolyXorInternal | transport/udp/packetMasker/polyxor/polyxormask.go:40-71 | the buffer loop with its running counter computes the specified bytes and panics exactly as specified |
| Maskers.ConstantXorInternal | transport/udp/packetMasker/constantXor/xormasker.go:31-52 | the buffer loop with its running counter computes the specified bytes and panics exactly beyond one buffer |
| Maskers.MaskLayers | transport/udp/packetMasker/layers/layers.go:14-37 | the loop applies the layers first to last |
| Maskers.UnmaskLayers | transport/udp/packetMasker/layers/layers.go:39-61 | the loop applies the layers last to first |
| Boost.ProgramRingsFit | transport/http/httpClient/boost.go:107-107 | with rings of the size the program computes: the receiving manager never waits, and the sending manager can come to wait if and only if its limit exceeds the ring made from the receiving limit |
| Boost.NeverStuckExactlyWhenItFits | transport/http/httpClient/boost.go:103-157 | for any ring: in no run does Put meet a full ring or Get an empty one, if and only if the connection limit is at most the capacity |
| Boost.ConnectionsStayWithinRequests | transport/http/httpClient/boost.go:43-157 | requested sizes stay within the limit and there are never more boost connections than the largest size requested |
| Boost.GracePrecedesCancellation | transport/http/httpClient/boost.go:124-134 | no receiving connection is cancelled unless four cancellations were spared since a connection was last opened |
| Boost.OldestGoesFirst | transport/http/httpClient/boost.go:103-157 | connections are cancelled in the order they were opened |
| BoostProgress.ConnectionsSettleAtTheWantedSize | transport/http/httpClient/boost.go:43-157 | after any events without a waiting manager: once the requested sizes have arrived and the timers have ticked often enough, there are exactly as many connections as the hints asked for, an eighth of the limit and one more per hint up to the limit |
| BoostProgress.EndedBoostLeavesNothing | transport/http/httpClient/boost.go:87-96 | when boosting ends by hint or by its timer, enough downscale ticks leave no boost connection |
| BoostProgress.RequestsFollowHints | transport/http/httpClient/boost.go:60-96 | in every run the size requested last follows from the hints since boosting last ended, 0 without any, and the manager takes the sizes in order |
| BoostProgress.DownscalingSettles | transport/http/httpClient/boost.go:124-134 | from every reachable state in which the manager does not wait, as many downscale ticks as connections, and four more when receiving, leave exactly the smaller of open and expected |
| BoostProgress.DownscaleTicks | transport/http/httpClient/boost.go:124-134 | of n ticks, those after the grace charges left (all of them when sending) each cancel the oldest connection, as long as there are too many, and nothing else changes |
| BoostProgress.UpscalingSettles | transport/http/httpClient/boost.go:136-155 | enough upscale ticks open connections up to the expected size, if the ring has room for it |
| Boost.Drive | transport/http/httpClient/boost.go:43-157 | both loops, driven by any sequence of events, end in the specified state, wait exactly when it says so, and stay within the limit |
| Boost.BoostWorker.OnInfo | transport/http/httpClient/boost.go:63-91 | sizes and requests after a hint are as specified, and no request exceeds the limit |
| Boost.ScaleManager.OnDownscaleTick | transport/http/httpClient/boost.go:124-134 | queue and grace charges after a tick are as specified; Get never waits and the queue stays within the limit |
| Boost.ScaleManager.OnUpscaleTick | transport/http/httpClient/boost.go:136-155 | queue and grace charges after a tick are as specified, also on a full ring; waiting happens only if the limit exceeds the capacity |

## Left out

- FecTheorems.EnoughShardsDeliverTheChunk: protected payloads have 1 to 1640 bytes, outside of which chunks do not survive (`ReadFeed.LengthsSurviveExactlyWhenShort`). Runs have fewer than 2^32 chunks and no chunk expires from the reassembly cache, because the model has no clock for the cache.
- FecTheorems.OnlyGenuinePayloads: the same limits.
- FecTheorems.NoPayloadTwice: the same limits.
- FecTheorems.PayloadsRepeatExactlyWhen: the same limits.
- FecTheorems.PlainTrafficPassesThrough: the same limits for the protected traffic that is interleaved.
- FecTheorems.DeliveryRepeatsExactlyWhen: the same limits.
- FecInstance.ReedSolomonDelivers: the same limits.
- ReadFeed.SurvivesReadingExactlyWhenShort: a single chunk of more packets than parity shards, with payloads of 1641 or 1642 bytes, may survive by the luck of its contents; `LengthsSurviveExactlyWhenShort` covers such chunks by their lengths.
- Reassembly.Reassembler.OnDatagram: holders never expire from the cache.
- FecTheorems.HeadsRepeatOnlyAfterACycle: the epoch counter is unbounded; its 64-bit wrap-around is not modelled.
- EpochBudget.GuidanceIsBounded: `math.Round` on a float64 quotient is modelled as exact rational rounding with halves away from zero; float64 rounding of the quotient itself is not modelled.
- Transmitter.PacketAssembly.OnEpochTimer: a failing write to the connection, which ends the sending loop, is not modelled; written datagrams are a list. Byte and shard counters are left out.
- Transmitter.PacketAssembly.OnOutgoing: the same for a failing write.
- Transmitter.PacketAssembly.FinishThisSeq: states in which it would panic are excluded; `OnEpochTimer` and `OnOutgoing` show that no run reaches one.
- Transmitter.PacketAssembly.SendFecPacket: the same.
- Transmitter.PacketAssembly.SendGuided: the same.
- Transmitter.PacketAssembly.SelectPacketToSend: the local guidance slice is a sequence that is reassigned, not an array.
- ReedSolomon.CodeIsLawful: shows that the assumed law can be met with the shipped table; the internals of the Reed-Solomon library itself are not modelled.
- RingBufferProof.GetReturnsTheMatchingPut: tickets are unbounded, so a 32-bit counter that wraps while a thread sleeps is not modelled. That every thread eventually gets its turn is not claimed; `DisposeEndsEveryCall` counts a thread's own steps.
- ChannelProtocolProof.SafeExactlyWhenKeysApart: runs with at most 65535 allocations, so no channel number is reused while old messages are in flight. Each handler is one atomic step; data races inside the server worker are not modelled.
- ChannelProtocolProof.ServerTablesAgree: the retry loop of `untrackAll` is a sequence of single attempts at any time, a superset of what its timer allows.
- ChannelProgress.RemoteReachesTheClient: the same limit of 65535 allocations, here and in `AnswerTracks`, `HandshakeCompletes` and `UntrackingReachesTheClient`; the network may still lose every message.
- FlowKeys.KeysMeetExactlyAtTheSeam: IPv4 addresses only; the IPv6 handlers do the same with other headers.
- FlowKeys.MisdeliveryIsConfinedToTheSeam: one direction, about a single delivery; `TextKeysSafeExactlyWhenSeamsApart` has both.
- Workers.ServerWorker.OnControlSend: the lock that a failed dial leaves held is not modelled, nor are listener timeouts.
- AntiReplay.AcceptedIsRefusedForAWindow: a pool does not lose a value before it is emptied; a cuckoo filter that is full may. The clock is past 1970 and never runs backwards.
- AntiReplay.AntiReplayWindow.Check: the same; pools are sets with clashes, not cuckoo filters.
- AntiReplay.RefusedWasSeen: false positives of the filters are clashes that may happen at any check; a refusal because a filter is full is not told apart from one.
- AntiReplay.UnseenIsAccepted: the same.
- AntiReplay.AcceptedExactlyWhen: the same.
- Framing.DecodeInvertsEncode: the seeded generator is any sequence of 63-bit numbers that both sides share; the fill path writes nothing and is left out.
- Framing.SendPacketOverWriter: that a packet waits at most 120 seconds for room when it goes back to the queue is not modelled.
- Maskers.PolyXorInverts: the keystream is any function of the tail; cSHAKE, CRC-64 and the random generator are not modelled.
- Boost.ProgramRingsFit: the channels between worker and manager never block, and the two directions are modelled one at a time.
- BoostProgress.ConnectionsSettleAtTheWantedSize: the ticks come without a hint in between; a dialled connection that fails by itself stays in the ring, as in the program.
- Sockets, DTLS, SCTP and smux set-up, HTTP and WebSocket dialling, the TUN device, the SOCKS front end, ping and quality estimation, the message bus and the packet armor: input and output around libraries that are not part of this model.
