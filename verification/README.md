# Verified models of the peer-to-peer core

This project models, in Dafny, the parts of the repository whose correctness is not evident from reading one function,
and proves what they are meant to guarantee over every input, every run or every interleaving.

- **Rate limiting** (`TokenBuckets`, `BucketHeaps`, `SubnetLimits`, `SubnetLimiter`, `Subnets`, `GracePeriod`,
  `NetworkLimiter`). Token buckets per subnet live in a heap ordered by expiry with a prefix index; expired buckets are
  forgotten. The heap object refines a plain table. Forgetting is invisible: a limiter that never drops a bucket gives
  the same answers over every run, exactly as long as the grace period is not negative. A request is allowed exactly if
  every bucket it concerns has a token, every window of T seconds stays within T * RPS + Burst for each range of
  addresses, and what a narrow bucket refuses costs the wider ones nothing.
- **File transfer** (`Bitmap`, `Frames`, `FileTransfer`, `FileSession`, `FileGuard`, `SharedRuns`). Both ends are step
  machines over FIFO channels with batched acknowledgements, reconnection and resume. Every reachable state is safe, no
  state is stuck, and every transfer that stops reconnecting ends with the source stored byte for byte. `FileGuard` and
  `SharedRuns` put it on a disk shared with other sessions: what the final hash then guards, exactly when it does not,
  and how it goes wrong.
- **Relay pool** (`RelayItems`, `RelayPool`, `RelayPoolObject`). Promotion and demotion between two tiers, and the
  pruning of a crowded pool: quotas, first-in-first-out eviction, three rounds of shielding, and the spill back.
- **Packets** (`Checksum`, `Packets`). One's-complement sums with a 32-bit accumulator and the in-place rewriting of
  IPv4 packets: when the checksums written verify, what is quoted, what does not change, and when the code panics.
- **Relay streams and envelopes** (`Leb128`, `RelayStreams`). Variable-length integers, the bytes that envelopes sign,
  chunked writes, in-order delivery and stream numbers.
- **Debounced logger** (`DebouncedLog`). Calls, timers and late callbacks race for one pending entry; every call is
  accounted for exactly once.
- **Carrier hub** (`CarrierHub`). Carriers are replaced, die and are detached under concurrent writers that retry over
  snapshots.

Objects that change in place are classes or methods over arrays. Each is proved against a function on values, and the
properties over runs are lemmas about those functions. `Common`, `Sorting`, `Bytes` and `Bits` hold what several
parts share.

Concurrency is a sequence of atomic steps in any order. Time is an exact real given as an argument; outcomes of I/O,
random choices and other threads' actions are arguments too.

## Where code and expectation differ

- An echo request shorter than twice its header and eight bytes crashes the program when its destination cannot be
  reached, and one shorter by up to eight bytes than the error needs is answered with left-over buffer bytes in the
  quotation. `Packets.HandleICMP4`, `Packets.ShortPingCrashes` and `Packets.ExactForEveryBufferIff` give the exact
  conditions.
- A successful health ping resets the failure counter, so a relay can fail any number of times without being demoted,
  as long as no three failures come between two pings: `RelayItems.TierFromHistory`, `RelayItems.PingHidesFailures`.
- A stream's first DATA frame, when the receiver does not know the stream yet, creates the stream and is dropped.
  `RelayStreams.WriteArrivesIffKnown` says exactly when a write arrives whole.
- A negative grace period makes forgetting visible and breaks the rate bound: `GracePeriods.ForgettingShowsIff` and
  `GracePeriods.BoundHoldsIff` say exactly for which configurations.
- A negative burst makes the documented bound T * RPS + Burst negative for short windows;
  `SubnetLimits.WindowBound` states that such a limit admits nothing.
- A part file that ends inside a chunk counts that chunk as done (`FileTransfer.PartialChunkIsSkipped`). The final hash
  is what then keeps a wrong file from being stored (`FileGuards.CheckFailsIff`, `FileGuards.DigestGuards`).
- The final hash does not guard against a second session for the same file name: the part path depends on the name
  only, and a descriptor that the other session opened before the rename goes on writing to the stored file
  (`SharedRuns.TwoSessions`). `FileGuards.WritesDecide` and `FileGuards.SafeForeverIff` give the exact conditions.
- After a reconnection the session before may notice late that its stream is gone and remove the part file under the new
  session; then the transfer fails at its end although every chunk has arrived (`SharedRuns.LateCleanupFails`).
- A DATA frame numbered -64 or below makes the receiver panic, as does resuming with a chunk size of zero:
  `FileSessions.FileSession.HandleData`, `FileSessions.Accept`.
- Frame payloads of 2^32 bytes or more do not survive the 32-bit length field: `Frames.FrameRoundTrip` is an
  equivalence with the length bound.
- A checksum of 0 has a second verifying value, all ones; `Checksum.ChecksumIsTheOne` and `Checksum.SealedVerifies`
  name it.
- A packet whose header length puts the transport checksum into an address does not verify after the fix, unless the
  checksum is zero: `Packets.TransportVerifies`.
- The tunnel's write never returns its "no live carrier" error: that code follows an unconditional jump. The model
  has the one error that can occur, after 48 rounds.

## Model

| member | source | states |
|---|---|---|
| `TokenBuckets.RefillBound` | myvendor/go-libp2p/x/rate/limiter.go:16-25 | Between two instants a bucket gains at most RPS tokens a second, loses none, and never exceeds its burst. |
| `TokenBuckets.RefillIsExact` | myvendor/go-libp2p/x/rate/limiter.go:16-25 | Between two instants a bucket gains exactly RPS tokens a second, up to its burst. |
| `TokenBuckets.TakeIffToken` | myvendor/go-libp2p/x/rate/limiter.go:208-212 | A request is admitted exactly if there is a whole token and the burst is at least one. |
| `TokenBuckets.FullAtIsFull` | myvendor/go-libp2p/x/rate/limiter.go:234-240 | From the instant `FullAt` names on, the bucket is full; that instant is not in the past. |
| `TokenBuckets.FullStaysFull` | myvendor/go-libp2p/x/rate/limiter.go:234-240 | An untouched full bucket stays full. |
| `TokenBuckets.FullIsLikeNew` | myvendor/go-libp2p/x/rate/limiter.go:250-251 | A full bucket and a new one take the same decision and, once they admit, are the same bucket. |
| `TokenBuckets.TakeCostsOne` | myvendor/go-libp2p/x/rate/limiter.go:208-213 | An admitted request costs exactly one token. |
| `Subnets.PrefixIff` | myvendor/go-libp2p/x/rate/limiter.go:194-197 | Two prefixes are the same exactly if the addresses are of one family, the lengths are equal and the addresses agree in that many leading bits. |
| `BucketHeaps.Addr.Prefix` | myvendor/go-libp2p/x/rate/limiter.go:194-197 | There is no prefix exactly for a negative length or one beyond the address family's width. |
| `Subnets.RangeIsPrefix` | myvendor/go-libp2p/x/rate/limiter.go:194-197 | A subnet is a range of addresses: as many as the open bits can number, from a multiple of that many on. |
| `Subnets.NeighboursAreAlike` | myvendor/go-libp2p/x/rate/limiter.go:193-216 | Addresses that agree in the leading bits at every level get the same answer and leave the same state. |
| `Subnets.AllowedIff` | myvendor/go-libp2p/x/rate/limiter.go:176-217 | A request is allowed exactly if at every level of its family there is a subnet for it that has a whole token. |
| `Subnets.RangeBound` | myvendor/go-libp2p/x/rate/limiter.go:16-25 | After any history, in any window of T seconds, at most T * RPS + Burst requests from all the addresses of such a range together are allowed. |
| `BucketHeaps.RootExpiresFirst` | myvendor/go-libp2p/x/rate/limiter.go:279-287 | In a heap-ordered array no bucket expires before the root, which is what lets expiry stop at the first live root. |
| `BucketHeaps.SiftDownStep` | myvendor/go-libp2p/x/rate/limiter.go:296-306 | Swapping with the earlier child moves the one place of disorder down a level and repairs everything else. |
| `BucketHeaps.SiftDownStop` | myvendor/go-libp2p/x/rate/limiter.go:296-306 | When no child is earlier, only the edge to the parent can still be out of order. |
| `BucketHeaps.BucketHeap.constructor` | myvendor/go-libp2p/x/rate/limiter.go:155-162 | A new heap is valid and stands for the empty table. |
| `BucketHeaps.BucketHeap.Swap` | myvendor/go-libp2p/x/rate/limiter.go:302-306 | Exchanges two buckets; the prefix index stays the exact inverse of the array and the table is unchanged. |
| `BucketHeaps.BucketHeap.Append` | myvendor/go-libp2p/x/rate/limiter.go:309-313 | Adds a bucket at the end, with the index kept exact. |
| `BucketHeaps.BucketHeap.DropLast` | myvendor/go-libp2p/x/rate/limiter.go:316-322 | Removes the last bucket and exactly its index entry. |
| `BucketHeaps.BucketHeap.Up` | myvendor/go-libp2p/x/rate/limiter.go:296-306 | From disorder on one upward edge, restores a valid heap with the same table. |
| `BucketHeaps.BucketHeap.EarlierChild` | myvendor/go-libp2p/x/rate/limiter.go:296-299 | Finds the child that expires first, if there is one. |
| `BucketHeaps.BucketHeap.Down` | myvendor/go-libp2p/x/rate/limiter.go:296-306 | From disorder around one node, orders everything below it, leaves the suffix alone, and reports whether anything moved. |
| `BucketHeaps.BucketHeap.HeapPush` | myvendor/go-libp2p/x/rate/limiter.go:267-267 | Pushing a new prefix keeps the heap valid and adds that entry to the table. |
| `BucketHeaps.BucketHeap.HeapFix` | myvendor/go-libp2p/x/rate/limiter.go:263-265 | After an arbitrary change of one bucket's expiry, restores a valid heap with the same table. |
| `BucketHeaps.BucketHeap.HeapPop` | myvendor/go-libp2p/x/rate/limiter.go:285-285 | Removes and returns the root; everything else stays. |
| `BucketHeaps.BucketHeap.Upsert` | myvendor/go-libp2p/x/rate/limiter.go:261-268 | On the table, a plain update; heap order and index are kept. |
| `BucketHeaps.BucketHeap.Get` | myvendor/go-libp2p/x/rate/limiter.go:271-276 | Looks up the table, absence included. |
| `BucketHeaps.BucketHeap.Expire` | myvendor/go-libp2p/x/rate/limiter.go:279-287 | Keeps exactly the entries whose expiry is after the given instant. |
| `SubnetLimits.LevelEffects` | myvendor/go-libp2p/x/rate/limiter.go:193-216 | A request takes a token at each level it passes, changes no other level, and stops only at a level that refuses. |
| `SubnetLimits.ExpiryKeepsSimulation` | myvendor/go-libp2p/x/rate/limiter.go:220-227 | Cleaning up keeps a forgetting table in step with one that remembers: all that is missing is full. |
| `SubnetLimits.TakeAgrees` | myvendor/go-libp2p/x/rate/limiter.go:199-214 | Tables in step decide alike and stay in step. |
| `SubnetLimits.LevelsAgree` | myvendor/go-libp2p/x/rate/limiter.go:193-216 | All levels together stop at the same depth and stay in step. |
| `SubnetLimits.RunsAgree` | myvendor/go-libp2p/x/rate/limiter.go:176-240 | From any two states in step, every chronological run gets the same answers. |
| `SubnetLimits.ForgettingIsInvisible` | myvendor/go-libp2p/x/rate/limiter.go:176-251 | Over every chronological run of requests the limiter answers like one that never removes a bucket. |
| `GracePeriods.ForgettingShowsIff` | myvendor/go-libp2p/x/rate/limiter.go:193-251 | For every configuration: some run gets another answer than from a limiter that never removes a bucket exactly if the grace period is negative and the limits of some address family let anybody through at all. |
| `GracePeriods.BoundHoldsIff` | myvendor/go-libp2p/x/rate/limiter.go:16-25 | In a family that lets anybody through, all windows keep the documented bound exactly if the grace period is not negative. |
| `GracePeriods.TooManyVisits` | myvendor/go-libp2p/x/rate/limiter.go:208-214 | For every such configuration with a negative grace period: evenly spaced visits that are all accepted, more than T * RPS + Burst of them, of which a limiter that remembers refuses one. |
| `GracePeriods.AllVisitsAccepted` | myvendor/go-libp2p/x/rate/limiter.go:193-227 | Visits spaced so that every bucket has expired meanwhile are accepted for ever. |
| `GracePeriods.AllVisitsCounted` | myvendor/go-libp2p/x/rate/limiter.go:193-227 | All of them count as yes answers of the slowest subnet. |
| `GracePeriods.VisitsDrain` | myvendor/go-libp2p/x/rate/limiter.go:193-216 | Without forgetting, each accepted visit of such a row lowers the slowest bucket by the same part of a token. |
| `GracePeriods.ClosedAgree` | myvendor/go-libp2p/x/rate/limiter.go:193-197 | Where no family lets anybody through, forgetting changes no answer, whatever the grace period. |
| `SubnetLimits.ExpiryKeepsTokens` | myvendor/go-libp2p/x/rate/limiter.go:220-227 | Dropping expired buckets changes no prefix's credit. |
| `SubnetLimits.TakeSpendsOne` | myvendor/go-libp2p/x/rate/limiter.go:199-214 | An admitted request costs its own prefix one token and every other prefix nothing. |
| `SubnetLimits.StepSpends` | myvendor/go-libp2p/x/rate/limiter.go:176-217 | A whole call costs a prefix at a level one token exactly if that bucket admitted it, expiry included. |
| `SubnetLimits.RunKeepsSound` | myvendor/go-libp2p/x/rate/limiter.go:176-240 | Over every run all stored buckets are within their limits and full by their expiry. |
| `SubnetLimits.RunSpends` | myvendor/go-libp2p/x/rate/limiter.go:193-216 | Over a run, tokens given plus tokens left are at most tokens at first plus refill. |
| `SubnetLimits.AllowedAreAdmitted` | myvendor/go-libp2p/x/rate/limiter.go:193-216 | A yes answer needed a token from every level. |
| `SubnetLimits.NoBurstNoToken` | myvendor/go-libp2p/x/rate/limiter.go:16-25 | A limit whose burst is below one admits nothing over any run. |
| `SubnetLimits.WindowBound` | myvendor/go-libp2p/x/rate/limiter.go:16-25 | After any history, in any window of T seconds, a subnet gets at most T * RPS + Burst tokens, also when its bucket expires and is recreated inside the window. |
| `SubnetLimiters.NewHeaps` | myvendor/go-libp2p/x/rate/limiter.go:155-171 | One fresh empty heap per limit, all distinct. |
| `SubnetLimiters.ExpireAll` | myvendor/go-libp2p/x/rate/limiter.go:220-227 | Every heap loses exactly its expired entries. |
| `SubnetLimiters.TakeLevel` | myvendor/go-libp2p/x/rate/limiter.go:194-214 | One level on its heap does what the value-level step says; a refusal leaves the heap alone. |
| `SubnetLimiters.AllowLevels` | myvendor/go-libp2p/x/rate/limiter.go:193-216 | The loop over levels leaves all heaps as the value-level outcome says, also when it refuses midway. |
| `SubnetLimiters.SubnetLimiter.constructor` | myvendor/go-libp2p/x/rate/limiter.go:149-173 | The limits are a permutation of those given, longest prefix first, each with an empty heap. |
| `SubnetLimiters.SubnetLimiter.CleanUp` | myvendor/go-libp2p/x/rate/limiter.go:220-227 | Both families lose exactly their expired buckets. |
| `SubnetLimiters.SubnetLimiter.Allow` | myvendor/go-libp2p/x/rate/limiter.go:176-217 | Answer and new state are those of the value-level limiter, about which the run properties are proved. |
| `NetworkLimiters.GateEffects` | myvendor/go-libp2p/x/rate/limiter.go:114-122 | Each concerned prefix bucket before the stop gives a token, nothing else changes, and a stop is at a concerned bucket that refuses. |
| `NetworkLimiters.AllowedIff` | myvendor/go-libp2p/x/rate/limiter.go:101-131 | A request is allowed exactly if, inside some network prefix, every prefix bucket it concerns admits it, and, outside them, the subnets and then the global bucket do. |
| `NetworkLimiters.GateAdmitsIff` | myvendor/go-libp2p/x/rate/limiter.go:59-74 | A bucket of rate zero always admits; any other exactly if it has a whole token and a burst of at least one. |
| `NetworkLimiters.FirstRequest` | myvendor/go-libp2p/x/rate/limiter.go:57-131 | Exactly when the first request to a new limiter is allowed. |
| `NetworkLimiters.ContainsIff` | myvendor/go-libp2p/x/rate/limiter.go:116-116 | A network prefix contains exactly the addresses of its family that agree with it in its leading bits. |
| `NetworkLimiters.RefusedIsFreeForWider` | myvendor/go-libp2p/x/rate/limiter.go:102-130 | A refused request was refused by a bucket it concerns, and costs no wider prefix bucket and not the global bucket; refused by a network prefix it does not touch the subnet buckets either. |
| `NetworkLimiters.AllowedByAllConcerned` | myvendor/go-libp2p/x/rate/limiter.go:101-131 | An allowed request took a token from every bucket that concerns it and from no other. |
| `NetworkLimiters.TookIsTake` | myvendor/go-libp2p/x/rate/limiter.go:114-130 | A bucket changes exactly by the token a request took from it, and not at all otherwise. |
| `NetworkLimiters.AllowedTook` | myvendor/go-libp2p/x/rate/limiter.go:101-131 | An allowed request took a token from every bucket it concerns. |
| `NetworkLimiters.ServesCharged` | myvendor/go-libp2p/x/rate/limiter.go:102-130 | Over every run a network-prefix bucket or the global bucket is as if it had served only the requests charged to it: those refused before, or not concerned, leave no trace. |
| `NetworkLimiters.ServedWithinBudget` | myvendor/go-libp2p/x/rate/limiter.go:16-25 | A bucket that admits a series of requests had, or was refilled with, that many tokens. |
| `NetworkLimiters.EveryWindowBound` | myvendor/go-libp2p/x/rate/limiter.go:16-25 | From a new limiter, in any window of any run, at most T * RPS + Burst of the requests that concern the global bucket or a network-prefix bucket are allowed; a negative rate or burst counts as none. |
| `NetworkLimiters.Limiter.constructor` | myvendor/go-libp2p/x/rate/limiter.go:57-77 | Prefix limits are reordered so the widest comes last, with one full bucket each; a rate of zero means no limit. |
| `NetworkLimiters.Limiter.Allow` | myvendor/go-libp2p/x/rate/limiter.go:101-131 | Answer and new state, the subnet heaps included, are those of the value-level limiter. |
| `Frames.FrameRoundTrip` | p2put/relayfile.go:104-138 | Reading undoes writing, and leaves the rest of the stream, exactly if the payload is shorter than 2^32 bytes. |
| `Frames.FrameLayout` | p2put/relayfile.go:104-119 | On the wire: four bytes of big-endian length, one of type, the payload. |
| `Bytes.BigEndianJoins` | p2put/relayfile.go:105-106 | In a big-endian number what comes first weighs more. |
| `Frames.ReadBack` | p2put/relayfile.go:104-138 | Any sequence of frames reads back with the same types and payloads and leaves what follows intact. |
| `Frames.Wire.FrameWrite` | p2put/relayfile.go:104-119 | The three writes append one encoded frame. |
| `Frames.Wire.ReadFull` | p2put/relayfile.go:121-138 | Gives exactly the next bytes, or fails with the stream drained. |
| `Frames.Wire.FrameRead` | p2put/relayfile.go:121-138 | Field-by-field reading gives what decoding the whole stream gives, truncated streams included. |
| `Frames.PackDataFrame` | p2put/filecomp.go:187-200 | Filling the buffer field by field gives the payload layout of a DATA frame. |
| `Frames.DataLayout` | p2put/filecomp.go:187-200 | A DATA payload is the sequence number, the length before compression if compressed, and the block. |
| `Frames.DataRoundTrip` | p2put/filecomp.go:157-216 | Unpacking undoes packing, compressed or not, for every signed 64-bit sequence number, given an invertible compressor. |
| `Bitmap.Set` | p2put/relayfile.go:148-153 | The packed words stand for the old set plus this chunk; a chunk beyond the words, or a number from -63 to -1, changes nothing. |
| `Bitmap.SetMembers` | p2put/relayfile.go:148-153 | Or-ing one bit into one word adds that chunk and no other. |
| `Bitmap.MembersHas` | p2put/relayfile.go:140-146 | The mask test answers membership in the set. |
| `Bitmap.NegativeIsNeverThere` | p2put/relayfile.go:140-146 | Numbers from -63 to -1 index the first word but are never found in it. |
| `Bitmap.MaxContinuous` | p2put/relayfile.go:155-162 | The result is the longest full prefix of the set within the limit. |
| `Bitmap.FullPrefixIsUnique` | p2put/relayfile.go:155-162 | A set has only one longest full prefix. |
| `FileTransfer.OpenHolds` | p2put/relayfile.go:231-263 | A session holds a prefix of the source in bitmap, file and counters exactly if it starts afresh or resumes from a whole-chunk prefix. |
| `FileTransfer.ResumePoint` | p2put/relayfile.go:235-263 | A session that resumes starts behind the last chunk that the part file reaches into, with the chunks before marked. |
| `FileTransfer.PartialChunkIsSkipped` | p2put/relayfile.go:240-248 | A part file that ends inside a chunk has that chunk counted, and the sender is told to skip it. |
| `FileTransfer.TakeNext` | p2put/relayfile.go:331-358 | The next chunk in order is appended, and acknowledged exactly at the end of its batch. |
| `FileTransfer.FrontIsNextChunk` | p2put/relayfile.go:533-580 | The data frame that arrives is always the chunk the receiver lacks next. |
| `FileTransfer.ReceiveKeepsInv` | p2put/relayfile.go:325-358 | Receiving a data frame keeps the joint invariant of both ends and the channels. |
| `FileTransfer.SendKeepsInv` | p2put/relayfile.go:533-560 | Sending a chunk keeps it. |
| `FileTransfer.StepKeepsInv` | p2put/relayfile.go:486-629 | Every step of either end, reconnection included, keeps it. |
| `FileTransfer.RunKeepsInv` | p2put/relayfile.go:486-629 | So does every run. |
| `FileTransfer.TransferIsSafe` | p2put/relayfile.go:231-422 | In every reachable state, over any interleaving, reconnections and leftover files, the part file is the first chunks counted by the bitmap, no transfer fails, and what is stored is the source byte for byte. |
| `FileTransfer.ReconnectionResumes` | p2put/relayfile.go:562-580 | From every reachable state in which the sender gives up waiting, reconnecting with the part file kept loses nothing the receiver holds and goes on with the first chunk it lacks. |
| `FileTransfer.BatchesOfEight` | p2put/relayfile.go:533-560 | Batches are of eight chunks of 64 KiB, the last one perhaps shorter. |
| `FileTransfer.ErrorsEnd` | p2put/relayfile.go:331-390 | A payload that cannot be read, and an end that does not fit, fail the session, remove the part file and are reported. |
| `FileTransfer.AckEndsBatch` | p2put/relayfile.go:533-580 | A batch draws one ACK, carrying its last chunk, with nothing left in flight, and the sender resumes exactly there. |
| `FileTransfer.WaitIsAnswered` | p2put/relayfile.go:347-358 | In every reachable state a sender that waits has either its batch still in flight and no ACK, or the whole batch stored and exactly one ACK, for the last chunk of the batch. |
| `FileTransfer.SomeoneCanMove` | p2put/relayfile.go:533-629 | Until the sender is done, one end can always take a step. |
| `FileTransfer.RunLowersWork` | p2put/relayfile.go:533-629 | Without reconnection each step lowers a measure of the remaining work. |
| `FileTransfer.TransferEnds` | p2put/relayfile.go:486-629 | From every reachable state a run without reconnection is bounded, and where it can go no further the source is stored and the sender is done. |
| `FileTransfer.FinishFrom` | p2put/relayfile.go:486-629 | From every good state there is a run without reconnection to the end. |
| `FileTransfer.SomeTransferEnds` | p2put/relayfile.go:486-629 | For every source, and whatever lies at the paths, there is a run that ends with the source stored and the sender done. |
| `FileGuards.DigestGuards` | p2put/relayfile.go:371-403 | On a disk shared with other sessions for the same name, whatever they do to the part file before its hash is taken and wherever the transfer resumes: if nobody disturbs the file from the hash on, what is stored has the source's digest; a sender that believes it is done has a stored file. |
| `FileGuards.WritesDecide` | p2put/relayfile.go:386-391 | From the hash on, a schedule keeps the digest of what is stored, whatever others write, exactly if nobody writes through a descriptor of that file. |
| `FileGuards.SafeForeverIff` | p2put/relayfile.go:386-396 | A stored file is safe over every continuation exactly if nobody else has it open; between hash and rename it never is. |
| `FileGuards.CheckFailsIff` | p2put/relayfile.go:371-390 | The hash fails exactly if the part path is empty or what lies there has another digest than the source. |
| `FileGuards.FinalKept` | p2put/relayfile.go:196-422 | Until we store our file, and unless others rename theirs or write to it, the final path and its content stay what they were. |
| `FileGuards.StepKeepsGuarded` | p2put/relayfile.go:196-422 | Every move, ours or theirs, keeps the order of the protocol, the numbering of files, and that a stored file is neither at the part path nor open in our session. |
| `SharedRuns.TwoSessions` | p2put/relayfile.go:214-224 | Two peers send a file of the same name: for every source, a run in which ours ends undisturbed and confirmed, and the other session then overwrites the stored file through its descriptor. |
| `SharedRuns.LateCleanupFails` | p2put/relayfile.go:699-712 | From every state in which the sender can give up waiting: it reconnects, the session before removes the part file late, every chunk arrives, and the transfer fails at its end. |
| `SharedRuns.SomeTransferFails` | p2put/relayfile.go:699-712 | For every source that is not empty such a run exists from the very beginning. |
| `SharedRuns.FollowRun` | p2put/relayfile.go:196-422 | As long as nobody meddles, the shared disk shows exactly what the plain protocol has. |
| `FileSessions.Accept` | p2put/relayfile.go:226-294 | The session opened for an INIT is the one of the protocol model; there is none exactly if a part file must be counted in chunks of size zero. |
| `FileSessions.FileSession.HandleData` | p2put/relayfile.go:331-358 | A DATA frame, on packed words and open file, does what the protocol model says, acknowledgement included; it panics, with nothing changed, exactly for numbers of -64 and below. |
| `FileSessions.FileSession.Store` | p2put/relayfile.go:338-346 | Stores and marks a chunk that is not there yet. |
| `FileSessions.FileSession.AckPrefix` | p2put/relayfile.go:347-358 | Acknowledges the longest full prefix exactly when it completes a batch or the file. |
| `FileSessions.OpenPart` | p2put/relayfile.go:231-263 | The part file, its marked chunks and the starting point are those of the protocol model. |
| `FileSessions.CountChunks` | p2put/relayfile.go:240-244 | The number of chunks in a file, a partial one counted. |
| `RelayItems.RecordKeepsSound` | p2put/relaypool.go:225-262 | Recording a result keeps success rate, counters and flags consistent. |
| `RelayItems.SuccessMoves` | p2put/relaypool.go:225-262 | A success or ping takes the success rate three tenths of the way to one, a failure three tenths of the way to zero, rate limiting halfway; a demotion resets it. |
| `RelayItems.RttMoves` | p2put/relaypool.go:443-449 | The average round trip moves three tenths of the way to each measurement. |
| `RelayItems.ResultsAreActivity` | p2put/relaypool.go:225-262 | Every result counts as activity, no ping does; rate limiting changes neither tier nor circuit. |
| `RelayItems.NewRelay` | p2put/relaypool.go:120-156 | A new relay is on probation, with its circuit closed, connected from now on. |
| `RelayItems.LatencyFalls` | p2put/relaypool.go:682-693 | A faster relay is rated higher: one up to 50 ms, a tenth from 2 s on, straight in between. |
| `RelayItems.DataRises` | p2put/relaypool.go:695-700 | More data is rated higher, in proportion, up to 128 KiB. |
| `RelayItems.DurationRises` | p2put/relaypool.go:702-707 | Longer circuits are rated higher, in proportion, up to two minutes. |
| `RelayItems.TtlRises` | p2put/relaypool.go:709-718 | A reservation that lasts longer is rated higher, in proportion, up to ten minutes; an expired one is rated zero. |
| `RelayItems.UptimeRises` | p2put/relaypool.go:720-729 | A relay up longer is rated higher: three tenths up to ten seconds, one from five minutes on, straight in between. |
| `RelayItems.BetterScoresHigher` | p2put/relaypool.go:489-500 | With weights that are not negative, a relay that is no worse in any respect scores no lower, and one also better in a respect with weight scores higher. |
| `RelayItems.OpenNeverOutranks` | p2put/relaypool.go:489-500 | A relay whose circuit is open never outranks one whose circuit is closed. |
| `RelayItems.TierFromHistory` | p2put/relaypool.go:225-262 | Over every history of results and health pings: the counter is the failures since the last success or ping, the circuit is open exactly if five in such a streak were reached since the last success, and the relay is in the main tier exactly if it has succeeded and no streak of three was reached since. |
| `RelayItems.PingHidesFailures` | p2put/relaypool.go:443-449 | Success, two failures, a ping, a failure leaves a relay in the main tier; three failures in a row do not. |
| `RelayItems.PingKeepsSound` | p2put/relaypool.go:443-449 | A successful ping keeps success rate, counters and flags consistent. |
| `RelayItems.ReachedLast` | p2put/relaypool.go:225-262 | A streak counts as reached from when it is until the next success. |
| `RelayPools.Quotas` | p2put/relaypool.go:530-540 | Shifting quota between tiers keeps its sum and asks no tier for more than it holds. |
| `RelayPools.PruneReachesLowWater` | p2put/relaypool.go:510-647 | The pool never ends below the low-water mark, and above it only when no probation relay is left. |
| `RelayPools.ProbationIsFifo` | p2put/relaypool.go:544-647 | Over the first pass and the spill together, no evicted probation relay is newer than a surviving one. |
| `RelayPools.GuardedSurvive` | p2put/relaypool.go:567-582 | No main-tier relay that is protected or was active in the last five minutes is evicted. |
| `RelayPools.CandidatesAre` | p2put/relaypool.go:567-582 | The candidates are exactly the main-tier relays neither protected nor with a result in the last five minutes. |
| `RelayPools.ActiveSurvive` | p2put/relaypool.go:577-580 | A main-tier relay with a result recorded less than five minutes ago stays. |
| `RelayPools.ShieldsHold` | p2put/relaypool.go:584-624 | Of n main-tier candidates at least min(n, ceil(n/5) + 10) survive. |
| `RelayPools.EvictsWhatItMay` | p2put/relaypool.go:584-624 | As many main-tier relays go as the quota asks for and the shields leave, of n candidates exactly min(n, ceil(n/5) + 10) being shielded. |
| `RelayPools.LowestScoresGo` | p2put/relaypool.go:584-624 | An evicted main-tier relay scores no higher than any surviving candidate not kept for uptime; those kept for uptime have been up at least as long. |
| `RelayPools.BetterAreKept` | p2put/relaypool.go:584-624 | Without naming a score: no main-tier relay is evicted that is at least as good in every respect, and better in one with weight, as a surviving candidate not kept for uptime. |
| `RelayPools.SplitTiers` | p2put/relaypool.go:520-528 | Walking the map gives each relay once, in its tier. |
| `RelayPools.CollectCandidates` | p2put/relaypool.go:567-582 | The candidates are exactly the unprotected, not recently active main-tier relays. |
| `RelayPools.ShieldRounds` | p2put/relaypool.go:584-610 | Removes the best fifth by score and then the ten longest connected, and nothing else. |
| `RelayPools.SortedFront` | p2put/relaypool.go:544-559 | Sorting makes the front the smallest by the key. |
| `RelayPoolObjects.RelayPool.constructor` | p2put/relaypool.go:101-118 | An empty, valid pool with the default water marks, and the default weights if all those given are zero. |
| `RelayPoolObjects.RelayPool.Add` | p2put/relaypool.go:120-156 | A new peer starts in probation, followed by a prune; a known one changes nothing. |
| `RelayPoolObjects.RelayPool.RecordResult` | p2put/relaypool.go:225-267 | The peer's record is updated and the pool pruned; an unknown peer changes nothing. |
| `RelayPoolObjects.RelayPool.RecordPing` | p2put/relaypool.go:443-450 | A successful ping updates the record of a known peer and changes nothing else. |
| `RelayPoolObjects.RelayPool.Remove` | p2put/relaypool.go:158-165 | Exactly this peer goes, from all three tables. |
| `RelayPoolObjects.RelayPool.EvictFront` | p2put/relaypool.go:544-559 | Deletes exactly the front of the order up to the quota and says how much is left over. |
| `RelayPoolObjects.RelayPool.EvictProbation` | p2put/relaypool.go:544-559 | Evicts the longest-connected probation relays, as many as the quota and the tier allow. |
| `RelayPoolObjects.RelayPool.EvictMain` | p2put/relaypool.go:561-624 | Shields in rounds and evicts the lowest scores of the rest. |
| `RelayPoolObjects.RelayPool.PruneMain` | p2put/relaypool.go:561-647 | What the main tier could not give is taken from the remaining probation relays, oldest first. |
| `RelayPoolObjects.RelayPool.Prune` | p2put/relaypool.go:510-658 | At or below the high-water mark nothing happens; above it, the pool loses exactly what the eviction rules describe. |
| `RelayPoolObjects.RelayPool.PruneDown` | p2put/relaypool.go:520-647 | The passes together follow the eviction rules on the pool as it was at the start. |
| `RelayPoolObjects.ShareOut` | p2put/relaypool.go:520-540 | Splits the tiers and gives each its quota. |
| `RelayPoolObjects.SelectN` | p2put/relaypool.go:344-376 | The best n relays whose circuit is closed, each once, best first; all of them if there are fewer. |
| `Checksum.FoldRound` | fbvirtun/virtun.go:454-456 | Folding once keeps the result, never reaches zero and makes the sum smaller, so the loop ends. |
| `Checksum.FoldCarries` | fbvirtun/virtun.go:454-456 | The loop ends in 16 bits at the representative modulo 65535. |
| `Checksum.ChecksumIsTheOne` | fbvirtun/virtun.go:446-458 | A field value makes the sum verify exactly if it is the checksum, or all ones where the checksum is zero. |
| `Checksum.WordSumBound` | fbvirtun/virtun.go:446-453 | The sum of n bytes is at most 65535 per started word, which fits 32 bits for every packet. |
| `Checksum.WordIsBigEndian` | fbvirtun/virtun.go:448-450 | A word is a two-byte big-endian number. |
| `Checksum.PatchIsBigEndian` | fbvirtun/virtun.go:712-713 | Storing a word stores its two bytes, most significant first. |
| `Checksum.OddIsPadded` | fbvirtun/virtun.go:451-453 | Data of odd length is summed as if padded with a zero byte. |
| `Checksum.SumsAdd` | fbvirtun/virtun.go:490-497 | Sums of parts add up when the first has even length. |
| `Checksum.VerifiesIff` | fbvirtun/virtun.go:446-458 | Data verifies exactly if its words add up to a multiple of 65535 other than zero. |
| `Checksum.PatchAdds` | fbvirtun/virtun.go:446-453 | A value stored at an even offset into a cleared field adds exactly itself to the sum. |
| `Checksum.SealedVerifies` | fbvirtun/virtun.go:446-502 | For every content, odd or even length and even field position, which field values verify. |
| `Checksum.OnesComplementSum` | fbvirtun/virtun.go:446-458 | The loop with its wrapping 32-bit accumulator and odd last byte computes the checksum exactly. |
| `Checksum.OnesComplementSumFold` | fbvirtun/virtun.go:490-502 | The same on top of a pseudo-header sum. |
| `Checksum.PseudoSumIs` | fbvirtun/virtun.go:479-485 | The pseudo-header sum is the sum of the twelve bytes of the pseudo-header in section 3.1 of RFC 9293. |
| `Checksum.PseudoVerifies` | fbvirtun/virtun.go:479-502 | A segment verifies on top of its pseudo-header sum exactly if pseudo-header and segment, one after the other, verify. |
| `Checksum.PseudoSum` | fbvirtun/virtun.go:479-485 | It is at most six words, so it cannot cause an overflow. |
| `Packets.SealedInPlace` | fbvirtun/virtun.go:708-740 | With the checksum in its field, the covered part of the packet verifies. |
| `Packets.Seal` | fbvirtun/virtun.go:708-714 | Clear, sum and store: the covered bytes verify and nothing but the field changes. |
| `Packets.FixIPChecksum` | fbvirtun/virtun.go:708-714 | The header verifies afterwards; only bytes 10 and 11 change. |
| `Packets.TransportVerifies` | fbvirtun/virtun.go:716-740 | Whatever the segment and its length, with its checksum stored it verifies with its pseudo-header, unless the field is a word of an address: then exactly if the checksum is zero. |
| `Packets.FixTransport` | fbvirtun/virtun.go:716-740 | The checksum with the field cleared is stored there, and nothing else changes. |
| `Packets.FixTCPChecksum` | fbvirtun/virtun.go:716-727 | The pseudo-header followed by the TCP segment verifies, and exactly when for a header length of zero; a packet too short for TCP is untouched. |
| `Packets.FixUDPChecksum` | fbvirtun/virtun.go:729-740 | The pseudo-header followed by the UDP datagram verifies, and exactly when for header lengths 8 and 12; a packet too short for UDP is untouched. |
| `Packets.SwapAddresses` | fbvirtun/virtun_icmp.go:265-270 | Exchanges the two addresses and nothing else. |
| `Packets.WriteICMPError4` | fbvirtun/virtun_icmp.go:114-176 | On a packet of n bytes in a larger buffer: panics exactly if n < 2 * ihl + 8, and otherwise leaves the error packet that the next rows describe. |
| `Packets.ErrorIsSound` | fbvirtun/virtun_icmp.go:114-176 | Addresses swapped, the original header quoted exactly, the bytes after it quoted up to the end of the packet, nothing else touched, both checksums verify. |
| `Packets.ExactIff` | fbvirtun/virtun_icmp.go:134-138 | The quotation is exact if the packet has 2 * ihl + 16 bytes, or if the bytes left over behind it happen to be right, and not otherwise. |
| `Packets.ExactForEveryBufferIff` | fbvirtun/virtun_icmp.go:134-138 | It is exact whatever an earlier read left in the buffer exactly if the packet has 2 * ihl + 16 bytes. |
| `Packets.PutQuotation` | fbvirtun/virtun_icmp.go:125-135 | Panics exactly if the packet ends before the quoted header does, with no byte behind the packet changed. |
| `Packets.SealedBothVerify` | fbvirtun/virtun_icmp.go:135-143 | Sealing the message and then the header leaves both verifying, and changes nothing but the two fields. |
| `Packets.WriteICMPDestUnreach4` | fbvirtun/virtun_icmp.go:114-144 | The same with type 3 and the given code. |
| `Packets.WriteICMPTimeExceed4` | fbvirtun/virtun_icmp.go:146-176 | The same with type 11 and the given code. |
| `Packets.EchoIsSound` | fbvirtun/virtun_icmp.go:98-112 | Addresses swapped, type and code zero, identifier and data kept, both checksums verify. |
| `Packets.WriteICMPEchoReply4` | fbvirtun/virtun_icmp.go:98-112 | Leaves exactly that reply in the buffer. |
| `Packets.HandleICMP4` | fbvirtun/virtun_icmp.go:14-54 | Ignores exactly what is not an echo request of at least eight bytes; answers the others according to the dial result; crashes exactly if the header is longer than the packet, or an error has to be reported on a packet without room for its header as quotation. |
| `Packets.ShortPingCrashes` | fbvirtun/virtun_icmp.go:14-54 | An echo request of 28 bytes whose destination cannot be reached crashes the handler. |
| `Packets.BuildHeader` | fbvirtun/virtun_tcp.go:371-379 | The built header verifies. |
| `Packets.SealSegment` | fbvirtun/virtun_tcp.go:381-387 | The copied segment verifies with its pseudo-header and differs only in its checksum. |
| `Packets.BuildPacket4` | fbvirtun/virtun_tcp.go:367-393 | Header, and pseudo-header followed by segment, verify; addresses, length, protocol and the other header fields are as asked, and every segment byte outside the checksum is the caller's. |
| `Leb128.AppendLEB128` | p2put/irohrelay.go:90-103 | Appends the seven-bit encoding and leaves the buffer before it alone. |
| `Leb128.ConsumeLEB128` | p2put/irohrelay.go:105-114 | The shifting loop computes the 64-bit decoding, its failure included. |
| `Leb128.ConsumeFails` | p2put/irohrelay.go:105-114 | Decoding fails exactly on buffers in which every byte announces another. |
| `Leb128.ConsumeRest` | p2put/irohrelay.go:105-114 | From the middle of an encoding, the bits read so far and those to come make up the value. |
| `Leb128.EncodeLength` | p2put/irohrelay.go:90-103 | A value of 7n bits takes at most n bytes. |
| `Leb128.RoundTrip` | p2put/irohrelay.go:90-114 | Decoding any encoded 64-bit value, whatever follows, gives the value and its exact length of at most ten. |
| `Leb128.EncodeIsDigits` | p2put/irohrelay.go:90-103 | An encoding is the base-128 digits of its value, all but the last marked, without a useless zero at the end. |
| `Leb128.ConsumeIs` | p2put/irohrelay.go:105-114 | Any buffer, minimal or not and however long, decodes to its digits up to the first unmarked byte modulo 2^64, and their number. |
| `Leb128.FieldIsPrefixFree` | myvendor/go-libp2p/core/record/envelope.go:279-291 | A length-prefixed field can be told from what follows it. |
| `Leb128.UnsignedIsInjective` | myvendor/go-libp2p/core/record/envelope.go:268-294 | Equal signed bytes come from equal domain, payload type and payload. |
| `Leb128.UnsignedReadsBack` | myvendor/go-libp2p/core/record/envelope.go:268-294 | What is signed reads back as domain, payload type and payload, in this order. |
| `Leb128.MakeUnsigned` | myvendor/go-libp2p/core/record/envelope.go:268-294 | The fill loop writes the three fields in order and ends exactly at the size computed before. |
| `RelayStreams.FrameRoundTrip` | p2put/irohrelay.go:207-225 | Parsing a stream frame undoes building it. |
| `RelayStreams.FrameLayout` | p2put/irohrelay.go:213-217 | On the wire: eight bytes of little-endian stream number, one of flag, the data. |
| `RelayStreams.Write` | p2put/irohrelay.go:207-225 | One datagram for each of the chunks of 1 to 64000 bytes that concatenate to the part accepted; without an error that is everything. |
| `RelayStreams.Read` | p2put/irohrelay.go:191-205 | A read of n bytes hands out the first min(n, buffered) of what is buffered and leaves the rest; every other answer needs an empty buffer. |
| `RelayStreams.DrainedRead` | p2put/irohrelay.go:195-203 | With an empty buffer a reset counts before a close, and only a stream with neither waits. |
| `RelayStreams.ReadsDrain` | p2put/irohrelay.go:191-205 | Reads of any size but zero can have every buffered byte. |
| `RelayStreams.DispatchEffects` | p2put/irohrelay.go:265-280 | Data is buffered behind what is there, a close only sets its flag, a reset also empties the buffer, other flags are ignored. |
| `RelayStreams.RelayStream.Receive` | p2put/irohrelay.go:265-280 | A frame changes buffer and flags as the value-level step says. |
| `RelayStreams.RelayStream.TryRead` | p2put/irohrelay.go:191-205 | One turn of the read loop does what the value-level read says. |
| `RelayStreams.InOrderDelivery` | p2put/irohrelay.go:191-280 | Until a reset, bytes read followed by bytes buffered are all DATA payloads in order, over every interleaving of arrivals and reads. |
| `RelayStreams.EofMeansDrained` | p2put/irohrelay.go:191-205 | End of file comes only after a close and once every byte has been handed out. |
| `RelayStreams.KnownStreamGetsAll` | p2put/irohrelay.go:312-338 | A stream known to the receiver gets every chunk. |
| `RelayStreams.OnlyDataOpens` | p2put/irohrelay.go:312-338 | Only data opens an unknown stream, and only if the accept queue has room; no frame touches another stream. |
| `RelayStreams.WriteArrivesIffKnown` | p2put/irohrelay.go:312-338 | A write arrives whole exactly if the receiver already knew the stream or nothing was written. |
| `RelayStreams.EndToEnd` | p2put/irohrelay.go:191-338 | For a stream the peer knows, if the datagrams of a write arrive in order, then with any frames of other streams and any reads in between, the bytes read and buffered are those buffered before and then those written. |
| `RelayStreams.StreamsAreIndependent` | p2put/irohrelay.go:312-338 | Over every run a known stream ends, and is read, as if it were alone with its own frames and reads. |
| `RelayStreams.PayloadsAreChunks` | p2put/irohrelay.go:207-280 | Datagrams built from chunks parse back to DATA frames with those chunks. |
| `RelayStreams.StreamIds.AllocId` | p2put/irohrelay.go:307-310 | The n-th call returns the n-th number of this end: none it has returned before, and none the other end ever returns. |
| `RelayStreams.KeysCompare` | p2put/irohrelay.go:293-305 | Of two different keys exactly one is the smaller. |
| `RelayStreams.KeyLessIff` | p2put/irohrelay.go:293-297 | The smaller key has the smaller byte where the two first differ, or ends first. |
| `RelayStreams.StreamIdsNeverCollide` | p2put/irohrelay.go:293-310 | An end never hands out a number twice, and the two ends of a pair never pick the same. |
| `DebouncedLog.Key` | dlog/ddlog.go:79-82 | The deduplication key is never the empty one that means nothing is pending. |
| `DebouncedLog.KeysTellApart` | dlog/ddlog.go:79-82 | Calls that differ in just one of file, line and message have different keys. |
| `DebouncedLog.DDLogger.LogPrintf` | dlog/ddlog.go:68-111 | The call on the object is the step of the state machine. |
| `DebouncedLog.DDLogger.LogExitFlush` | dlog/ddlog.go:114-122 | So is the exit flush. |
| `DebouncedLog.DDLogger.LogFlush` | dlog/ddlog.go:124-134 | So is a timer callback, stale or current. |
| `DebouncedLog.StepKeepsInv` | dlog/ddlog.go:68-134 | Nothing is pending exactly when the key is empty, a pending entry has a callback of the current generation under way, and no entry is printed twice: every step keeps this. |
| `DebouncedLog.StepAccounts` | dlog/ddlog.go:68-134 | Each step adds to the account exactly the call it is. |
| `DebouncedLog.RunAccounts` | dlog/ddlog.go:68-134 | So over a run the account grows by the calls made. |
| `DebouncedLog.CallMergesOrPrints` | dlog/ddlog.go:86-111 | A call with the pending key within a second of the first is counted and prints nothing; any other prints what was pending at once and becomes pending. |
| `DebouncedLog.BurstIsOneEntry` | dlog/ddlog.go:86-94 | Equal calls within a second of the first are one entry that counts them all, however many. |
| `DebouncedLog.CallSupersedes` | dlog/ddlog.go:124-129 | A call supersedes every callback under way: none of them prints any more. |
| `DebouncedLog.ExitPrints` | dlog/ddlog.go:114-122 | An exit flush prints what is pending and leaves nothing. |
| `DebouncedLog.NoCallLostOrDoubled` | dlog/ddlog.go:68-134 | Over every interleaving, printed entries expanded by their counts, then the pending one, are exactly the calls made in order. |
| `DebouncedLog.CurrentCallbackDrains` | dlog/ddlog.go:124-134 | In every reachable state with something pending its callback is under way, and when it runs next everything called so far has been printed. |
| `CarrierHub.AttachKeepsInv` | iptunnel/hub.go:84-109 | Attaching leaves every live carrier listed and only the newest of each direction live. |
| `CarrierHub.AttachEffects` | iptunnel/hub.go:84-109 | Attaching makes the new carrier live, kills the live ones of its direction and no other, and takes just those off the list. |
| `CarrierHub.DeathEffects` | iptunnel/hub.go:111-123 | Marking a carrier dead kills it, detaching takes a dead one off the list, and neither touches another. |
| `CarrierHub.StepKeepsInv` | iptunnel/hub.go:84-129 | So does every atomic step of any thread. |
| `CarrierHub.RunKeepsInv` | iptunnel/hub.go:84-129 | So does every run, and what was dead stays dead. |
| `CarrierHub.OneLivePerDirection` | iptunnel/hub.go:84-129 | In every reachable state a live carrier is listed and is the newest ever attached in its direction, so no two live ones share a direction. |
| `CarrierHub.DeadStaysDead` | iptunnel/hub.go:84-129 | A dead carrier never revives. |
| `CarrierHub.CutIsWithout` | iptunnel/hub.go:117-123 | Cutting the list at the carrier found drops that carrier and keeps the others in order. |
| `CarrierHub.SnapshotFacts` | iptunnel/hub.go:178-188 | A snapshot, in either order, holds exactly the live carriers, each once, all of them listed. |
| `CarrierHub.SnapshotIsSmall` | iptunnel/hub.go:178-188 | A snapshot holds at most three carriers. |
| `CarrierHub.TriedOnce` | iptunnel/hub.go:164-229 | Over all rounds of a write no carrier is tried in vain twice. |
| `CarrierHub.SuccessMeansDelivered` | iptunnel/hub.go:197-223 | A write that returns nil has put the packet on a carrier that was live in the snapshot it used. |
| `CarrierHub.ErrorMeansAllRefused` | iptunnel/hub.go:164-229 | A write that returns an error has gone through 48 rounds, and every carrier live at any of its snapshots refused the packet, once. |
| `CarrierHub.AttemptsAreBounded` | iptunnel/hub.go:164-229 | Whatever other threads do, one write makes at most 146 attempts. |
| `CarrierHub.TunnelHub.constructor` | iptunnel/hub.go:65-74 | A new hub has no carrier. |
| `CarrierHub.TunnelHub.HubAttach` | iptunnel/hub.go:84-109 | The loop that rebuilds the list is the attach step; the new carrier is live. |
| `CarrierHub.TunnelHub.MarkDead` | iptunnel/hub.go:211-211 | Sets one flag and nothing else. |
| `CarrierHub.TunnelHub.RemoveCarrier` | iptunnel/hub.go:115-127 | The search and cut is the removal step; it reports whether the carrier was listed. |
| `CarrierHub.TunnelHub.Detach` | iptunnel/hub.go:111-129 | Whatever happens between marking and removing, the carrier ends dead and off the list. |
| `CarrierHub.TunnelHub.TakeSnapshot` | iptunnel/hub.go:175-188 | Collects the live carriers, possibly reversed. |
| `CarrierHub.TunnelHub.TryRound` | iptunnel/hub.go:196-223 | Tries carriers in order up to the first that accepts, marks the others dead, and sends the extra copies of a small packet. |
| `CarrierHub.TunnelHub.Write` | iptunnel/hub.go:160-234 | With any interference, any coin and any send results, a write is at most 48 such rounds with exactly these sends and this answer. |

## Left out

- libp2p hosts and streams, websockets, TURN, DHT, HTTP handlers and shell commands: input and output only.
- zstd and SHA-256 are function parameters; the compressor is taken to be invertible. Ed25519, blake3 and crc64 do not appear.
- Token buckets use exact reals and one clock; float rounding and nanosecond truncation are not modelled.
- SubnetLimiters.SubnetLimiter.constructor: subnet limits must have a positive rate. With a rate of zero the expiry is the conversion of an infinite or undefined float to an integer, whose result depends on the platform.
- Token buckets are values: two holders of one `rate.Limiter` pointer are not modelled. A call of the outer limiter is one atomic step.
- File messages are typed values; their JSON encoding, progress callbacks, session bookkeeping and cancellation are not modelled, nor the choice of compression from a sample.
- The sender is a step machine over its loop positions rather than a method with a loop, because its proof is about interleavings with the receiver.
- The number of reconnections and their delays; a reconnection happens only where the sender waits for an acknowledgement, as in the code.
- FileTransfer.TransferIsSafe: nobody else touches the part file, not even a session before a reconnection. What remains when somebody does is in `FileGuards`, where the hash reads the file in one step and a late cleanup is one of the moves of others.
- FileTransfer.TransferEnds: likewise; `SharedRuns.LateCleanupFails` shows how the transfer can fail otherwise.
- FileSessions.Accept: negative chunk sizes and chunk counts in an INIT.
- Relay scores are exact reals, all taken at the one instant of the prune. The loop that chooses whom to ping, the random choice in `Select`, address handling and relay reservations are left out.
- IPv6 checksums, the IPv6 writers and packet builder, and TCP resets.
- Packets.ErrorIsSound: for header lengths of at least 20. For the shorter ones, which IPv4 does not allow, the model has the exact bytes and the panics of the writers, but nothing is claimed about the result.
- The all-ones replacement for a zero UDP checksum in RFC 768 is not in the code.
- The text that the logger prints, with its repeat count, is the entry itself.
- A read that would wait is a result `Blocks`; deadlines and wake-ups are not modelled.
- Counters for stream numbers and logger generations are unbounded.
- The `opening` flag, opening of streams, reading from carriers and idle reaping of hubs: a stream opened meanwhile is one of the interfering attach steps. Attach and snapshot are atomic steps, as they run under the lock; a flag set in the middle of one counts as set before or after it.
- Event buffer, message deduplication, offline detector, peer database and autonat: easy or pure wiring.
