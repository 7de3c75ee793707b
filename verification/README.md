# A verified model of the ipfS3 gateway core

ipfS3 is an S3 gateway that stores objects in IPFS through a Kubo node. This project models the parts of it
that carry the most logic, in Dafny, and proves what they are for:

- **CRC-64/NVME checksums** (`Crc64.dfy`). The byte loop is division by the generator polynomial, and every
  error burst of at most 64 bits, in particular any change inside eight consecutive bytes, changes the
  checksum.
- **UnixFS directories** (`Order.dfy`, `Dag.dfy`, `Hamt*.dfy`, `DagPb.dfy`, `Blocks.dfy`, `Paths.dfy`,
  `Manifest.dfy`, `Mirror.dfy`, `Layout.dfy`, `Directory.dfy`). A flat manifest becomes a DAG of plain
  directories and fanout-256 hash tries. The trie refines the flat list of links, block lengths are those of
  the DAG-PB encoding, sizes add up, every manifest path resolves to its original CID, every directory to a
  block that was written, with its links in byte order. A build succeeds exactly when every directory can be
  written, and its root depends on the files alone.
- **Chunked encryption** (`Framing.dfy`, `Cipher.dfy`). The copy-free re-framer equals plain chunking, and
  decryption undoes encryption however the wire was cut.
- **Streaming add** (`Ndjson.dfy`, `AddResponse.dfy`, `StreamAdd.dfy`, `AddOutcomes.dfy`, `UrlSource.dfy`).
  The incremental response parser equals splitting the whole response into lines. A producer, a request, a
  parser and cancellation race; Ok is returned only after all of the source was sent and all of the response
  was accepted, and for every outcome it is stated exactly when some run returns it. A measured URL source
  therefore describes the whole body.
- **Import jobs** (`RetryDelay.dfy`, `ImportJobs.dfy`, `ImportSafety.dfy`, `ImportOutcomes.dfy`). One job's
  row under any number of workers, with crashes, late writes and reclaims: bounded attempts, leases and
  requeues within the deadline, and fencing by epoch. Every end of the job has its cause, and every end that
  is allowed can be reached.
- **The import worker** (`WorkerSlots.dfy`, `ClaimScan.dfy`, `RootCandidate.dfy`). Slots shared fairly by
  two queues, the wrapping keyset scan, and the root CID that cancellation does not lose before the worker
  returns, with the exact condition for what is left in the database afterwards.
- **Progress write-back** (`Progress.dfy`, `ProgressConsumer.dfy`). A dirty flag over coalesced counters
  agrees with applying everything that was sent, as long as the claim is current; what an acknowledgement is
  worth when it is not.
- **IPv6 prefixes** (`Ipv6.dfy`).

`Prelude.dfy` holds bytes, options, results, concatenation and sums, `Cutting.dfy` cutting at a separator.
`dafny verify dfyconfig.toml` checks everything.

## How the source is modelled

Imperative code is modelled by methods with loops, arrays and classes, each proved equal to a function of
its inputs; properties are proved of that function. Asynchronous protocols (`StreamAdd`, `ImportJobs`,
`RootCandidate`, `ProgressConsumer`) are state machines: an action either applies to a state or does not, a
run is any list of actions, and the theorems hold for every run. Dropping a future, a timeout, a shutdown or
a crash is an action like any other, or the end of the list.

What comes from outside is a parameter: the name hash (Murmur3) as a function to eight bytes, the
authenticated cipher with the law of sections 7.1 and 7.2 of NIST SP 800-38D, SHA-256, JSON decoding, the
database's answers, the replies of Kubo, and time as one nondecreasing clock. `dag/put` stores a node under
an id that determines it, so a block's CID is modelled by the block itself.

The CRC's register is a list of 64 bits, so shifting and exclusive-or are list operations. Batch ids in
`ClaimScan` are given by their rank, since only their order matters. The eleven progress counters are
grouped into Kubo counters, extraction counters and the rest. In `ImportJobs` the database's clock and the
worker's clock are the same clock, and a write, once issued, lands at any later time or never.

## Where code and expectation differ

- The retry delay is sure to grow from one attempt to the next exactly for attempts 1 to 8
  (`RetryDelay.GrowsExactly`): attempt 0 waits as long as attempt 1, and from attempt 9 on the base stays at
  256 seconds, so only the jitter differs.
- The guard on the number of trie nodes in `insert` (`src/kubo/directory_hamt.rs:61-65`) can never fire for
  a manifest the builder accepts: a directory has at most as many links as there are files
  (`Directory.LinksBounded`), and `n` links make at most `1 + 7 * (n / 2)` nodes
  (`HamtSize.ShardsFailExactlyOnCollision`).
- A root whose reply was complete can be absent from the database when the worker returns
  (`RootCandidate.LostAfterReturn`): the slot is a local variable, the last retention has a timeout, and its
  failure is only logged (`src/import/v2_worker.rs:132-148`). A step loses the root exactly when it is an
  abort, or the last retention giving up before its commit, while the database has not got the CID
  (`RootCandidate.LostExactly`). What always remains is the invoked build, from which recovery can start.
- A URL import cannot end with a missing measurement (`src/import/v2_source.rs:308-310`): whenever the add
  returns Ok, the measurement was made (`UrlSource.FetchUrl`).
- A finish can be acknowledged although the stored counters were reset by another worker's claim
  (`ProgressConsumer.FinishAfterReclaim`): with a clean flag, `flush_progress` returns without asking the
  database (`src/import/progress.rs:311-320`). An acknowledged finish is stored under its claim exactly when
  the claim was still current, and covered in any case as long as no reset happened
  (`ProgressConsumer.FinishIsStoredExactly`). After a reset it falls short exactly when something was
  transferred (`ProgressConsumer.ShortExactly`). An acknowledged phase is always stored
  (`ProgressConsumer.PhaseIsStored`).
- An add can return Ok while the last slice is still in the channel, although the URL import counts on the
  body's complete drain (`src/import/v2_source.rs:306-310`). For a single slice this means that the request
  body took nothing. It can happen exactly when the source has any byte (`StreamAdd.OkBeforeDrained`).
- The publisher's conflict scan also looks at failed entries that kept their key, which the builder never
  sees (`Mirror.ShadowedExactly`).
- A keyset scan finds an id that stays pending within `n + 1` calls for `n` ids, not only within two rounds.

## Model

| member | source | states |
|---|---|---|
| Crc64.Turn | src/cors/checksum.rs:6-13 | One byte: exclusive-or into the register, then eight steps |
| Crc64.Crc64Nvme | src/cors/checksum.rs:3-16 | The two nested loops compute eight bytes whose big-endian number and the remainder of the message add up to 2^64 - 1 |
| Crc64.StepLinear | src/cors/checksum.rs:8-12 | The bit step distributes over exclusive-or |
| Crc64.StepInjective | src/cors/checksum.rs:8-12 | No two registers step to the same register |
| Crc64.AbsorbsAsWord | src/cors/checksum.rs:5-14 | Up to 64 message bits enter as one exclusive-or of a whole word followed by that many steps |
| Crc64.BytesAreBits | src/cors/checksum.rs:5-14 | The byte loop is the bit-serial register over the message's bits |
| Crc64.AbsorbIsDivision | src/cors/checksum.rs:1-14 | The register is the schoolbook remainder of the message, extended by 64 zeros and with the start value mixed in, modulo the generator polynomial |
| Crc64.ChecksumIsDivision | src/cors/checksum.rs:1-16 | The checksum, as a big-endian number, is the complement of the schoolbook remainder of the message, started with 64 ones and followed by 64 zeros, as the NVM Command Set standard defines it |
| Crc64.PolynomialValue | src/cors/checksum.rs:1-1 | The divisor is 0x9a6c9329ac4bc9b5 |
| Crc64.BitsValue | src/cors/checksum.rs:5-14 | The message's bits are those of its bytes as a little-endian number |
| Crc64.EmptyChecksum | src/cors/checksum.rs:3-16 | The empty message has eight zero bytes |
| Crc64.BurstDetected | src/cors/checksum.rs:3-16 | Equal-length bodies whose differing bits all lie in one window of 64 bits, at any bit offset, have different checksums |
| Crc64.EightByteWindowDetected | src/cors/checksum.rs:3-16 | Equal-length bodies that differ only inside eight consecutive bytes have different checksums |
| Order.SortSorted | src/kubo/directory.rs:310-310 | Sorting puts any list in byte order by name |
| Order.SortedUnique | src/kubo/directory.rs:310-310 | Links with different names have one sorted order, whatever order they came in |
| Order.SortKeepsSorted | src/kubo/directory_hamt.rs:59-59 | Sorting a list whose names are in byte order changes nothing |
| HamtBuilder.Distribute | src/kubo/directory_hamt.rs:41-44 | The buckets hold exactly the entries with each hash byte, in order, and no bucket is empty |
| HamtBuilder.Mark | src/kubo/directory_hamt.rs:48-48 | Setting a bucket's bit in the 32-byte array, in place, gives the bitmap of the buckets so far |
| HamtBuilder.FirstNonzero | src/kubo/directory_hamt.rs:60-60 | The position found cuts off exactly the leading zero bytes |
| HamtBuilder.Builder.Insert | src/kubo/directory_hamt.rs:37-71 | On success the node vector has grown by the trie of the entries with its root last; a collision or the node cap are reported as the specification says |
| HamtBuilder.BuildShards | src/kubo/directory_hamt.rs:23-35 | The builder's node list, or its error, is that of `Hamt.Shards`, of which `HamtShape` and `HamtSize` state lookup, shape, names, failures and size |
| HamtShape.BitmapExact | src/kubo/directory_hamt.rs:45-48 | A bit of a shard's bitmap is set exactly when its bucket is occupied |
| HamtShape.BitmapShortest | src/kubo/directory_hamt.rs:60-68 | No shorter big-endian byte string sets the same bits |
| HamtShape.OccupiedAtRank | src/kubo/directory_hamt.rs:47-58 | The k-th link belongs to the k-th set bit: an occupied bucket's place is the number of set bits below it |
| Hamt.PrefixReads | src/kubo/directory_hamt.rs:49-49 | A reader of upper-case hexadecimal digits, given by their codes, reads every prefix back as its bucket |
| HamtShape.PrefixIncreases | src/kubo/directory_hamt.rs:49-59 | Two-digit upper-case hexadecimal prefixes order names as their buckets, whatever follows, and read back as them |
| HamtShape.LabelledIsSorted | src/kubo/directory_hamt.rs:47-59 | The links are already sorted when `insert` sorts them |
| HamtShape.InsertShape | src/kubo/directory_hamt.rs:37-71 | Every accepted insertion leaves a well-formed trie that represents exactly its entries |
| HamtShape.ShardsLookup | src/kubo/directory_hamt.rs:23-71 | Walking the trie by hash bytes (bit, popcount position, decoded prefix and full name) finds exactly the link the flat list has for the name, and nothing for any other name |
| HamtSize.ShardsFailExactlyOnCollision | src/kubo/directory_hamt.rs:37-71 | Up to 10,000 links, `shards` fails exactly when two names share all eight hash bytes; otherwise there are at most 1 + 7 * (n / 2) nodes, so the size guard never fires |
| HamtSize.ShardsLinkedOnce | src/kubo/directory_hamt.rs:55-70 | For every weighting of nodes, the children linked weigh as much as all nodes but the root: each non-root node is referenced exactly once, and the files' sizes are those of the input links |
| HamtSize.ShardsTidy | src/kubo/directory_hamt.rs:55-70 | Every child index is smaller than its parent's, every link has a name, and every node's links are in byte order |
| DagPb.VarintLen | src/kubo/directory.rs:542-549 | The loop counts the bytes of the base-128 varint |
| DagPb.FieldLen | src/kubo/directory.rs:551-553 | The length of a length-delimited field with any tag |
| DagPb.LinkLen | src/kubo/directory.rs:559-561 | The length of a link as an embedded message |
| DagPb.BlockSize | src/kubo/directory.rs:555-572 | The exact byte length of the node's DAG-PB encoding and the cumulative size; fails exactly when the latter exceeds 64 bits |
| DagPb.NodeRoundTrip | src/kubo/directory.rs:555-572 | The encoding those lengths measure decodes to the same links, in order, and data |
| Blocks.ShardDataIsProtobuf | src/kubo/directory_hamt.rs:80-87 | The literal bytes are the UnixFS message with type HAMTShard, the bitmap, hash type 0x22 and fanout 256 |
| Blocks.ShardDataRoundTrip | src/kubo/directory_hamt.rs:80-87 | The bitmap can be read back, and shard data is never mistaken for plain directory data |
| Blocks.PutNode | src/kubo/directory.rs:602-662 | A block within the limits is written, and its size is its links' sizes plus its own length; otherwise it is too large |
| Blocks.PutExactly | src/kubo/directory.rs:602-662 | A block is written exactly when it is at most 2 MiB long, its payload at most 64 MiB, and its cumulative size fits 64 bits |
| Blocks.BlockReadsBack | src/kubo/directory.rs:602-662 | What is stored for a block decodes to the names, CIDs and sizes of its links, in order, and to its data |
| Blocks.PutNodes | src/kubo/directory.rs:580-598 | Every shard is written after the children it links, with their CIDs and sizes |
| Blocks.DagWalkIsWalk | src/kubo/directory.rs:579-599 | Reading the written blocks is walking the node list |
| Blocks.ShardedLookup | src/kubo/directory.rs:579-599 | Reading any name from the written trie is finding it in the directory's links |
| Blocks.ShardedConservation | src/kubo/directory.rs:579-599 | The trie's size is the sum of the linked sizes plus the lengths of all its blocks |
| Blocks.PutShards | src/kubo/directory.rs:574-600 | A written trie lists exactly the links, its size adds up, and every block's links are in byte order. Up to 10,000 links, a collision means two names with equal hashes, and too large means a shard over 2 MiB, over the payload limit or over 64 bits of size, after those before it were written |
| Blocks.PutDirectory | src/kubo/directory.rs:309-322 | One directory lists exactly its links and its size adds up; up to 256 KiB it is one plain block and above a trie; every block written is within the limits and has its links in byte order; a failure has its cause in the sorted links |
| Blocks.WritesUnique | src/kubo/directory.rs:309-322 | Sorted links are written in one way at most: one CID and size |
| Blocks.WritesOrCannot | src/kubo/directory.rs:309-322 | Links that are written have no cause to fail, so the stated causes are exact |
| Paths.JoinSplit | src/kubo/directory.rs:250-250 | Splitting a path at slashes loses nothing |
| Paths.AncestorIsCut | src/import/v2_worker.rs:562-565 | One path's components are a proper prefix of another's exactly when the other, cut at one of its slashes, is the first |
| Paths.CutIsListed | src/import/v2_worker.rs:562-565 | Looking up a path cut at each of its slashes finds something exactly when a listed path is a proper ancestor |
| Manifest.Register | src/kubo/directory.rs:267-279 | All ancestors are registered and accounted, unless a limit is exceeded |
| Manifest.AdmitOne | src/kubo/directory.rs:249-281 | One file: accepted with its ancestors and its entry, or refused for its form, a limit or a duplicate path |
| Manifest.Admit | src/kubo/directory.rs:244-284 | A manifest is admitted exactly when it is well formed, within the limits and free of duplicate and nested paths; a path conflict is blamed only on such a pair |
| Manifest.DirsExact | src/kubo/directory.rs:267-279 | The directories are the root and exactly the proper ancestors of files |
| Manifest.UsedExactly | src/kubo/directory.rs:259-279 | The byte limit counts the manifest's text, and every directory but the root once, with its path, 31 bytes a component and 129 more, whatever the order of files |
| Manifest.ValidPathExactly | src/kubo/directory.rs:250-258 | A path is valid exactly when it has at most 63 slashes, no backslash, no zero byte, and no part that is empty, "." or ".." |
| Mirror.Scan | src/import/v2_worker.rs:547-608 | The pass succeeds exactly when every entry has key, CID and size or a known failure code, and otherwise stops with the error of the first that has not; files and failures are those entries in order; the root is refused as invalid exactly for a wrong key, and else for a conflict exactly when a keyed entry lies above a successful one |
| Mirror.ListedExact | src/import/v2_worker.rs:572-591 | The manifest's lines are exactly the entries with key, CID and size, with these values |
| Mirror.FailuresExact | src/import/v2_worker.rs:592-602 | The failures are exactly the other entries with a code, with path and code |
| Mirror.GatheredInOrder | src/import/v2_worker.rs:558-605 | Files, lines and failures come in the order of the entries |
| Mirror.EntriesAccounted | src/import/v2_worker.rs:558-605 | Once all entries are settled, each is a file and a line, or a failure |
| Mirror.ShadowedExactly | src/import/v2_worker.rs:552-569 | The scan sees a conflict exactly when the files are nested or a failed entry with a key lies above a file |
| Mirror.ScanAgreesWithAdmission | src/import/v2_worker.rs:552-569 | When failed entries have no key and keys are right, the publisher's string scan and the builder's component check agree on orderly files with distinct paths |
| Directory.AddFiles | src/kubo/directory.rs:286-301 | Every file becomes a link with its size in its parent, asked once per CID; fails exactly when a size is missing |
| Directory.DirectoryServes | src/kubo/directory.rs:303-339 | A directory written from complete and right links resolves everything below it |
| Directory.DeepestComplete | src/kubo/directory.rs:303-322 | A deepest pending directory has all its links when it is written |
| Directory.ParentPending | src/kubo/directory.rs:329-338 | Its parent is still pending |
| Directory.WriteOne | src/kubo/directory.rs:308-339 | One turn keeps all pending directories ready and the sizes adding up, or ends with a faithful root |
| Directory.WriteAll | src/kubo/directory.rs:303-340 | Deepest first, root last: the root serves every path, its size is the files' sizes plus the lengths of all blocks written, links are in byte order, and it is the manifest's one root |
| Directory.LinksBounded | src/kubo/directory.rs:286-338 | A directory has at most as many links as the manifest has files |
| Layout.AssignmentsAgree | src/kubo/directory.rs:303-339 | However directories were written so far, two ways agree on the CID and size of every directory both have |
| Layout.YieldsOrStuck | src/kubo/directory.rs:303-339 | A manifest that has a root has no directory that cannot be written |
| Layout.RootUnique | src/kubo/directory.rs:303-339 | A manifest has at most one root |
| Layout.OrderDoesNotMatter | src/kubo/directory.rs:244-301 | Manifests that list the same files have the same root |
| Directory.Build | src/kubo/directory.rs:227-340 | A nonempty manifest is built exactly when it is orderly, free of conflicts, its sizes are known and no directory is stuck; the root is then faithful and the manifest's own. Each error has its cause: for a collision or a size it is a directory whose links, with the CIDs and sizes of its files and of the blocks written below it, cannot be written. An empty manifest has no root |
| Directory.FilesDetermineRoot | src/kubo/directory.rs:227-340 | Builds of manifests with the same files have the same root CID and size |
| Directory.CollisionMeansSiblings | src/kubo/directory.rs:574-578 | A collision means two children of one directory whose different names share all eight hash bytes |
| Directory.FilesResolve | src/kubo/directory.rs:354-370 | Every manifest path resolves to its original CID, whichever directories were sharded |
| Directory.NothingElseResolves | src/kubo/directory.rs:303-339 | A path that is neither a file, nor above one, nor below one resolves to nothing |
| Directory.DirectoriesResolve | src/kubo/directory.rs:303-339 | A directory of the manifest resolves to one of the blocks written |
| Framing.Absorb | src/crypto/chunker.rs:30-43 | The copy-free and the buffered path together emit the complete frames of buffer plus item and keep the rest |
| Framing.FrameStream | src/crypto/chunker.rs:20-52 | The stream equals appending and cutting, with errors passed through |
| Framing.FramedData | src/crypto/chunker.rs:20-52 | The frames are the chunks of all bytes together: all full but the last |
| Framing.FramedFailures | src/crypto/chunker.rs:45-45 | The errors are those of the input, in order |
| Framing.FramedClean | src/crypto/chunker.rs:20-52 | An error-free result does not depend on how the input was cut |
| Framing.FailurePosition | src/crypto/chunker.rs:27-47 | An error comes out after exactly the frames completed before it |
| Cipher.Encrypt | src/crypto/aes_gcm.rs:26-37 | The buffer transformed in place is nonce, ciphertext and tag |
| Cipher.Decrypt | src/crypto/aes_gcm.rs:39-57 | A chunk opens exactly to the plaintexts that sealing under its nonce turns into it; under 28 bytes it is refused |
| Cipher.ChunkRoundTrip | src/crypto/aes_gcm.rs:26-57 | Opening undoes sealing, and sealing adds 28 bytes |
| Cipher.EncryptStream | src/crypto/chunker.rs:54-81 | Each 256 KiB frame is sealed under its own nonce, errors pass through, and a failure to seal ends the stream |
| Cipher.EncryptedExactly | src/crypto/chunker.rs:54-81 | For any cipher, each error passes through and each chunk becomes its nonce, ciphertext and tag, under a nonce of its own, counted by the chunks before it; one that cannot be sealed is the last item |
| Cipher.CutShort | src/crypto/chunker.rs:54-81 | The encrypted stream is cut short only by a failure to seal |
| Cipher.DecryptStream | src/crypto/chunker.rs:83-113 | Each frame of 262,172 bytes is opened on its own, and no error ends the stream |
| Cipher.CutJoined | src/crypto/chunker.rs:91-98 | Frames that are all full but the last can be joined and cut again |
| Cipher.EncryptedIsSealed | src/crypto/chunker.rs:54-81 | The encrypted stream carries the sealed chunks of the whole plaintext, whatever errors lie between |
| Cipher.WireLength | src/crypto/chunker.rs:54-81 | n bytes become n + 28 * ceil(n / 262144) bytes |
| Cipher.StreamRoundTrip | src/crypto/chunker.rs:54-113 | Encrypting, re-splitting the wire in any way and decrypting gives back exactly the plaintext's chunks |
| Cipher.CutsDoNotMatter | src/crypto/chunker.rs:54-113 | Neither direction depends on how its error-free input was cut |
| Cipher.DeliveredIsSealed | src/crypto/chunker.rs:99-101 | Of any wire, a frame is delivered exactly when it was sealed under this key |
| Cipher.RefusedExactly | src/crypto/chunker.rs:83-113 | Of any wire, each error has exactly its cause: Kubo's stream, another stream error, a frame under 28 bytes, or a frame that nothing seals to |
| Ndjson.LinesExact | src/kubo/mod.rs:105-131 | The reference: cutting at newlines loses nothing and leaves no newline |
| Ndjson.RecordExactly | src/kubo/mod.rs:135-144 | A line is a record unless all its bytes are blanks, and one carriage return at its end is not part of the record |
| Ndjson.ReturnChangesNothing | src/kubo/mod.rs:135-144 | A carriage return before the newline makes no difference |
| Ndjson.NdjsonBuffer.Push | src/kubo/mod.rs:96-103 | A frame is taken only when the last one is used up |
| Ndjson.NdjsonBuffer.TakeLine | src/kubo/mod.rs:135-144 | One trailing carriage return is stripped, a blank line is dropped, and the line is emptied |
| Ndjson.NdjsonBuffer.NextRecord | src/kubo/mod.rs:105-129 | One record, or the end of the frame, or a line over the limit; what the parser yields in all does not change |
| Ndjson.FeedAppend | src/kubo/mod.rs:105-129 | Feeding two frames is feeding their concatenation |
| Ndjson.FeedIsParse | src/kubo/mod.rs:105-129 | Feeding byte by byte is parsing line by line |
| Ndjson.ReadAll | src/kubo/add.rs:228-246 | However the response is cut, the records are those of its lines; it fails exactly when a raw line exceeds 65,536 bytes, after the records before it |
| AddResponse.ProcessExact | src/kubo/add.rs:255-306 | One more record is taken exactly when it keeps the response acceptable, and the tally is then that of all records |
| AddResponse.ParseAddResponse | src/kubo/add.rs:214-253 | Frames, parser and records together give the verdict on the whole response |
| AddResponse.ProcessAllExact | src/kubo/add.rs:255-306 | Records are all taken exactly when each is well formed, the counts never fall and every report was heard; the tally is then theirs |
| AddResponse.VerdictExact | src/kubo/add.rs:214-253 | A response is accepted exactly when it ended, no line was too long, its records were acceptable and the last was a root, which is the result |
| AddResponse.VerdictRefused | src/kubo/add.rs:214-306 | Every refusal has its reason: a record that is malformed, counts backwards or was not heard, after acceptable ones; a line too long; the end of the stream; or no root at the end |
| StreamAdd.StepKeeps | src/kubo/add.rs:48-253 | Every action of producer, body, request, parser or cancellation keeps the invariant |
| StreamAdd.OkMeansComplete | src/kubo/add.rs:96-253 | In every run, Ok means that the source ended cleanly, all its bytes were sent in order in slices of 1 to 65,536 bytes with at most one on its way, the status was a success, and the whole response was accepted with the returned root last |
| StreamAdd.BodyIsPrefix | src/kubo/add.rs:48-80 | At every moment the channel holds at most one slice and the body has taken a prefix of the source |
| StreamAdd.SentInSlices | src/kubo/add.rs:48-80 | What went into the channel is at every moment a prefix of the items, each cut into slices of 65,536 bytes, and all of that once the producer is complete |
| StreamAdd.HeardOnce | src/kubo/add.rs:96-212 | In every run the request resolves at most once, and the ends of producer and parser are heard at most once |
| StreamAdd.CancelStops | src/kubo/add.rs:48-80 | Once cancelled, a producer or parser still at work can end the call with a cancellation |
| StreamAdd.OkExactly | src/kubo/add.rs:96-212 | Some run returns Ok exactly when the source ends cleanly, the status is a success and the response is accepted |
| StreamAdd.OkBeforeDrained | src/kubo/add.rs:48-212 | Of the runs that return Ok, some leave a slice untaken by the request body exactly when the source has any byte |
| AddOutcomes.OutcomesExactly | src/kubo/add.rs:48-253 | Some run returns an outcome exactly when it is allowed: Ok for a complete source and an accepted response; a source error only for the first one of the source; a transport or status error for such a request; a closed request for a source with a byte; a refusal exactly as the response's verdict; a cancellation always |
| AddOutcomes.GivenIsAllowed | src/kubo/add.rs:96-253 | A run that returns a cancellation was cancelled, or its response was |
| UrlSource.BoundedBody | src/import/downloader.rs:522-570 | Frames are passed on within the byte limit; the one error, if any, is the first cause, and the limit counts before the end |
| UrlSource.MeasureBody | src/import/v2_source.rs:261-275 | Counting, hashing and passing on, until the body ends or fails |
| UrlSource.Measure | src/import/v2_source.rs:260-291 | The measurement is made exactly when the stream ends without an error, and is then the size and digest of the whole body |
| UrlSource.NoFaultExactly | src/import/v2_source.rs:264-289 | No error is left exactly when the body is clean, within the limit and matches any declared total and expected digest |
| UrlSource.SourceBlamed | src/import/v2_source.rs:260-304 | An error of the source that any run of the add returns has its cause in the download: its own error, limit, stall or cancellation, too many bytes, a wrong total, a wrong digest of the whole body, or a refused report |
| UrlSource.FetchUrl | src/import/v2_source.rs:231-336 | Over any run of the add, a source is verified exactly when the add succeeded, nothing was cancelled, the CID parses and the pin has no error; it then has the size and digest of the whole download, which was all sent and meets every demand, and the CID of the accepted response's root; every refusal has its cause, and a missing measurement cannot happen |
| UrlSource.CleanFetchSucceeds | src/import/v2_source.rs:231-310 | For a whole body that meets every demand and an accepted response there is a run of the add that succeeds with the response's root |
| RetryDelay.DelayBounds | src/import/worker.rs:657-670 | For any hash the delay is at least the power of two, at most about a fifth more, and at most 300 seconds |
| RetryDelay.DelaysExactly | src/import/worker.rs:657-670 | The delays of an attempt are exactly the whole seconds from the power of two to a fifth more, or one more, up to 300 |
| RetryDelay.GrowsExactly | src/import/worker.rs:657-670 | The delay is sure to grow to the next attempt, for all hashes, exactly for attempts 1 to 8 |
| RetryDelay.GrowsThrough | src/import/worker.rs:657-670 | Delays strictly grow through attempt 9 |
| ImportSafety.NextKeeps | src/import/worker.rs:233-468 | Every claim, task step, landing or lost write, drop, supersession and passage of time keeps the invariant of the job |
| ImportSafety.StartsBounded | src/import/worker.rs:245-333 | In every run the pipeline starts at most max_attempts times, never twice for an attempt, and never at or after the deadline |
| ImportSafety.LeaseWithinDeadline | src/import/worker.rs:276-303 | A pipeline runs only after its lease was capped, and a capped lease ends by the deadline |
| ImportSafety.RenewalsWithinDeadline | src/import/worker.rs:351-374 | Apart from claims, every lease ever written ends by the deadline |
| ImportSafety.RunningLeaseIsKept | src/store/import/jobs.rs:833-847 | No claim takes a lease that is still running |
| ImportSafety.RequeuesBounded | src/import/worker.rs:389-455 | Every requeue lies before the deadline, waits at most 300 seconds, and later ones wait longer through attempt 9 |
| ImportSafety.StaleChangesNothing | src/store/import/jobs.rs:849-861 | Nothing done for a claim changes the row unless it is the current claim, on a lease that still runs |
| ImportSafety.OvertakenForGood | src/store/import/jobs.rs:529-605 | Once a claim was overtaken, no later action on its behalf changes the row |
| ImportSafety.TransitionsAllowed | src/import/model.rs:29-38 | The row's state only moves along the allowed transitions |
| ImportSafety.FinishedForGood | src/import/model.rs:25-38 | A finished row never changes again |
| ImportOutcomes.SettlesExactly | src/import/worker.rs:389-468 | A finished pipeline issues a requeue exactly for a retryable failure with attempts and time left, a failure exactly for a terminal one or a retryable one without, and nothing else |
| ImportOutcomes.BeginsExactly | src/import/worker.rs:245-275 | A claim fails its job before anything runs exactly when the deadline passed or the attempts are used up |
| ImportOutcomes.CapsExactly | src/import/worker.rs:276-303 | The first renewal caps the lease at the deadline exactly when the claim is current and there is time; otherwise nothing runs |
| ImportOutcomes.StartsExactly | src/import/worker.rs:304-333 | The pipeline starts, and is counted, exactly before the deadline |
| ImportOutcomes.StartsRecorded | src/import/worker.rs:304-333 | In every run, whatever executes is counted among the starts |
| ImportOutcomes.RenewalExtends | src/import/worker.rs:351-374 | A renewal of the current claim extends the lease to its length or the deadline, the pipeline goes on, and no second renewal is under way with it |
| ImportOutcomes.RefusalStops | src/import/worker.rs:351-388 | A renewal that finds the claim gone stops the pipeline and changes nothing |
| ImportOutcomes.FinishesExactly | src/import/worker.rs:334-388 | The outcome is settled exactly when it comes before the deadline |
| ImportOutcomes.ClaimsExactly | src/store/import/jobs.rs:529-605 | A claim takes a job exactly when it is due, and leaves it running with one more attempt, a new epoch and a full lease |
| ImportOutcomes.CanTakeOver | src/store/import/jobs.rs:529-605 | Whoever had the job, once the lease has lapsed another worker can claim it, under a new epoch |
| ImportOutcomes.LandsExactly | src/store/import/jobs.rs:607-861 | A write takes effect exactly when its claim is current, its lease runs and it is admissible; a requeue then leaves the job queued for a whole delay later, a failure failed and a completion completed, all unlocked |
| ImportOutcomes.LostForGood | src/import/worker.rs:485-526 | A write given up before it reached the database never lands, and nothing else is lost with it |
| ImportOutcomes.EndsHaveCauses | src/import/worker.rs:233-468 | In every run each requeue goes back to a retryable failure of its attempt, a completed job to a publication under its last claim, a failed one to a terminal failure, exhausted attempts or time, a superseded one to a supersession |
| ImportOutcomes.EndsReachable | src/import/worker.rs:233-468 | From every state in which the job can be claimed in time it can still complete, fail, or be requeued if that may be retried |
| ImportOutcomes.TransitionsExactly | src/import/model.rs:29-38 | One state can follow another exactly when the transition is allowed |
| ImportOutcomes.SupersedesExactly | src/store/import/ownership.rs:1742-1774 | A job is superseded exactly while it is not finished; it is then unlocked, and no write of any claim passes the fence |
| WorkerSlots.Worker.FillSlot | src/import/worker.rs:170-214 | The queue whose turn it is is asked first, then the other; the turn passes after a claim |
| WorkerSlots.Worker.Poll | src/import/worker.rs:164-215 | A poll ends with every slot taken, or with both queues asked last and empty-handed |
| WorkerSlots.RunWorker | src/import/worker.rs:129-217 | Over any events the slots, the turn and the claim log are what the events make of them; there are never more tasks than slots, and two claims in a row come from one queue only if the other was asked in between and gave nothing |
| WorkerSlots.PollTakes | src/import/worker.rs:164-215 | A poll takes as many claims as are given in a row and as there are free slots for |
| WorkerSlots.ClaimsAccounted | src/import/worker.rs:129-217 | Every claim of a queue still runs or has ended |
| WorkerSlots.StartsWithJobs | src/import/worker.rs:120-172 | The queue of jobs is asked first |
| ClaimScan.ClaimDue | src/import/v2_worker.rs:157-186 | The loops compute the specified scan: up to four pages, stopping at capacity, an error or a short page, which clears the cursor |
| ClaimScan.CallOrdered | src/import/v2_worker.rs:157-186 | One call tries ids in strictly increasing order from its cursor on, at most 128, whatever the answers, and leaves the cursor on the last or clears it |
| ClaimScan.CapacityKept | src/import/v2_worker.rs:157-186 | A call reports exactly what the database granted, never more than its capacity; at capacity it stops on the id granted last; a failure is reported exactly for a failed claim, which is the last, or a failed listing; otherwise the call saw the end of the list or four full pages |
| ClaimScan.ScanAdvances | src/import/v2_worker.rs:164-185 | A call tries an id that stays pending or moves its cursor towards it |
| ClaimScan.ScanRepeatedly | src/import/v2_worker.rs:155-186 | Among n ids that come and go, an id that stays pending is tried within n + 1 calls, from any cursor and whatever the claims give |
| RootCandidate.StepKeeps | src/import/v2_worker.rs:46-149 | Every action of the work, its supervisor, the database and other workers keeps the invariant of the slot |
| RootCandidate.KeptUntilReturn | src/kubo/directory.rs:206-225 | In every run, until the worker returns, a root whose reply was complete is in the slot or retained in the database under its claim |
| RootCandidate.RetainedExactly | src/import/v2_worker.rs:117-149 | A CID is retained under a new claim exactly when one of the worker's own retentions committed it or another party retained it |
| RootCandidate.DurableExactly | src/import/v2_worker.rs:117-149 | After the return only the database counts: it has the root exactly in those cases, and otherwise the invoked build, which is recoverable unless someone marked it as failed |
| RootCandidate.LostExactly | src/import/v2_worker.rs:117-149 | A step loses a root whose reply was complete exactly when it is an abort or a last retention giving up uncommitted, and the database has not got the CID |
| RootCandidate.NeverLostUnlessGivenUp | src/import/v2_worker.rs:117-149 | In every run in which no retention gives up and nothing is aborted, the root is in the slot or in the database, and after the return in the database |
| RootCandidate.LostAfterReturn | src/import/v2_worker.rs:132-148 | From any database and for any CID there is a run that returns with a complete reply and nothing retained |
| RootCandidate.FilledMeansClaimed | src/import/v2_worker.rs:851-858 | A filled slot implies a recorded root claim of this worker whose invocation was committed |
| RootCandidate.ClearedAfterCommit | src/import/v2_worker.rs:858-884 | The slot is filled only by a fresh reply, and cleared only when the database already has its CID or with the return |
| RootCandidate.ExitTriesRetention | src/import/v2_worker.rs:117-149 | Every return but that of an aborted task has offered the CID of a complete reply for retention |
| RootCandidate.RetainedForGood | src/store/zip/root.rs:246-301 | Retained CIDs are never forgotten |
| RootCandidate.RetentionIsOpen | src/store/zip/root.rs:246-270 | Unless the build was marked as failed, the last retention can commit, and then the CID is stored when the worker returns |
| RootCandidate.InvokesExactly | src/store/zip/root.rs:104-200 | In every run the root write can be invoked exactly as long as no other worker claimed the root after ours and nobody recorded a start under our claim |
| RootCandidate.WrittenOnce | src/import/v2_worker.rs:851-896 | In every run there is at most one invocation, and after it one answer to the root write |
| RootCandidate.RetainsExactly | src/store/zip/root.rs:246-270 | In every run a retention that is under way can commit exactly unless its build is marked as failed |
| RootCandidate.DroppedAnywhere | src/import/v2_worker.rs:46-149 | The work can be dropped at any moment before the last retention, which then offers what the slot holds, and aborted at any moment |
| RootCandidate.StoredRun | src/import/v2_worker.rs:851-884 | From any database and for any CID there is a run without mishap that stores exactly that CID and returns |
| RootCandidate.RescuedRun | src/import/v2_worker.rs:117-149 | From any database and for any CID there is a run in which the supervisor's retention stores what the build did not |
| RootCandidate.OvertakenRun | src/store/zip/root.rs:104-126 | Another worker can claim the root in time to keep ours from being written |
| RootCandidate.RefusedRun | src/import/v2_worker.rs:876-896 | A root write that fails leaves nothing to retain, and the worker returns by itself |
| RootCandidate.FailedRun | src/store/zip/root.rs:246-270 | A build that is marked as failed while its CID waits has the retention refused |
| ProgressConsumer.AppliedIsSent | src/import/progress.rs:382-400 | Applying one event takes the counters from what all events before it amount to, to what all of them amount to, with providers counted with saturation |
| Progress.HighestCovers | src/import/progress.rs:382-400 | What all events amount to is no lower than any of them |
| Progress.HighestReached | src/import/progress.rs:382-400 | And no higher: every level that is not zero is that of an event |
| Progress.TotalsExactly | src/import/progress.rs:229-238 | Total and size are the largest that were sent |
| ProgressConsumer.Drain | src/import/progress.rs:342-380 | The queue and the samples are folded in, and the flag is set exactly when there was an event or a counter rose |
| ProgressConsumer.Flush | src/import/progress.rs:311-340 | Nothing is written for a clean flag; a success that wrote had the claim and leaves the counters stored |
| ProgressConsumer.StoredLeast | src/store/import/jobs.rs:863-886 | The columns get the least values that are no lower than the old ones and those written |
| ProgressConsumer.DrainedDirty | src/import/progress.rs:342-380 | The flag is set exactly for an event, or for a sample above its counter |
| ProgressConsumer.DrainedIsSent | src/import/progress.rs:342-400 | Draining brings the counters to the pointwise maximum of the start values and everything sent |
| ProgressConsumer.StepKeeps | src/import/progress.rs:184-285 | Every interleaving of sends, samples, ticks, commands and database answers keeps the invariant |
| ProgressConsumer.NeverDecreases | src/store/import/jobs.rs:555-754 | No counter in memory ever decreases; a stored one only when the job is requeued under its claim after the consumer stopped, or when the claim was overtaken and another worker claims the URL job; both reset exactly the transfer columns |
| ProgressConsumer.OthersGoOn | src/store/import/jobs.rs:636-720 | Once the claim was overtaken, others can store any counters, and none that is there decreases |
| ProgressConsumer.CoveredUntilReset | src/import/progress.rs:311-340 | Until such a reset, a clean flag means that the database has at least the counters in memory, whether or not the claim is current |
| ProgressConsumer.CleanMeansStored | src/import/progress.rs:311-340 | The counters in memory are the maximum of all that was taken; while the claim is current a clean flag means that the stored ones are the same |
| ProgressConsumer.PhaseIsStored | src/import/progress.rs:209-228 | When a phase is acknowledged, the claim is current and the stored counters are the pointwise maximum of the start values and all that was taken, which includes all that was sent before the command |
| ProgressConsumer.AnswersExactly | src/import/progress.rs:184-340 | After a write-back the consumer goes on with its purpose, and acknowledges a finish, exactly if there was nothing to write, or if it was written under a current claim with every counter below 2^63; else it stops |
| ProgressConsumer.PhaseExactly | src/import/progress.rs:209-228 | After a phase update the consumer goes on exactly when the claim is current and the row was updated, and else stops |
| ProgressConsumer.CanFinish | src/import/progress.rs:184-285 | As long as the claim is current and the database can hold all that was sent, an issued finish can be acknowledged, whatever commands wait before it |
| ProgressConsumer.TickStores | src/import/progress.rs:269-283 | A tick under a current claim brings the database to exactly all that was sent |
| ProgressConsumer.ValueDirty | src/import/progress.rs:229-238 | A command that carries a value sets the flag, and an absent total changes nothing |
| ProgressConsumer.IdleIsClean | src/import/progress.rs:184-285 | In every run in which nothing is sent the flag stays clean |
| ProgressConsumer.FinishIsStoredExactly | src/import/progress.rs:239-253 | When a finish is acknowledged under a current claim, which a dirty flag guarantees, the counters are so stored exactly; without a reset the database has at least all of them in any case |
| ProgressConsumer.ShortExactly | src/import/progress.rs:239-253 | When the claim has lapsed and a clean finish waits, another worker's claim of the URL job makes the acknowledged finish fall short exactly when something was transferred |
| ProgressConsumer.FinishAfterReclaim | src/import/progress.rs:311-320 | A run in which a finish is acknowledged after another worker's claim reset the stored counters |
| Ipv6.PrefixExactly | src/import/downloader.rs:462-475 | For all addresses, networks and lengths 0 to 128, the byte-wise match holds exactly when the leftmost bits of the 128-bit numbers agree |
| Ipv6.ShiftIsDivision | src/import/downloader.rs:473-474 | Shifting those bits out is dividing by the power of two |

## Left out

- StreamAdd.StepKeeps: a ready future may be polled in any order, whereas the source prefers cancellation;
  more interleavings are allowed than the runtime has.
- Directory.WriteAll: among pending directories of equal depth any may be written next, whereas the source
  takes them in byte order; the root does not depend on it (`Directory.FilesDetermineRoot`).
- Directory.Build: the semaphore, the build deadline and cancellation are not in this model, and the steps
  after the root write (recursive pin, path resolution and residency verification by Kubo) are one step of
  `RootCandidate`.
- Blocks.PutNode: a failed `dag/put` call and a reply with the wrong codec are not modelled.
- ImportSafety.StartsBounded: the order in which due jobs are claimed, the batching of claims and the
  payload budgets of a claim are not modelled; a claim takes any due job.
- ImportSafety.LeaseWithinDeadline: the worker's clock, the database's clock and the timers are one clock.
- RootCandidate.FilledMeansClaimed: lease times of root claims are not modelled, so more claims and
  invocations can happen in the model than in the database; node identities are left out.
- ProgressConsumer.StepKeeps: sampled sources are nondecreasing by construction of the run, the capacities
  of the channels are not modelled, and a claim may lapse at any moment since lease times are not in this
  model.
- UrlSource.FetchUrl: redirects, name resolution, header validation and the phase reports to the job are not
  modelled; the CID source branch and the bound-artifact reader are left out.
- WorkerSlots.RunWorker: what a queue answers is a list given in advance, after which it gives nothing.
- Cipher.StreamRoundTrip: the cipher, its key schedule and the random choice of nonces are parameters.
- Murmur3, AES, SHA-256, JSON, base64 and CID text forms: uninterpreted, since no property depends on their
  internals.
- The import phase graph, publication, supersession rules, pinning and the object store: database code
  outside the protocols above.
- HTTP routing, authentication, lifecycle filters, CORS matching, configuration and telemetry: field checks
  and plumbing that would add only easy members.
- `is_public_ipv4`, `is_public_ipv6` and the other download checks: lists of constant ranges.
