# A verified model of inu

inu shares files by content. A file becomes a Merkle DAG of blocks in a local
store; a Kademlia-style hash table tells which peers have a block; a download
walks the DAG and fetches what it lacks. This project models those parts in
Dafny 4.11 and proves what they promise, for all inputs and over all runs.

`dafny verify dfyconfig.toml` checks the whole project.

## The parts

- **Keys, ranking, contacts** (`Keys`, `Ranking`, `Contacts`): 256-bit keys as 32
  bytes, the bytewise and the numeric order, the XOR metric, and what "the k
  nearest" means, with the proof that sorted inserts and truncation give it.
- **Lookup** (`Shortlist`, `Lookup`, `LookupMethod`): the shortlist as a mutable
  object; a round of a lookup as a transition system in which launches, replies,
  failures and late re-inserts come in any order; and the loop itself, proved to
  be a run of that system, whatever the network answers.
- **What lookups do** (`History`, `Rounds`): results, rounds and lists told from
  the actions of a run alone.
- **When lookups end** (`Restless`, `Settling`, `Calm`, `OneAtATime`, `Ending`):
  the same transition system where an ID may be known under several addresses,
  and the exact condition on the contacts under which every lookup ends.
- **Routing table** (`BucketTable`, `Recency`, `RoutingTable`): the
  update-split-retry recursion as a relation on values with its invariants over
  runs, the recency order of a bucket, and the mutable table proved against it,
  big-integer split points included.
- **Files** (`Merkle`, `Trees`, `Listing`, `FileTrees`, `Directories`,
  `FileSystem`): nodes, blocks and the store; trees of blocks; how a file or a directory becomes one;
  the builder that chunks, groups and stores; reading, path resolution, listing.
  `Json` is the encoding of nodes and inodes, with all that the rest asks of one.
- **Download** (`Download`, `Answers`, `Sharing`): goroutines, the semaphore and
  the shared store as a transition system, from the roots of any downloads that
  run together to their whole DAGs; what any answers of peers can do; the upload
  loop; and the whole way from adding at one peer to reading at another.
- **AS numbers** (`AsnTrie`): the mutable binary trie against the history of its
  inserts, and against the address blocks of RFC 4632.
- **Peer records** (`PeerStore`, `Network`): the expiring store as a mutable
  object, and any number of nodes that put, store, look up, cache, republish and
  expire records in any order, each with a clock of its own.
- **Stopping** (`Shutdown`): callers of `Stop`, the two background loops and their
  channels, in any interleaving.

A transition system has a `State`, an `Enabled` predicate and an `Apply`
function; a run is a sequence of enabled actions, and a theorem about all runs is
a theorem about all interleavings. Replies, failures, timers and schedules are
choices of the environment. Where the source panics, the model gives a `false`,
`null` or `None` result, and says exactly when.

## Where the code does not do what one would expect

Each of these is a lemma with the exact condition or a concrete run.

- The initial bucket covers every key only for a bucket size of 32; for a smaller
  one the all-ones key makes an update panic, and a bucket size above 32 makes
  construction panic (`RoutingTables.AcceptsEveryKey`,
  `RoutingTables.NewRoutingTable`).
- Lookups among given contacts end, within an explicit number of actions, if and
  only if the contacts are not restless (`LookupEndings.LookupsEndIff`). They are
  restless when some ID has two addresses and there is a contact to tell of one
  while the other is called, with room in the shortlist for both: with a
  parallelism of two or more, another ID, with k at least 2 if it is farther and
  3 if nearer; with a parallelism of one, a nearer contact and yet another ID,
  with k at least 3 if that is farther and 4 if nearer. For a parallelism of two
  or more and k of three or more that is: some ID under two addresses, and
  another ID (`LookupEndings.RestlessWide`). In a restless
  world some lookup never returns (`RestlessLookups.RestlessNeverEnds`).
- The shortlist, cut to k after every insert, is free of duplicate IDs exactly
  when, of each ID that came under two addresses, what is nearer leaves room for
  one entry at most (`Contacts.StrictIffRoom`).
- A parallelism of zero makes a lookup panic as soon as it has a contact to ask,
  and nothing rules it out (`LookupMethod.Lookup`).
- `Match` panics exactly when a 32-bit prefix equal to the address was inserted,
  even though `Insert` takes such prefixes (`AsnTries.TrieNode.Match`).
- A downloaded block is checked against its own CID and not against the one asked
  for. What is announced is stored, in every run, exactly when every answer that
  passes the checks has the CID asked for (`Answers.AnnouncedIsStoredIff`); a peer
  that answers with another valid leaf even makes the download end without an
  error (`Answers.AnswerNotChecked`).
- A directory reads as the files below it one after the other, and fails exactly
  when some directory below is empty (`Directories.DirectoryReads`).
- The first PUT of each key is sure to carry an upload key exactly when every node
  has one (`Networks.FirstPutsAuthorised`).

## Model

| member | source | states |
|---|---|---|
| Keys.Cmp | dht/key.go:54-64 | the bytewise comparison decides the order of the numbers the keys write, so it agrees with the big-integer range test of the buckets; zero means the same key |
| Keys.Xor | dht/key.go:45-52 | the loop gives the bytewise exclusive or |
| Keys.FromBigInt | dht/key.go:37-43 | the 32 bytes, padded at the front, write the number again, for every number below the size of the key space |
| Keys.BytesLength | dht/key.go:37-43 | a number has at most 32 bytes exactly when it is below the size of the key space: outside, the copy panics |
| Keys.FromBigIntInverts | dht/key.go:37-43 | converting the number of a key back gives the key |
| Keys.ParseUint64IsNumber | dht/key.go:26-35 | eight big-endian bytes at the low end of a key write the integer itself |
| Keys.KeySpaceIsTwoTo256 | dht/key.go:13-15 | there are 2^256 positions |
| Keys.DistInjective | dht/key.go:45-52 | two keys at the same distance from a third are the same key |
| Keys.DistMetric | dht/key.go:45-64 | XOR distance under the bytewise order is a metric: identity, symmetry, triangle inequality |
| Keys.ExactlyOneKeyAtEachDistance | dht/key.go:45-64 | around every key, exactly the distances below 2^256 occur, each for one key |
| Contacts.StrictIffRoom | dht/node.go:961-980 | for any batches of inserts, each cut to k: the list is strictly ascending, so without duplicate IDs, if and only if for each ID inserted under two addresses at least k-1 of the inserted contacts are nearer |
| Ranking.LowestMeaning | dht/node.go:961-980 | the k nearest of a set: strictly ascending, as many as fit, and everything left out is farther than everything kept |
| Ranking.LowestIsDetermined | dht/routing_table.go:215-249 | only one list has that meaning, so map order and an unstable sort cannot change the answer |
| Ranking.LowestInsert | dht/node.go:961-980 | inserting a batch into the k nearest so far and truncating gives the k nearest of everything |
| Ranking.BatchesGiveLowest | dht/node.go:961-980 | any order and grouping of inserts leaves the k nearest of all that was ever inserted |
| Shortlists.Shortlist.Search | dht/node.go:938-945 | binary search finds the first entry at least as far away, on every sorted list |
| Shortlists.Shortlist.Insert | dht/node.go:961-980 | the list becomes the sorted insert of each contact, cut to k once at the end, and stays sorted |
| Shortlists.Shortlist.Remove | dht/node.go:982-996 | each contact found at its sorted place goes; all their IDs are un-marked |
| Shortlists.Shortlist.AllContacted | dht/node.go:1016-1026 | whether every listed ID is marked |
| Shortlists.Shortlist.PickNotContacted | dht/node.go:1028-1044 | the nearest unmarked entries in order, at most the limit |
| Shortlists.Shortlist.PickClosestWithoutValue | dht/node.go:1046-1057 | the nearest entry that did not have the peers, if there is one |
| Lookups.StepInv | dht/node.go:687-858 | what every action of a lookup keeps: sorted list within k, marks equal to calls in flight or answered, no ID answered twice, nothing near lost but by failure |
| Lookups.StepRank | dht/node.go:713-857 | every action brings the lookup nearer its end, although a failure un-marks its contact for another try |
| Lookups.LookupTerminates | dht/node.go:687-858 | every lookup over a finite set of contacts ends, within an explicit bound, for any replies, failures and interleaving |
| Lookups.LookupProgress | dht/node.go:710-857 | a lookup that has not returned can always take a step |
| Lookups.AnswerIsGood | dht/node.go:839-852 | the not-found answer is sorted, within k, made of learned contacts that each answered in this lookup exactly once, and never holds the caller |
| Lookups.LookupAnswer | dht/node.go:687-858 | the same over every run; and without failures the answer is exactly the k nearest of all contacts ever learned |
| Lookups.HeadIsClosest | dht/node.go:830-852 | when all who answer but the nearest name a nearer contact, the answer starts with the globally nearest unless an RPC to a nearer contact failed |
| Lookups.LookupConverges | dht/node.go:687-858 | without failures it does start with the globally nearest contact other than the caller |
| LookupHistory.LookupReturns | dht/node.go:760-852 | whatever the addresses: a lookup that has returned found peers if and only if some contact offered them; they are those of the last offer, cached at the nearest listed contact that offered none; without an offer it returns the contacts left on its list, or that there are none |
| LookupHistory.LookupHeard | dht/node.go:687-852 | told from the replies and failures of the run: no ID answers twice, every contact of a not-found answer did, and without failures it is the k nearest of the seed and of all that replies named |
| LookupHistory.RunFields | dht/node.go:760-803 | the marks, what was learned and what failed are exactly what the actions of the run say |
| LookupRounds.FirstRound | dht/node.go:689-716 | the first round asks the nearest contacts of the node's own table, as many as the parallelism and k allow |
| LookupRounds.PickAsks | dht/node.go:711-715 | a round asks the nearest listed contacts not asked yet, and leaves one unasked only at its limit |
| LookupRounds.NextRound | dht/node.go:709-857 | a further round asks no more than the parallelism if the nearest listed contact changed, and all that are left if it stayed; the calls awaited at once never exceed what was asked |
| LookupRounds.HeardIsListed | dht/node.go:775-803 | contacts of a reply, and a contact put back, are listed unless k at least as near are |
| Lookups.XorWorld | dht/node.go:938-945 | with XOR distance the assumption on contacts is one address per ID and no more |
| RestlessLookups.RestlessNeverEnds | dht/node.go:687-996 | among restless contacts some lookup never returns: there is an infinite schedule all of whose beginnings are runs that have not returned |
| Settling.WeakStep | dht/node.go:713-857 | what every action keeps with any addresses, as long as contacts called together have different IDs: order, bounds, marks equal to calls in flight or answered |
| Settling.StepLower | dht/node.go:713-857 | with any addresses every action brings the lookup nearer its end, as long as a failed call finds its contact in the list at once if it is there |
| SingleCalls.StepOrderly | dht/node.go:709-857 | with a parallelism of one: until the nearest listed contact has answered it is called alone; later calls never go to the nearest ID of all |
| LookupEndings.StepCalm | dht/node.go:713-996 | where the contacts are not restless every action keeps each unanswered ID listed once at most, but for the nearest of all when called alone |
| LookupEndings.LookupsEndIff | dht/node.go:687-996 | for every parallelism and k of at least one and all contacts: there is a bound on all lookups, from any table and with any replies, failures and interleaving, if and only if the contacts are not restless, and it is given; and some lookup never returns if and only if they are |
| LookupEndings.XorLookupsEndIff | dht/node.go:687-996 | the same for the XOR distance to any target, with no further assumption |
| LookupEndings.RestlessWide | dht/node.go:687-996 | with a parallelism of two or more and k of three or more, restless means an ID under two addresses and a second ID |
| LookupMethod.Lookup | dht/node.go:687-858 | among contacts that are not restless the loop over the shortlist object ends for every environment; its actions are those the schedule, the responses and the late hand-overs of the environment make, one after the other, and what it returns is the result of that run: found if and only if some response offered peers, with the peers of the last; it panics exactly for a parallelism of zero with a contact to ask |
| LookupMethod.Round | dht/node.go:713-803 | one round, from the first launch to the end of the wait, is a sequence of actions that leaves no call pending |
| LookupMethod.Decide | dht/node.go:805-857 | what follows the wait: found, unreachable, another round, done, or one round without limit, as the transition system concludes |
| BucketTables.UpdatedFacts | dht/routing_table.go:58-111 | an update keeps a bucket's IDs distinct, in range and within k, and refreshes, inserts, replaces the front whose ping failed, or changes no member |
| BucketTables.UpdatedOrder | dht/routing_table.go:58-111 | whoever was just heard from comes last, a front that answered the ping in place of the contact the update is for; the others stay in their order |
| Recency.RecencyOrder | dht/routing_table.go:58-111 | in any run of updates of a bucket its contacts are in the order in which they were last seen, as the contact of an update or by answering a ping |
| Recency.LongestUnseenGoes | dht/routing_table.go:84-110 | a full bucket asks the contact not seen for longest, and gives up that one and no other exactly if it does not answer |
| BucketTables.TilesFind | dht/routing_table.go:170-178 | exactly one bucket covers each position in range, and none a position outside |
| BucketTables.FullIsWide | dht/routing_table.go:84-86 | a bucket that splits is at least k+1 positions wide, so both halves are non-empty and the upper half's low end is still a key |
| BucketTables.SplitTableOk | dht/routing_table.go:180-206 | a split keeps the buckets ascending, contiguous, disjoint and covering, and the table below 258 buckets |
| BucketTables.UpdatesKeep | dht/routing_table.go:180-206 | the whole update-split-retry recursion keeps the table in order |
| BucketTables.UpdatesEffect | dht/routing_table.go:58-206 | an update splits its way to a table in order with the same contacts, and there, in the bucket covering the contact, refreshes the ID, adds the contact if there is room, or, in a full bucket not covering the node, swaps it for the front exactly if the ping of the front fails |
| BucketTables.UpdatesIff | dht/routing_table.go:180-206 | the recursion is splits of the bucket covering the contact, and then one bucket updated in its place, and nothing else |
| BucketTables.SplitsToKeeps | dht/routing_table.go:180-206 | the splits keep the table in order and its contacts, and leave every bucket that does not cover the node as it is |
| BucketTables.RunTables | dht/routing_table.go:180-213 | after any sequence of updates and ping outcomes the table is in order and lists each ID once |
| BucketTables.LeavesOnlyByEviction | dht/routing_table.go:58-206 | in any run an ID once listed leaves only by an eviction: it was at the front of the bucket of the table that the contact fell in, that bucket was full and did not cover the node, and the ping of the front failed |
| BucketTables.StepLeavesIff | dht/routing_table.go:58-206 | one update unlists an ID if and only if it evicts it in this way |
| RoutingTables.Bucket.UpdateContact | dht/routing_table.go:58-111 | the recency list and ID map together become the updated bucket, and its time of update is now; it asks for a split exactly when full, covering the node and not knowing the contact; a nil RPC is used only when a ping is due |
| RoutingTables.Bucket.Split | dht/routing_table.go:113-144 | the two halves meet at the midpoint, hold every contact in its own half, and never touch the nil RPC they pass |
| RoutingTables.RoutingTable.BucketIndex | dht/routing_table.go:170-178 | the index of the covering bucket, or past the end where the source panics |
| RoutingTables.RoutingTable.UpdateContact | dht/routing_table.go:180-213 | it ends for every contact in range with a table the recursion allows, in which the covering bucket was updated now and other buckets keep their times; it panics exactly for a key above the top |
| RoutingTables.RoutingTable.FindClosestNodes | dht/routing_table.go:215-249 | the k nearest contacts of the whole table without the excluded one, for any map order and any sort |
| RoutingTables.HighKeyValue | dht/routing_table.go:156-168 | the position of the initial high key; it is the last of the key space only for a bucket size of 32 |
| RoutingTables.AcceptsEveryKey | dht/routing_table.go:156-178 | every key is in range if and only if the bucket size is 32; else the all-ones key is not |
| RoutingTables.NewRoutingTable | dht/routing_table.go:156-168 | construction succeeds exactly for a bucket size from 1 to 32, with one bucket over the covered range |
| Merkle.NewBlock | store/block.go:16-25 | fails exactly above the size limit; a new block is valid |
| Merkle.BuildParses | merkle/node.go:40-106 | a node builds exactly when its encoding fits, and its block parses to the node |
| JsonCodecs.JsonCodecLawful | merkle/node.go:40-106 | the JSON of nodes and inodes reads back, for names and CIDs of any characters and any data, and is within the length bounds: all that the other theorems ask of the encoding |
| JsonCodecs.NodeReads | merkle/node.go:9-15 | what is written for a node, nil data as null, escapes, UTF-8 and base64 included, reads back as the node |
| JsonCodecs.InodeReads | fs/inode.go:25-48 | what is written for an inode reads back as the inode, and the two kinds are told apart |
| JsonCodecs.NodeExample | merkle/node_test.go:29-29 | the JSON of a node that holds one byte and no links |
| JsonCodecs.InodeExample | fs/inode_test.go:16-16 | the JSON of an inode of one byte |
| JsonCodecs.LinkExample | merkle/node_test.go:32-32 | the JSON of a node that holds one byte and one link |
| JsonCodecs.DirectoryExample | fs/inode_test.go:38-38 | the JSON of a directory inode |
| JsonCodecs.TextSafe | merkle/node.go:88-93 | what is written for text has no control characters and none with a meaning in HTML |
| JsonCodecs.EscapeTable | merkle/node.go:88-93 | which characters are escaped and how |
| JsonCodecs.OthersUnescaped | merkle/node.go:88-93 | and which are not |
| JsonCodecs.SymbolTable | merkle/node.go:88-93 | the symbols of base64 are those of table 1 of RFC 4648 |
| JsonCodecs.HexTable | merkle/node.go:88-93 | escapes by number are in lower case |
| JsonCodecs.Utf8Examples | merkle/node.go:88-93 | other characters are written in UTF-8, of two, three or four bytes |
| FileSystems.FileSystem.ParentOf | merkle/node.go:70-106 | the builder, given up to fifteen nodes link by link, never fails; what it builds has one unnamed link to each, in order, no data, and the block of its own encoding |
| FileSystems.ParentIsGroup | fs/fs.go:133-169 | built over the nodes of trees, that is the node of the tree above them |
| Merkle.PutAllGrows | store/store.go:37-45 | without collisions among the blocks in play, puts never change an entry, and keep the store content-addressed |
| Trees.ReadHeld | fs/fs.go:171-215 | reading a stored tree gives the bytes the tree stands for |
| Trees.ReadExtends | fs/fs.go:171-215 | what could be read stays the same when the store grows |
| Trees.ResolveHeld | fs/fs.go:228-257 | resolving in a stored tree leads to the node of the subtree there, or fails when there is no such path |
| Trees.DagHeld | fs/fs.go:259-281 | the listing of a stored tree is its CIDs in pre-order, one a node, and the sum of its block sizes |
| Listings.ListingOrder | fs/fs.go:259-281 | the listing of a stored tree has every node of it once, a node before all below it and left before right |
| Listings.ListingSize | fs/fs.go:259-281 | in any store the size is the sum over the listed blocks, each as often as listed, and all of them are stored |
| FileTrees.ChunksFacts | fs/fs.go:283-288 | chunks join to the input, are ceil(n/size) in number, and none is too long |
| FileTrees.ChunkAt | fs/fs.go:283-288 | chunk i is what lies from i times the size on, and only the last can be short |
| FileTrees.ComputeChunks | fs/fs.go:283-288 | the loop computes them: ceil(n/size) chunks, the i-th from i times the size on, one empty chunk for empty input |
| FileTrees.FileReads | fs/fs.go:93-215 | the tree built from any bytes stands for those bytes |
| FileTrees.ParentsShrink | fs/fs.go:133-169 | a level of two or more nodes has fewer parents, so level building ends |
| FileTrees.FileShape | fs/fs.go:93-169 | height and number of blocks of a file tree follow from the length by repeated ceil(n/15); leaf i holds the bytes from i times 256 KiB on; all chunks are at one depth; every node above them has one to fifteen links and no data, and fifteen if it is not the last of its level |
| FileTrees.LeafFits | fs/fs.go:13-15 | an encoded leaf, base64 applied twice, fits a block |
| FileTrees.GroupFits | fs/fs.go:133-169 | an interior node of at most fifteen links fits a block |
| FileSystems.FileSystem.AddBytes | fs/fs.go:93-131 | never fails on any bytes; returns the root of their tree and puts exactly the tree's blocks |
| FileSystems.FileSystem.BuildDagLevel | fs/fs.go:133-169 | builds the levels above the given nodes and puts exactly their blocks |
| FileSystems.FileSystem.AddPath | fs/fs.go:34-91 | adds a file or a directory after its entries; fails exactly when some directory node outgrows a block; puts only blocks of the tree |
| FileSystems.AddedBytesReadBack | fs/fs.go:93-215 | from any content-addressed store, reading what adding returned gives the bytes back, also after any later additions |
| FileSystems.AddedPathsResolve | fs/fs.go:34-257 | each path of allowed names resolves from the root CID to the node of its entry, others fail, and files and directories read back as the bytes on disk |
| Directories.PathResolves | fs/fs.go:217-257 | a path string of slash-free names, split and resolved, leads where the same names lead on disk |
| Directories.DirectoryReads | daemon.go:219-232 | what a directory tree reads as: the files below it joined in order, failing exactly when some directory below is empty |
| Directories.JoinInjective | fs/fs.go:217-226 | different lists of slash-free names make different path strings |
| Directories.RecordsComplete | fs/fs.go:34-91 | in a well-named tree every entry is recorded once with its own CID under its own path, and nothing else is; a directory after all below it, its entries in their order |
| Downloads.StepInv | daemon.go:277-358 | what every step of every goroutine keeps, among it: fetched and still owed blocks make up the listed DAG |
| Downloads.DownloadSafety | daemon.go:261-358 | of any downloads running together, at every time: a CID is announced only after its block is stored, the store only grows, the semaphore is respected, and nothing is fetched more often than listed |
| Downloads.DownloadComplete | daemon.go:261-358 | downloads of any roots that run together and end without error fetched each block as often as the listings of the roots have it, stored and announced all, and below each root every path and file reads as at the uploader |
| Downloads.DownloadCanSucceed | daemon.go:261-358 | whatever honest peers hold can be downloaded: some run ends with no error |
| Downloads.DownloadTerminates | daemon.go:277-358 | downloads end, in fewer than eight steps a listed block |
| Downloads.DownloadProgress | daemon.go:277-283 | no holder of a slot waits for a slot, and there is no deadlock |
| Sharing.SharedTreeArrives | daemon.go:261-358 | what one peer added, another has after a download without error: each path leads to its entry on the first peer's disk, files and directories read back exactly, other paths fail, each block was fetched as often as the tree has it |
| Sharing.SharedIsMet | daemon.go:201-358 | with the JSON of the program, all the assumptions of the two theorems beside it hold together for a directory of two files |
| Sharing.FetchesOfFile | daemon.go:261-358 | the number of fetches for a file follows from its length alone |
| Answers.AnnouncedIsStoredIff | daemon.go:320-358 | for all answers peers may give: what is announced is stored in every run of any downloads from any store, if and only if every answer that passes the checks has the CID asked for |
| Answers.StoreStaysSound | daemon.go:320-358 | whatever peers answer, in every run the store holds each block under its own CID |
| Answers.AnswerNotChecked | daemon.go:320-345 | a peer may answer with another valid leaf; then the download ends without an error, the CID asked for is announced, and it is stored only if the answer had it or it was there |
| Downloads.Upload | daemon.go:236-259 | announces the listed CIDs in order up to the first refusal, and reports their number only when all were taken |
| AsnTries.TrieNode.Insert | dht/asn.go:16-37 | the trie becomes that of the longer history: nodes exactly on the ways to inserted prefixes, each with the number last inserted there; fails exactly for non-IPv4 |
| AsnTries.TrieNode.Find | dht/asn.go:39-53 | the number last inserted for exactly this prefix; found when it or a longer one was inserted |
| AsnTries.TrieNode.Match | dht/asn.go:55-77 | the number of the longest inserted prefix of the address whose latest number is not zero, or not found; panics exactly when the whole address was inserted |
| AsnTries.SameBits | dht/asn.go:81-83 | two addresses share their first n bits exactly when they lie in the same block of 2^(32-n) addresses |
| PeerStores.PeerStore.Get | dht/peer_store.go:31-61 | nothing alive at the end of the read goes, nothing dead at its start stays or is returned; each record once; a key without records goes, with the error that tells which case |
| PeerStores.PeerStore.Put | dht/peer_store.go:63-75 | the records are added under the key, which appears even for none |
| PeerStores.PeerStore.GetAll | dht/peer_store.go:84-106 | every key with a live record, once, with exactly the records kept; all other keys go |
| PeerStores.KeptTwice | dht/peer_store.go:37-43 | a later read after an earlier one leaves what the later read alone would have left |
| Networks.StepInv | dht/node.go:309-914 | what every step of every node keeps |
| Networks.NetworkSafety | dht/node.go:309-914 | over all runs: what is held, carried or answered for a key was published by a PUT for that key; an answer was read from some store within the life of every record in it; a node keeps a PUT until its life is over |
| Networks.RecordsLast | dht/peer_store.go:31-54 | a record once held, however it came there, stays in every later state until the node's clock is past its life |
| Networks.DeliveredLasts | dht/node.go:574-589 | what a store RPC or a lookup that found peers brings to a node is held there in every later state until the node's clock is past the record's life |
| Networks.SendDelivers | dht/node.go:860-881 | a store RPC sent to a node can be delivered next, and then that node holds all it was to bring |
| Networks.PutArrives | dht/node.go:530-567 | the record of a PUT can come to be held at any node |
| Networks.ReadArrives | dht/node.go:615-914 | what a node reads from its store can, when republished, come to be held at any node; in reply to another, be held and answered there; found at home, it is answered |
| Networks.ParcelOrigin | dht/node.go:309-914 | in every run each store RPC for a node was sent to it with these records, each reply was read for the node that gets it, and whatever a node sends or answers comes from a PUT there, from its own store, or from a reply to it |
| Networks.PutTakenIff | dht/node.go:384-422 | a PUT is taken, and then held stamped with the node's clock, if and only if the node has no upload key, or the header holds it, or the header can be read and a lookup there has found peers for the key |
| Networks.HeldStep | dht/node.go:574-589 | storing, caching and republishing spread published records only |
| Networks.ReadAliveStep | dht/peer_store.go:37-43 | copying never lets a record be read past its publication time and the reader's expiry |
| Networks.FirstPutsAuthorised | dht/node.go:384-422 | the first PUT of each key carries an upload key in every run if and only if every node has one |
| Shutdowns.StepInv | dht/node.go:170-331 | what every step of callers and loops keeps |
| Shutdowns.ShutdownSafety | dht/node.go:170-212 | one caller at most runs the hand-shake; no send on and no second close of a closed channel; none returns from stopping a started node before both loops are gone, the channels and the server closed and shutdown recorded |
| Shutdowns.StopStops | dht/node.go:170-212 | a call of Stop whose first step comes after Start has returned does not return before the node is stopped; one whose first step comes before stops nothing |
| Shutdowns.GivesUpIff | dht/node.go:170-175 | a call gives up exactly when its first step finds the node not started |
| Shutdowns.BusyIff | dht/node.go:267-331 | a loop is at work exactly after a tick that it is not done with |
| Shutdowns.ShutdownBounded | dht/node.go:170-331 | the steps other than ticks of the loops are at most 13 a caller and two more, in every interleaving |
| Shutdowns.NoDeadlock | dht/node.go:170-331 | while a caller has not returned, a step that brings the end nearer is open, at most after a loop is done with a tick |
| Shutdowns.EveryCallerCanReturn | dht/node.go:170-212 | from wherever a run has come, all callers can return; and then a started node is stopped, unless every caller had given up before it was started |

## Left out

Assumptions of the model:

- One address per ID among the contacts of a lookup, in the theorems of `Lookups` about answers; the theorems of `LookupEndings` and `LookupMethod` do without it.
- The parallelism is not negative and fits an `int` (a negative one panics like zero); the bucket size is at least one, as construction of the table demands.
- The hash has no collisions among the blocks in play (a hypothesis, for the blocks at hand); its values are 52 characters without a slash.
- The theorems about files hold for any encoding of nodes and inodes that decoding inverts, within upper bounds on lengths; `JsonCodecs` is the one of the program. A name that is not valid UTF-8 does not survive the original's encoding and is outside.
- Honest answers in the theorems of `Downloads` and `Sharing`: a peer sends the block asked for, or invalid data; the theorems of `Answers` are about what happens otherwise.
- RPCs of the swarm come from its nodes; a holder of the swarm key that forges records is not modelled.
- Clocks do not go back. In the network each node has its own.
- Names on disk are distinct, non-empty and free of slashes where `Directories.WellNamed` says so; the order of `os.ReadDir` is that of the entries.

What is simplified:

- Trees.ReadBytes: the recursion carries a depth bound, which by `Trees.ReadStable` never shows in an answer; a store with a cycle, possible only with a collision, would recurse for ever in the source.
- Trees.Dag: the same depth bound.
- JsonCodecs.JsonCodecLawful: reading is of what is written; the original also reads other JSON (white space, other orders and more fields, escapes it does not write).
- RoutingTables.Bucket.UpdateContact: the list element pointers in the ID map are the contacts themselves.
- RoutingTables.RoutingTable.UpdateContact: the clock is read once a call, where the source reads it for each bucket it makes or updates.
- Lookups.StepInv: two calls of one round to one and the same contact would be one pending call; with one address per ID, and among contacts that are not restless (`LookupEndings.StepCalm`), there are none.
- RoutingTables.RoutingTable.FindClosestNodes: the sort is any function that sorts; map order is any order.
- AsnTries.TrieNode.Match: the address is IPv4; `As4` panics or unmaps before the walk for others.
- LookupMethod.Lookup: the goroutines of a round are scheduled by an arbitrary but given environment; the cache store at the end of a found lookup is reported, not sent.
- Networks.NetworkSafety: a batch of peers is a set; a PUT may rest on any earlier answer for its key at its node, which allows more runs than the source; the lookup in between is a reply that may come from any node.
- Downloads.DownloadComplete: finding peers, the HTTP request and decoding are one step that gives a block or fails.
- FileSystems.FileSystem.AddPath: only files and directories, no read errors and no store errors.

What is not there:

- HTTP, TLS, routers, headers and JSON transport; the RPC client.
- SHA-256, SQLite and base32.
- The same-ASN-first order of a key's peers: its comparison is not an order, so the result depends on the sort.
- Which buckets a refresh looks up, bootstrap, and the timers; the loops only tick.
- The pinning, deletion and size of blocks, the daemon's own RPC surface, command line and evaluation tools.
- The clients and configuration files.
