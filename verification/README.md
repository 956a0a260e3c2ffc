# Verification of the node's stateful cores

A Dafny model of the parts of this proof-of-stake node that keep long-lived state or walk a delicate loop, with
proofs of what they promise over every input, every split of the input and every run. `dafny verify dfyconfig.toml`
checks all of it.

- **Address manager** (`AddrState`, `AddrOps`, `AddrInvariant`, `AddrTried`, `AddrEffects`, `AddrSelect`, `AddrRuns`,
  `AddrLife`, `AddrSpread`, `AddrCheck`, `AddrMan`, with `OrderedSet` and `Services`). The class `AddrMan` has the
  fields of `CAddrMan` and its methods; each is proved equal to a function on the state, and to do, entry by entry and
  bucket by bucket, what `AddrEffects` says without those functions; the lemmas about them say what every run keeps.
  The invariant is stated with one pending reference, because `ShrinkNew` runs while the caller's entry already has
  its count raised. Every consistent state passes all tests of `Check_`.
- **Its serializer** (`AddrStream`, `AddrFile`, `AddrRoundTrip`, `AddrRebuild`). Writing renumbers the ids and drops
  the indexes, reading rebuilds them; the round trip keeps every address with its statistics, status and buckets, and
  a file with another number of new buckets keeps them but for the new buckets, which are rebuilt.
- **Sync-checkpoints** (`Checkpoints`, with the block tree, and `BestChain`). Ancestry by back-walks over a tree of
  blocks, safety over every interleaving of checkpoint messages, pending checks and block arrivals, and the checkpoint's
  place below the best block.
- **Hash engines** (`HashStream`, `Padding`, `Blake`, `Groestl`, `Echo`, `Bmw`, `CubeHash`). Buffering, counters and
  padding of the incremental engines against one-shot specifications on bit strings; CubeHash's renamed registers
  against plain rounds.
- **Numbers and Base58** (`Positional`, `BigNum`, `Base58`). CBigNum's byte formats, the compact form of a target, and
  Base58 with its checksum, as bijections with their exact limits.
- **Alias protocol** (`AliasScript`, `AliasShapes`, `AliasPost`, `AliasChain`, `AliasCustody`, `AliasLineage`,
  `AliasIndex`, `AliasEntries`, `AliasHolder`). The script parser against its printer and against the shape of what it
  accepts, the verdict of `ConnectInputsPost` op by op, the chain of custody over every run of connected and disconnected
  blocks and where its lines branch, the alias index against a plain fold and against the scripts in its blocks, and the
  custody behind an entry of the index. `AliasRuns`, `AliasGaps` and `AliasRivals` build concrete runs, for any
  arguments of the right number and size.
- **Small loops** (`RelayInverse`, `PageLocks`, `FeeLoop`). A modular inverse on 32-bit integers, per-page lock
  counts, and the fee loop. `Arithmetic`, `Octets` and `Options` are shared.

Random draws, hashes, signatures, compression functions, the wallet and the disk are parameters: a property holds
for all of them. `hash`, `group` and `keyBytes` of `AddrState.Env` stand for SHA-256, the address group and the key
bytes; ids and hashes are wrapped in datatypes.

## Where the code is not what one would expect

- `Good_` with a time that is not positive, and `Attempt_` with a negative one, break the invariant
  (`AddrTried.GoodKeeps`, `AddrRuns.AttemptKeeps`: exactly then).
- Reading a file with another number of new buckets puts every untried entry into its own bucket without asking
  whether that is full, and makes an empty entry of every reference it does not know: the result is consistent exactly
  if no bucket gets more than 64 entries and the references are in range (`AddrRebuild.Rebuilt`;
  `AddrRebuild.TooManyOwn` is a consistent state for which it is not).
- `SelectTried` swaps each entry it inspects to the front and returns the place that entry came from, so the entry at
  the place returned is the oldest inspected one exactly if its own step drew an offset of zero
  (`AddrSelect.SelectTriedPlace`; `AddrSelect.NotTheOldest` is a bucket of two where it did not).
- `aliasScript` writes its `op` before it can fail, so a later script that merely begins with OP_1 to OP_16 takes
  over the op of the alias script before it (`AliasCustody.OverwrittenOp`, `AliasCustody.OpAgreesExactly`). And
  coinbases and coinstakes may be of the alias version, but `ConnectInputsPost` is not called for them. Custody of an
  alias therefore holds under a condition on the scripts spent, which is exact for each step and for whole chains
  (`AliasCustody.RelayStep`, `SetStep`, `CustodyExactly`); `AliasGaps` has the runs on which it fails
  (`StraySpent`, `StraySet`, `UncheckedStake`).
- An output of value zero may be spent more than once, and alias outputs are made with that value: one SET can have two
  accepted RELAYs, exactly then (`AliasRivals.Fork`, `AliasRivals.TwoHeirs`). Outputs of positive value keep custody one
  line (`AliasLineage.SingleLine`).
- `filter` ignores a SET of an active alias but not that SET's RELAYs, and in a block a RELAY need not spend what the
  index holds: an entry can be taken over by a RELAY that does not descend from the entry's SET
  (`AliasRivals.ForeignEntry`; `AliasHolder.EntryDescends` and `AliasLineage.LineExactly` say when it does).
- The miner asks for the age of a RELAY's input at the best block, and the block that holds the RELAY is one higher: at
  the very end of the monitored span it takes a RELAY that makes its block be refused (`AliasPost.MinedConnects`;
  `AliasGaps.LateRelay` is such a RELAY).
- `aliasStrip` gives back what follows the drops only if it begins with a single byte that is read on its own
  (`AliasScript.PrintedStrip`).
- The compact form of a number of 256 bytes or more loses the size's high bits (`BigNum.CompactExact`).
- The two forms of the alias expiry rule, a sum in `aliasTx` and an unsigned difference in `filter`, agree exactly
  when the entry is no higher than the block (`AliasIndex.SameExpiry`), which only a reorganisation can upset
  (`AliasIndex.TakeoverExactly`, `AliasIndex.RunAgrees`).
- `filter` reads the arguments of transactions that nothing has looked at; which blocks it can take is exact
  (`AliasIndex.FilterableExactly`; `AliasGaps.UnreadableStake` is an accepted block that it cannot).
- Without strict checkpoint mode one admitted block can move the best chain off the sync-checkpoint
  (`BestChain.StrayBlock`, `BestChain.ArrivalBehind`).
- A byte string from 2^31 - 4 bytes on is not read by `setvch` as the number it stands for (`BigNum.FromHeader`).
- Locking a range that reaches the top page does not end (`PageLocks.WalkEndsExactly`).
- `txPost` does not count the alias input's own value: it goes to the fee (`FeeLoop.TxPost`).

## Model

| member | source | states |
|---|---|---|
| AddrManager.AddrMan.constructor | src/addrman.h:382-390 | a new manager is the empty state, and consistent |
| AddrManager.AddrMan.Find | src/addrman.cpp:80-91 | finds exactly the addresses known through both maps |
| AddrManager.AddrMan.Create | src/addrman.cpp:93-103 | a fresh id enters both maps and the end of vRandom, and nothing else changes |
| AddrManager.AddrMan.SwapRandom | src/addrman.cpp:105-123 | two places of vRandom change hands together with the positions the entries record |
| AddrManager.AddrMan.SelectTried | src/addrman.cpp:125-147 | the loop equals the step-by-step specification: which entry is inspected at each step, the bucket left behind and the position returned |
| AddrOps.SelectTriedChoice | src/addrman.cpp:125-147 | the bucket is only permuted and the position returned lies in it |
| AddrSelect.SelectTriedPlace | src/addrman.cpp:125-147 | the inspected entries end up in front; the entry at the place returned is the first oldest of them if and only if the draw at the step that met it was zero, so that nothing was swapped there |
| AddrSelect.NotTheOldest | src/addrman.cpp:135-142 | a bucket of two entries and a draw for which the place returned is not the older entry's |
| AddrOps.VictimChoice | src/addrman.cpp:149-201 | the entry given up is the lowest-numbered terrible one if there is any, otherwise a picked one than which no picked entry is older |
| AddrEffects.KeptExactly | src/addrman.cpp:37-55 | an entry is not terrible if and only if it was tried in the last minute, or was seen within thirty days and at most ten minutes ahead, without three failures and no success, or ten since a success over a week ago |
| AddrManager.AddrMan.ShrinkNew | src/addrman.cpp:149-201 | exactly one entry loses its reference, and leaves the tables with its last: the lowest-numbered terrible one if there is any, otherwise one of those at four drawn places seen longest ago; nothing else changes |
| AddrManager.AddrMan.Unref | src/addrman.cpp:159-175 | one reference dropped; at zero the entry leaves every table and vRandom closes the gap with its last element |
| AddrInvariant.DropRefKeeps | src/addrman.cpp:159-175 | giving up a reference keeps the invariant, with another entry's reference pending, and loses at most the entry itself |
| AddrInvariant.ShrinkKeeps | src/addrman.cpp:149-201 | ShrinkNew keeps the invariant while one reference is pending, and never gives up a tried entry |
| AddrManager.AddrMan.MakeTried | src/addrman.cpp:203-259 | out of all new buckets, into the entry's own tried bucket, the evicted entry back into a new bucket, counters adjusted |
| AddrEffects.PromoteDoes | src/addrman.cpp:203-259 | the entry goes to the end of its tried bucket, or in a full one to the place SelectTried returns; the entry there goes back to its own new bucket, or if that is full to the one the promoted entry was found in; every other entry and bucket is as it was |
| AddrTried.TargetHasRoom | src/addrman.cpp:233-252 | the bucket an evicted entry falls back to always has room |
| AddrTried.MovedKeeps | src/addrman.cpp:203-259 | a promotion with or without an eviction keeps every part of the invariant |
| AddrManager.AddrMan.Good_ | src/addrman.cpp:261-310 | the entry marked has the time given as last success, last try and time seen, and no attempts; nothing else of it changes; an untried one is promoted, the bucket it was found in being the first that holds it, going round from a drawn one |
| AddrTried.FindBucketFinds | src/addrman.cpp:288-301 | the cyclic scan finds a bucket that holds the entry whenever there is one |
| AddrTried.GoodKeeps | src/addrman.cpp:261-310 | Good_ keeps the invariant if and only if its time is positive or it has nothing to mark |
| AddrTried.GoodConserves | src/addrman.cpp:261-310 | Good_ forgets no address; the marked one ends up tried in its own bucket, at most one stops being tried and only from a full bucket |
| AddrManager.AddrMan.Add_ | src/addrman.cpp:312-368 | a known entry ends with the services of both, with its time unless that is more than an hour (a day, if told of longer ago) and the penalty behind the one told, else with that less the penalty, and with one more reference exactly if it was told of a later time, is untried, has fewer than four and wins one draw in 2, 4 or 8; a new entry is as told; the reference goes to the bucket of address and source, where at most one other entry makes room, the one that ShrinkNew gives up |
| AddrEffects.AddKnownDoes | src/addrman.cpp:319-344 | this, for an address that is known |
| AddrEffects.AddNewDoes | src/addrman.cpp:345-365 | this, for a new one: its entry has the services and source told, the time less the penalty, never tried, one reference |
| AddrInvariant.AddKeeps | src/addrman.cpp:312-368 | Add_ keeps the invariant, adds exactly an unknown routable address, and forgets at most one address, never a tried one |
| AddrManager.AddrMan.Attempt_ | src/addrman.cpp:370-387 | last try and one attempt more on the very service, field by field, and no other change |
| AddrRuns.AttemptKeeps | src/addrman.cpp:370-387 | keeps the invariant if and only if the time is not negative or nothing matches |
| AddrManager.AddrMan.Connected_ | src/addrman.cpp:509-528 | the time of exactly the matching entry changes, and only after twenty minutes |
| AddrRuns.ConnectedKeeps | src/addrman.cpp:509-528 | keeps the invariant and the known addresses |
| AddrManager.AddrMan.GetAddr_ | src/addrman.cpp:493-507 | returns the entries at the front of the shuffled vRandom: 23 percent of them rounded down, and at most 2500 |
| AddrRuns.GetAddrKeeps | src/addrman.cpp:493-507 | the addresses returned are known and pairwise different; only the order of vRandom changes |
| AddrRuns.AnyOrder | src/addrman.cpp:493-507 | for any so many different entries in any order there are draws for which these are returned, in that order |
| AddrManager.AddrMan.Check_ | src/addrman.cpp:434-491 | returns zero exactly when every test passes, and on a consistent state always, changing nothing |
| AddrCheck.CheckTried | src/addrman.cpp:461-474 | the tried scan passes exactly when every tried id stands in one bucket, once, and nothing else does |
| AddrCheck.CheckNew | src/addrman.cpp:476-486 | the new scan passes exactly when every reference count is the number of buckets holding the id |
| AddrCheck.CheckEntries | src/addrman.cpp:443-459 | the entry scan passes exactly when maps, positions and statistics agree, and collects the tried ids and the counts |
| AddrCheck.InvPasses | src/addrman.cpp:434-491 | the invariant implies every test of Check_ |
| AddrCheck.CheckDecides | src/addrman.cpp:434-491 | the invariant holds if and only if every test of Check_ passes and what it leaves out holds: the range of ids, the index by address, the sizes of buckets, and which bucket a tried entry belongs to |
| AddrRuns.Bounded | src/addrman.h:119-140 | one vRandom entry for each known address, never more than all buckets hold together |
| AddrRuns.EveryRun | src/addrman.cpp:93-387 | every run of Add_, Good_ (positive time), Attempt_ (time not negative), Connected_ and GetAddr_ from the empty manager ends in a consistent state of bounded size |
| AddrSpread.TriedSpread | src/addrman.cpp:9-21 | whatever its port and address, a service lies in one of its group's four tried buckets |
| AddrSpread.GroupBound | src/addrman.h:96-114 | in a consistent state at most 4 * 64 of the 64 * 64 tried places belong to one network group, so no group can fill the table |
| AddrSpread.EveryLifeSpread | src/addrman.h:96-114 | the same over every life from the empty manager, restarts included |
| AddrSpread.NewSpread | src/addrman.cpp:23-35 | whatever it tells of, a source puts it into one of its own group's thirty-two new buckets |
| AddrSpread.EveryLifeSources | src/addrman.h:101-117 | over every life in which all addresses were told by sources of some groups, only those groups' buckets hold anything, entries evicted from the tried table included, and each group leaves room for 32 * 64 untried addresses at most |
| AddrLife.EveryLife | src/addrman.h:270-379 | runs with saving and reloading in between stay consistent and bounded, and a restart keeps every address with its statistics, status and buckets |
| AddrManager.AddrMan.Write | src/addrman.h:278-318 | the stream written is the printed image of the state, item by item: version, key, numbers of untried and tried entries and of buckets, the untried and then the tried entries in id order with every field kept, and each bucket's size and entries by their numbers |
| AddrManager.AddrMan.Read | src/addrman.h:319-377 | reading accepts exactly the streams that parse, and rebuilds the state from the image |
| AddrFile.WrittenLaid | src/addrman.h:278-318 | where every item of a written image stands |
| AddrFile.AnyFile | src/addrman.h:319-376 | from any file with as many new buckets, consistent or not: untried entries come in as they stand, each tried bucket takes the first 64 of its entries and the others are counted off, and an entry has as many references as the lists name it, at most four, in the first buckets that do |
| AddrStream.ParsePrinted | src/addrman.h:270-379 | a printed image is parsed back exactly, whatever follows it |
| AddrRoundTrip.RoundTrip | src/addrman.h:270-379 | from a consistent state: what was written is consumed exactly, the state read is consistent, no tried entry is lost, and every address keeps statistics, status, tried bucket and new buckets |
| AddrRebuild.Rebuilt | src/addrman.h:330-376 | from the file of a manager with another number of new buckets, consistent but for these, and whatever the lists say, references out of range included: every address keeps statistics, status and tried bucket, every untried one stands in the new bucket of its address and source only, and the state is consistent if and only if no bucket is the own one of more than 64 entries and the lists name entries of the file only |
| AddrRebuild.TooManyOwn | src/addrman.h:339-343 | a state that meets the invariant and whose file, so read, overfills a bucket; its hash is constant, under which no run would reach it |
| BlockTree.WalkFinds | src/checkpoints.cpp:119-143 | the walk back to a height meets a block if and only if that block is an ancestor |
| Checkpoints.SyncCheckpoints.ValidateSyncCheckpoint | src/checkpoints.cpp:104-144 | accepts exactly the strictly higher descendants of the current sync-checkpoint and records exactly the conflicting ones as invalid |
| Checkpoints.SyncCheckpoints.AcceptPendingSyncCheckpoint | src/checkpoints.cpp:162-203 | true if and only if there is a pending checkpoint, its block is a known proper descendant of the sync-checkpoint, the chain is or can be switched to it, and both database steps succeed; then and only then it becomes the sync-checkpoint; and when the pending and the invalid checkpoint are cleared or set |
| Checkpoints.SyncCheckpoints.ProcessSyncCheckpoint | src/checkpoints.cpp:388-436 | the same for the block of a signed message, which becomes the pending one if it is not known yet |
| Checkpoints.PendingAdopted | src/main.cpp:2632-2638 | over a run: a signed checkpoint whose block is not known yet becomes the sync-checkpoint when the block arrives, however much later, if and only if no message has superseded it, the block descends from the sync-checkpoint of then, the chain is on it and the database agrees |
| Checkpoints.SyncCheckpoints.CheckSync | src/checkpoints.cpp:216-241 | the method equals the rule, and its back-walk never leaves the tree |
| Checkpoints.CheckSyncExact | src/checkpoints.cpp:216-241 | off testnet a block not yet in the index is accepted if and only if the sync-checkpoint is a proper ancestor of it |
| Checkpoints.SyncCheckpoints.AcceptBlock | src/main.cpp:2499-2640 | the block enters the index exactly if it is new, its parent is known, the other steps succeed and, in strict mode off testnet, it descends from the sync-checkpoint; afterwards the pending checkpoint is tried, and one for this block is taken exactly if it can be |
| Checkpoints.SyncCheckpoints.AutoSelectSyncCheckpoint | src/checkpoints.cpp:206-213 | returns the nearest ancestor of the best block that is far enough behind it, or the root |
| Checkpoints.StepAdvances | src/checkpoints.cpp:162-203 | every event keeps the tree well formed and moves the sync-checkpoint, if at all, to a strictly higher descendant |
| Checkpoints.CheckpointSafety | src/checkpoints.cpp:104-241 | over every run the sync-checkpoints form a strictly ascending path, and under strict mode every block admitted after C was the sync-checkpoint descends from C |
| BestChain.ArrivalBehind | src/main.cpp:2404-2407 | an admitted block leaves the sync-checkpoint an ancestor of the best block if and only if it does not become the best block without descending from the checkpoint |
| BestChain.StepBehind | src/checkpoints.cpp:162-203 | every other event does too: a checkpoint off the main chain is adopted only together with a switch of the best block to it |
| BestChain.SyncStaysBehind | src/main.cpp:2132-2212 | under strict mode, off testnet, the sync-checkpoint is an ancestor of the best block after every run, provided SetBestChain moves to the block given or fails without moving, and IsInMainChain holds of ancestors of the best block only |
| BestChain.StrayBlock | src/checkpoints.cpp:216-241 | in advisory mode one admitted block moves the best chain off the sync-checkpoint |
| HashStream.Stream.Update | src/blake.c:801-836 | the update loop with its partial block equals feeding the bytes one block at a time |
| HashStream.FeedSplit | src/blake.c:801-836 | how a message is cut into update calls makes no difference |
| HashStream.FeedIsThrough | src/blake.c:801-836 | after any updates the whole blocks have gone through the compression function in order and the rest waits |
| Blake.RollBackLands | src/blake.c:859-867 | the wrapped counter words, after one ordinary increment, hold the message length, or zero if the block holds no message bit |
| Blake.PaddedIsSpec | src/blake.c:868-889 | the bytes fed on closing complete the padding of section 2.1.3 of the BLAKE submission, in one block or two |
| Blake.Close | src/blake.c:838-894 | the final chaining value is the specification's on the padded message, with the counter of section 2.1 in every block |
| Blake.Hash | src/blake.c:790-1006 | init, any split into updates, and close give that value for every message of any number of bits; both word sizes |
| Groestl.Close | src/groestl.c:2812-2871 | the padded blocks go through in order and the last holds the exact number of blocks (Groestl specification, section 3.6) |
| Groestl.Hash | src/groestl.c:2737-3007 | init, any split into updates, and close give the chaining value of the padded message; both sizes |
| Echo.IncrAdds | src/echo.c:637-644 | the four counter words count modulo 2^128 |
| Echo.Close | src/echo.c:800-857 | one or two padded blocks with size and length fields, each compressed with the number of message bits so far, zero for a block without any |
| Echo.Hash | src/echo.c:646-857 | init, any split into updates, and close give the chaining value of the padded message; both sizes |
| Bmw.Context.Update | src/bmw.c:626-674 | whichever of the two arrays held the last result, the context's own array holds the latest chaining value, and the bit count is exact |
| Bmw.Context.LastBlocks | src/bmw.c:675-706 | one or two padded blocks with the exact bit length go through in order |
| Bmw.Hash | src/bmw.c:613-712 | init, any split into updates, and close give the last state of the specification; both sizes |
| CubeHash.RoundEven | src/cubehash.c:267-364 | ROUND_EVEN is a round of the CubeHash specification (2.B.1) with the words left in other registers |
| CubeHash.RoundOdd | src/cubehash.c:366-463 | ROUND_ODD is a round on words so placed, and puts them back |
| CubeHash.SixteenRounds | src/cubehash.c:473-532 | SIXTEEN_ROUNDS is sixteen plain rounds under every unrolling |
| CubeHash.Hash | src/cubehash.c:534-604 | init, any split into updates, and close give the final state of the specification on the padded message |
| BigNum.ValueBody | src/bignum.h:296-321 | every integer is read back from its MPI body |
| BigNum.ValueFormula | src/bignum.h:296-308 | what a body stands for: its number, most significant byte first, or with the top bit set the negative of the number without that bit |
| BigNum.BodyValue | src/bignum.h:296-321 | a body is written back unchanged if and only if no byte of it could be left out |
| BigNum.Bignum.SetVch | src/bignum.h:296-308 | the number of little-endian bytes with the sign in the top bit, if there are fewer than 2^31 - 4; beyond, BN_mpi2bn's int length refuses them or sees only the most significant ones |
| BigNum.FromHeader | src/bignum.h:296-308 | how many bytes of a body are read for every size, the conversion of the size to int included |
| BigNum.Bignum.GetVch | src/bignum.h:310-321 | the bytes of the number, least significant first |
| BigNum.BodyBytes | src/bignum.h:192-213 | the loop of the integer setters writes the shortest signed body of its number |
| BigNum.Bignum.SetInt64 | src/bignum.h:174-221 | every 64-bit integer, the least one included, becomes that number |
| BigNum.Bignum.SetUnsigned | src/bignum.h:238-288 | setuint64 and setuint256 set exactly the number given |
| BigNum.Bignum.GetUnsigned | src/bignum.h:223-236 | getuint64 and getuint256 return the magnitude modulo 2^64 and 2^256 |
| BigNum.Bignum.SetCompact | src/bignum.h:323-333 | the number is the decoding of the compact value |
| BigNum.Bignum.GetCompact | src/bignum.h:335-346 | the compact value is the encoding of the number |
| BigNum.DecodedFormula | src/bignum.h:323-333 | the number of a compact value: its low 23 bits moved by the size less three in bytes, down or up, with bit 23 as the sign |
| BigNum.CompactLoss | src/bignum.h:323-346 | up to 255 bytes, decoding the encoding gives at most the number: exactly it up to three bytes, otherwise short by less than the third byte's weight and less than one part in 2^15 |
| BigNum.CompactExact | src/bignum.h:335-346 | the bound on the loss holds if and only if the number has at most 255 bytes |
| BigNum.CompactMonotone | src/bignum.h:335-346 | of numbers of at most 255 bytes, a larger one never has a smaller compact value |
| BigNum.CompactIdempotent | src/bignum.h:323-346 | for numbers of at most 255 bytes, encoding a decoded encoding changes nothing |
| BigNum.CompactFixed | src/bignum.h:323-346 | a compact value is its number's encoding if and only if its bytes are canonical and none beyond its size is set |
| Base58.EncodeBase58 | src/base58.h:28-71 | one symbol for each leading zero byte and then the symbols of the number read, which is the bytes' own below 2^31 - 5 of them |
| Base58.EncodedExactly | src/base58.h:28-71 | a string is the encoding of some bytes if and only if it is symbols only, stands for the same number, and begins with as many ones as the bytes begin with zeros |
| Base58.DecodeBase58 | src/base58.h:81-129 | succeeds exactly on the decodable strings, with their bytes; the vector is empty otherwise |
| Base58.TrimmedVch | src/base58.h:114-116 | the sign-byte trim leaves exactly the magnitude, so it never drops a data byte |
| Base58.DecodesTo | src/base58.h:28-129 | a string decodes to some bytes if and only if, up to its first NUL and white space around it aside, it is their encoding |
| Base58.Decodes | src/base58.h:81-129 | a string decodes at all if and only if only symbols are left between the white space |
| Base58.EncodeDecode | src/base58.h:28-129 | every byte string comes back, leading zeros included |
| Base58.DecodeEncode | src/base58.h:28-129 | every string of symbols comes back |
| Base58.SpaceAround | src/base58.h:88-103 | white space around a string, decodable or not, changes nothing |
| Base58.NulEnds | src/base58.h:129-132 | nothing behind a NUL is read |
| Base58.ChecksTo | src/base58.h:142-171 | a string passes the check with some bytes if and only if it is their checked encoding, white space aside |
| Base58.DecodeBase58Check | src/base58.h:153-171 | succeeds exactly when the last four bytes are the hash's first four |
| Base58.Base58Data.SetString | src/base58.h:216-231 | succeeds exactly when a version byte is left after the checksum; on failure version and data are cleared |
| Base58.Base58Data.RoundTrip | src/base58.h:216-244 | SetString after ToString, with white space around the string, restores version and data |
| AliasScript.ParseScript | src/dions.cpp:6259-6299 | the parser's loops equal the specification: op, arguments, cursor, and what is left in op on failure |
| AliasScript.GetPush | src/script.h:589-614 | the reader takes back exactly one printed vector in each of the four length forms |
| AliasScript.PrintedAlias | src/dions.cpp:6259-6299 | op and arguments of every printed script are recovered, and accepted exactly if the arity is right |
| AliasShapes.ParsesExactly | src/dions.cpp:6259-6299 | a script is an alias script of an op and arguments if and only if it is the op, pushes of the arguments in any of the four forms, a drop, and anything, and the op takes so many arguments |
| AliasScript.PrintedStrip | src/dions.cpp:374-383 | stripping a printed script leaves exactly what follows the drops if and only if that begins with a byte read on its own |
| AliasPost.FindAlias | src/dions.cpp:6328-6354 | finds the one alias script, none if there are none or two, and leaves in op what the last script that touched it wrote |
| AliasPost.RelativeDepth | src/dions.cpp:6573-6579 | the walk back returns the depth of the block stored there if it is near enough, -1 otherwise |
| AliasPost.AliasState.ConnectInputsPost | src/dions.cpp:6581-6973 | the verdict through all branches, for a block, for a transaction to be mined and for the memory pool, acceptance as AcceptedExactly says, and exactly which pending entries are made, erased or recorded |
| AliasPost.AcceptedExactly | src/dions.cpp:6634-6945 | an alias transaction is accepted if and only if it spends at most one alias script, has one alias output within its limit, and meets what its op asks for: numbers and limits of arguments, signature, the op, owner, alias and commitment of what it spends and where that lies; a SET to be mined lies within the span with no chosen transaction pending on its alias, and a RELAY outside a block spends what the index holds |
| AliasPost.UndefinedOnly | src/dions.cpp:6634-6945 | an argument that is not there is read only if the output or what it spends has too few for its op |
| AliasPost.MinedConnects | src/miner.cpp:310-323 | a transaction that the miner takes passes ConnectInputsPost again when its block is connected one higher, if and only if it is no RELAY whose alias input then lies exactly the monitored number of blocks back |
| AliasPost.AcceptedWithinLimits | src/dions.cpp:6634-6930 | every accepted alias transaction has one alias output, known op, a signature unless it is a RELAY, and arguments within the limits |
| AliasChain.RunsAreValid | src/main.cpp:1698-2128 | the chains that connecting and disconnecting blocks can lead to from the genesis block are exactly those whose blocks are well formed and whose transactions were all let through: ordinary ones by ConnectInputsPost and their inputs, coinstakes by their inputs only, coinbases by nothing; inputs must be there, mature, and not spent before unless their value is zero |
| AliasChain.SpentInOrder | src/main.cpp:1704-1750 | on every such chain an output is spent after it was made, by a block at least a hundred (on the test net ten) above it if a coinbase or a coinstake made it, and twice only if its value is zero |
| AliasCustody.OpAgreesExactly | src/dions.cpp:6259-6299 | the op read belongs to the one alias script if and only if the last script beginning with OP_1 to OP_16 begins with the same opcode |
| AliasCustody.OverwrittenOp | src/dions.cpp:6268-6268 | a concrete script that is no alias script takes over the op of the one before it |
| AliasCustody.RelayStep | src/dions.cpp:6912-6928 | an accepted RELAY always spends one alias script of the same alias within the monitored number of blocks; a SET or RELAY hands the alias on to it if and only if the script spent stands in an ordinary alias transaction and itself begins with the opcode of SET or RELAY |
| AliasCustody.SetStep | src/dions.cpp:6847-6911 | an accepted SET that is read as one opens a commitment of an earlier block, with the same owner and twenty bytes that are the hash of the random bytes and the alias, if and only if the script spent stands in an ordinary alias transaction, begins with the opcode of ENCRYPTED and commits to twenty bytes |
| AliasCustody.CustodyExactly | src/dions.cpp:6581-6930 | on a valid chain where SETs are read as SETs, each SET and RELAY traces back over RELAYs to a SET and its commitment if and only if every alias script they spend meets its step's condition |
| AliasCustody.EveryRunExactly | src/main.cpp:1698-1815 | the same after every run of connected and disconnected blocks |
| AliasCustody.EveryRun | src/main.cpp:1698-1815 | custody after every run, if scripts begin with OP_1 to OP_16 only in alias scripts and those stand only in alias transactions that are neither coinbase nor coinstake |
| AliasGaps.StraySpent | src/dions.cpp:6616-6632 | without that condition, for every signed commitment: a run of accepted blocks in which a RELAY spends the commitment, because a script spent beside it begins with the opcode of SET |
| AliasGaps.StraySet | src/dions.cpp:6637-6638 | for every SET whose transaction passes the checks of a MESSAGE: a run in which it is accepted though it opens nothing, because an output behind it begins with the opcode of MESSAGE |
| AliasGaps.UncheckedStake | src/main.cpp:1791-1797 | for any arguments: a run in which a coinstake holds a SET that nothing has looked at, and a RELAY spends it once it is mature |
| AliasGaps.LateRelay | src/miner.cpp:318-323 | a run, and a RELAY of a SET on it that the miner takes, all its inputs in order; its block is refused, for the input then lies exactly the monitored number of blocks back |
| AliasGaps.UnreadableStake | src/db.cpp:602-606 | a run whose last block is accepted with a coinstake output that begins with the opcode of SET, and from which filter reads an argument that is not there, whatever the index holds |
| AliasLineage.OnePath | src/dions.cpp:6616-6632 | the custody of a transaction is one path: commitment, SET and every RELAY on the way are determined by it |
| AliasLineage.OneSpender | src/main.cpp:1746-1750 | on a valid chain an output of positive value is spent by at most one transaction |
| AliasLineage.SingleLine | src/main.cpp:1746-1750 | two custodies from one SET on are one line, the longer going on where the shorter ends, if the alias outputs the shorter one hands on have positive value |
| AliasLineage.DescendsStep | src/dions.cpp:6912-6928 | a RELAY descends from a SET if and only if the transaction whose alias output it spends does |
| AliasLineage.LineExactly | src/dions.cpp:6912-6928 | all RELAYs of an alias after a traced SET descend from that SET if and only if each of them spends the SET or a RELAY after it |
| AliasRivals.Fork | src/main.cpp:1749-1750 | two signed commitments to one alias, their SETs and a RELAY of the second: one more RELAY of that SET can follow if and only if the SET's alias output has value zero |
| AliasRivals.TwoHeirs | src/dions.h:9-9 | with value zero, which the code gives alias outputs, a run in which one traced SET hands its alias on to two RELAYs |
| AliasRivals.ForeignEntry | src/db.cpp:633-650 | with every transaction readable from disk: a run in which the index ignores the second SET of an active alias, and that SET's RELAY then takes over the first one's entry, from which it does not descend |
| AliasHolder.EntryKept | src/db.cpp:626-650 | after any blocks at rising heights every entry has a SET that took the alias over last, and was written by it or by a RELAY event after it |
| AliasHolder.EntryDescends | src/db.cpp:626-650 | on a valid chain whose scripts begin with OP_1 to OP_16 only in alias scripts, that SET is traced, and the entry is its own or that of a RELAY of the alias after it, which descends from it if each RELAY of the alias after it spends it or a RELAY after it |
| AliasIndex.SameExpiry | src/db.cpp:633-642 | the sum in aliasTx and the unsigned difference in filter agree if and only if the entry is no higher than the block |
| AliasIndex.LocatorNodeDB.Filter | src/db.cpp:587-659 | for every block: the transactions update the index like the fold, each record with its exact place on disk and one record for each alias, unless an argument is read that is not there |
| AliasEntries.LastRelay | src/db.cpp:607-650 | the last SET or RELAY of an alias in a block is a RELAY printed with a value: if the alias is known by then, its entry has that value, the block's height, the address of the script behind the drops, and the place on disk behind header, count and the transactions before it; if not, it stays unknown |
| AliasEntries.LastSet | src/db.cpp:607-642 | the last one is a printed SET: if the alias is free, its entry is that of the SET, with an empty value, and otherwise it is as it was |
| AliasEntries.NoneOfIt | src/db.cpp:595-606 | a block without SET and RELAY of an alias leaves it as it was |
| AliasIndex.LocatorNodeDB.PutSet | src/db.cpp:626-642 | with no entry above the block, a SET takes over an alias exactly when aliasTx does not call it active |
| AliasIndex.FilterAll | src/db.cpp:587-659 | over any blocks one after the other the index is the fold |
| AliasIndex.TakeoverExactly | src/dions.cpp:646-665 | a SET does what aliasTx's rule says if and only if the alias has no entry above the block |
| AliasIndex.RunAgrees | src/db.cpp:633-642 | after any blocks at nondecreasing heights no alias has one, so filter and aliasTx agree on which aliases are free |
| AliasIndex.Tenure | src/db.cpp:633-650 | within the monitored span of an entry no SET takes its alias over: the alias keeps that entry or has one that a RELAY of the blocks wrote, at no lower a height |
| AliasIndex.AcceptedReadable | src/dions.cpp:6637-6648 | in what ConnectInputsPost has accepted, filter finds every argument it reads |
| AliasIndex.FilterableExactly | src/db.cpp:595-606 | a block of a valid chain can be filtered into every index if and only if its coinbase and coinstakes hold the arguments filter reads |
| RelayInverse.RelayInv | src/dions.cpp:70-94 | ends for positive 32-bit arguments, no intermediate value overflows, and the result lies in [0, y) and times x is the greatest common divisor modulo y |
| RelayInverse.StepBalanced | src/dions.cpp:80-90 | the balance of coefficients and remainders that bounds every coefficient by y |
| RelayInverse.GcdGreatest | src/dions.cpp:70-94 | the divisor meant is the greatest common one |
| RelayInverse.InverseModulo | src/dions.cpp:70-94 | for coprime arguments the result is the inverse |
| PageLocks.PowerOfTwo | src/allocators.h:49-52 | the constructor's test passes only powers of two |
| PageLocks.MaskRounds | src/allocators.h:53-53 | masking an address rounds it down to a page |
| PageLocks.TouchedPages | src/allocators.h:61-64 | the pages walked are exactly those that share a byte with the range |
| PageLocks.WalkEndsExactly | src/allocators.h:64-64 | the walk over the pages ends if and only if its last page is not the top one of the address space, where the counter wraps around |
| PageLocks.LockedPageManager.LockRange | src/allocators.h:56-78 | for every range of the address space: the loop ends if and only if the range stays below the top page; then every page's count is again the number of live ranges touching it, and the locked pages are exactly those |
| PageLocks.LockedPageManager.UnlockRange | src/allocators.h:81-103 | the same after unlocking any live range, and the assertion never fails |
| PageLocks.LockedPageManager.GetLockedPageCount | src/allocators.h:106-110 | the number of pages the operating system holds locked |
| FeeLoop.TxPost | src/dions.cpp:393-510 | ends, since the fee rises and the block size bounds it; fails if and only if the outputs cannot be paid or an attempt that is reached finds no coins, no script for change of a CENT or more, no signatures, or is too big; otherwise gives what the last attempt made, outputs, fee and a remainder below a CENT being the selected coins, and the fee covers the size |

## Left out

- `Select_` and `GetChance` (src/addrman.cpp:389-431): a probability loop over floating point; it changes nothing.
- AddrManager.AddrMan.Read: on a stream that does not parse it states only the refusal, since the fields it leaves
  behind are whatever had been read; byte encodings of the stream's items are not modelled, only their order. A stream
  of more than 256 buckets makes the code form references past the end of `vvNew`, which it does not use: this is taken
  as harmless.
- Widths of the address manager's counters and times: unbounded integers, except the 32-bit truncation of a time.
- AddrOps.SelectTriedChoice: states range and permutation only; where the oldest inspected entry stands is
  AddrSelect.SelectTriedPlace.
- Relaying, signing and storing checkpoint messages, and `ResetSyncCheckpoint`, which may move the checkpoint back;
  `SetBestChain` and the database succeed or fail as a parameter says.
- The compression functions of the hash engines and the encoding of their output; CubeHash's rounds are modelled.
- The 32-bit fallback branches of the hash engines.
- OpenSSL's own limit on the size of a number; `SetHex`; the operators over OpenSSL.
- Base58.Base58Data.RoundTrip: for data whose bytes with version, checksum and sign byte stay below 2^31 - 4.
- AliasPost.AliasState.ConnectInputsPost: the wallet's metadata is left out; signature and address checks are one
  predicate of the transaction and the scripts it spends, a check that throws counting as one that refuses, and whether
  the index holds the alias input is a parameter; reading an argument that is not there is a verdict of its own.
- Spent outputs are given by their place in the chain; looking them up belongs to `FetchInputs`.
- AliasCustody.EveryRunExactly: for runs in which SETs are read as SETs; of a SET read otherwise nothing is promised
  (AliasCustody.SetReadOtherwise, AliasGaps.StraySet).
- AliasChain.RunsAreValid: what else a block must satisfy is left out: sums of values and fees, time stamps, proofs of
  work and stake, the scripts that spend the inputs. Of values only zero or not matters here.
- AliasGaps.StraySpent, StraySet and the runs of `AliasRivals` assume that the checks of signatures and addresses pass
  for the transactions built from their arguments.
- AliasHolder.EntryDescends: blocks connected inside `Reorganize` are not filtered; any of them may be missing from the
  blocks read.
- FeeLoop.TxPost: amounts are unbounded integers; coin selection, signing and sizes are parameters.
- PageLocks.LockedPageManager.LockRange: when the loop does not end nothing is said of the counts; ranges outside the
  address space are excluded.
- RPC, networking, Berkeley DB, encryption and key storage.
