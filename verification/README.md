# Verification model of ZMap

A Dafny model of this ZMap fork: how it enumerates targets, how it recognises repeated responses, the codecs of
its probe modules, the accounting of its sender, and the protocol of a queue between two threads. The model follows
the code branch by branch, with its 16-, 32- and 64-bit widths written out, and proves what the code promises about
all inputs, all runs and all reachable states. `dafny verify dfyconfig.toml` checks everything.

## What is proved

**Every target exactly once.** `src/cyclic.c` walks the multiplicative group modulo a prime, `src/shard.c` cuts the
walk into arcs, `lib/constraint.c` turns indices into addresses and `src/ziterate.c` prints them. The result is about
the whole program: for any allow and block lists, any ports, any random words and any number of shards, what all the
shards print together holds every permitted address once for each port and nothing else, if and only if each group
element that a 32-bit cast would repeat is the first element of a shard (`Ziterate.WholeScanIff`, composed from the
runs by `Ziterate.RunAll`). The sizes of the scan decide whether there are such elements: where the ports take b bits,
there are none if and only if the addresses number at most 2 to the power `Iterator.NARROW[b]`
(`Iterator.NarrowIff`), an exponent of 28 for one port and between 28 and 31 for more. So the promise holds up to 2^28
addresses on any ports, and up to 2^31 on two to eight. Up to 256 ports nothing more is needed; beyond that the
generator must be small enough for the 64-bit products of the walk. It rests on

- the table of groups, proved right row by row (`GroupCertificates.TableIsValid`): each modulus is prime, each
  known root is primitive, each list of factors is complete;
- the primitive-root search, the partition of the cycle into arcs, and the walk of each arc;
- the prefix tree, proved canonical under any history of sets, and its rank and select through the radix array and
  the painted counts, proved a bijection.

Three facts about widths are part of the results, because the promise does not hold without them:

- `extract_ip` keeps 32 bits, so group elements above 2^(32 + port bits) repeat earlier targets, each slot once for
  every such element that decodes to it and does not start a subshard (`Coverage.SlotCount`). With fewer subshards
  than such elements exactly-once holds if and only if there are none (`Coverage.FewShardsExactIff`); on one port with
  fewer than 14 shards, if and only if at most 2^28 addresses are permitted (`Ziterate.SinglePortExactIff`): beyond
  that `get_group` picks 2^32 + 15, whose last elements decode to the first addresses again. `Witnesses.OnePortRepeats`
  is the concrete case: no lists, one port, a second random word of 0, and an address that is printed exactly twice.
- The step of the walk multiplies 64-bit words. It is right at every element if and only if generator times
  (p - 1) fits (`Shard.WidthExact`). The cap of 2^22 on generators ensures this for the first nine rows of the table
  only (`Cyclic.CapFitsFirstNineRows`); `Shard.WidthOfTableRows` gives the exact bounds for the last two, and
  `Witnesses.AllPortsWraps` is the concrete case: the first candidate, 65537, is a primitive root of the last group
  beyond them. There the 64-bit walk, as the code goes on with it, takes two elements to the same next one, so that
  one shard either never comes to its end or misses a permitted target (`Witnesses.AllPortsMisses`).
- `check_dst_port` does not always agree with the ports probes use. Without a 32-bit wrap of the validation word it
  does if and only if there are at most as many probes as ports, or a multiple of them; across the wrap the remainder
  of 2^32 by the number of ports comes in. `PortWindow` gives the exact condition for every configuration and word, and
  the default port range fails it for one word.

**Repeats.** The receive path marks a packet as a repeat exactly when its source is among the last W distinct ones,
over every run (`RecvWindow.ReceiveAll`), through the intrusive list and index of `lib/cachehash.c`.

**Codecs.** DNS names round-trip exactly when their labels have 1 to 191 bytes and the text fits
(`DnsDecode.RoundTripIff`). A name in a response decodes to what RFC 1035 says it means exactly when it follows at
most ten pointers, none of them leads straight to a pointer, none behind a label leads straight to the root, and the
text fits (`DnsMeaning.DecodesMeaningIff`, for pointers below 1024; `DnsMeaning.DecodesHeardIff` is for any bytes).
Whole responses written section by section are read back whole, and a response complete within its datagram is
reported as it stands although pointers reach eight bytes behind it (`DnsExtent.ProcessPacket`). The address padding of
queries, the UDP payload templates (what a receiver reads field by field, `UdpBuild.OutputShows`) and the Internet
checksum follow, and AES: the key expansion and the rounds are those of FIPS 197, its example comes out, and for each
key size decryption undoes encryption, from key set-up to the bytes of the block.

**Protocols.** The two threads of `ztee` write exactly what was read, in order, in every interleaving, and never
get stuck. The sender hands packets to the kernel in batches; for every sequence of answers the kernel gives, over a
whole run, what it took, in order, what it refused and what it refused at the end are the packets made. The two
counters tell what it took if and only if fewer than 2^32 packets are lost and nothing is refused at the end
(`Send.SendRun`).

Where a comment and the code disagree the model follows the code: the last table prime is 2^48 + 21, not the
2^48 + 23 of its comment; the radix array holds prefixes of 18 bits, not 16; the trailing byte of an odd segment is
padded with zero, not 0xFF; the pointer offset of a DNS name keeps 10 bits, not 14.

## Reading the model

Words of fixed width are natural numbers with the wrap written out, or bit vectors. Random words, system call
outcomes, the clock and the C library's number parsing are parameters. `Rem` and `Quot` are remainder and quotient
by repeated subtraction; they are proved equal to `%` and `/` and keep proofs free of nonlinear arithmetic.

## Model

| member | source | states |
|---|---|---|
| NumberTheory.ExponentTestExact | src/cyclic.c:142-158 | A residue whose (p-1)th power is one is a primitive root if and only if none of its powers (p-1)/q, q prime, is one: what the factor loop tests |
| NumberTheory.Fermat | src/cyclic.c:142-158 | Fermat's little theorem for every prime, so that the test applies to every candidate |
| NumberTheory.PowersCover | src/cyclic.c:26-35 | Every nonzero residue is a power of a primitive root with an exponent below p - 1 |
| NumberTheory.DifferentPowers | src/cyclic.c:26-35 | Powers whose exponents differ by less than p - 1 differ |
| Lucas.Certified | src/cyclic.c:57-113 | A residue of order p - 1 and the factors of p - 1 prove p prime, the residue primitive and the factors complete |
| GroupCertificates.TableIsValid | src/cyclic.c:57-113 | Every row of the table: prime modulus, primitive known root below 2^22, and exactly the prime factors of p - 1 |
| Cyclic.NextCandidateCycles | src/cyclic.c:132-137 | The increment and both reductions cycle the candidate through 0 to min(p, 2^22) - 1 |
| Cyclic.TestCandidate | src/cyclic.c:143-162 | The loop over the factors accepts exactly the primitive roots |
| Cyclic.FindPrimroot | src/cyclic.c:117-168 | Terminates, and returns the first primitive root in candidate order, below 2^22 |
| Cyclic.MakeCycle | src/cyclic.c:182-191 | Generator, offset and order of the cycle that two random words lead to |
| Cyclic.SeededUnique | src/cyclic.c:182-191 | The two words settle the cycle of a group |
| Cyclic.GetGroup | src/cyclic.c:170-180 | The group with the smallest table prime above the wanted size |
| Cyclic.TableAscends | src/cyclic.c:52-113 | The table is ordered by its primes |
| Cyclic.CapFitsFirstNineRows | src/cyclic.c:123-126 | The cap of 2^22 keeps generator times (p - 1) below 2^64 if and only if the row is one of the first nine |
| ShardWalk.ArcsPartition | src/shard.c:56-86 | Each position of the cycle lies in exactly one subshard's arc |
| ShardWalk.ArcBounds | src/shard.c:56-86 | No arc is empty and none leaves the cycle |
| ShardWalk.ArcElements | src/shard.c:74-110 | The first and last elements shard_init computes are the elements at the two ends of the arc, the single-subshard case included |
| ShardWalk.ElementStep | src/shard.c:158-163 | One multiplication by the generator moves one position along the cycle |
| ShardWalk.Position | src/shard.c:158-163 | Every group element stands at exactly one position of the cycle |
| ShardWalk.DifferentElements | src/shard.c:165-178 | Positions less than a full turn apart hold different elements, so the walk meets its last element only at the end of its arc |
| ShardWalk.SameStartIff | src/cyclic.c:181-191 | Two second random words start the walk at the same element if and only if the offsets they leave are congruent modulo p - 1 |
| Coverage.ShardsConcatenate | src/shard.c:41-142 | The slots of all subshards, one behind the other, are the slots of the whole cycle |
| Coverage.DecodeInjective | src/shard.c:20-29 | As long as the 32-bit cast loses nothing, an element is determined by its slot |
| Coverage.ElementForDecodes | src/shard.c:20-29 | Every slot in range has an element that decodes to it and passes both range checks |
| Coverage.AcceptedInRange | src/shard.c:31-39 | An accepted element decodes to a slot in range, whichever of the two checks accepted it |
| Coverage.CountIsVisits | src/shard.c:165-192 | A slot is returned as often as there are positions that accept and decode to it |
| Coverage.OtherVisitsAreAliased | src/shard.c:26-29 | A slot is visited a second time only at an element whose index the cast changes |
| Coverage.ExactlyOnceIff | src/shard.c:26-29 | Over all subshards every slot in range is returned exactly once if and only if no accepted element is changed by the cast |
| Coverage.NarrowGroupsAreExact | src/shard.c:41-192 | If p - 1 is at most 2^(32 + port bits), every slot in range is returned exactly once over all subshards |
| Coverage.ExactIffStarts | src/shard.c:26-39 | For any number of subshards: every slot in range exactly once if and only if each element above 2^(32 + port bits) whose slot is in range is the first element of a subshard, where the index is tested uncast |
| Coverage.SlotCount | src/shard.c:26-39 | For any number of subshards, how often each slot is returned: once, and once more for each element above 2^(32 + port bits) that decodes to it and starts no subshard |
| Coverage.ManyRepeats | src/shard.c:26-29 | How many elements above 2^(32 + port bits) have a slot in range, at least |
| Coverage.FewShardsExactIff | src/shard.c:41-192 | With fewer subshards than such elements, exactly once if and only if p - 1 is at most 2^(32 + port bits) |
| Coverage.SingleShardExactIff | src/shard.c:41-192 | The instance of one subshard: a group that is too wide has at least two such elements |
| Shard.StepInGroup | src/shard.c:158-163 | The 64-bit step is multiplication in the group while the width condition holds |
| Shard.StepExactIff | src/shard.c:160-161 | At an element, the 64-bit step is the group step if and only if the product fits |
| Shard.WidthExact | src/shard.c:160-161 | The step is right at every element if and only if generator times (p - 1) is below 2^64 |
| Shard.WidthOfTableRows | src/shard.c:160-161 | Which generators below 2^22 meet the width condition in each row of the table, exactly |
| Shard.SubIndexIsBijective | src/shard.c:56-67 | Shards times threads number the subshards without gap or repeat |
| Shard.SharesEven | src/shard.c:117-125 | The quotas of two subshards differ by at most one, and the earlier subshard has the larger |
| Shard.QuotasAddUpIff | src/shard.c:117-125 | The quotas of all subshards make up max_targets if and only if the largest share fits 32 bits |
| Shard.QuotaWraps | src/shard.c:117-125 | A limit of 2^32 targets on one subshard leaves the quota 0, which stands for no limit |
| Shard.DefaultLimitLost | src/state.c:45 | The default limit of 2^64 - 1 is made up by no number of subshards the program accepts; one subshard is held to 2^32 - 1 targets |
| Shard.Shard.constructor | src/shard.c:41-142 | A subshard stands at the first slot of its arc, with nothing passed, or is done; its quota of targets is set |
| Shard.Shard.RollToValid | src/shard.c:31-39 | The first element is kept if its uncast index is in range, otherwise the walk goes on to the next slot |
| Shard.Shard.GetCurSlot | src/shard.c:144-156 | The slot at the current position, in range, or the end |
| Shard.Shard.GetNextElem | src/shard.c:158-163 | The current element becomes the next one of the cycle |
| Shard.Shard.GetNextSlot | src/shard.c:165-192 | Terminates; passes exactly the current slot and returns the next one of the arc, or ends with the whole arc passed |
| Walk64.WalkIsArc | src/shard.c:158-192 | Under the width condition the 64-bit walk of a subshard ends exactly at the end of its arc and returns the slots of the arc |
| Walk64.NoTwoToOne | src/shard.c:165-178 | Whatever the generator: a walk that ends passes no two elements with the same successor |
| Walk64.OneOfTwoMissed | src/shard.c:165-192 | Two elements with the same successor, each alone in standing for its slot: a walk that ends misses one of the slots |
| Iterator.BitsNeeded | src/iterator.c:58-67 | The least number of bits that count n values; 64 for none |
| Iterator.GroupHoldsScan | src/iterator.c:73-85 | The chosen group has an element for every slot of the scan |
| Iterator.InitScan | src/iterator.c:69-105 | A valid cycle and bounds for any number of addresses and ports; at most 256 ports stay within the first nine rows; 32 bits of address cover the group if and only if the number of addresses is within the bound for its port bits |
| Iterator.ChosenUnique | src/iterator.c:69-105 | The size of the scan and two random words settle the cycle and the bounds |
| Iterator.NarrowIff | src/iterator.c:73-85 | Exactly which numbers of address bits and port bits lead to a group that 32 bits of address cover |
| Iterator.ChosenNarrow | src/iterator.c:73-85 | The same by the number of addresses; up to 2^28 on any ports it is covered, and on one port no more |
| Iterator.ChosenOrder | src/iterator.c:73-85 | On one port, more than 2^28 addresses lead to the group modulo 2^32 + 15 |
| Completion.Iterator.ShardComplete | src/iterator.c:35-56 | After any reports the totals are their sums, failures modulo 2^32, the remaining-thread count is 32-bit, and the scan is complete if and only if every thread has reported |
| Completion.TotalIsShares | src/iterator.c:42-45 | In whatever order threads report, the total of each counter is the sum over the threads |
| Completion.CompleteIffAllReported | src/iterator.c:46-53 | If no thread reports twice, the scan is complete exactly when as many reports as threads have come in |
| ConstraintTree.SetMeaning | lib/constraint.c:123-167 | Setting a prefix changes exactly the addresses it covers |
| ConstraintTree.SetCanonical | lib/constraint.c:151-167 | Setting keeps the tree free of two equal leaves below one node |
| ConstraintTree.SetDepth | lib/constraint.c:123-167 | Setting a prefix of at most 32 bits keeps the depth at most 32 |
| ConstraintTree.CanonicalUnique | lib/constraint.c:151-167 | Canonical trees with the same address function are the same tree |
| ConstraintTree.CoversIsPrefix | lib/constraint.c:123-150 | Covering bit by bit is agreement of the leading bits |
| ConstraintHistory.LastPaintWins | lib/constraint.c:172-177 | After any history of sets, an address has the value of the last set that covers it |
| ConstraintHistory.SameMeaningSameTree | lib/constraint.c:123-177 | Two histories with the same address function leave structurally identical trees |
| ConstraintRank.CountIsCardinality | lib/constraint.c:263-289 | The recursive count is the number of addresses with the value |
| ConstraintRank.CountsSum | lib/constraint.c:263-289 | Counts over all values add up to the whole address space |
| ConstraintRank.ExactlyOnePath | lib/constraint.c:233-255 | An address has the value if and only if exactly one of the radix array and the tree numbers it |
| ConstraintRank.SelectHits | lib/constraint.c:208-255 | Lookup of an index below the count gives an address with the value, whose rank is the index |
| ConstraintRank.SelectCovers | lib/constraint.c:208-255 | Every address with the value is looked up by its rank |
| ConstraintRank.SelectIncreases | lib/constraint.c:208-255 | Within each path, lookup is strictly increasing |
| ConstraintRank.TotalIsCount | lib/constraint.c:320-357 | Root count plus radix length times 2^14, the direct count and the number of addresses agree |
| Constraint.Node.CreateLeaf | lib/constraint.c:91-98 | A new leaf with the value |
| Constraint.Node.BecomeLeaf | lib/constraint.c:111-119 | The node denotes a single value |
| Constraint.Node.SetRecurse | lib/constraint.c:123-167 | The heap tree after a set is the canonical tree of the value-level set |
| Constraint.Node.LookupIp | lib/constraint.c:181-205 | The value of the address in the tree |
| Constraint.Node.LookupIndex | lib/constraint.c:208-227 | The address numbered by the painted counts |
| Constraint.Node.CountRecurse | lib/constraint.c:263-289 | The count, and when painting every node carries the count of its subtree |
| Constraint.Node.LookupNode | lib/constraint.c:295-316 | The subtree the prefix leads to |
| Constraint.Constraint.constructor | lib/constraint.c:361-368 | One value everywhere, nothing painted |
| Constraint.Constraint.Set | lib/constraint.c:172-177 | The tree after the set, with the paint invalidated |
| Constraint.Constraint.LookupIp | lib/constraint.c:200-205 | The value of an address |
| Constraint.Constraint.PaintValue | lib/constraint.c:320-344 | Counts and radix array agree with the tree for the painted value |
| Constraint.Constraint.CountIps | lib/constraint.c:347-357 | The number of addresses with the value, whether painted or not |
| Constraint.Constraint.LookupIndex | lib/constraint.c:233-255 | The address with that index among those with the value; paints first where needed |
| Constraint.RadixPrefix | lib/constraint.c:326-340 | The prefixes the filling loop tries are the subtrees at depth 18, in order |
| Blocklist.Lists.HistoryMeaning | lib/blocklist.c:249-309 | The order of initialisation makes the last set at an address the promised one |
| Blocklist.TopmostOneColour | lib/blocklist.c:249-309 | A run of sets with one value: covered addresses get it, the others keep what they had |
| Blocklist.AllCidrsMeaning | lib/blocklist.c:125-225 | The prefixes set for a list cover exactly the addresses its entries name: those that agree with the address of an entry on the prefix length, or are one of the addresses of a host |
| Blocklist.PaintedEntry | lib/blocklist.c:88-179 | In the tree after an entry, each address has the value if the entry names it, and its former value if not |
| Blocklist.Blocklist.AddConstraint | lib/blocklist.c:75-86 | The set is added to the history and the prefix to its list |
| Blocklist.Blocklist.InitFromString | lib/blocklist.c:125-179 | Addresses the entry names take the value, all others keep theirs; which entries are errors and which are fatal |
| Blocklist.Blocklist.InitFromEntries | lib/blocklist.c:181-225 | Every entry in order; stops exactly when one is fatal |
| Blocklist.Blocklist.IsAllowed | lib/blocklist.c:70-73 | Allowed if and only if some entry of the allow lists holds the address or there is none, no entry of the block lists does, and it is not 0.0.0.0 |
| Blocklist.Init | lib/blocklist.c:249-309 | Aborts exactly if an entry of the four lists is fatal; otherwise the painted tree allows exactly the addresses the entries permit, and counts them |
| Ziterate.AllowedIffPermitted | lib/blocklist.c:249-309 | The tree allows an address if and only if the lists permit it |
| Ziterate.CountFits | src/iterator.c:84-88 | Since 0.0.0.0 is never allowed, the count is below 2^32 and its cast loses nothing |
| Ziterate.SelectedIsNonzero | src/ziterate.c:231-232 | No index selects address 0, so the loop stops only at the end of the shard |
| Ziterate.PrintTargets | src/ziterate.c:231-244 | Prints the slots of the shard's arc in order, all of them unless the host limit stops it |
| Ziterate.Run | src/ziterate.c:163-246 | One shard: it aborts if and only if a list entry is fatal, no address is permitted, or there are at least as many shards as the group of this scan has elements; it stops for width if and only if the generator of this scan is too large, never up to 256 ports; otherwise it prints the probes of its arc, up to the host limit |
| Ziterate.Prints64IffArc | src/ziterate.c:230-244 | Under the width condition, what the 64-bit walk of a shard prints is what the run prints |
| Ziterate.PrintsOnceIff | src/ziterate.c:231-244 | A list of slots in range prints every permitted address once for each port index and nothing else if and only if it holds every slot once |
| Ziterate.EveryTargetPrintedOnceIff | src/ziterate.c:231-244 | Over all shards, the printed probes are exactly the due ones if and only if each element the cast would repeat starts a shard |
| Ziterate.EveryTargetPrintedOnce | src/ziterate.c:231-244 | Over all shards of a narrow group every permitted address is printed once for each port index, and nothing else |
| Ziterate.WholeScanIff | src/ziterate.c:163-246 | The runs of all shards with the same seed, any lists, ports and number of shards: exactly the due probes if and only if each element the cast would repeat starts a shard |
| Ziterate.WholeScan | src/ziterate.c:163-246 | The same runs in a group that 32 bits of address cover: exactly the due probes |
| Ziterate.FewShardsPrintOnceIff | src/ziterate.c:163-246 | With fewer shards than repeating elements, on any ports: exactly the due probes if and only if the addresses are within the bound for the port bits |
| Ziterate.OneShardPrintsOnceIff | src/ziterate.c:163-246 | The instance of one shard, on any ports |
| Ziterate.SinglePortExactIff | src/ziterate.c:163-246 | On one port with fewer than 14 shards: exactly the due probes if and only if at most 2^28 addresses are permitted |
| Ziterate.RunAll | src/ziterate.c:163-246 | Every shard run in turn: when the scan aborts or stops for width, and otherwise exactly the due probes if and only if each element the cast would repeat starts a shard, in particular whenever the addresses are within the bound |
| Witnesses.RootAboveBound | src/cyclic.c:108-112 | 65537 is a primitive root of the last group |
| Witnesses.GeneratorTooLarge | src/shard.c:158-163 | The word 65536 makes it the generator, and the 64-bit step from the element p - 1 is not the group step |
| Witnesses.AllPortsWraps | src/ziterate.c:163-246 | No lists, all ports and the word 65536: the run meets that generator |
| Witnesses.SameSuccessor | src/shard.c:158-163 | With it, the 64-bit step takes two elements to the same one |
| Witnesses.AllPortsMisses | src/shard.c:165-192 | For that scan, whatever the second word: if the 64-bit walk of one shard ends, what it prints is not what is due |
| Witnesses.FirstSlotTwice | src/shard.c:26-29 | No lists, one port and offset 0: the first slot is returned exactly twice |
| Witnesses.OnePortRepeats | src/ziterate.c:163-246 | No lists, one port and a second word of 0: the run prints a permitted address exactly twice |
| CacheList.UseMoves | lib/cachehash.c:109-132 | The pointer updates move one node to the front and keep the order of the others |
| CacheHash.CacheHash.constructor | lib/cachehash.c:45-71 | An empty cache over a linked pool of nodes |
| CacheHash.CacheHash.Use | lib/cachehash.c:109-132 | The node comes to the front, the list stays a permutation of the pool, contents stay |
| CacheHash.CacheHash.Has | lib/cachehash.c:147-158 | Finds exactly the keys held, and their data, without changing the order |
| CacheHash.CacheHash.Get | lib/cachehash.c:160-173 | Finds exactly the keys held; a hit comes to the front |
| CacheHash.CacheHash.Evict | lib/cachehash.c:87-107 | Forgets the least recently used entry |
| CacheHash.CacheHash.EvictIfFull | lib/cachehash.c:175-182 | Evicts exactly when full |
| CacheHash.CacheHash.Put | lib/cachehash.c:184-221 | The new entry stands in front of what eviction leaves; the key was not there, so the assertion on the index holds |
| CacheHash.CacheHash.Iter | lib/cachehash.c:264-275 | Hands over the data of all entries, most recent first |
| RecvWindow.WindowMeaning | src/recv.c:123-132 | Being among the first w of the recency list is being among the last w distinct sources |
| RecvWindow.Receive | src/recv.c:123-132 | Repeat if and only if the source is among the last W distinct ones; the cache holds them after every packet |
| RecvWindow.ReceiveAll | src/recv.c:123-132 | The same for every packet of every run from an empty cache |
| PortWindow.ExactWithoutWrap | src/probe_modules/packet.h:192-214 | Without 32-bit wrap, the check accepts exactly the ports of probes if and only if there are at most as many probes as ports, or a multiple of them |
| PortWindow.ExactWithWrap | src/probe_modules/packet.h:192-214 | Across the wrap, for any number of probes: with fewer probes than ports on each side, exact if and only if the remainder of 2^32 by the number of ports is covered on both sides and the probes do not outnumber the ports by more than it; otherwise if and only if the probes exceed it by a multiple of the ports |
| PortWindow.DefaultRangeInexact | src/probe_modules/packet.h:192-214 | The default range with two probes and the largest validation word: not exact |
| Checksum.TwoFoldsSuffice | src/probe_modules/packet.h:148-153 | Two folds reduce every sum below 2^32 to its one's-complement value |
| Checksum.ChecksumCompletes | src/probe_modules/packet.h:148-153 | The checksum completes the sum it was computed from to all ones |
| Checksum.TcpChecksum | src/probe_modules/packet.h:156-189 | The folded complement of the words of segment and pseudo-header, odd lengths included |
| Checksum.Ipv6PayloadChecksum | src/probe_modules/packet.h:116-154 | The same for the IPv6 pseudo-header |
| Checksum.KnownSums | src/probe_modules/packet.h:148-189 | The worked example of section 3 of RFC 1071, and a pseudo-header of section 3.1 of RFC 793 |
| Checksum.PseudoV6Layout | src/probe_modules/packet.h:116-147 | The pseudo-header has the layout of section 8.1 of RFC 8200 |
| Checksum.HostsAgree | src/probe_modules/packet.h:116-189 | Hosts of either byte order store the same two bytes |
| Checksum.SelfVerifies | src/probe_modules/packet.h:116-189 | With the checksum in its zeroed field, pseudo-header and segment sum to 0xFFFF, on hosts of either byte order |
| Send.SendBatch | src/send-linux.c:100-129 | Whatever the kernel answers to each call, the front part of the batch it takes goes out in order, none twice; its length is returned, and the number of calls |
| Send.Conserved | src/send.c:422-482 | For every sequence of kernel answers, the packets made are those taken, lost and waiting |
| Send.InOrder | src/send.c:422-482 | The kernel gets packets in the order they were made, however often it fails |
| Send.Waiting | src/send.c:467-481 | What waits is the remainder by the capacity; the calls are bounded by the attempts at each batch |
| Send.NextBatch | src/send.c:467-481 | A full batch is offered as a whole, and the kernel takes a front part of it |
| Send.ReliableRun | src/send.c:422-523 | A kernel that takes what it is offered gets everything made, in order |
| Send.Sender.Flush | src/send.c:471-480 | The ledger after the kernel's answers, and what it did not take added to the 32-bit counter |
| Send.Sender.SendPacket | src/send.c:422-482 | One packet enters the batch; a full batch goes out, and the ledger is the one the kernel's answers lead to |
| Send.Sender.SendTarget | src/send.c:422-486 | All probes of a target, with both counters |
| Send.Sender.Cleanup | src/send.c:521-523 | Of the rest of the batch, what the kernel takes goes out; what it does not take is in no counter |
| Send.Accounting | src/send.c:422-523 | The identity of a whole run, in order and in number; the counters tell what was taken if and only if fewer than 2^32 packets are lost and nothing is dropped at the end |
| Send.SendRun | src/send.c:386-523 | Scans exactly the targets before the first stop condition, never more than the quota, and exceeds the packet limit by less than one target; the counters and the packets behind them satisfy the identity for every sequence of kernel answers |
| Queue.Queue.constructor | lib/queue.c:23-33 | An empty queue |
| Queue.Queue.IsEmpty | lib/queue.c:35 | Empty if and only if it holds nothing |
| Queue.Queue.PushBack | lib/queue.c:37-56 | The contents with one more at the end |
| Queue.Queue.PopFront | lib/queue.c:70-79 | The first of the contents, and the rest stay |
| Ztee.StepKeepsInvariant | src/ztee.c:320-398 | Every step of either thread keeps what was written, queued and unread a partition of the input in order |
| Ztee.RunKeepsInvariant | src/ztee.c:320-398 | The invariant in every state of every interleaving |
| Ztee.OutputIsPrefix | src/ztee.c:320-398 | What is written is a prefix of the input, all of it once the processor exits; a waiting processor means an empty queue and an unfinished reader |
| Ztee.NeverStuck | src/ztee.c:320-398 | Until the processor exits some thread can move: no wakeup is lost |
| Ztee.RunIsBounded | src/ztee.c:320-398 | Apart from spurious wakeups every run is finite |
| DnsName.DomainToQname | src/probe_modules/module_dns.c:135-158 | The loops in place leave the wire form of the domain: each label behind its length, and the root |
| DnsName.EncodeByPosition | src/probe_modules/module_dns.c:145-155 | Splitting labels off one by one and overwriting dots position by position give the same bytes |
| DnsDecode.Decode | src/probe_modules/module_dns.c:208-360 | For every byte string: at least one byte and at most the data consumed, at most the room written, recursion ends, and the loop never runs out of data |
| DnsDecode.RoundTripIff | src/probe_modules/module_dns.c:135-158 | The wire form of a text decodes to it, all bytes consumed, if and only if every label has 1 to 191 bytes and the text fits |
| DnsMeaning.DecodesMeaningIff | src/probe_modules/module_dns.c:208-360 | A name with a meaning by RFC 1035 and near pointers, however many, decodes to its text if and only if it follows at most ten, its path is plain and the text fits |
| DnsMeaning.TooManyPointers | src/probe_modules/module_dns.c:208-275 | A name with more pointers than there are recursion levels is refused, even if it could be read to its end |
| DnsMeaning.DecodesHeardIff | src/probe_modules/module_dns.c:208-360 | For any bytes: refused if no name can be read with the decoder's label size, 10-bit pointers and ten levels; otherwise its text is returned if and only if the path is plain and the text fits |
| DnsMeaning.SmallPayloadNear | src/probe_modules/module_dns.c:243-252 | In a message of at most 1024 bytes every pointer that leads somewhere is near |
| DnsMeaning.FarPointerMisread | src/probe_modules/module_dns.c:243-244 | A pointer to byte 1024 is read as a pointer to byte 0 |
| DnsMeaning.PointerToPointerDot | src/probe_modules/module_dns.c:254-271 | A pointer to a pointer puts a dot in front of the name |
| DnsMeaning.EncodedMeans | src/probe_modules/module_dns.c:135-158 | The wire form of a text with labels of 1 to 63 bytes means its labels |
| DnsMeaning.SplitIsText | src/probe_modules/module_dns.c:135-158 | The labels of a text, joined by dots, are the text |
| DnsMeaning.CompressedDecodes | src/probe_modules/module_dns.c:208-360 | A name whose end, or the whole of which, is replaced by a pointer below 1024 to a copy decodes to the whole name |
| DnsReader.GetNameHelper | src/probe_modules/module_dns.c:208-360 | Writes exactly the decoded text into the buffer and touches nothing beyond its room |
| DnsReader.ReadPointer | src/probe_modules/module_dns.c:231-291 | The pointer branch: the dot, then the name read elsewhere, one level deeper |
| DnsReader.ReadLabel | src/probe_modules/module_dns.c:300-349 | The label branch: accepted exactly if it is all there and fits, and then copied |
| DnsResponse.GetName | src/probe_modules/module_dns.c:364-382 | The decoded text in a buffer of 512 zeros, or nothing consumed |
| DnsResponse.Process | src/probe_modules/module_dns.c:384-576 | One record, with the cursor moved behind it; on an error the cursor stays |
| DnsResponse.Section | src/probe_modules/module_dns.c:1081-1115 | The records of a section lie one behind the other; it stops early exactly at a record that fails |
| DnsResponse.ChainAdvances | src/probe_modules/module_dns.c:1081-1115 | What is left after a section is the end of the data, at least 5 or 11 bytes on for each record |
| DnsResponse.ChainUnique | src/probe_modules/module_dns.c:1081-1115 | The number of records settles which they are and what is left |
| DnsResponse.ProcessSections | src/probe_modules/module_dns.c:1076-1123 | Advanced and unconsumed bytes make up the data; no error if and only if every section is complete and nothing is left; any complete reading is the one reported |
| DnsExtent.NameStaysIff | src/probe_modules/module_dns.c:1076-1115 | Reading with a payload eight bytes longer than the message agrees with reading in the message if and only if the message alone has the name, or neither has |
| DnsExtent.LayoutStays | src/probe_modules/module_dns.c:1076-1115 | Sections that lie in the message are found whatever bytes follow it |
| DnsExtent.ProcessPacket | src/probe_modules/module_dns.c:1073-1123 | Header counts and sections: a response complete within its datagram is reported as it stands, without error, whatever follows the datagram |
| DnsExtent.HeaderCounts | src/probe_modules/module_dns.c:1068-1083 | In a message with its four counts in the order of section 4.1.1 of RFC 1035, the counts read are those of its sections |
| DnsExtent.ReadBack | src/probe_modules/module_dns.c:1073-1123 | Any four sections that can be written, put into a message with header and counts, are read back whole, nothing left over |
| DnsExtent.RecordBytes | src/probe_modules/module_dns.c:384-576 | A question and an answer given byte by byte are read with their name, type, class, lifetime and data |
| DnsExtent.NameFromBeyond | src/probe_modules/module_dns.c:1083-1085 | A pointer just behind the datagram takes its name from there |
| DnsResponse.ParseWritten | src/probe_modules/module_dns.c:384-576 | A record written on the wire is the record read, whatever follows |
| DnsResponse.ResponseRoundTrip | src/probe_modules/module_dns.c:1076-1123 | Four sections written one behind the other lie there to be read, with nothing left over |
| DnsEmbed.MakeIpQname | src/probe_modules/packet.c:420-436 | Four labels of three decimal digits that read as the four bytes of the address, in order, and the final zero |
| DnsEmbed.DigitsSpell | src/probe_modules/packet.c:431-432 | The three characters of a byte are decimal digits, hundreds first, that read as the byte |
| DnsEmbed.Pad | src/probe_modules/module_dns.c:890-903 | Exactly sixteen bytes of the packet are replaced, by those labels |
| DnsEmbed.PaddedIsName | src/probe_modules/module_dns.c:890-903 | With a dot behind a placeholder of 15 bytes, the padded name is the wire form of the padded address and the rest |
| DnsEmbed.PaddedDecodesIff | src/probe_modules/module_dns.c:890-903 | It keeps its length and decodes to that text if and only if the rest could be decoded and the whole fits |
| DnsEmbed.PlaceholderFits | README.md:158-159 | The documented placeholder 255.255.255.255 is of that form |
| DnsEmbed.PaddingInjective | src/probe_modules/module_dns.c:890-903 | Different targets lead to different names |
| DnsEmbed.EchoAcceptedIff | src/probe_modules/module_dns.c:1017-1027 | The comparison from byte 16 on accepts exactly the names that go on with the wire form of the rest |
| DnsEmbed.EchoAccepted | src/probe_modules/module_dns.c:1017-1027 | An echoed question is accepted whatever address it was padded with |
| UdpField.FieldLookup | src/probe_modules/module_udp.c:788-866 | Which specifications name a field, which end the program, and the field: type, length and data |
| UdpField.LookupValid | src/probe_modules/module_udp.c:788-866 | A field found has the length its type takes |
| UdpField.NamesMean | src/probe_modules/module_udp.c:80-141 | Each documented name finds its type and length, none another |
| UdpField.RandomLength | src/probe_modules/module_udp.c:815-857 | A random field named with a length within bounds is found with that length |
| UdpField.HexBytes | src/probe_modules/module_udp.c:801-813 | A hex field carries the bytes its pairs of characters spell |
| UdpLoad.ScanPartitions | src/probe_modules/module_udp.c:870-966 | Data and recognised fields make up the template, in order and without a gap |
| UdpLoad.ScanNamed | src/probe_modules/module_udp.c:908-935 | Every recognised stretch runs from a dollar to a right brace and names its field |
| UdpLoad.LoadRoundTrip | src/probe_modules/module_udp.c:870-966 | A template put together from data without dollars and specifiers is taken apart into the same parts |
| UdpLoad.Load | src/probe_modules/module_udp.c:870-966 | The fields of the parts and the sum of their lengths; fails exactly where a specification ends the program |
| UdpBuild.PutRandom | src/probe_modules/module_udp.c:596-605 | One character of the set for each random word, in order |
| UdpBuild.DecimalReads | src/probe_modules/module_udp.c:735-753 | The text form of a port is digits without leading zero that read back as the port |
| UdpBuild.BytesRead | src/probe_modules/module_udp.c:715-773 | Ports, and times modulo 2^32, in network byte order read back as the numbers |
| UdpBuild.AddressReads | src/probe_modules/module_udp.c:667-692 | The text form of an address read up to each dot gives its four bytes in order |
| UdpBuild.GlyphsDiffer | src/probe_modules/module_udp.c:596-605 | Each residue gives its own character, a digit, a letter or either, as the type says |
| UdpBuild.OutputShows | src/probe_modules/module_udp.c:607-784 | What a receiver reads from the piece of a field is the source or destination address or port, or the time, that its type names |
| UdpBuild.OutputsCarry | src/probe_modules/module_udp.c:607-784 | A payload is cut into one piece for each field, each of them read as its type says |
| UdpBuild.Build | src/probe_modules/module_udp.c:607-784 | One piece for each field, in order, each read back as what its type names, if each finds room at its turn, otherwise zero; less than the buffer length, nothing written beyond it |
| UdpBuild.OutputsFit | src/probe_modules/module_udp.c:607-784 | The payload is at most the announced maximum, and equal to it without text forms |
| UdpBuild.RoomByLength | src/probe_modules/module_udp.c:625-632 | Room for the maximum is room enough; without text forms it is also needed |
| UdpBuild.LoadedBuilds | src/probe_modules/module_udp.c:607-966 | For every loaded template: the payload is at most the announced maximum, fits whenever that does, and leaves a byte over |
| UdpBuild.PlainTemplate | src/probe_modules/module_udp.c:607-966 | A template without recognised field is sent as it stands if and only if it is shorter than the buffer, or empty |
| RijndaelBox.SubstitutionInverts | lib/rijndael-alg-fst.c:263-587 | The substitution in Te4 and the one in Td4 undo each other on every byte |
| RijndaelField.BoxIsStandard | lib/rijndael-alg-fst.c:263-315 | The entry for a byte is the affine image of its inverse in the field, as section 5.1.1 of FIPS 197 defines it |
| RijndaelField.MixBack | lib/rijndael-alg-fst.c:31-43 | One byte of a column mixed and mixed back |
| RijndaelField.UnmixMix | lib/rijndael-alg-fst.c:31-43 | The inverse mixing undoes the mixing on every column |
| RijndaelField.UnmixXor | lib/rijndael-alg-fst.c:31-43 | The inverse mixing distributes over exclusive or |
| RijndaelRounds.LookupMixes | lib/rijndael-alg-fst.c:31-43 | Four look-ups mix, or mix back, a column of substituted bytes |
| RijndaelRounds.EncryptRoundIs | lib/rijndael-alg-fst.c:900-907 | A round by look-up is substitution, row shift, mixing and key addition |
| RijndaelRounds.DecryptRoundIs | lib/rijndael-alg-fst.c:1095-1102 | The same for decryption |
| RijndaelRounds.Encrypt | lib/rijndael-alg-fst.c:755-947 | Two rounds to a turn of the loop make up the cipher of FIPS 197: all but the last round full, the last without mixing |
| RijndaelRounds.Decrypt | lib/rijndael-alg-fst.c:950-1142 | The equivalent inverse cipher, likewise |
| Rijndael.DecryptEncrypt | lib/rijndael-alg-fst.c:708-753 | For every schedule and block, the inverse cipher with the reversed and mixed schedule undoes the cipher |
| Rijndael.ShiftRowsMoves | lib/rijndael-alg-fst.c:900-907 | The row shift moves row r by r columns, its inverse back |
| RijndaelVectors.AppendixB | lib/rijndael-alg-fst.c:624-947 | The expanded key of appendix A.1 of FIPS 197 and the ciphertext of its appendix B |
| RijndaelVectors.EncryptAppendixB | lib/rijndael-alg-fst.c:624-947 | Key set-up and encryption of that key and block write the sixteen bytes of appendix B |
| RijndaelKeys.RconIsPower | lib/rijndael-alg-fst.c:590-596 | The round constants are the powers of x in the field |
| RijndaelKeys.FirstByBytes | lib/rijndael-alg-fst.c:634-642 | The first word of a turn, byte by byte: the word before it rotated, substituted, with the power of x in its first byte, added to the word a turn before |
| RijndaelKeys.OtherByBytes | lib/rijndael-alg-fst.c:634-697 | Every other word, byte by byte, with the substitution in the middle of a turn of eight |
| RijndaelKeys.FilledExpands | lib/rijndael-alg-fst.c:624-701 | The schedule filled in place satisfies the byte recurrences at every word |
| RijndaelKeys.KeySetupEnc | lib/rijndael-alg-fst.c:624-701 | For each key size the key expansion of section 5.2 of FIPS 197, byte by byte, and the number of rounds; zero for any other size |
| RijndaelKeys.ReverseKeys | lib/rijndael-alg-fst.c:717-730 | The round keys in reverse order, in place |
| RijndaelKeys.UnmixKeys | lib/rijndael-alg-fst.c:733-751 | All round keys but the first and the last mixed back, in place |
| RijndaelKeys.UnmixByLookupIs | lib/rijndael-alg-fst.c:733-751 | Looking up Td of Te4 mixes a key word back |
| RijndaelKeys.KeySetupDec | lib/rijndael-alg-fst.c:708-753 | The reversed schedule of the key, for each key size |
| RijndaelKeys.KeyedRoundTrip | lib/rijndael-alg-fst.c:624-753 | For every key of each size and every block, decryption gives the plain text back |
| RijndaelKeys.EncryptThenDecrypt | lib/rijndael-alg-fst.c:624-1143 | Both key set-ups, encryption and decryption in sequence on byte buffers: the sixteen bytes come back |

## Left out

- Sockets, capture, privilege and signal handling, logging, output modules and option parsing: system calls and formatting.
- GMP and Judy: modular power and a map stand for them; the tables Te0 to Te3 and Td0 to Td3 are taken by their definitions in the comment at the head of the file, Te4 and Td4 entry by entry.
- Parsing of prefixes, host names, numbers and hexadecimal digits by the C library: its results are parameters. A HEX field without a parameter, which the source hands on as a null pointer, counts as ending the program.
- Ziterate.Run: where the product of generator and element could exceed 64 bits the run ends in an outcome of its own, because the walk of the code need not end there; `Walk64` says what that walk does. The port index is printed in place of the port number looked up in the port list, and neither the byte order of printed addresses nor the option that forces the largest group for a list of addresses is modelled.
- Ziterate.RunAll: the same outcome for a generator that is too large.
- Witnesses.AllPortsWraps: states that outcome; what the code prints there is Witnesses.AllPortsMisses.
- CacheHash.CacheHash.constructor: a pool of one node is not modelled, because the source then links its only node to memory outside the pool, which cachehash_iter and cachehash_free follow; keys are compared as values, not as bytes with padding.
- CacheHash.CacheHash.Put: the reassignment of the end of the occupied part after an eviction callback is left out, because evict has set it to the same node already.
- Send.SendBatch: the kernel takes at most what it is offered and reports errors as no progress; message headers and the dry run are not modelled.
- Send.SendRun: the targets are a sequence; addresses from files, IPv6 and the pacing of packets are not modelled.
- Queue.Queue.PopFront: the lock is modelled in Ztee, where each critical section is one step.
- Ztee.StepKeepsInvariant: the formatting of lines to standard output and the error exits of the writer are not modelled.
- DnsResponse.Process: the interpretation of record data by type is not modelled, only that it takes rdlength bytes.
- DnsMeaning.DecodesMeaningIff: pointers to byte 1024 and beyond are excluded by a precondition, because the decoder then reads another place, where the same name may stand by chance; DnsMeaning.DecodesHeardIff says what it returns for them.
- RijndaelRounds.Encrypt: the variant unrolled at compile time is not modelled; 32-bit words are modelled by their four bytes.
- UdpBuild.Build: the clock is read once and is part of the context; random words are a sequence drawn in order.
- Adaptive rate control, the remaining probe modules, the IPv6 target file, and the checksums that fold once.
