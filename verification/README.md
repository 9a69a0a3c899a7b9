# Verified model of the ipshark packet queues and the nfstat counters

The repository holds three Linux netfilter modules. This project models the data structures and
protocols behind them in Dafny and proves what they are for.

* **The index-recycling packet queue of ipshark2.** Every CPU owns a range of slots in a shared area, a
  FIFO of idle indices and a FIFO of ready ones; a consumer is handed ready indices and recycles them
  later. `SlotArea` cuts the code into the small steps other parties can observe, down to the load and the
  store of an unlocked `++`. `SlotWorld` lets one put per CPU, a thread that fetches and a thread that
  recycles interleave these steps in any order and logs what happens. `SlotInvariant`, `SlotSteps`,
  `SlotConsumerSteps` and `SlotRuns` prove the invariant step by step. `SlotTheorems` states the guarantees
  over every run from any creation: ownership, delivery in order, no slot changed while held, no defensive
  branch taken. `SlotHandover` says what a fetch leaves in the index array while the others go on,
  `SlotCounters` what the global counters show although stores to them are overwritten (`SharedCounter`),
  `SlotMisuse` what happens when the consumer recycles what it was never handed, `SlotRaces` what two calls of
  the same kind do to each other. `SlotCalls`, `SlotMove`,
  `SlotRecycle` and `SlotEffects` say what a whole call does for any input, disciplined or not. `IpQueue` is the code itself,
  in place on its arrays; each method is proved equal to an uninterrupted run of the small steps.
* **The nfstat rules and counters.** `SearchTree` treats rebalancing as any change of shape that keeps
  the in-order sequence and says exactly when every shape of tree gives the answer of a linear scan.
  `NfsRule` proves that the wildcard comparison, which is not transitive, is a correct index when the
  rules of a protocol fix the same fields and the key is definite in them. `NfsCounter` does the same
  for addresses and for the per-CPU counters, `NfsHook` builds the key of a packet, `Nfstat` is the
  module with its two trees, where classifying a packet and accounting it are two events, and `NfsLedger`
  proves that over every history a counter read is exact. `NfsReader` cuts a read and the accountings beside
  it into steps and says what such a read returns; `NfsReadLedger` puts it into the histories.
  `NfsPackets` says in terms of packets and rules alone which packet moves which total.
* **The post-order walk over parent links** (`Postorder`) and its use to free a tree while walking it.
* **Two device-name sets**, sorted arrays (`DevArray`) and a chained hash table (`DevHash`), compared with
  a plain list and with each other.
* **The address printer** (`AddressText`), with a reader that undoes it, and its 40-byte buffer.
* **The older packet queue of ipshark**: its calls in place (`SharkQueue`), their small steps interleaved
  (`SharkWorld`), and its counters over every run (`SharkTheorems`).
* **The state machine of the ipshark device** (`DeviceState`).

`Lex` is the lexicographic comparison behind `memcmp`, `Words` the arithmetic of 32- and 64-bit counters,
`Packets` the packet record, `Collections` facts about sequences; `Wrappers` holds `Option`, `Errno` the
error codes.

Several properties one would expect do not hold of the code as it is. The model keeps the code, shows an
input, and proves exactly when the property holds:

| expected | exactly when | an input where it fails |
|---|---|---|
| recycling an INUSE index keeps every index in one place | the consumer holds the index (`SlotTheorems.FreeingIsSafeIffHeld`) | recycled before it is fetched, an index is idle and ready at once (`SlotMisuse.TwoHomes`), and its packet is lost to a later one (`SlotMisuse.FirstPacketLost`) |
| `queue_times - recycle_times` moves by the slots in use | once no put is about to count: no store of another CPU fell between a load of `queue_times` and its store (`SlotCounters.ExactIffUndisturbed`) | two puts at once, of which one is not counted (`SlotCounters.LosesOne`) |
| `queue_times - recycle_times` is the number of slots in use | what is unseen equals what creation found in the counters, modulo 2^64 (`SlotCounters.AbsoluteBalanceIff`) | a queue created again after one put (`SlotCounters.CreatedAgain`) |
| `put_pkts - get_pkts` is the number of packets waiting | once no call is counting: no store of another CPU fell between a load of `put_pkts` and its store (`SharkTheorems.ExactIffUndisturbed`) | two packets wait, `put_pkts - get_pkts` is 1 (`SharkTheorems.LosesOne`) |
| an INUSE index recycled by two threads comes back once | at no moment both have found it INUSE and neither has marked it (`SlotRaces.TwoRecyclesIff`) | they come to such a moment |
| a counter read returns a total the counters had at its start, or at its end | nothing is added to a cell before the read comes to it; nothing after it was there (`NfsReader.ReadIsATotalIff`) | a packet without its bytes (`NfsReader.ReadTearsAPacket`), a later packet without an earlier one (`NfsReader.ReadSkipsAPacket`) |
| `ip_queue_move2dma` fills the index array or empties the queues | `SlotMove.FullExactlyWhen` | 50, 50 and 20 ready entries: 100 of 120 are handed out (`SlotMove.NotAlwaysFull`) |
| a search tree finds what a linear scan finds | the probe is separated at the match (`SearchTree.EveryShapeFindsIff`) | an IN rule and an ALL rule of one protocol (`NfsRule.MixedMasksDependOnShape`) |
| an address just added is found | it is canonical (`NfsCounter.AddThenFindIff`) | 10.0.0.1 with a byte set beyond `len` (`NfsCounter.AddedNotFound`) |
| the hash-table and sorted-array device sets agree | with a colour: no two listed names share a hash of the arrays; with none: the list is empty (`DevHash.SetsAgreeIff`) | any value other than none, white and black (`DevHash.NoColourDisagrees`) |
| the sorted-array device set answers as the list | no two different listed names share a hash (`DevArray.RightOnAllIff`) | two such names: the search fails one of them (`DevArray.OneOfTwoIsWrong`) |
| printed text determines the address | length 4 or 6 and unused bytes zero (`AddressText.ReadUndoesPrintIff`) | any address printed as "ANY" |
| RUN means one thread is in `fetch_info` | no `set_namelist` fails while a fetch is inside (`DeviceState.FromTheStart`) | two threads in the static array (`DeviceState.TwoFetchersPossible`) |

Where the code and its comments or unit tests disagree the model follows the code: `struct nfs_ipaddr` has
20 bytes; the ipshark FIFO holds 16384 packets, although a unit test of `ipshark/ip_queue.c` expects it to
be full after 1024.

## Model

| member | source | states |
|---|---|---|
| `SlotRuns.StepIsSafe` | ipshark2/core/ip_queue.c:144-289 | any step of any put, of a fetching thread, or of a recycling thread that frees only INUSE indices the consumer holds keeps ownership, slot states, logs and counters consistent |
| `SlotRuns.RunIsSafe` | ipshark2/core/ip_queue.c:144-289 | the same over every interleaving of any length |
| `SlotRuns.StartIsSafe` | ipshark2/core/ip_queue.c:79-133 | a freshly created area satisfies the invariant, for any number of CPUs, any ranges and whatever the counters were |
| `SlotSteps.ProducerLocal` | ipshark2/core/ip_queue.c:244-282 | one step of a put keeps its CPU's invariant, touches no slot of another CPU, and takes no defensive branch |
| `SlotConsumerSteps.MoveLocal` | ipshark2/core/ip_queue.c:186-193 | handing out a prefix of a ready queue keeps the CPU's invariant and makes the consumer the holder with the packets the slots contain |
| `SlotConsumerSteps.FreeLocal` | ipshark2/core/ip_queue.c:159-163 | marking a held index USED moves it from held to being returned without disturbing any other place |
| `SlotConsumerSteps.ReturnLocal` | ipshark2/core/ip_queue.c:164-170 | the idle queue has room for the returned index, and putting it there completes the move |
| `SlotTheorems.Ownership` | ipshark2/core/ip_queue.c:86-113 | in every reachable state an index is in exactly one of idle, in flight, ready, held and being returned of its own CPU, in none of another, queued at most once, with the slot state of its side |
| `SlotTheorems.FreeingIsSafeIffHeld` | ipshark2/core/ip_queue.c:154-163 | marking an INUSE index USED keeps that ownership if and only if the consumer holds the index |
| `SlotTheorems.Delivery` | ipshark2/core/ip_queue.c:186-194 | in every reachable state the packets delivered on a CPU are a prefix of those accepted there, the ready slots hold the rest in order, and held slots still contain what was delivered |
| `SlotTheorems.HeldSlotsStayPut` | ipshark2/core/ip_queue.c:254-263 | no step of any party changes anything in a slot the consumer holds before and after it |
| `SlotTheorems.SlotStaysWhileHeld` | ipshark2/core/ip_queue.c:254-263 | over any run during which the consumer keeps an index its slot, contents, state and times, is unchanged |
| `SlotTheorems.NoDefensiveBranch` | ipshark2/core/ip_queue.c:164-167 | in every reachable state the two misuse counters are as creation found them, a fetched index is not INUSE, a filled index finds room in ready and a returned one in idle |
| `SlotTheorems.DropsOnlyWhenFull` | ipshark2/core/ip_queue.c:250-255 | a packet finds no idle index only when every slot of its CPU is ready, held or being returned |
| `SlotTheorems.StepDropsOnlyWhenFull` | ipshark2/core/ip_queue.c:250-255 | over every run, a step of any party drops a packet on a CPU only in such a state, and only one |
| `SlotHandover.FetchHandsOver` | ipshark2/core/ip_queue.c:179-195 | from a fetch to its end, whatever the producers and the recycling thread do meanwhile: the index array holds exactly the indices this fetch delivered, CPU by CPU in order, and each not recycled meanwhile is held and its slot still has the delivered packet |
| `SlotHandover.ArrayIsDelivered` | ipshark2/core/ip_queue.c:186-194 | in every reachable state, also in the middle of a fetch, the part of the index array written so far is what the logs say was delivered since the fetch began |
| `SharedCounter.NoneOverwrittenIff` | ipshark2/core/ip_queue.c:265-267 | no store of an unlocked counter is overwritten if and only if each was made from the value the store before it left |
| `SharedCounter.ShowsTrueLessOverwritten` | ipshark2/core/ip_queue.c:265-267 | such a counter shows its start plus the stores made, less the stores overwritten, in its own width |
| `SlotCounters.Conservation` | ipshark2/core/ip_queue.c:168-170 | over every run `queue_times - recycle_times` has grown since creation by the ready, held and returning slots, less the counts not stored yet and the stores overwritten, modulo 2^64 |
| `SlotCounters.ExactIff` | ipshark2/core/ip_queue.c:265-267 | it has grown by just those slots if and only if what is not stored yet and overwritten is a multiple of 2^64 |
| `SlotCounters.ExactIffUndisturbed` | ipshark2/core/ip_queue.c:265-267 | with no put about to count and fewer than 2^64 counted: exactly if no store of another CPU fell between any load and its store |
| `SlotCounters.LosesOne` | ipshark2/core/ip_queue.c:265-267 | for any area of two CPUs or more a run of two puts, one on each of two CPUs, that counts one of them only |
| `SlotCounters.AbsoluteBalanceIff` | ipshark2/core/ip_queue.c:23-32 | when the counters themselves, which no creation resets, balance: exactly if what is unseen makes up for what creation found |
| `SlotCounters.ShowsAtStartIff` | ipshark2/core/ip_queue.c:23-32 | right after a creation they balance exactly if it found them equal |
| `SlotCounters.CreatedAgain` | ipshark2/core/ip_queue.c:291-305 | after a creation, one put and a second creation, which leaves the counters as they are, they do not balance |
| `SlotCounters.MissesCounted` | ipshark2/core/ip_queue.c:250-254 | over every run `getfail` has grown by the packets dropped, less the counts not stored yet and the stores overwritten, modulo 2^32 |
| `SlotCounters.CountsOfCpu` | ipshark2/core/ips.h:60-64 | in every reachable state a slot's times is the number of packets accepted in it modulo 2^24, and every packet offered was accepted, dropped or is being put |
| `SlotMisuse.TwoHomes` | ipshark2/core/ip_queue.c:159-171 | from any creation a run of one put and a recycle of its index before any fetch, after which the index is both idle and ready |
| `SlotMisuse.FirstPacketLost` | ipshark2/core/ip_queue.c:159-171 | on a CPU of two slots two more puts follow: the slot first in the ready queue holds the third packet instead of the first |
| `SlotMisuse.RetriesAreBounded` | ipshark2/core/ip_queue.c:244-258 | whatever is recycled meanwhile, by whatever consumer, one put meets at most as many INUSE indices as idle held when it began, and one more if one was being returned |
| `SlotRaces.TwoRecyclesIff` | ipshark2/core/ip_queue.c:151-172 | of two recycles of the same INUSE index, interleaved in any way, with room in idle, the queue gets it once, or twice if and only if at some moment both had passed the check and neither had marked the slot |
| `SlotRaces.TwoFetchesLose` | ipshark2/core/ip_queue.c:179-195 | a run of two fetches that empties both ready queues and leaves one of the two indices out of the array |
| `SlotTheorems.CarefulIsDisciplined` | ipshark2/core/ip_queue.c:144-158 | a list checked once before the call, every index held and none twice, stays proper whatever the producers do meanwhile |
| `SlotTheorems.PledgeStays` | ipshark2/core/ip_queue.c:151-172 | the part of such a list not yet recycled remains held after every step of any party |
| `SlotTheorems.HeldStays` | ipshark2/core/ip_queue.c:159-163 | only marking an index USED takes it from the consumer, and only that index |
| `SlotCalls.PutIsARun` | ipshark2/core/ip_queue.c:229-289 | an uninterrupted put is one of the runs the theorems cover, with no effect on other parties |
| `SlotCalls.MoveIsARun` | ipshark2/core/ip_queue.c:179-195 | so is an uninterrupted move |
| `SlotCalls.RecycleIsARun` | ipshark2/core/ip_queue.c:144-177 | so is a recycle of any list, repeats and stale entries included; it keeps the consumer's side if its INUSE entries are held |
| `SlotCalls.PutStores` | ipshark2/core/ip_queue.c:250-282 | a put takes the oldest idle index, stores the packet with one more times, marks it INUSE and queues it last; with none idle it only counts the miss |
| `SlotEffects.PutDoes` | ipshark2/core/ip_queue.c:240-282 | for any area, disciplined or not: a put drops and counts the INUSE indices at the front of idle and takes the next; every field afterwards, the way back to idle when ready is full, the alarm with its two thresholds and the counters in their widths |
| `SlotRecycle.RecycleReturnsEachOnce` | ipshark2/core/ip_queue.c:151-176 | for any in-range list each distinct INUSE index goes to the idle queue of its one owner exactly once, although the list is zeroed while the scan runs; every other slot, ready queue, alarm, index array and counter stays, recycle_times grows by these indices and the invalid count by the other entries; and the list ends with zeroes at just their first places |
| `SlotEffects.EntryDoes` | ipshark2/core/ip_queue.c:151-172 | for any area and list: what one entry does to every field, whether it is stale, belongs to no CPU, is returned, or finds idle full and is lost |
| `SlotRecycle.CleanHasRoom` | ipshark2/core/ip_queue.c:98-105 | idle queues without repeats and without INUSE indices have room for whatever any list returns |
| `SlotMove.MoveHandsPrefixes` | ipshark2/core/ip_queue.c:179-195 | for any ready contents the index array ends up with prefixes of the ready queues in CPU order, never past 128, and exactly these prefixes leave the queues |
| `SlotMove.MoveCopies` | ipshark2/core/ip_queue.c:186-194 | how many indices are handed out depends on the lengths of the busy queues alone |
| `SlotMove.FullExactlyWhen` | ipshark2/core/ip_queue.c:189-192 | the number handed out is the most possible if and only if at most two CPUs are busy, the first two fill the array, or the shrinking budget covers the demand |
| `SlotMove.ThreeBusyMove` | ipshark2/core/ip_queue.c:186-194 | with three busy CPUs of x, y and z entries: how many are handed out, in numbers |
| `SlotMove.SomethingMoves` | ipshark2/core/ip_queue.c:186-194 | something is handed out if and only if something is ready |
| `SlotMove.NotAlwaysFull` | ipshark2/core/ip_queue.c:189-192 | with ready queues of 50, 50 and 20 a move hands out 100 although 120 would fit |
| `IpQueue.PacketQueue.Create` | ipshark2/core/ip_queue.c:67-143 | creation succeeds if and only if every size suits kfifo and the unbounded sum fits 16 bits; every CPU then gets as many slots as the first entry naming it says, or the default, the shares lie side by side from slot 0 to the last, every idle queue holds its share in order, and the size returned is 260 bytes and 76 for each slot |
| `IpQueue.PacketQueue.NewQueues` | ipshark2/core/ip_queue.c:79-114 | the result code for any sizes, against the unbounded sums, despite 16-bit arithmetic |
| `IpQueue.TooManyIff` | ipshark2/core/ip_queue.c:88-95 | with acceptable sizes the refusal with -EINVAL happens if and only if the unbounded sum exceeds 65535 |
| `IpQueue.NewRanges` | ipshark2/core/ip_queue.c:86-113 | the ranges creation makes are non-empty, ascending, disjoint, cover every slot and fit their FIFOs |
| `IpQueue.GetSize` | ipshark2/core/ip_queue.c:50-61 | the size of the first entry naming the CPU, else the default |
| `IpQueue.SizeIsFirstNamed` | ipshark2/core/ip_queue.c:50-61 | for any list: if entry i names the CPU and no earlier one does the size is that of entry i; if none does it is the default |
| `IpQueue.SizesOkIff` | ipshark2/core/ip_queue.c:102-105 | every size suits kfifo exactly if the first entry of every CPU, or the default where it has none, is at least 2 |
| `IpQueue.NewCap` | ipshark2/core/ip_queue.c:102-105 | both FIFOs of a CPU have room for the least power of two that covers its share |
| `IpQueue.PacketQueue.FetchIdle` | ipshark2/core/ip_queue.c:244-258 | with no discipline assumed the retry loop of an uninterrupted put ends, with an index that is not INUSE or with idle empty |
| `IpQueue.PacketQueue.Put` | ipshark2/core/ip_queue.c:229-289 | the in-place put does what the small steps of a put do, run to the end |
| `IpQueue.PacketQueue.Move2Dma` | ipshark2/core/ip_queue.c:179-195 | the in-place move does what the small steps do; the budget is positive and within the array at every kfifo_out |
| `IpQueue.PacketQueue.RecycleOne` | ipshark2/core/ip_queue.c:159-172 | the scan over all CPUs acts at exactly one of them, although it compares the zeroed entry from there on |
| `IpQueue.PacketQueue.Recycle` | ipshark2/core/ip_queue.c:144-177 | the in-place recycle does what the small steps do, the caller's list included |
| `SearchTree.SearchIsScan` | nfstat/ip_rule.c:180-193 | on a separated sequence the descent finds what a linear scan finds, in a tree of any shape |
| `SearchTree.EveryShapeFindsIff` | nfstat/ip_rule.c:180-193 | every shape of tree agrees with the linear scan if and only if nothing matches or the probe is separated at the one match |
| `SearchTree.InsertInOrder` | nfstat/ip_rule.c:230-246 | an insertion fails exactly on a match and else adds one entry at the one place the comparison allows |
| `SearchTree.MatchInOrder` | nfstat/ip_rule.c:257-263 | erasing or replacing the entry found changes that place of the in-order sequence and no other |
| `SearchTree.DescentDecides` | nfstat/ip_rule.c:230-246 | what a step-by-step descent ends at determines search, insertion, erasure and replacement |
| `NfsRule.ZeroIsCompatible` | nfstat/ip_rule.c:102-162 | the comparison gives 0 if and only if the protocols agree and every other field is equal or open on one side; exchanging the sides negates it |
| `NfsRule.FirstFieldDecides` | nfstat/ip_rule.c:127-162 | of protocol, direction, local port, remote port, local address and remote address the first that does not match decides, whatever the others |
| `NfsRule.FirstAddrByteDecides` | nfstat/ip_rule.c:113-126 | two addresses compare by length, then by the first byte that differs within it |
| `NfsRule.CmpIsKeyCmp` | nfstat/ip_rule.c:127-162 | where two rules fix the same fields the wildcard comparison is a byte comparison of 38-number keys |
| `NfsRule.SearchFindsCompatible` | nfstat/ip_rule.c:164-199 | with one mask per protocol and a key definite in it, any tree finds a compatible rule if there is one, and there is at most one |
| `NfsRule.AddKeepsSearchable` | nfstat/ip_rule.c:214-249 | adding a rule with its protocol's mask fails exactly if a compatible rule is present, and else keeps the rules searchable with just that rule more |
| `NfsRule.RemoveKeepsSearchable` | nfstat/ip_rule.c:251-270 | removing takes exactly the compatible rule and keeps the rest searchable |
| `NfsRule.MixedMasksDependOnShape` | nfstat/ip_rule.c:138-147 | two trees over the same two rules of different masks, of which only one finds the rule |
| `NfsRule.NotTransitive` | nfstat/ip_rule.c:127-162 | three rules each below the next, around in a circle |
| `NfsCounter.FindsPresent` | nfstat/ip_counter.c:144-167 | in a tree of any shape the search finds exactly the addresses present, each its own entry |
| `NfsCounter.InsertKeepsOrderIff` | nfstat/ip_counter.c:186-210 | an insertion that compares one address and stores another keeps the tree ordered if and only if no entry tells the two apart |
| `NfsCounter.CanonKeepsUsed` | nfstat/ip_counter.c:186-189 | what an insertion stores has the length given, zero padding, the bytes given up to the length and zeroes beyond |
| `NfsCounter.CanonicalIff` | nfstat/ip_counter.c:186-189 | that is the address itself exactly if its padding and the bytes past its length are zero |
| `NfsCounter.FirstByteDecides` | nfstat/ip_counter.c:144-167 | two addresses compare by the first byte that differs in length, padding and address |
| `NfsCounter.AddThenFindIff` | nfstat/ip_counter.c:186-189 | an address just added, stored with its used bytes only, is found again if and only if its padding and every byte past its length are zero |
| `NfsCounter.AddedNotFound` | nfstat/ip_counter.c:186-189 | a concrete address that is added to an empty tree and then not found |
| `NfsCounter.BumpAddsToSum` | nfstat/ip_counter.c:263-265 | whichever CPU counts a packet, the sum of its type over the CPUs grows by it in 64 bits and no other sum moves |
| `NfsHook.RuleMeans` | nfstat/nfs_hook.c:60-117 | a packet matches a rule if and only if it has the rule's protocol and direction and both of its ends, each address with its own port, meet the rule's local and remote side |
| `NfsHook.KeyedIff` | nfstat/nfs_hook.c:54-110 | a packet is looked up if and only if it is IPv4 and, for protocols 6, 17, 132, 1 and 2, has a transport header |
| `NfsHook.KeyIs` | nfstat/nfs_hook.c:56-113 | every field of the key: protocol, direction, the four bytes of each side followed by zeroes, and the ports by direction |
| `NfsHook.FillKey` | nfstat/nfs_hook.c:54-113 | the record filled field by field is the key of the packet; the packet passes uncounted exactly if it is not IPv4 or lacks the header its protocol needs |
| `Nfstat.NfStat.FindNfsRule` | nfstat/ip_rule.c:164-199 | the loop over nodes ends at the node the descent of the specification ends at |
| `Nfstat.NfStat.GetTypeIdx` | nfstat/ip_rule.c:200-212 | the type of the rule found, or -1 |
| `Nfstat.NfStat.AddNfsRule` | nfstat/ip_rule.c:214-249 | the tree after it holds what the event gives, in whatever shape recolouring leaves it |
| `Nfstat.NfStat.RmvNfsRule` | nfstat/ip_rule.c:251-270 | the same for a removal, false without a match |
| `Nfstat.NfStat.FindIpEntry` | nfstat/ip_counter.c:144-167 | the same loop over the address tree, with its reversed comparison |
| `Nfstat.NfStat.AddIpEntry` | nfstat/ip_counter.c:170-213 | refuses length 0 and a present address, else adds an entry with the used bytes of the address and a zero cell for every type on every CPU, and counts it |
| `Nfstat.NfStat.RmvIpEntry` | nfstat/ip_counter.c:214-235 | removes the entry found and counts it, false if absent |
| `Nfstat.NfStat.IncCounter` | nfstat/ip_counter.c:237-272 | one cell of one CPU of the one entry changes; an address not counted changes nothing |
| `Nfstat.NfStat.HookFn` | nfstat/nfs_hook.c:39-124 | a packet is classified by the rule it matches, then counted for its local address under that rule's type, if both exist |
| `Nfstat.NfStat.GetCounterPerIp` | nfstat/ip_counter.c:276-323 | the double loop, uninterrupted, sums every type over every CPU in 64 bits; too small a buffer or an unknown address gives nothing |
| `NfsLedger.NextAgrees` | nfstat/ip_counter.c:144-272 | any event under the stated conditions, classifying and accounting a packet each being one, has the same effect and the same success on the trees, in any shape, as on a plain set of rules and a plain map of totals |
| `NfsLedger.HistoryAgrees` | nfstat/ip_counter.c:144-235 | over every history the address tree is ordered and holds exactly the map's addresses, ipnumber is its size, the rules are those of the set, and every sum is the total modulo 2^64 |
| `NfsLedger.ReadIsExact` | nfstat/ip_counter.c:276-323 | an uninterrupted read succeeds exactly for the addresses of the map and gives its totals modulo 2^64 |
| `NfsLedger.TotalsAreCredits` | nfstat/nfs_hook.c:118-121 | the total of a type is the sum over the packets accounted since the address was last added that met a rule of the type when they were classified, whichever CPU took them and whatever became of the rules since |
| `NfsLedger.OneType` | nfstat/nfs_hook.c:118-121 | in every state of a history a packet between the two locks has exactly one type, in range: all rules it met agree |
| `NfsLedger.EachPacketOnce` | nfstat/nfs_hook.c:118-121 | over every history the credits of an address summed over the types are its packets and their bytes, each packet once |
| `NfsPackets.PacketCounts` | nfstat/nfs_hook.c:39-124 | in any state that agrees with its ledger, the hook moves what a read shows of a type of an address by the packet if the packet has the header its protocol needs, the address is its local one and a rule of the type asks for its protocol, direction and both ends; and moves nothing else |
| `NfsLedger.CountersAreExact` | nfstat/ip_counter.c:237-323 | end to end: after any such history an uninterrupted read gives per type the exact packets and bytes since the address was added, modulo 2^64 |
| `NfsReader.ReadSees` | nfstat/ip_counter.c:298-319 | whatever is accounted while a read runs, each number and each byte total returned is the total at its start and just what was added to cells before the read came to them, modulo 2^64 |
| `NfsReader.ReadIsATotalIff` | nfstat/ip_counter.c:298-319 | it is the total at the start of the read if and only if nothing was added ahead of it, and the total at its end if and only if nothing was added behind it, up to multiples of 2^64 |
| `NfsReader.ReadIsTotals` | nfstat/ip_counter.c:308-318 | the steps of a read with nothing in between return what the double loop does |
| `NfsReader.ReadTearsAPacket` | nfstat/ip_counter.c:263-265 | a run whose read returns one packet of no bytes |
| `NfsReader.ReadSkipsAPacket` | nfstat/ip_counter.c:311-315 | a run whose read returns a later packet without an earlier one |
| `NfsReadLedger.RunRefines` | nfstat/ip_counter.c:248-271 | accountings cut into steps, interleaved over CPUs and with a read, leave the cells that whole accountings in the order they began leave |
| `NfsReadLedger.ReadIsBetweenCredits` | nfstat/ip_counter.c:276-323 | in any such history each total of a read that accountings interrupt lies between the credits at its start and those at its end, modulo 2^64, less the bytes of accountings half done |
| `NfsReadLedger.QuietReadIsExact` | nfstat/ip_counter.c:276-323 | with no accounting of the address under way or begun while it runs, such a read gives the exact credits |
| `Postorder.Successor` | nfstat/internal.h:69-78 | in any tree every node but the last has its post-order successor where the code looks: the parent, or the first node of the right sibling's subtree |
| `Postorder.ChildrenFirst` | nfstat/internal.h:85-89 | every node below a node comes before it in the sequence |
| `Postorder.LeftFirst` | nfstat/internal.h:85-89 | every node to the left of a node comes before every node to its right |
| `Postorder.LinksArePostOrder` | nfstat/internal.h:51-89 | the fields of the nodes, listed in walking order, name the post-order sequence, the top last |
| `Postorder.LeftMost` | nfstat/internal.h:51-68 | the cursor loop ends at the first node of the post-order sequence |
| `Postorder.NextNode` | nfstat/internal.h:69-78 | from the i-th node the next one, null after the last, reading no node before the i-th |
| `Postorder.FreeOne` | nfstat/ip_counter.c:333-335 | freeing a node after its successor was found leaves all later nodes readable |
| `Postorder.FreeAll` | nfstat/ip_counter.c:326-337 | the safe loop visits the post-order sequence and frees every node of any tree once, never reading a freed one |
| `DevArray.ProbeFinds` | ipshark2/core/devset.c:93-117 | on ascending hashes the early-exit search answers -1 exactly if the hash is absent, else a place that has it |
| `DevArray.AnswersRight` | ipshark2/core/devset.c:83-127 | an unlisted name, or a listed one whose hash no other listed name shares, is answered as the list answers |
| `DevArray.RightOnAllIff` | ipshark2/core/devset.c:83-127 | every name is answered as the list answers if and only if no two different listed names share a hash |
| `DevArray.OneOfTwoIsWrong` | ipshark2/core/devset.c:119-125 | of two listed names with one hash one is answered wrongly |
| `DevArray.OneIsRight` | ipshark2/core/devset.c:119-125 | some listed name is answered as listed, whatever the hashes |
| `DevArray.DevSet.Create` | ipshark2/core/devset.c:19-39 | accepts exactly a count of at least 0 and a positive record size |
| `DevArray.DevSet.Smallest` | ipshark2/core/devset.c:60-65 | the first place from i on with the least hash |
| `DevArray.DevSet.Order` | ipshark2/core/devset.c:41-82 | afterwards the hashes ascend, the names are a permutation of the given ones and each still has its own hash beside it |
| `DevArray.DevSet.Find` | ipshark2/core/devset.c:93-117 | the loop ends where the specified search ends, on any arrays |
| `DevArray.DevSet.Ignore` | ipshark2/core/devset.c:83-127 | the answer on ordered arrays, and on an empty or absent list |
| `DevHash.LookupIsHolds` | ipshark/devset.c:43-55 | looking through one chain decides whether the whole table holds a name |
| `DevHash.TableIsList` | ipshark/devset.c:99-112 | the chained table answers every name as a plain list does, collisions or not; with no colour set it ignores all, with any other value none |
| `DevHash.SetsAgreeIff` | ipshark/devset.c:57-112 | the two sets agree on every name, white or black, if and only if the arrays' hash tells the listed names apart; with no colour set, if and only if the list is empty; with any other value never |
| `DevHash.DevSet.AddName` | ipshark/devset.c:76-93 | the table holds just that name more, in the chain its hash says, and never twice |
| `DevHash.DevSet.Add` | ipshark/devset.c:57-96 | every refusal with its code changes nothing; an accepted list becomes exactly the contents |
| `DevHash.DevSet.Ignore` | ipshark/devset.c:99-112 | the answer in the white, black and unset cases |
| `AddressText.ReadUndoesPrintIff` | nfstat/nfs.h:48-83 | reading the printed text gives back the address if and only if it is IPv4 or IPv6 with unused bytes zero, for either byte order |
| `AddressText.FitsBuffer` | nfstat/nfs.h:47-83 | text and terminator never exceed 40 bytes, and an IPv6 address without zero groups needs all 40 |
| `AddressText.TextIs` | nfstat/nfs.h:48-83 | the whole text in each case: four decimal numbers with points; groups with the first run of zero groups replaced by "::" and every other group printed, later zero groups included; or ANY |
| `AddressText.DecIs` | nfstat/nfs.h:56-59 | a byte in decimal has only digits, no leading zero, and the value it denotes |
| `AddressText.HexOfBytes` | nfstat/nfs.h:71 | a group is two bytes of two lower-case hexadecimal digits, the more significant byte first |
| `AddressText.ReadBefore` | nfstat/nfs.h:61-76 | from any group on, the text of the zero-run machine reads back as the groups |
| `AddressText.Read4Back` | nfstat/nfs.h:56-59 | four decimal bytes read back |
| `AddressText.Print6Into` | nfstat/nfs.h:61-77 | the loop with its cursor and `first` writes the specified text and terminates it inside the buffer |
| `AddressText.Ip2Str` | nfstat/nfs.h:48-83 | the printer writes the specified text in each of its three cases |
| `SharkQueue.GetTakesFront` | ipshark/ip_queue.c:138-145 | a get takes the front of all packets in CPU order, as many as asked and present, and leaves the rest in order |
| `SharkQueue.ShareAndRest` | ipshark/ip_queue.c:138-144 | what a CPU gives is a prefix of its FIFO |
| `SharkQueue.SharesAreFront` | ipshark/ip_queue.c:138-145 | what the CPUs give, put together, is the front of all packets, as many as asked and present |
| `SharkWorld.TakenIsGotThenWaits` | ipshark/ip_queue.c:47-148 | over every interleaving of puts and gets, packets got from a CPU followed by its FIFO are those taken there, in order, and every try was taken, dropped or is being made |
| `SharkWorld.ReturnedIsGiven` | ipshark/ip_queue.c:126-148 | over every interleaving, what a get returned, or has copied so far, is what the CPUs gave since it began, CPU by CPU, each in order |
| `SharkTheorems.PutLessGotWaits` | ipshark/ip_queue.c:57-62 | over every run `put_pkts - get_pkts` is what waits and what a get under way has copied, less the counts not stored yet and the stores overwritten, modulo 2^64 |
| `SharkTheorems.TriesAreCounted` | ipshark/ip_queue.c:57-62 | `put_pkts` and `un_queued_pkts` together are the packets tried, less those under way and the stores overwritten |
| `SharkTheorems.DropsOnlyWhenFull` | ipshark/ip_queue.c:57-62 | in every reachable state a packet is taken if fewer than 16384 wait on its CPU and dropped if 16384 do; no other step takes or drops one |
| `SharkTheorems.ExactIffUndisturbed` | ipshark/ip_queue.c:61 | with no call counting and fewer than 2^64 puts: `put_pkts - get_pkts` is what waits exactly if no store of another CPU fell between a load and its store |
| `SharkTheorems.LosesOne` | ipshark/ip_queue.c:61 | a run after which two packets wait, no call is under way in the counters, and `put_pkts - get_pkts` is 1 |
| `SharkTheorems.PutIsARun` | ipshark/ip_queue.c:47-82 | an uninterrupted put is one of these runs and does what the put on whole queues says |
| `SharkTheorems.GetIsARun` | ipshark/ip_queue.c:126-148 | so is an uninterrupted get, the packets returned included |
| `SharkQueue.PacketQueue.Put` | ipshark/ip_queue.c:47-82 | with fewer than 16384 packets waiting the put returns 1 and appends the packet, with 16384 it returns 0 and leaves them; the alarm is raised above 13107 and cleared below 9830 |
| `SharkQueue.PacketQueue.Len` | ipshark/ip_queue.c:105-116 | all packets waiting; 1 without queues |
| `SharkQueue.PacketQueue.Get` | ipshark/ip_queue.c:126-148 | the loop over CPUs copies exactly what the specification takes, in order, into the caller's array |
| `DeviceState.StateVar.Cas` | ipshark/core.c:16-28 | the atomic compare-and-set with its error code |
| `DeviceState.StepExclusiveIff` | ipshark/core.c:65-149 | a call keeps "RUN exactly when one thread is inside" if and only if it is not a failing set_namelist while a fetch is inside |
| `DeviceState.ExclusiveIffUndisturbed` | ipshark/core.c:65-149 | the same over every interleaving of calls of any number of threads |
| `DeviceState.FromTheStart` | ipshark/core.c:10-35 | so it holds from the closed device on |
| `DeviceState.PhaseDecides` | ipshark/core.c:35-150 | in every undisturbed run from the closed device the calls made decide every answer: an open is accepted only when closed, set_namelist only when open without names, a fetch only with names set and nobody inside; every other gets -22 |
| `DeviceState.FetchEntersIff` | ipshark/core.c:97-150 | from the end of a successful set_namelist up to a release, whatever is called in between, a fetch enters if and only if no thread is inside |
| `DeviceState.OnlyAnOpenAfterRelease` | ipshark/core.c:54-63 | after a release every call but an open is refused and changes nothing, and an open is accepted |
| `DeviceState.OnlyTheCallerMoves` | ipshark/core.c:16-35 | a call moves its own thread only, and not if it is refused |
| `DeviceState.TwoFetchersPossible` | ipshark/core.c:97-101 | a run that ends with two threads in the static array |

## Left out

- kfifo, per-CPU memory, red-black recolouring, jhash, wait queues: external to the repository. A kfifo is a bounded sequence whose capacity is the next power of two, per-CPU data an array indexed by CPU, recolouring any function that keeps the in-order sequence, jhash any function of the name, wake-ups do not occur.
- Allocation failure: only the ways creation itself refuses its arguments are modelled.
- IpQueue.PacketQueue.Create: the `wait_ms` clamp and the contents of the index array after the poison fill are not modelled.
- IpQueue.PacketQueue.Put: `puttimes`, which only steers wake-ups, is not modelled.
- IpQueue.PacketQueue.Recycle: indices are in range and the list is not the index array of the area itself, as its caller passes a private copy; an index past the last slot reads outside the area in the code. The caller also passes the count it was given without a check (ipshark2/core/core.c:78-85), so the code can read past its copy of the list; here the count is at most the length of the list.
- IpQueue.PacketQueue.Move2Dma: a fetch or a recycle before creation reads a null area in the code; here both need a created one.
- SlotRuns.RunIsSafe: one thread fetches and one recycles, at the same time if they like. A kfifo, which is not part of this model, promises its order for one reader and one writer; two fetches at once are two readers of a ready queue, two recycles two writers of an idle queue, so nothing holds of whole runs with them. What goes wrong already with FIFO operations taken whole is in `SlotRaces`. Memory is sequentially consistent, and a slot's record is written in one step.
- SlotRuns.StepIsSafe: the same.
- SlotMisuse.RetriesAreBounded: with one recycling thread; each further one could return one index more. `get_invalid_idx_times`, which only such misuse moves, is incremented in one step.
- SharkWorld.TakenIsGotThenWaits: one thread gets at a time, as the device state intends; exactly when it is so is `DeviceState.FromTheStart`.
- Nfstat.NfStat.AddNfsRule: the trees are values in this class, so parent pointers and the identity of entries are not captured; the walk over real links is in `Postorder`.
- Nfstat.NfStat.HookFn: IPv4 only. `hookfn6` sets length 6 for 16-byte addresses, so rules compare 6 bytes and stored keys are cut off while lookups compare the whole structure. Type indices are below `maxtype`, which the code does not check.
- Nfstat.NfStat.AddIpEntry: a length is at most 16, the bytes of the address; the code accepts up to 255 and copies past the array (nfstat/ip_counter.c:188-189). The same holds for NfsCounter.AddThenFindIff and every other member on addresses.
- NfsCounter.AddThenFindIff: lengths up to 16 only, as above.
- Nfstat.NfStat.GetCounterPerIp: uninterrupted; accountings between its steps are in `NfsReader`. Bytes of the user's buffer beyond the totals, which the code zeroes, and the copy to user space are not modelled.
- NfsReader.ReadSees: the reading of a 64-bit word is one step.
- Nfstat.NfStat.constructor: `maxtype` is set once before use; a later `NFS_CMD_INIT` that grows it past the cells of existing entries is not modelled.
- Postorder.FreeAll: the tree root that `clear_iptree` and `clear_nfsrule` leave pointing at freed nodes.
- DevArray.DevSet.Order: names are shorter than their records, as `strlen` on a record demands; a negative size cannot reach it.
- DevHash.DevSet.Add: names are shorter than 16 bytes, as `strlen` on a name demands.
- AddressText.ReadUndoesPrintIff: the reader follows the printer; section 2.2 of RFC 4291 does not allow three colons in a row, which the printer produces when a zero run follows a printed group.
- DeviceState.FromTheStart: release happens when no call on the device is inside, as the kernel guarantees for one open file.
- Character devices, /proc output, memory mapping, ioctl argument checks, user-space programs, load scripts: no visible semantics beyond what is modelled.
- `nfs_port2str`, `nfs_dir2str`, `devset_show`: they would add only easy members.
